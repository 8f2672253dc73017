/** The one-shot execution protocol of a training member, for any number of
    interleaved and crashing runner processes on one file system:
    reports/research/evidence/structured_vol_v5_replicate_training_runner.py and
    its second instance src/neuralmarket/research/wgan_runner.py. */
module OneShot {
  import opened Common

  /** The replicate runner refuses when a directory exists and looks for the marker
      again before writing; the WGAN runner goes straight to write and link. */
  datatype Variant = Replicate | Wgan

  type Proc = nat
  type Pid = nat
  type Inode = nat

  /** A marker payload names its writer; a file being written is torn. */
  datatype Content = Torn | Whole(writer: Proc)

  /** Where a process stands in main; Idle means main has returned. */
  datatype Pc =
    | Idle | Ready | Looked | Passed | DirMade | Clear | Writing | Written | Linked | Refusing | Published | Training
    | Exited | Dead

  datatype Process = Process(pid: Pid, pc: Pc, invocations: nat)

  /** Paths are resolved to inodes: a hard link shares the inode of the temporary
      file. owner and started are history: who linked, and who began to train. */
  datatype State = State(
    reportDir: bool,
    modelDir: bool,
    marker: Option<Inode>,
    temps: map<Pid, Inode>,
    inodes: seq<Content>,
    procs: map<Proc, Process>,
    owner: Option<Proc>,
    started: seq<Proc>)

  datatype Action =
    | Spawn(p: Proc, pid: Pid)
    | Call(p: Proc)
    | CheckAbsent(p: Proc)
    | Preflight(p: Proc, ok: bool)
    | MakeDir(p: Proc)
    | CheckMarker(p: Proc)
    | BeginWrite(p: Proc)
    | EndWrite(p: Proc)
    | WriteFails(p: Proc)
    | Link(p: Proc)
    | LinkFails(p: Proc)
    | Unlink(p: Proc)
    | UnlinkFails(p: Proc)
    | Train(p: Proc)
    | MakeModelDir(p: Proc)
    | Return(p: Proc)
    | Exit(p: Proc)
    | Crash(p: Proc)

  predicate Live(q: Process) {
    q.pc != Exited && q.pc != Dead
  }

  predicate At(s: State, p: Proc, pc: Pc) {
    p in s.procs && s.procs[p].pc == pc
  }

  function Goto(s: State, p: Proc, pc: Pc): State
    requires p in s.procs
  {
    s.(procs := s.procs[p := s.procs[p].(pc := pc)])
  }

  predicate Enabled(v: Variant, s: State, a: Action) {
    match a
    case Spawn(p, pid) => p !in s.procs && forall q :: q in s.procs && Live(s.procs[q]) ==> s.procs[q].pid != pid
    case Call(p) => At(s, p, Idle)
    case CheckAbsent(p) => v == Replicate && At(s, p, Ready)
    case Preflight(p, ok) => At(s, p, if v == Replicate then Looked else Ready)
    case MakeDir(p) => At(s, p, Passed)
    case CheckMarker(p) => v == Replicate && At(s, p, DirMade)
    case BeginWrite(p) => At(s, p, Clear)
    case EndWrite(p) => At(s, p, Writing) && s.procs[p].pid in s.temps && s.temps[s.procs[p].pid] < |s.inodes|
    case WriteFails(p) => At(s, p, Writing)
    case Link(p) => At(s, p, Written) && s.procs[p].pid in s.temps
    case LinkFails(p) => At(s, p, Written)
    case Unlink(p) => At(s, p, Linked) || At(s, p, Refusing)
    case UnlinkFails(p) => At(s, p, Linked) || At(s, p, Refusing)
    case Train(p) => At(s, p, Published)
    case MakeModelDir(p) => At(s, p, Training)
    case Return(p) => At(s, p, Training)
    case Exit(p) => At(s, p, Idle)
    case Crash(p) => p in s.procs && Live(s.procs[p])
  }

  function Apply(v: Variant, s: State, a: Action): State
    requires Enabled(v, s, a)
  {
    match a
    case Spawn(p, pid) => s.(procs := s.procs[p := Process(pid, Ready, 0)])
    case Call(p) => Goto(s, p, Ready)
    // refuses if either directory or the marker is there
    case CheckAbsent(p) =>
      Goto(s, p, if s.reportDir || s.modelDir || s.marker.Some? then Idle else Looked)
    // dry run, authorization, device and runtime identity checks
    case Preflight(p, ok) => Goto(s, p, if ok then Passed else Idle)
    // creates the report directory unless it is there
    case MakeDir(p) => Goto(s, p, if v == Replicate then DirMade else Clear).(reportDir := true)
    case CheckMarker(p) => Goto(s, p, if s.marker.Some? then Idle else Clear)
    // opening the temporary path truncates the file behind it, or creates one
    case BeginWrite(p) =>
      var pid := s.procs[p].pid;
      var t := Goto(s, p, Writing);
      if pid in s.temps && s.temps[pid] < |s.inodes|
      then t.(inodes := s.inodes[s.temps[pid] := Torn])
      else t.(inodes := s.inodes + [Torn], temps := s.temps[pid := |s.inodes|])
    case EndWrite(p) =>
      Goto(s, p, Written).(inodes := s.inodes[s.temps[s.procs[p].pid] := Whole(p)])
    // the replicate runner writes inside its try block, the WGAN runner before it
    case WriteFails(p) => Goto(s, p, if v == Replicate then Refusing else Idle)
    case Link(p) =>
      if s.marker.Some? then Goto(s, p, Refusing)
      else Goto(s, p, Linked).(marker := Some(s.temps[s.procs[p].pid]), owner := Some(p))
    case LinkFails(p) => Goto(s, p, Refusing)
    case Unlink(p) =>
      Goto(s, p, if s.procs[p].pc == Linked then Published else Idle).(temps := s.temps - {s.procs[p].pid})
    case UnlinkFails(p) => Goto(s, p, Idle)
    // a counter of the process keeps the replicate runner from training twice
    case Train(p) =>
      if v == Replicate && s.procs[p].invocations >= 1 then Goto(s, p, Idle)
      else
        s.(procs := s.procs[p := Process(s.procs[p].pid, Training, s.procs[p].invocations + 1)],
           started := s.started + [p])
    case MakeModelDir(p) => s.(modelDir := true)
    case Return(p) => Goto(s, p, Idle)
    case Exit(p) => Goto(s, p, Exited)
    case Crash(p) => Goto(s, p, Dead)
  }

  const EMPTY: State := State(false, false, None, map[], [], map[], None, [])

  ghost predicate Next(v: Variant, s: State, s': State) {
    exists a :: Enabled(v, s, a) && s' == Apply(v, s, a)
  }

  ghost predicate Run(v: Variant, trace: seq<State>) {
    && |trace| >= 1 && trace[0] == EMPTY
    && forall k :: 1 <= k < |trace| ==> Next(v, trace[k - 1], trace[k])
  }

  // ----- the invariant -----

  predicate HoldsTemp(pc: Pc) {
    pc == Writing || pc == Written || pc == Linked || pc == Refusing
  }

  predicate Owning(pc: Pc) {
    pc == Linked || pc == Published || pc == Training
  }

  predicate AboutToWrite(pc: Pc) {
    pc == Clear || pc == Writing || pc == Written
  }

  /** Some leftover temporary path still names the marker's file. */
  predicate Exposed(s: State) {
    s.marker.Some? && exists pid :: pid in s.temps && s.temps[pid] == s.marker.value
  }

  predicate MarkerWhole(s: State) {
    s.marker.Some? && s.owner.Some? && s.marker.value < |s.inodes| && s.inodes[s.marker.value] == Whole(s.owner.value)
  }

  ghost predicate PidsUnique(s: State) {
    forall p, q :: p in s.procs && q in s.procs && p != q && Live(s.procs[p]) && Live(s.procs[q]) ==>
      s.procs[p].pid != s.procs[q].pid
  }

  ghost predicate TempsSound(s: State) {
    && (forall pid :: pid in s.temps ==> s.temps[pid] < |s.inodes|)
    && (forall i, j :: i in s.temps && j in s.temps && i != j ==> s.temps[i] != s.temps[j])
    && (forall p :: p in s.procs ==> TempOf(s, p))
  }

  /** A process between its write and its unlink has a temporary file, complete once written. */
  ghost predicate TempOf(s: State, p: Proc)
    requires p in s.procs
  {
    var q := s.procs[p];
    && (HoldsTemp(q.pc) ==> q.pid in s.temps)
    && (q.pid in s.temps && s.temps[q.pid] < |s.inodes| ==>
          && (q.pc == Writing ==> s.inodes[s.temps[q.pid]] == Torn)
          && (q.pc == Written ==> s.inodes[s.temps[q.pid]] == Whole(p)))
  }

  predicate Passing(pc: Pc) {
    pc == DirMade || AboutToWrite(pc) || pc == Refusing || Owning(pc)
  }

  ghost predicate OwnerSound(s: State) {
    && (s.marker.Some? <==> s.owner.Some?)
    && (s.marker.Some? ==> s.marker.value < |s.inodes| && s.owner.value in s.procs && s.reportDir)
    && (s.started == [] || (s.owner.Some? && s.started == [s.owner.value]))
    && (forall p :: p in s.procs ==> OwnerOf(s, p))
  }

  /** Only the linker goes on, it starts training at most once, and nobody gets
      past mkdir without the report directory existing. */
  ghost predicate OwnerOf(s: State, p: Proc)
    requires p in s.procs
  {
    var pc := s.procs[p].pc;
    && (Owning(pc) ==> s.owner == Some(p))
    && (pc == Linked || pc == Published ==> s.started == [])
    && (Passing(pc) ==> s.reportDir)
  }

  /** The marker is complete and no temporary path names its file. */
  predicate Sealed(s: State) {
    !Exposed(s) && MarkerWhole(s)
  }

  ghost predicate MarkerSound(v: Variant, s: State) {
    && (s.started != [] ==> Sealed(s))
    && (forall p :: p in s.procs ==> MarkerOf(s, p))
    && (v == Replicate && s.marker.Some? ==> MarkerWhole(s) && NoWriterAtMarker(s))
  }

  /** Just after its link the owner's temporary path is the marker's other name;
      it removes that path before it goes on. */
  ghost predicate MarkerOf(s: State, p: Proc)
    requires p in s.procs
  {
    var q := s.procs[p];
    && (q.pc == Published || q.pc == Training ==> Sealed(s))
    && (q.pc == Linked && s.marker.Some? ==>
          q.pid in s.temps && s.temps[q.pid] == s.marker.value && MarkerWhole(s))
  }

  ghost predicate NoWriterAtMarker(s: State)
    requires s.marker.Some?
  {
    forall p :: p in s.procs && AboutToWrite(s.procs[p].pc) && s.procs[p].pid in s.temps ==>
      s.temps[s.procs[p].pid] != s.marker.value
  }

  ghost predicate Inv(v: Variant, s: State) {
    PidsUnique(s) && TempsSound(s) && OwnerSound(s) && MarkerSound(v, s)
  }

  /** Only process p has moved, to state q', keeping its pid. */
  ghost predicate Moves(s: State, s': State, p: Proc, pc: Pc) {
    && p in s.procs && Live(s.procs[p]) && p in s'.procs
    && s'.procs == s.procs[p := s'.procs[p]]
    && s'.procs[p].pid == s.procs[p].pid && s'.procs[p].pc == pc
  }

  lemma MovesKeepPids(s: State, s': State, p: Proc, pc: Pc)
    requires PidsUnique(s) && Moves(s, s', p, pc)
    ensures PidsUnique(s')
  {
  }

  /** The process an action belongs to, and where it leaves that process. */
  lemma ActionMoves(v: Variant, s: State, a: Action)
    requires Enabled(v, s, a) && !a.Spawn?
    ensures a.p in s.procs && a.p in Apply(v, s, a).procs
    ensures Moves(s, Apply(v, s, a), a.p, Apply(v, s, a).procs[a.p].pc)
  {
  }

  lemma StepKeepsPids(v: Variant, s: State, a: Action)
    requires PidsUnique(s) && Enabled(v, s, a)
    ensures PidsUnique(Apply(v, s, a))
  {
    if !a.Spawn? {
      hide Enabled, Apply, PidsUnique;
      ActionMoves(v, s, a);
      MovesKeepPids(s, Apply(v, s, a), a.p, Apply(v, s, a).procs[a.p].pc);
    }
  }

  /** Moves that leave the files alone and do not claim a temporary file. */
  lemma MovesKeepTemps(s: State, s': State, p: Proc, pc: Pc)
    requires TempsSound(s) && Moves(s, s', p, pc)
    requires s'.temps == s.temps && s'.inodes == s.inodes
    requires HoldsTemp(pc) ==> HoldsTemp(s.procs[p].pc)
    requires pc != Writing && pc != Written
    ensures TempsSound(s')
  {
    forall q | q in s'.procs
      ensures TempOf(s', q)
    {
      assert TempOf(s, q);
    }
  }

  /** Writing through the temporary path of p: every other path keeps its file. */
  lemma WritesKeepTemps(s: State, s': State, p: Proc, pc: Pc, pid: Pid, c: Content)
    requires PidsUnique(s) && TempsSound(s) && Moves(s, s', p, pc) && pid == s.procs[p].pid
    requires HoldsTemp(pc) && (pc == Writing ==> c == Torn) && (pc == Written ==> c == Whole(p))
    requires Writes(s, s', pid, c)
    ensures TempsSound(s')
  {
    forall q | q in s'.procs
      ensures TempOf(s', q)
    {
      hide TempOf;
      WritesKeepTempOf(s, s', p, pc, pid, c, q);
    }
  }

  lemma WritesKeepTempOf(s: State, s': State, p: Proc, pc: Pc, pid: Pid, c: Content, q: Proc)
    requires PidsUnique(s) && TempsSound(s) && Moves(s, s', p, pc) && pid == s.procs[p].pid
    requires HoldsTemp(pc) && (pc == Writing ==> c == Torn) && (pc == Written ==> c == Whole(p))
    requires Writes(s, s', pid, c) && q in s'.procs
    ensures TempOf(s', q)
  {
    assert TempOf(s, q);
    if q != p && HoldsTemp(s.procs[q].pc) {
      assert s.procs[q].pid != pid;
    }
  }

  /** The file behind pid's temporary path, created if missing, now holds c. */
  ghost predicate Writes(s: State, s': State, pid: Pid, c: Content) {
    if pid in s.temps && s.temps[pid] < |s.inodes|
    then s'.temps == s.temps && s'.inodes == s.inodes[s.temps[pid] := c]
    else s'.temps == s.temps[pid := |s.inodes|] && s'.inodes == s.inodes + [c]
  }

  lemma UnlinkKeepsTemps(s: State, s': State, p: Proc, pc: Pc)
    requires PidsUnique(s) && TempsSound(s) && Moves(s, s', p, pc) && !HoldsTemp(pc)
    requires s'.temps == s.temps - {s.procs[p].pid} && s'.inodes == s.inodes
    ensures TempsSound(s')
  {
    forall q | q in s'.procs
      ensures TempOf(s', q)
    {
      assert TempOf(s, q);
      if q != p && HoldsTemp(s.procs[q].pc) {
        assert s.procs[q].pid != s.procs[p].pid;
      }
    }
  }

  lemma SpawnKeepsTemps(s: State, s': State, p: Proc, pid: Pid)
    requires TempsSound(s) && s'.procs == s.procs[p := Process(pid, Ready, 0)]
    requires s'.temps == s.temps && s'.inodes == s.inodes
    ensures TempsSound(s')
  {
    forall q | q in s'.procs
      ensures TempOf(s', q)
    {
      assert q != p ==> TempOf(s, q);
    }
  }

  /** The steps that write or remove a temporary file. */
  predicate TouchesTemp(a: Action) {
    a.BeginWrite? || a.EndWrite? || a.Unlink?
  }

  lemma FileStepKeepsTemps(v: Variant, s: State, a: Action)
    requires PidsUnique(s) && TempsSound(s) && Enabled(v, s, a) && TouchesTemp(a)
    ensures TempsSound(Apply(v, s, a))
  {
    hide TempsSound, PidsUnique;
    var s' := Apply(v, s, a);
    ActionMoves(v, s, a);
    var p, pc := a.p, s'.procs[a.p].pc;
    match a
    case BeginWrite(_) => WritesKeepTemps(s, s', p, pc, s.procs[p].pid, Torn);
    case EndWrite(_) => WritesKeepTemps(s, s', p, pc, s.procs[p].pid, Whole(p));
    case Unlink(_) => UnlinkKeepsTemps(s, s', p, pc);
  }

  /** All other steps leave the files alone and give nobody a temporary file. */
  lemma OtherStepsLeaveFiles(v: Variant, s: State, a: Action)
    requires Enabled(v, s, a) && !a.Spawn? && !TouchesTemp(a)
    ensures a.p in s.procs && a.p in Apply(v, s, a).procs
    ensures Apply(v, s, a).temps == s.temps && Apply(v, s, a).inodes == s.inodes
    ensures HoldsTemp(Apply(v, s, a).procs[a.p].pc) ==> HoldsTemp(s.procs[a.p].pc)
    ensures Apply(v, s, a).procs[a.p].pc != Writing && Apply(v, s, a).procs[a.p].pc != Written
  {
  }

  lemma StepKeepsTemps(v: Variant, s: State, a: Action)
    requires PidsUnique(s) && TempsSound(s) && Enabled(v, s, a)
    ensures TempsSound(Apply(v, s, a))
  {
    hide TempsSound, PidsUnique;
    if a.Spawn? {
      SpawnKeepsTemps(s, Apply(v, s, a), a.p, a.pid);
    } else {
      hide Enabled, Apply, HoldsTemp;
      if TouchesTemp(a) {
        FileStepKeepsTemps(v, s, a);
      } else {
        ActionMoves(v, s, a);
        OtherStepsLeaveFiles(v, s, a);
        MovesKeepTemps(s, Apply(v, s, a), a.p, Apply(v, s, a).procs[a.p].pc);
      }
    }
  }

  /** Steps that neither link nor start training leave ownership as it is. */
  lemma MovesKeepOwner(s: State, s': State, p: Proc, pc: Pc)
    requires OwnerSound(s) && Moves(s, s', p, pc)
    requires s'.marker == s.marker && s'.owner == s.owner && s'.started == s.started
    requires |s'.inodes| >= |s.inodes| && (s.reportDir ==> s'.reportDir)
    requires Owning(pc) ==> Owning(s.procs[p].pc)
    requires pc == Linked || pc == Published ==> s.procs[p].pc == Linked
    requires Passing(pc) ==> s'.reportDir
    ensures OwnerSound(s')
  {
    forall q | q in s'.procs
      ensures OwnerOf(s', q)
    {
      assert OwnerOf(s, q);
    }
  }

  lemma LinkKeepsOwner(s: State, s': State, p: Proc)
    requires OwnerSound(s) && TempsSound(s) && Moves(s, s', p, Linked)
    requires s.procs[p].pc == Written && s.marker == None && s.procs[p].pid in s.temps
    requires s'.marker == Some(s.temps[s.procs[p].pid]) && s'.owner == Some(p)
    requires s'.started == s.started && s'.inodes == s.inodes && s'.reportDir == s.reportDir
    ensures OwnerSound(s')
  {
    assert OwnerOf(s, p);
    forall q | q in s'.procs
      ensures OwnerOf(s', q)
    {
      assert OwnerOf(s, q);
    }
  }

  lemma TrainKeepsOwner(s: State, s': State, p: Proc)
    requires OwnerSound(s) && Moves(s, s', p, Training) && s.procs[p].pc == Published
    requires s'.marker == s.marker && s'.owner == s.owner && s'.started == s.started + [p]
    requires s'.inodes == s.inodes && s'.reportDir == s.reportDir
    ensures OwnerSound(s')
  {
    assert OwnerOf(s, p);
    forall q | q in s'.procs
      ensures OwnerOf(s', q)
    {
      assert OwnerOf(s, q);
    }
  }

  lemma StepKeepsOwner(v: Variant, s: State, a: Action)
    requires OwnerSound(s) && TempsSound(s) && Enabled(v, s, a)
    ensures OwnerSound(Apply(v, s, a))
  {
    hide TempsSound, OwnerSound;
    var s' := Apply(v, s, a);
    if a.Spawn? {
      SpawnKeepsOwner(s, s', a.p, a.pid);
    } else {
      ActionMoves(v, s, a);
      var pc := s'.procs[a.p].pc;
      OwnerSays(s, a.p);
      if a.Link? && s.marker == None {
        LinkKeepsOwner(s, s', a.p);
      } else if a.Train? && s'.started != s.started {
        TrainKeepsOwner(s, s', a.p);
      } else {
        MovesKeepOwner(s, s', a.p, pc);
      }
    }
  }

  lemma OwnerSays(s: State, p: Proc)
    requires OwnerSound(s) && p in s.procs
    ensures Passing(s.procs[p].pc) ==> s.reportDir
  {
    assert OwnerOf(s, p);
  }

  lemma SpawnKeepsOwner(s: State, s': State, p: Proc, pid: Pid)
    requires OwnerSound(s) && p !in s.procs && s' == s.(procs := s.procs[p := Process(pid, Ready, 0)])
    ensures OwnerSound(s')
  {
    forall q | q in s'.procs
      ensures OwnerOf(s', q)
    {
      assert q != p ==> OwnerOf(s, q);
    }
  }

  // ----- the marker's content -----

  /** Steps that touch no file content and no path. */
  lemma MovesKeepMarker(v: Variant, s: State, s': State, p: Proc, pc: Pc)
    requires MarkerSound(v, s) && Moves(s, s', p, pc)
    requires s'.marker == s.marker && s'.owner == s.owner && s'.inodes == s.inodes && s'.temps == s.temps
    requires s'.started != [] ==> s.started != [] || s.procs[p].pc == Published
    requires pc == Published || pc == Training ==> s.procs[p].pc == Published || s.procs[p].pc == Training
    requires pc != Linked
    requires v == Replicate && AboutToWrite(pc) ==> AboutToWrite(s.procs[p].pc) || s.marker == None
    ensures MarkerSound(v, s')
  {
    assert MarkerOf(s, p);
    forall q | q in s'.procs
      ensures MarkerOf(s', q)
    {
      assert MarkerOf(s, q);
    }
  }

  /** Writes through a temporary path that does not name the marker's file. */
  lemma WritesKeepSealed(s: State, s': State, pid: Pid, c: Content)
    requires Writes(s, s', pid, c) && s'.marker == s.marker && s'.owner == s.owner
    requires s.marker.Some? && s.marker.value < |s.inodes|
    requires pid in s.temps ==> s.temps[pid] != s.marker.value
    ensures Exposed(s') ==> Exposed(s)
    ensures MarkerWhole(s) ==> MarkerWhole(s')
  {
  }

  lemma WritesKeepMarker(v: Variant, s: State, s': State, p: Proc, pc: Pc, pid: Pid, c: Content)
    requires PidsUnique(s) && TempsSound(s) && OwnerSound(s) && MarkerSound(v, s)
    requires Moves(s, s', p, pc) && pid == s.procs[p].pid && AboutToWrite(s.procs[p].pc) && AboutToWrite(pc)
    requires Writes(s, s', pid, c)
    requires s'.marker == s.marker && s'.owner == s.owner && s'.started == s.started
    ensures MarkerSound(v, s')
  {
    if s.marker.Some? {
      if !(pid in s.temps) || s.temps[pid] != s.marker.value {
        WritesKeepSealed(s, s', pid, c);
      }
      forall q | q in s'.procs
        ensures MarkerOf(s', q)
      {
        assert MarkerOf(s, q);
        if q != p && s.procs[q].pc == Linked {
          assert s.procs[q].pid != pid;
        }
      }
    } else {
      forall q | q in s'.procs
        ensures MarkerOf(s', q)
      {
        assert MarkerOf(s, q);
      }
    }
  }

  lemma LinkKeepsMarker(v: Variant, s: State, s': State, p: Proc)
    requires PidsUnique(s) && TempsSound(s) && OwnerSound(s) && MarkerSound(v, s)
    requires Moves(s, s', p, Linked) && s.procs[p].pc == Written && s.marker == None && s.procs[p].pid in s.temps
    requires s'.marker == Some(s.temps[s.procs[p].pid]) && s'.owner == Some(p)
    requires s'.started == s.started && s'.inodes == s.inodes && s'.temps == s.temps
    ensures MarkerSound(v, s')
  {
    assert TempOf(s, p);
    assert MarkerWhole(s');
    forall q | q in s'.procs
      ensures MarkerOf(s', q)
      ensures q != p && AboutToWrite(s.procs[q].pc) && s.procs[q].pid in s.temps ==>
                s.temps[s.procs[q].pid] != s'.marker.value
    {
      assert MarkerOf(s, q) && OwnerOf(s, q);
      if q != p && AboutToWrite(s.procs[q].pc) {
        assert s.procs[q].pid != s.procs[p].pid;
      }
    }
  }

  lemma UnlinkKeepsMarker(v: Variant, s: State, s': State, p: Proc, pc: Pc)
    requires TempsSound(s) && OwnerSound(s) && PidsUnique(s) && MarkerSound(v, s)
    requires Moves(s, s', p, pc) && s'.temps == s.temps - {s.procs[p].pid} && s'.inodes == s.inodes
    requires s'.marker == s.marker && s'.owner == s.owner && s'.started == s.started
    requires if s.procs[p].pc == Linked then pc == Published else pc == Idle
    ensures MarkerSound(v, s')
  {
    assert MarkerOf(s, p) && OwnerOf(s, p);
    assert Exposed(s') ==> Exposed(s);
    assert MarkerWhole(s') <==> MarkerWhole(s);
    UnlinkSeals(s, s', p);
    forall q | q in s'.procs
      ensures MarkerOf(s', q)
    {
      UnlinkKeepsMarkerOf(v, s, s', p, pc, q);
    }
  }

  /** Once the linker has removed its temporary path, the marker is sealed. */
  lemma UnlinkSeals(s: State, s': State, p: Proc)
    requires TempsSound(s) && OwnerSound(s) && p in s.procs && MarkerOf(s, p)
    requires s'.temps == s.temps - {s.procs[p].pid} && s'.inodes == s.inodes
    requires s'.marker == s.marker && s'.owner == s.owner
    ensures s.procs[p].pc == Linked ==> Sealed(s')
  {
    assert OwnerOf(s, p);
  }

  lemma UnlinkKeepsMarkerOf(v: Variant, s: State, s': State, p: Proc, pc: Pc, q: Proc)
    requires PidsUnique(s) && MarkerSound(v, s) && Moves(s, s', p, pc)
    requires s'.temps == s.temps - {s.procs[p].pid} && s'.inodes == s.inodes
    requires s'.marker == s.marker && s'.owner == s.owner && q in s'.procs
    requires if s.procs[p].pc == Linked then pc == Published else pc == Idle
    requires s.procs[p].pc == Linked ==> Sealed(s')
    requires Exposed(s') ==> Exposed(s)
    ensures MarkerOf(s', q)
  {
    assert MarkerOf(s, q);
    if q != p && s.procs[q].pc == Linked {
      assert s.procs[q].pid != s.procs[p].pid;
    }
  }

  /** The steps that write, link or unlink. */
  lemma FileStepKeepsMarker(v: Variant, s: State, a: Action)
    requires Inv(v, s) && Enabled(v, s, a) && (a.BeginWrite? || a.EndWrite? || a.Link? || a.Unlink?)
    ensures MarkerSound(v, Apply(v, s, a))
  {
    hide PidsUnique, TempsSound, OwnerSound, MarkerSound;
    var s' := Apply(v, s, a);
    ActionMoves(v, s, a);
    var p, pc := a.p, s'.procs[a.p].pc;
    match a
    case BeginWrite(_) => WritesKeepMarker(v, s, s', p, pc, s.procs[p].pid, Torn);
    case EndWrite(_) => WritesKeepMarker(v, s, s', p, pc, s.procs[p].pid, Whole(p));
    case Unlink(_) => UnlinkKeepsMarker(v, s, s', p, pc);
    case Link(_) =>
      if s.marker == None {
        LinkKeepsMarker(v, s, s', p);
      } else {
        MovesKeepMarker(v, s, s', p, pc);
      }
  }

  lemma StepKeepsMarker(v: Variant, s: State, a: Action)
    requires Inv(v, s) && Enabled(v, s, a)
    ensures MarkerSound(v, Apply(v, s, a))
  {
    hide PidsUnique, TempsSound, OwnerSound, MarkerSound;
    if a.Spawn? {
      SpawnKeepsMarker(v, s, Apply(v, s, a), a.p, a.pid);
    } else if a.BeginWrite? || a.EndWrite? || a.Link? || a.Unlink? {
      hide Enabled, Apply;
      FileStepKeepsMarker(v, s, a);
    } else {
      ActionMoves(v, s, a);
      MovesKeepMarker(v, s, Apply(v, s, a), a.p, Apply(v, s, a).procs[a.p].pc);
    }
  }

  lemma SpawnKeepsMarker(v: Variant, s: State, s': State, p: Proc, pid: Pid)
    requires MarkerSound(v, s) && p !in s.procs && s' == s.(procs := s.procs[p := Process(pid, Ready, 0)])
    ensures MarkerSound(v, s')
  {
    forall q | q in s'.procs
      ensures MarkerOf(s', q)
    {
      assert q != p ==> MarkerOf(s, q);
    }
  }

  lemma StepKeepsInv(v: Variant, s: State, a: Action)
    requires Inv(v, s) && Enabled(v, s, a)
    ensures Inv(v, Apply(v, s, a))
  {
    hide Enabled, Apply, PidsUnique, TempsSound, OwnerSound, MarkerSound;
    StepKeepsPids(v, s, a);
    StepKeepsTemps(v, s, a);
    StepKeepsOwner(v, s, a);
    StepKeepsMarker(v, s, a);
  }

  // ----- whole runs -----

  lemma EmptyInv(v: Variant)
    ensures Inv(v, EMPTY)
  {
  }

  lemma {:induction false} RunKeepsInv(v: Variant, trace: seq<State>, k: nat)
    requires Run(v, trace) && k < |trace|
    ensures Inv(v, trace[k])
  {
    hide Inv, Enabled, Apply;
    if k == 0 {
      EmptyInv(v);
    } else {
      RunKeepsInv(v, trace, k - 1);
      var s, s' := trace[k - 1], trace[k];
      assert Next(v, s, s');
      var a :| Enabled(v, s, a) && s' == Apply(v, s, a);
      StepKeepsInv(v, s, a);
    }
  }

  /** In every interleaving at most one process ever starts training; it is the
      one that linked the marker, and the marker is complete from then on. */
  lemma AtMostOneTrains(v: Variant, trace: seq<State>, k: nat)
    requires Run(v, trace) && k < |trace|
    ensures |trace[k].started| <= 1
    ensures trace[k].started != [] ==> trace[k].owner == Some(trace[k].started[0]) && MarkerWhole(trace[k])
    ensures forall p :: p in trace[k].procs && trace[k].procs[p].pc == Training ==> trace[k].owner == Some(p)
  {
    RunKeepsInv(v, trace, k);
    forall p | p in trace[k].procs && trace[k].procs[p].pc == Training
      ensures trace[k].owner == Some(p)
    {
      assert OwnerOf(trace[k], p);
    }
  }

  /** Whenever training starts, a complete marker written by that process is
      already in place, and no other path can still change it. */
  lemma TrainingStartsBehindMarker(v: Variant, trace: seq<State>, k: nat)
    requires Run(v, trace) && 1 <= k < |trace| && trace[k].started != trace[k - 1].started
    ensures Sealed(trace[k - 1]) && trace[k - 1].owner.Some? && trace[k].started == [trace[k - 1].owner.value]
  {
    hide Inv, Enabled, Apply, Sealed;
    var s, s' := trace[k - 1], trace[k];
    RunKeepsInv(v, trace, k - 1);
    assert Next(v, s, s');
    var a :| Enabled(v, s, a) && s' == Apply(v, s, a);
    TrainStep(v, s, a);
  }

  lemma OnlyTrainStarts(v: Variant, s: State, a: Action)
    requires Enabled(v, s, a) && Apply(v, s, a).started != s.started
    ensures a.Train? && At(s, a.p, Published) && Apply(v, s, a).started == s.started + [a.p]
  {
  }

  lemma TrainStep(v: Variant, s: State, a: Action)
    requires Inv(v, s) && Enabled(v, s, a) && Apply(v, s, a).started != s.started
    ensures Sealed(s) && s.owner.Some? && Apply(v, s, a).started == [s.owner.value]
  {
    OnlyTrainStarts(v, s, a);
    hide Enabled, Apply, PidsUnique, TempsSound, Sealed;
    assert MarkerOf(s, a.p) && OwnerOf(s, a.p);
  }

  // ----- one process alone -----

  /** What a replicate process does from its start to its training. */
  const WHOLE_RUN: seq<Action> := [
    Spawn(0, 7), CheckAbsent(0), Preflight(0, true), MakeDir(0), CheckMarker(0), BeginWrite(0), EndWrite(0),
    Link(0), Unlink(0), Train(0)]

  function Alone(pc: Pc): map<Proc, Process> {
    map[0 := Process(7, pc, 0)]
  }

  function WholeRunState(k: nat): State {
    var published := State(true, false, Some(0), map[], [Whole(0)], Alone(Published), Some(0), []);
    match k
    case 0 => EMPTY
    case 1 => EMPTY.(procs := Alone(Ready))
    case 2 => EMPTY.(procs := Alone(Looked))
    case 3 => EMPTY.(procs := Alone(Passed))
    case 4 => EMPTY.(procs := Alone(DirMade), reportDir := true)
    case 5 => EMPTY.(procs := Alone(Clear), reportDir := true)
    case 6 => EMPTY.(procs := Alone(Writing), reportDir := true, temps := map[7 := 0], inodes := [Torn])
    case 7 => EMPTY.(procs := Alone(Written), reportDir := true, temps := map[7 := 0], inodes := [Whole(0)])
    case 8 => published.(procs := Alone(Linked), temps := map[7 := 0])
    case 9 => published
    case _ => published.(procs := map[0 := Process(7, Training, 1)], started := [0])
  }

  ghost predicate WholeRunLeads(k: nat)
    requires k < |WHOLE_RUN|
  {
    && Enabled(Replicate, WholeRunState(k), WHOLE_RUN[k])
    && WholeRunState(k + 1) == Apply(Replicate, WholeRunState(k), WHOLE_RUN[k])
  }

  lemma AloneReachesWriting(k: nat)
    requires k < 5
    ensures WholeRunLeads(k)
  {
  }

  lemma AlonePublishes(k: nat)
    requires 5 <= k < 8
    ensures WholeRunLeads(k)
  {
  }

  lemma AloneTrains(k: nat)
    requires 8 <= k < 10
    ensures WholeRunLeads(k)
  {
  }

  lemma WholeRunEnds()
    ensures WholeRunState(0) == EMPTY && WholeRunState(10).started == [0]
  {
  }

  /** The protocol does not only refuse: a process that meets no other one trains. */
  lemma TrainingIsReached()
    ensures exists trace: seq<State> :: Run(Replicate, trace) && |trace| == 11 && trace[10].started == [0]
  {
    hide Enabled, Apply, WholeRunState;
    var trace := seq(11, k requires 0 <= k => WholeRunState(k));
    forall k | 1 <= k < |trace|
      ensures Next(Replicate, trace[k - 1], trace[k])
    {
      if k <= 5 {
        AloneReachesWriting(k - 1);
      } else if k <= 8 {
        AlonePublishes(k - 1);
      } else {
        AloneTrains(k - 1);
      }
    }
    WholeRunEnds();
    assert Run(Replicate, trace);
  }

  /** A directory or the marker is there, so that no new attempt may begin. */
  predicate Attempted(s: State) {
    s.reportDir || s.modelDir || s.marker.Some?
  }

  /** History only grows: a published marker keeps its file and its owner. */
  lemma StepKeepsHistory(v: Variant, s: State, a: Action)
    requires Enabled(v, s, a)
    ensures s.started <= Apply(v, s, a).started
    ensures Attempted(s) ==> Attempted(Apply(v, s, a))
    ensures s.marker.Some? ==> Apply(v, s, a).marker == s.marker && Apply(v, s, a).owner == s.owner
  {
  }

  lemma {:induction false} RunKeepsHistory(v: Variant, trace: seq<State>, i: nat, j: nat)
    requires Run(v, trace) && i <= j < |trace|
    ensures trace[i].started <= trace[j].started
    ensures Attempted(trace[i]) ==> Attempted(trace[j])
    ensures trace[i].marker.Some? ==> trace[j].marker == trace[i].marker && trace[j].owner == trace[i].owner
    decreases j - i
  {
    hide Enabled, Apply;
    if i < j {
      RunKeepsHistory(v, trace, i, j - 1);
      assert Next(v, trace[j - 1], trace[j]);
      var a :| Enabled(v, trace[j - 1], a) && trace[j] == Apply(v, trace[j - 1], a);
      StepKeepsHistory(v, trace[j - 1], a);
    }
  }

  /** Once the marker exists, no process but its owner ever trains. */
  lemma NobodyElseTrains(v: Variant, trace: seq<State>, i: nat, j: nat, p: Proc)
    requires Run(v, trace) && i <= j < |trace| && trace[i].marker.Some? && trace[i].owner != Some(p)
    ensures p !in trace[j].started && !At(trace[j], p, Training)
  {
    RunKeepsHistory(v, trace, i, j);
    RunKeepsInv(v, trace, j);
    assert p in trace[j].procs ==> OwnerOf(trace[j], p);
  }

  predicate NeverPassed(s: State, p: Proc) {
    p in s.procs ==> s.procs[p].pc in {Idle, Ready, Exited, Dead}
  }

  /** Once a directory or the marker exists, a replicate process that has not got past
      its first check, new or called again, never does. */
  lemma {:induction false} LaterProcessesRefuse(trace: seq<State>, i: nat, j: nat, p: Proc)
    requires Run(Replicate, trace) && i <= j < |trace| && Attempted(trace[i]) && NeverPassed(trace[i], p)
    ensures NeverPassed(trace[j], p)
    decreases j - i
  {
    hide Enabled, Apply, NeverPassed, Attempted;
    if i < j {
      LaterProcessesRefuse(trace, i, j - 1, p);
      RunKeepsHistory(Replicate, trace, i, j - 1);
      assert Next(Replicate, trace[j - 1], trace[j]);
      var a :| Enabled(Replicate, trace[j - 1], a) && trace[j] == Apply(Replicate, trace[j - 1], a);
      RefusalStep(trace[j - 1], a, p);
    }
  }

  lemma RefusalStep(s: State, a: Action, p: Proc)
    requires Enabled(Replicate, s, a) && Attempted(s) && NeverPassed(s, p)
    ensures NeverPassed(Apply(Replicate, s, a), p)
  {
  }

  /** The replicate runner's marker is complete from the moment it is published, and
      its content never changes. */
  lemma ReplicateMarkerIsImmutable(trace: seq<State>, i: nat, j: nat)
    requires Run(Replicate, trace) && i <= j < |trace| && trace[i].marker.Some?
    ensures MarkerWhole(trace[i]) && MarkerWhole(trace[j])
    ensures trace[j].inodes[trace[j].marker.value] == trace[i].inodes[trace[i].marker.value]
  {
    RunKeepsInv(Replicate, trace, i);
    RunKeepsInv(Replicate, trace, j);
    RunKeepsHistory(Replicate, trace, i, j);
  }

  // ----- nobody trains unauthorised -----

  /** A run together with what was done at each step. */
  ghost predicate Records(v: Variant, trace: seq<State>, acts: seq<Action>) {
    && |trace| == |acts| + 1 && trace[0] == EMPTY
    && forall k :: 0 <= k < |acts| ==> Steps(v, trace, acts, k)
  }

  ghost predicate Steps(v: Variant, trace: seq<State>, acts: seq<Action>, k: nat)
    requires k < |acts| && |trace| == |acts| + 1
  {
    Enabled(v, trace[k], acts[k]) && trace[k + 1] == Apply(v, trace[k], acts[k])
  }

  lemma {:induction false} RunIsRecorded(v: Variant, trace: seq<State>) returns (acts: seq<Action>)
    requires Run(v, trace)
    ensures Records(v, trace, acts)
  {
    hide Enabled, Apply;
    if |trace| == 1 {
      acts := [];
    } else {
      var init, n := trace[..|trace| - 1], |trace| - 1;
      assert forall k :: 1 <= k < n ==> Next(v, trace[k - 1], trace[k]);
      var prior := RunIsRecorded(v, init);
      assert Next(v, trace[n - 1], trace[n]);
      var a :| Enabled(v, trace[n - 1], a) && trace[n] == Apply(v, trace[n - 1], a);
      acts := prior + [a];
      forall k | 0 <= k < |acts|
        ensures Steps(v, trace, acts, k)
      {
        assert k < n - 1 ==> Steps(v, init, prior, k);
      }
    }
  }

  /** Where a process can be only after the dry-run, authorization, device and runtime
      identity checks. */
  predicate PastChecks(s: State, p: Proc) {
    p in s.procs && s.procs[p].pc !in {Idle, Ready, Looked, Exited, Dead}
  }

  predicate StartsMain(a: Action, p: Proc) {
    (a.Spawn? || a.Call?) && a.p == p
  }

  /** Since p last entered main, its checks have succeeded. */
  ghost predicate Authorised(acts: seq<Action>, k: nat, p: Proc)
    requires k <= |acts|
  {
    exists j :: 0 <= j < k && acts[j] == Preflight(p, true) && forall m :: j < m < k ==> !StartsMain(acts[m], p)
  }

  lemma ChecksStep(v: Variant, s: State, a: Action, p: Proc)
    requires Enabled(v, s, a) && PastChecks(Apply(v, s, a), p)
    ensures a == Preflight(p, true) || (PastChecks(s, p) && !StartsMain(a, p))
  {
  }

  lemma {:induction false} PastChecksIsAuthorised(v: Variant, trace: seq<State>, acts: seq<Action>, k: nat, p: Proc)
    requires Records(v, trace, acts) && k < |trace| && PastChecks(trace[k], p)
    ensures Authorised(acts, k, p)
  {
    hide Enabled, Apply;
    if k > 0 {
      assert Steps(v, trace, acts, k - 1);
      ChecksStep(v, trace[k - 1], acts[k - 1], p);
      if acts[k - 1] != Preflight(p, true) {
        PastChecksIsAuthorised(v, trace, acts, k - 1, p);
        var j :| && 0 <= j < k - 1 && acts[j] == Preflight(p, true)
                 && forall m :: j < m < k - 1 ==> !StartsMain(acts[m], p);
        assert forall m :: j < m < k ==> !StartsMain(acts[m], p);
      }
    }
  }

  lemma TrainIsPastChecks(v: Variant, s: State, p: Proc)
    requires Enabled(v, s, Train(p))
    ensures PastChecks(s, p)
  {
  }

  /** In a run of either runner no process trains unless its checks have succeeded since
      it last entered main. */
  lemma TrainingIsAuthorised(v: Variant, trace: seq<State>, acts: seq<Action>, k: nat, p: Proc)
    requires Records(v, trace, acts) && k < |acts| && acts[k] == Train(p)
    ensures Authorised(acts, k, p)
  {
    hide Enabled, Apply;
    assert Steps(v, trace, acts, k);
    TrainIsPastChecks(v, trace[k], p);
    PastChecksIsAuthorised(v, trace, acts, k, p);
  }

  // ----- what is left behind -----

  predicate Holder(s: State, p: Proc, pid: Pid) {
    p in s.procs && s.procs[p].pid == pid && HoldsTemp(s.procs[p].pc)
  }

  /** Every temporary path is that of a process that is about to remove it. */
  ghost predicate NoLeftovers(s: State) {
    forall pid :: pid in s.temps ==> exists p :: Holder(s, p, pid)
  }

  /** Neither a crash nor a failed removal; the WGAN runner does not clean up after a
      failed write either. */
  predicate Tidy(v: Variant, a: Action) {
    !a.Crash? && !a.UnlinkFails? && !(v == Wgan && a.WriteFails?)
  }

  lemma TidyStep(v: Variant, s: State, a: Action, pid: Pid, p: Proc)
    requires Enabled(v, s, a) && Tidy(v, a) && Holder(s, p, pid)
    ensures pid in Apply(v, s, a).temps ==> Holder(Apply(v, s, a), p, pid)
  {
  }

  lemma NewTemp(v: Variant, s: State, a: Action, pid: Pid)
    requires Enabled(v, s, a) && pid in Apply(v, s, a).temps && pid !in s.temps
    ensures a.BeginWrite? && Holder(Apply(v, s, a), a.p, pid)
  {
  }

  /** As long as nothing crashes and no removal fails, no temporary file is left behind. */
  lemma {:induction false} NothingLeftBehind(v: Variant, trace: seq<State>, acts: seq<Action>, k: nat)
    requires Records(v, trace, acts) && k < |trace| && forall m :: 0 <= m < k ==> Tidy(v, acts[m])
    ensures NoLeftovers(trace[k])
  {
    hide Enabled, Apply, Holder, Tidy;
    if k > 0 {
      NothingLeftBehind(v, trace, acts, k - 1);
      assert Steps(v, trace, acts, k - 1);
      var s, a := trace[k - 1], acts[k - 1];
      forall pid | pid in trace[k].temps
        ensures exists p :: Holder(trace[k], p, pid)
      {
        if pid in s.temps {
          var p :| Holder(s, p, pid);
          TidyStep(v, s, a, pid, p);
        } else {
          NewTemp(v, s, a, pid);
        }
      }
    }
  }

  /** A failed write: the replicate runner still has its file to remove, the WGAN runner
      has returned and leaves it. */
  lemma FailedWriteIsCleanedUp(v: Variant, s: State, p: Proc)
    requires Inv(v, s) && Enabled(v, s, WriteFails(p))
    ensures s.procs[p].pid in Apply(v, s, WriteFails(p)).temps
    ensures (exists q :: Holder(Apply(v, s, WriteFails(p)), q, s.procs[p].pid)) <==> v == Replicate
  {
    var t, pid := Apply(v, s, WriteFails(p)), s.procs[p].pid;
    assert TempOf(s, p);
    if v == Replicate {
      assert Holder(t, p, pid);
    }
    forall q | Holder(t, q, pid)
      ensures v == Replicate
    {
      assert q != p ==> Holder(s, q, pid) && Live(s.procs[q]);
    }
  }

  // ----- the counter of training invocations -----

  ghost predicate CountsStarts(s: State) {
    forall p :: p in s.procs && s.procs[p].invocations >= 1 ==> p in s.started
  }

  lemma CountStep(v: Variant, s: State, a: Action)
    requires Enabled(v, s, a) && CountsStarts(s)
    ensures CountsStarts(Apply(v, s, a))
  {
  }

  lemma {:induction false} RunCountsStarts(v: Variant, trace: seq<State>, k: nat)
    requires Run(v, trace) && k < |trace|
    ensures CountsStarts(trace[k])
  {
    hide Enabled, Apply, CountsStarts;
    if k == 0 {
      NothingStarted();
    } else {
      RunCountsStarts(v, trace, k - 1);
      assert Next(v, trace[k - 1], trace[k]);
      var a :| Enabled(v, trace[k - 1], a) && trace[k] == Apply(v, trace[k - 1], a);
      CountStep(v, trace[k - 1], a);
    }
  }

  lemma NothingStarted()
    ensures CountsStarts(EMPTY)
  {
  }

  /** The runner's own counter never refuses anything: whoever has published the marker
      has not trained before, so that its next step does start the training. */
  lemma CounterNeverRefuses(v: Variant, trace: seq<State>, k: nat, p: Proc)
    requires Run(v, trace) && k < |trace| && Enabled(v, trace[k], Train(p))
    ensures Apply(v, trace[k], Train(p)).started == [p] && At(Apply(v, trace[k], Train(p)), p, Training)
  {
    RunKeepsInv(v, trace, k);
    RunCountsStarts(v, trace, k);
    hide PidsUnique, TempsSound, MarkerSound;
    assert OwnerOf(trace[k], p);
  }

  // ----- the WGAN runner's marker -----

  /** A writer is about to truncate a temporary path that still names the marker's file. */
  ghost predicate Tears(s: State, s': State) {
    exists p :: && At(s, p, Clear) && s.marker.Some?
                && s.procs[p].pid in s.temps && s.temps[s.procs[p].pid] == s.marker.value
                && s' == Apply(Wgan, s, BeginWrite(p))
  }

  lemma WganStep(s: State, a: Action)
    requires Inv(Wgan, s) && Enabled(Wgan, s, a) && MarkerWhole(s)
    ensures MarkerWhole(Apply(Wgan, s, a)) <==>
              !(a.BeginWrite? && s.procs[a.p].pid in s.temps && s.temps[s.procs[a.p].pid] == s.marker.value)
  {
    if a.EndWrite? {
      assert TempOf(s, a.p);
    }
  }

  lemma TearStep(s: State, s': State)
    requires Inv(Wgan, s)
    ensures Tears(s, s') ==> s.marker.Some? && s'.marker.Some?
    ensures Tears(s, s') && MarkerWhole(s) ==> !MarkerWhole(s')
  {
    if Tears(s, s') {
      var p :| && At(s, p, Clear) && s.marker.Some?
               && s.procs[p].pid in s.temps && s.temps[s.procs[p].pid] == s.marker.value
               && s' == Apply(Wgan, s, BeginWrite(p));
      StepKeepsHistory(Wgan, s, BeginWrite(p));
      if MarkerWhole(s) {
        WganStep(s, BeginWrite(p));
      }
    }
  }

  /** In a WGAN run the published marker stays complete exactly when nobody opens a
      leftover temporary path of its own process id that is the marker's other name. */
  lemma WganMarkerStaysWhole(trace: seq<State>)
    requires Run(Wgan, trace)
    ensures (forall k :: 0 <= k < |trace| && trace[k].marker.Some? ==> MarkerWhole(trace[k]))
       <==> (forall k :: 1 <= k < |trace| ==> !Tears(trace[k - 1], trace[k]))
  {
    hide Enabled, Apply, Inv, MarkerWhole, Tears;
    if forall k :: 0 <= k < |trace| && trace[k].marker.Some? ==> MarkerWhole(trace[k]) {
      forall k | 1 <= k < |trace|
        ensures !Tears(trace[k - 1], trace[k])
      {
        RunKeepsInv(Wgan, trace, k - 1);
        TearStep(trace[k - 1], trace[k]);
      }
    }
    if forall k :: 1 <= k < |trace| ==> !Tears(trace[k - 1], trace[k]) {
      forall k | 0 <= k < |trace| && trace[k].marker.Some?
        ensures MarkerWhole(trace[k])
      {
        WholeUnlessTorn(trace, k);
      }
    }
  }

  /** What the two processes of the run below do: the first dies between its link and
      its unlink, the second is given the same process id. */
  const TEARING: seq<Action> := [
    Spawn(0, 7), Preflight(0, true), MakeDir(0), BeginWrite(0), EndWrite(0), Link(0), Crash(0),
    Spawn(1, 7), Preflight(1, true), MakeDir(1), BeginWrite(1)]

  function Beside(pc: Pc): map<Proc, Process> {
    map[0 := Process(7, Dead, 0), 1 := Process(7, pc, 0)]
  }

  function TearingState(k: nat): State {
    var linked := State(true, false, Some(0), map[7 := 0], [Whole(0)], Alone(Linked), Some(0), []);
    match k
    case 0 => EMPTY
    case 1 => EMPTY.(procs := Alone(Ready))
    case 2 => EMPTY.(procs := Alone(Passed))
    case 3 => EMPTY.(procs := Alone(Clear), reportDir := true)
    case 4 => linked.(marker := None, owner := None, inodes := [Torn], procs := Alone(Writing))
    case 5 => linked.(marker := None, owner := None, procs := Alone(Written))
    case 6 => linked
    case 7 => linked.(procs := Alone(Dead))
    case 8 => linked.(procs := Beside(Ready))
    case 9 => linked.(procs := Beside(Passed))
    case 10 => linked.(procs := Beside(Clear))
    case _ => linked.(procs := Beside(Writing), inodes := [Torn])
  }

  ghost predicate TearingLeads(k: nat)
    requires k < |TEARING|
  {
    Enabled(Wgan, TearingState(k), TEARING[k]) && TearingState(k + 1) == Apply(Wgan, TearingState(k), TEARING[k])
  }

  lemma FirstStarts(k: nat)
    requires k < 3
    ensures TearingLeads(k)
  {
  }

  lemma FirstPublishes(k: nat)
    requires 3 <= k < 6
    ensures TearingLeads(k)
  {
  }

  lemma SecondStarts(k: nat)
    requires 6 <= k < 8
    ensures TearingLeads(k)
  {
    assert Alone(Dead)[1 := Process(7, Ready, 0)] == Beside(Ready);
  }

  lemma SecondTears(k: nat)
    requires 8 <= k < 11
    ensures TearingLeads(k)
  {
  }

  lemma TearingEnds()
    ensures TearingState(0) == EMPTY && TearingState(11).marker == TearingState(10).marker
    ensures MarkerWhole(TearingState(10)) && !MarkerWhole(TearingState(11))
  {
  }

  /** Such a run exists: the second process truncates the published marker through its
      leftover name, and a complete marker is complete no more. The replicate runner's
      second look at the marker rules this out. */
  lemma WganMarkerCanBeTorn()
    ensures exists trace: seq<State> ::
      && Run(Wgan, trace) && |trace| == 12 && MarkerWhole(trace[10])
      && trace[11].marker == trace[10].marker && !MarkerWhole(trace[11])
  {
    hide Enabled, Apply, TearingState;
    var trace := seq(12, k requires 0 <= k => TearingState(k));
    forall k | 1 <= k < |trace|
      ensures Next(Wgan, trace[k - 1], trace[k])
    {
      if k <= 3 {
        FirstStarts(k - 1);
      } else if k <= 6 {
        FirstPublishes(k - 1);
      } else if k <= 8 {
        SecondStarts(k - 1);
      } else {
        SecondTears(k - 1);
      }
    }
    TearingEnds();
    assert Run(Wgan, trace);
  }

  lemma {:induction false} WholeUnlessTorn(trace: seq<State>, k: nat)
    requires Run(Wgan, trace) && k < |trace| && trace[k].marker.Some?
    requires forall m :: 1 <= m < |trace| ==> !Tears(trace[m - 1], trace[m])
    ensures MarkerWhole(trace[k])
  {
    hide Inv, Enabled, Apply, MarkerWhole, Tears;
    if k > 0 {
      var s, s' := trace[k - 1], trace[k];
      RunKeepsInv(Wgan, trace, k - 1);
      assert Next(Wgan, s, s');
      var a :| Enabled(Wgan, s, a) && s' == Apply(Wgan, s, a);
      if s.marker.Some? {
        WholeUnlessTorn(trace, k - 1);
        assert !Tears(trace[k - 1], trace[k]);
        WholeStep(s, a);
      } else {
        LinkStep(s, a);
      }
    }
  }

  lemma WholeStep(s: State, a: Action)
    requires Inv(Wgan, s) && Enabled(Wgan, s, a) && MarkerWhole(s) && !Tears(s, Apply(Wgan, s, a))
    ensures MarkerWhole(Apply(Wgan, s, a))
  {
    hide Inv, Apply, MarkerWhole, Tears;
    MarkerWholeHasMarker(s);
    WganStep(s, a);
    if a.BeginWrite? && s.procs[a.p].pid in s.temps && s.temps[s.procs[a.p].pid] == s.marker.value {
      ThisTears(s, a.p);
    }
  }

  lemma ThisTears(s: State, p: Proc)
    requires At(s, p, Clear) && s.marker.Some?
    requires s.procs[p].pid in s.temps && s.temps[s.procs[p].pid] == s.marker.value
    ensures Tears(s, Apply(Wgan, s, BeginWrite(p)))
  {
  }

  lemma MarkerWholeHasMarker(s: State)
    requires MarkerWhole(s)
    ensures s.marker.Some?
  {
  }

  lemma OnlyLinkPublishes(v: Variant, s: State, a: Action)
    requires Enabled(v, s, a) && s.marker == None && Apply(v, s, a).marker.Some?
    ensures a.Link? && At(s, a.p, Written) && s.procs[a.p].pid in s.temps
    ensures Apply(v, s, a).marker.value == s.temps[s.procs[a.p].pid] && Apply(v, s, a).owner == Some(a.p)
    ensures Apply(v, s, a).inodes == s.inodes
  {
  }

  lemma LinkStep(s: State, a: Action)
    requires Inv(Wgan, s) && Enabled(Wgan, s, a) && s.marker == None && Apply(Wgan, s, a).marker.Some?
    ensures MarkerWhole(Apply(Wgan, s, a))
  {
    OnlyLinkPublishes(Wgan, s, a);
    hide Enabled, Apply, PidsUnique, OwnerSound, MarkerSound;
    assert TempOf(s, a.p);
  }
}
