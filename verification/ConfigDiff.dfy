/** Flattening of nested configurations and the compatibility test for resuming a
    checkpoint: src/neuralmarket/data/acquisition/checkpoint_compatibility.py. */
module ConfigDiff {
  import opened Common

  /** A configuration value; Leaf(None) is the value None. */
  datatype Tree<V> = Leaf(value: Option<V>) | Node(fields: seq<Field<V>>)

  /** Mappings are lists of fields in the order of iteration. */
  datatype Field<V> = Field(key: string, value: Tree<V>)

  type Flat<V> = map<string, Option<V>>

  /** The fields of a mapping flattened in order, a later entry overriding an earlier. */
  function Flatten<V>(fields: seq<Field<V>>, prefix: string): Flat<V>
    decreases fields
  {
    if fields == [] then map[]
    else
      var n := |fields| - 1;
      Flatten(fields[..n], prefix) + FlattenField(fields[n], prefix)
  }

  function FlattenField<V>(f: Field<V>, prefix: string): Flat<V>
    decreases f
  {
    match f.value
    case Leaf(v) => map[prefix + f.key := v]
    case Node(fields) => Flatten(fields, prefix + f.key + ".")
  }

  method FlattenMapping<V>(fields: seq<Field<V>>, prefix: string) returns (flat: Flat<V>)
    ensures flat == Flatten(fields, prefix)
    decreases fields
  {
    flat := map[];
    for i := 0 to |fields|
      invariant flat == Flatten(fields[..i], prefix)
    {
      assert fields[..i + 1][..i] == fields[..i];
      var path := prefix + fields[i].key;
      match fields[i].value {
        case Node(below) =>
          var nested := FlattenMapping(below, path + ".");
          flat := flat + nested;
        case Leaf(v) =>
          flat := flat[path := v];
      }
    }
    assert fields[..|fields|] == fields;
  }

  // ----- leaves by path -----

  /** Following the keys of a path from a mapping leads to this leaf. */
  ghost predicate HasLeaf<V>(fields: seq<Field<V>>, path: seq<string>, v: Option<V>)
    decreases path, 0
  {
    path != [] && exists i :: 0 <= i < |fields| && fields[i].key == path[0] && LeadsTo(fields[i].value, path[1..], v)
  }

  ghost predicate LeadsTo<V>(t: Tree<V>, path: seq<string>, v: Option<V>)
    decreases path, 1
  {
    match t
    case Leaf(w) => path == [] && w == v
    case Node(fields) => HasLeaf(fields, path, v)
  }

  function Join(path: seq<string>): string
    requires path != []
  {
    if |path| == 1 then path[0] else path[0] + "." + Join(path[1..])
  }

  predicate DotFree(key: string) {
    '.' !in key
  }

  predicate DotFreePath(path: seq<string>) {
    forall i :: 0 <= i < |path| ==> DotFree(path[i])
  }

  /** A mapping: its keys are distinct, and here also free of dots, at every level. */
  predicate Plain<V>(fields: seq<Field<V>>)
    decreases fields
  {
    && (forall i, j :: 0 <= i < j < |fields| ==> fields[i].key != fields[j].key)
    && forall i :: 0 <= i < |fields| ==>
         DotFree(fields[i].key) && (fields[i].value.Node? ==> Plain(fields[i].value.fields))
  }

  function FirstDot(s: string): (k: nat)
    ensures k <= |s| && DotFree(s[..k]) && (k < |s| ==> s[k] == '.')
  {
    if s == [] || s[0] == '.' then 0
    else
      assert s[..1 + FirstDot(s[1..])] == [s[0]] + s[1..][..FirstDot(s[1..])];
      1 + FirstDot(s[1..])
  }

  lemma {:induction false} FirstDotEndsKey(key: string, rest: string)
    requires DotFree(key)
    ensures FirstDot(key) == |key| && FirstDot(key + "." + rest) == |key|
  {
    if key != [] {
      FirstDotEndsKey(key[1..], rest);
      assert (key + "." + rest)[1..] == key[1..] + "." + rest;
    }
  }

  lemma JoinFirst(p: seq<string>)
    requires p != [] && DotFreePath(p)
    ensures FirstDot(Join(p)) == |p[0]| <= |Join(p)| && Join(p)[..|p[0]|] == p[0]
    ensures |p| == 1 <==> |Join(p)| == |p[0]|
    ensures |p| > 1 ==> Join(p[1..]) == Join(p)[|p[0]| + 1..]
  {
    FirstDotEndsKey(p[0], if |p| == 1 then "" else Join(p[1..]));
  }

  /** Dot-free paths can be read back from their dotted form. */
  lemma {:induction false} JoinIsInjective(p: seq<string>, q: seq<string>)
    requires p != [] && q != [] && DotFreePath(p) && DotFreePath(q) && Join(p) == Join(q)
    ensures p == q
  {
    JoinFirst(p);
    JoinFirst(q);
    assert p[0] == q[0];
    assert p == [p[0]] + p[1..] && q == [q[0]] + q[1..];
    if |p| > 1 {
      JoinIsInjective(p[1..], q[1..]);
    }
  }

  lemma {:induction false} LeafPathIsDotFree<V>(fields: seq<Field<V>>, path: seq<string>, v: Option<V>)
    requires Plain(fields) && HasLeaf(fields, path, v)
    ensures DotFreePath(path)
    decreases path
  {
    var i :| 0 <= i < |fields| && fields[i].key == path[0] && LeadsTo(fields[i].value, path[1..], v);
    if fields[i].value.Node? {
      LeafPathIsDotFree(fields[i].value.fields, path[1..], v);
    }
  }

  /** Every flattened entry is a leaf, under its dotted path. */
  lemma {:induction false} EntryIsLeaf<V>(fields: seq<Field<V>>, prefix: string, key: string) returns (path: seq<string>)
    requires key in Flatten(fields, prefix)
    ensures HasLeaf(fields, path, Flatten(fields, prefix)[key]) && key == prefix + Join(path)
    decreases fields
  {
    var n := |fields| - 1;
    if key in FlattenField(fields[n], prefix) {
      path := FieldEntryIsLeaf(fields[n], prefix, key);
      assert fields[n].key == path[0];
    } else {
      path := EntryIsLeaf(fields[..n], prefix, key);
      LeafOfMore(fields, n, path, Flatten(fields, prefix)[key]);
    }
  }

  lemma LeafOfMore<V>(fields: seq<Field<V>>, n: nat, path: seq<string>, v: Option<V>)
    requires n <= |fields| && HasLeaf(fields[..n], path, v)
    ensures HasLeaf(fields, path, v)
  {
    var i :| 0 <= i < n && fields[..n][i].key == path[0] && LeadsTo(fields[..n][i].value, path[1..], v);
    assert fields[i] == fields[..n][i];
  }

  lemma {:induction false} FieldEntryIsLeaf<V>(f: Field<V>, prefix: string, key: string) returns (path: seq<string>)
    requires key in FlattenField(f, prefix)
    ensures path != [] && path[0] == f.key && key == prefix + Join(path)
    ensures LeadsTo(f.value, path[1..], FlattenField(f, prefix)[key])
    decreases f
  {
    match f.value
    case Leaf(v) => path := [f.key];
    case Node(fields) =>
      var rest := EntryIsLeaf(fields, prefix + f.key + ".", key);
      path := [f.key] + rest;
      assert path[1..] == rest;
      assert prefix + f.key + "." + Join(rest) == prefix + (f.key + "." + Join(rest));
  }

  /** Every leaf is a flattened entry: dot-free keys keep distinct paths apart. */
  lemma {:induction false} LeafIsEntry<V>(fields: seq<Field<V>>, prefix: string, path: seq<string>, v: Option<V>)
    requires Plain(fields) && HasLeaf(fields, path, v)
    ensures prefix + Join(path) in Flatten(fields, prefix) && Flatten(fields, prefix)[prefix + Join(path)] == v
    decreases fields
  {
    var n := |fields| - 1;
    var i :| 0 <= i < |fields| && fields[i].key == path[0] && LeadsTo(fields[i].value, path[1..], v);
    if i == n {
      LeafIsFieldEntry(fields[n], prefix, path, v);
    } else {
      var init := fields[..n];
      assert init[i] == fields[i];
      PlainPrefix(fields, n);
      LeafIsEntry(init, prefix, path, v);
      LeafPathIsDotFree(fields, path, v);
      OtherFieldsDiffer(fields[n], prefix, path);
    }
  }

  lemma PlainPrefix<V>(fields: seq<Field<V>>, n: nat)
    requires Plain(fields) && n <= |fields|
    ensures Plain(fields[..n])
  {
  }

  lemma {:induction false} LeafIsFieldEntry<V>(f: Field<V>, prefix: string, path: seq<string>, v: Option<V>)
    requires path != [] && path[0] == f.key && LeadsTo(f.value, path[1..], v)
    requires f.value.Node? ==> Plain(f.value.fields)
    ensures prefix + Join(path) in FlattenField(f, prefix) && FlattenField(f, prefix)[prefix + Join(path)] == v
    decreases f
  {
    match f.value
    case Leaf(_) => assert Join(path) == f.key;
    case Node(fields) =>
      LeafIsEntry(fields, prefix + f.key + ".", path[1..], v);
      assert prefix + Join(path) == prefix + f.key + "." + Join(path[1..]);
  }

  lemma OtherFieldsDiffer<V>(f: Field<V>, prefix: string, path: seq<string>)
    requires DotFree(f.key) && (f.value.Node? ==> Plain(f.value.fields))
    requires path != [] && DotFreePath(path) && path[0] != f.key
    ensures prefix + Join(path) !in FlattenField(f, prefix)
  {
    var key := prefix + Join(path);
    if key in FlattenField(f, prefix) {
      var other := FieldEntryIsLeaf(f, prefix, key);
      if f.value.Node? {
        LeafPathIsDotFree(f.value.fields, other[1..], FlattenField(f, prefix)[key]);
      }
      assert other == [f.key] + other[1..];
      assert key[|prefix|..] == Join(path) && key[|prefix|..] == Join(other);
      JoinIsInjective(path, other);
      assert false;
    }
  }

  /** On a mapping with dot-free keys, looking a dotted path up in the flat form is
      following the path in the nested one. */
  lemma FlattenIsLeafLookup<V>(fields: seq<Field<V>>, path: seq<string>, v: Option<V>)
    requires Plain(fields) && path != [] && DotFreePath(path)
    ensures (Join(path) in Flatten(fields, "") && Flatten(fields, "")[Join(path)] == v) <==> HasLeaf(fields, path, v)
  {
    var key := Join(path);
    assert "" + key == key;
    if HasLeaf(fields, path, v) {
      LeafIsEntry(fields, "", path, v);
    }
    if key in Flatten(fields, "") {
      var other := EntryIsLeaf(fields, "", key);
      assert "" + Join(other) == Join(other);
      LeafPathIsDotFree(fields, other, Flatten(fields, "")[key]);
      JoinIsInjective(path, other);
    }
  }

  // ----- what flattening identifies -----

  ghost predicate SameLeaves<V(!new)>(a: seq<Field<V>>, b: seq<Field<V>>) {
    forall path, v :: HasLeaf(a, path, v) <==> HasLeaf(b, path, v)
  }

  /** Two mappings are equal: the same keys, and equal values under them. */
  ghost predicate Same<V>(a: seq<Field<V>>, b: seq<Field<V>>)
    decreases a
  {
    && (forall i :: 0 <= i < |a| ==> MatchedIn(a[i], b))
    && forall j :: 0 <= j < |b| ==> HasKey(a, b[j].key)
  }

  ghost predicate MatchedIn<V>(f: Field<V>, b: seq<Field<V>>)
    decreases f
  {
    exists j :: 0 <= j < |b| && f.key == b[j].key && SameTree(f.value, b[j].value)
  }

  ghost predicate SameTree<V>(s: Tree<V>, t: Tree<V>)
    decreases s
  {
    match (s, t)
    case (Leaf(v), Leaf(w)) => v == w
    case (Node(a), Node(b)) => Same(a, b)
    case _ => false
  }

  predicate HasKey<V>(fields: seq<Field<V>>, key: string) {
    exists i :: 0 <= i < |fields| && fields[i].key == key
  }

  /** No mapping inside is empty. */
  predicate NoEmpty<V>(fields: seq<Field<V>>)
    decreases fields
  {
    forall i :: 0 <= i < |fields| && fields[i].value.Node? ==>
                  fields[i].value.fields != [] && NoEmpty(fields[i].value.fields)
  }

  /** Mappings with dot-free keys flatten alike exactly when they have the same leaves. */
  lemma FlattenKeepsLeavesOnly<V(!new)>(a: seq<Field<V>>, b: seq<Field<V>>)
    requires Plain(a) && Plain(b)
    ensures Flatten(a, "") == Flatten(b, "") <==> SameLeaves(a, b)
  {
    if Flatten(a, "") == Flatten(b, "") {
      forall path, v
        ensures HasLeaf(a, path, v) <==> HasLeaf(b, path, v)
      {
        if HasLeaf(a, path, v) || HasLeaf(b, path, v) {
          if HasLeaf(a, path, v) {
            LeafPathIsDotFree(a, path, v);
          } else {
            LeafPathIsDotFree(b, path, v);
          }
          FlattenIsLeafLookup(a, path, v);
          FlattenIsLeafLookup(b, path, v);
        }
      }
    }
    if SameLeaves(a, b) {
      EntriesCarryOver(a, b);
      EntriesCarryOver(b, a);
    }
  }

  lemma EntriesCarryOver<V(!new)>(a: seq<Field<V>>, b: seq<Field<V>>)
    requires Plain(a) && Plain(b) && SameLeaves(a, b)
    ensures forall key :: key in Flatten(a, "") ==> key in Flatten(b, "") && Flatten(b, "")[key] == Flatten(a, "")[key]
  {
    forall key | key in Flatten(a, "")
      ensures key in Flatten(b, "") && Flatten(b, "")[key] == Flatten(a, "")[key]
    {
      var path := EntryIsLeaf(a, "", key);
      assert HasLeaf(b, path, Flatten(a, "")[key]);
      LeafIsEntry(b, "", path, Flatten(a, "")[key]);
    }
  }

  /** Under a key there is what the value under it holds. */
  lemma StepInto<V>(fields: seq<Field<V>>, i: nat, path: seq<string>, v: Option<V>)
    requires Plain(fields) && i < |fields|
    ensures HasLeaf(fields, [fields[i].key] + path, v) <==> LeadsTo(fields[i].value, path, v)
  {
    var whole := [fields[i].key] + path;
    assert whole[1..] == path;
    if HasLeaf(fields, whole, v) {
      var j :| 0 <= j < |fields| && fields[j].key == whole[0] && LeadsTo(fields[j].value, whole[1..], v);
      assert i == j;
    }
  }

  lemma {:induction false} SomeLeaf<V>(fields: seq<Field<V>>) returns (path: seq<string>, v: Option<V>)
    requires fields != [] && NoEmpty(fields)
    ensures HasLeaf(fields, path, v)
    decreases fields
  {
    match fields[0].value
    case Leaf(w) =>
      path, v := [fields[0].key], w;
      assert LeadsTo(fields[0].value, path[1..], v);
    case Node(below) =>
      var rest;
      rest, v := SomeLeaf(below);
      path := [fields[0].key] + rest;
      assert path[1..] == rest && LeadsTo(fields[0].value, path[1..], v);
  }

  /** Under every key of a non-empty mapping there is a leaf. */
  lemma LeafUnder<V>(fields: seq<Field<V>>, i: nat) returns (rest: seq<string>, v: Option<V>)
    requires Plain(fields) && NoEmpty(fields) && i < |fields|
    ensures LeadsTo(fields[i].value, rest, v) && HasLeaf(fields, [fields[i].key] + rest, v)
    ensures fields[i].value.Node? <==> rest != []
  {
    match fields[i].value {
      case Leaf(w) => rest, v := [], w;
      case Node(below) => rest, v := SomeLeaf(below);
    }
    StepInto(fields, i, rest, v);
  }

  lemma {:induction false} LeavesDecide<V(!new)>(a: seq<Field<V>>, b: seq<Field<V>>)
    requires Plain(a) && Plain(b) && NoEmpty(a) && NoEmpty(b) && SameLeaves(a, b)
    ensures Same(a, b)
    decreases a
  {
    forall i | 0 <= i < |a|
      ensures MatchedIn(a[i], b)
    {
      var rest, v := LeafUnder(a, i);
      var j := KeyOfLeaf(b, [a[i].key] + rest, v);
      assert ([a[i].key] + rest)[1..] == rest;
      FieldsAgree(a, b, i, j);
      if a[i].value.Node? && b[j].value.Node? {
        LeavesDecide(a[i].value.fields, b[j].value.fields);
      } else {
        LeafFieldsAgree(a, b, i, j, rest, v);
      }
      assert SameTree(a[i].value, b[j].value);
    }
    forall j | 0 <= j < |b|
      ensures HasKey(a, b[j].key)
    {
      var rest, v := LeafUnder(b, j);
      var i := KeyOfLeaf(a, [b[j].key] + rest, v);
    }
  }

  lemma KeyOfLeaf<V>(fields: seq<Field<V>>, path: seq<string>, v: Option<V>) returns (i: nat)
    requires HasLeaf(fields, path, v)
    ensures path != [] && i < |fields| && fields[i].key == path[0] && LeadsTo(fields[i].value, path[1..], v)
  {
    i :| 0 <= i < |fields| && fields[i].key == path[0] && LeadsTo(fields[i].value, path[1..], v);
  }

  lemma FieldsAgree<V(!new)>(a: seq<Field<V>>, b: seq<Field<V>>, i: nat, j: nat)
    requires Plain(a) && Plain(b) && SameLeaves(a, b) && i < |a| && j < |b| && a[i].key == b[j].key
    ensures a[i].value.Node? && b[j].value.Node? ==> SameLeaves(a[i].value.fields, b[j].value.fields)
    ensures forall path, v :: LeadsTo(a[i].value, path, v) <==> LeadsTo(b[j].value, path, v)
  {
    forall path, v
      ensures LeadsTo(a[i].value, path, v) <==> LeadsTo(b[j].value, path, v)
      ensures a[i].value.Node? && b[j].value.Node? ==>
                (HasLeaf(a[i].value.fields, path, v) <==> HasLeaf(b[j].value.fields, path, v))
    {
      StepInto(a, i, path, v);
      StepInto(b, j, path, v);
      assert HasLeaf(a, [a[i].key] + path, v) <==> HasLeaf(b, [a[i].key] + path, v);
    }
  }

  lemma LeafFieldsAgree<V(!new)>(a: seq<Field<V>>, b: seq<Field<V>>, i: nat, j: nat, rest: seq<string>, v: Option<V>)
    requires i < |a| && j < |b| && LeadsTo(a[i].value, rest, v) && LeadsTo(b[j].value, rest, v)
    requires a[i].value.Node? <==> rest != []
    requires !(a[i].value.Node? && b[j].value.Node?)
    ensures SameTree(a[i].value, b[j].value)
  {
  }

  lemma {:induction false} SameHasLeaf<V>(a: seq<Field<V>>, b: seq<Field<V>>, path: seq<string>, v: Option<V>)
    requires Plain(a) && Plain(b) && Same(a, b)
    ensures HasLeaf(a, path, v) <==> HasLeaf(b, path, v)
    decreases path
  {
    if HasLeaf(a, path, v) {
      var i := KeyOfLeaf(a, path, v);
      assert MatchedIn(a[i], b);
      var j :| 0 <= j < |b| && a[i].key == b[j].key && SameTree(a[i].value, b[j].value);
      if a[i].value.Node? {
        SameHasLeaf(a[i].value.fields, b[j].value.fields, path[1..], v);
      }
      assert LeadsTo(b[j].value, path[1..], v);
    }
    if HasLeaf(b, path, v) {
      var j := KeyOfLeaf(b, path, v);
      assert HasKey(a, b[j].key);
      var i :| 0 <= i < |a| && a[i].key == b[j].key;
      assert MatchedIn(a[i], b);
      var k :| 0 <= k < |b| && a[i].key == b[k].key && SameTree(a[i].value, b[k].value);
      assert k == j;
      if a[i].value.Node? {
        SameHasLeaf(a[i].value.fields, b[j].value.fields, path[1..], v);
      }
      assert LeadsTo(a[i].value, path[1..], v);
    }
  }

  /** With dot-free keys and no empty mapping inside, flattening loses nothing: two
      configurations flatten alike exactly when they are equal. */
  lemma FlattenIsInjective<V(!new)>(a: seq<Field<V>>, b: seq<Field<V>>)
    requires Plain(a) && Plain(b) && NoEmpty(a) && NoEmpty(b)
    ensures Flatten(a, "") == Flatten(b, "") <==> Same(a, b)
  {
    FlattenKeepsLeavesOnly(a, b);
    if SameLeaves(a, b) {
      LeavesDecide(a, b);
    }
    if Same(a, b) {
      forall path, v
        ensures HasLeaf(a, path, v) <==> HasLeaf(b, path, v)
      {
        SameHasLeaf(a, b, path, v);
      }
    }
  }

  /** Two collisions: an empty mapping flattens to nothing, and a key with a dot in it
      flattens like a path. */
  lemma FlattenForgets<V>(v: V)
    ensures Flatten([Field("a", Tree<V>.Node([]))], "") == Flatten<V>([], "")
    ensures !Same([Field("a", Tree<V>.Node([]))], [])
    ensures Flatten([Field("a.b", Leaf(Some(v)))], "") == Flatten([Field("a", Node([Field("b", Leaf(Some(v)))]))], "")
    ensures !Same([Field("a.b", Leaf(Some(v)))], [Field("a", Node([Field("b", Leaf(Some(v)))]))])
  {
    var inner := [Field("b", Leaf(Some(v)))];
    var dotted, nested := [Field("a.b", Leaf(Some(v)))], [Field("a", Node(inner))];
    assert dotted[..0] == [] && nested[..0] == [] && inner[..0] == [];
    assert "" + "a" + "." == "a." && "a." + "b" == "a.b" == "" + "a.b";
    assert FlattenField(inner[0], "a.") == map["a.b" := Some(v)] && Flatten(inner, "a.") == map["a.b" := Some(v)];
    assert FlattenField(nested[0], "") == Flatten(inner, "a.");
    assert FlattenField(dotted[0], "") == map["a.b" := Some(v)];
    var empty := [Field("a", Tree<V>.Node([]))];
    assert empty[..0] == [];
    assert !MatchedIn(empty[0], []);
    assert |dotted[0].key| == 3 && |nested[0].key| == 1;
    assert !MatchedIn(dotted[0], nested);
  }

  // ----- reading a flat form back -----

  /** The path that a dotted key stands for. */
  function Split(key: string): (path: seq<string>)
    ensures path != [] && DotFreePath(path) && Join(path) == key
    decreases |key|
  {
    var d := FirstDot(key);
    if d == |key| then
      assert key[..d] == key;
      [key]
    else
      assert key == key[..d] + "." + key[d + 1..];
      [key[..d]] + Split(key[d + 1..])
  }

  /** Adds one leaf under its path. */
  function Insert<V>(fields: seq<Field<V>>, path: seq<string>, v: Option<V>): (r: seq<Field<V>>)
    requires path != []
    ensures r != []
    decreases |path|, |fields|
  {
    if fields == [] then [Field(path[0], InsertBelow(Leaf(v), path[1..], v))]
    else if fields[0].key == path[0] then
      [Field(path[0], InsertBelow(fields[0].value, path[1..], v))] + fields[1..]
    else [fields[0]] + Insert(fields[1..], path, v)
  }

  function Below<V>(t: Tree<V>): seq<Field<V>> {
    match t
    case Leaf(_) => []
    case Node(fields) => fields
  }

  function InsertBelow<V>(t: Tree<V>, path: seq<string>, v: Option<V>): Tree<V>
    decreases |path|, |Below(t)| + 1
  {
    if path == [] then Leaf(v) else Node(Insert(Below(t), path, v))
  }

  /** No leaf lies on the path, and none beyond it. */
  ghost predicate Clear<V(!new)>(fields: seq<Field<V>>, path: seq<string>) {
    forall q, w :: HasLeaf(fields, q, w) ==> !(q <= path) && !(path <= q)
  }

  lemma HasLeafCons<V>(f: Field<V>, rest: seq<Field<V>>, q: seq<string>, w: Option<V>)
    ensures HasLeaf([f] + rest, q, w) <==>
              (q != [] && f.key == q[0] && LeadsTo(f.value, q[1..], w)) || HasLeaf(rest, q, w)
  {
    var all := [f] + rest;
    if HasLeaf(all, q, w) {
      var i :| 0 <= i < |all| && all[i].key == q[0] && LeadsTo(all[i].value, q[1..], w);
      assert i > 0 ==> all[i] == rest[i - 1];
    }
    if HasLeaf(rest, q, w) {
      var i :| 0 <= i < |rest| && rest[i].key == q[0] && LeadsTo(rest[i].value, q[1..], w);
      assert all[i + 1] == rest[i];
    }
    assert all[0] == f;
  }

  /** Inserting a leaf at a clear path adds that leaf and changes no other. */
  lemma {:induction false} InsertLeaves<V(!new)>(fields: seq<Field<V>>, path: seq<string>, v: Option<V>,
                                                 q: seq<string>, w: Option<V>)
    requires path != [] && Plain(fields) && NoEmpty(fields) && Clear(fields, path)
    ensures HasLeaf(Insert(fields, path, v), q, w) <==> (q == path && w == v) || HasLeaf(fields, q, w)
    decreases |path|, |fields|
  {
    if q != [] {
      assert q == path <==> q[0] == path[0] && q[1..] == path[1..] by {
        assert q == [q[0]] + q[1..] && path == [path[0]] + path[1..];
      }
    }
    if fields == [] {
      InsertBelowLeaves(Leaf(v), path[1..], v, if q == [] then [] else q[1..], w);
      HasLeafCons(Field(path[0], InsertBelow(Leaf(v), path[1..], v)), [], q, w);
      assert [Field(path[0], InsertBelow(Leaf(v), path[1..], v))] + [] == Insert(fields, path, v);
    } else {
      var f, rest := fields[0], fields[1..];
      assert fields == [f] + rest;
      HasLeafCons(f, rest, q, w);
      if f.key == path[0] {
        ClearBelow(fields, path);
        InsertBelowLeaves(f.value, path[1..], v, if q == [] then [] else q[1..], w);
        HasLeafCons(Field(path[0], InsertBelow(f.value, path[1..], v)), rest, q, w);
      } else {
        ClearRest(fields, path);
        InsertLeaves(rest, path, v, q, w);
        HasLeafCons(f, Insert(rest, path, v), q, w);
      }
    }
  }

  lemma {:induction false} InsertBelowLeaves<V(!new)>(t: Tree<V>, path: seq<string>, v: Option<V>,
                                                      q: seq<string>, w: Option<V>)
    requires Plain(Below(t)) && NoEmpty(Below(t)) && Clear(Below(t), path)
    requires path == [] ==> t.Leaf?
    ensures LeadsTo(InsertBelow(t, path, v), q, w) <==> (q == path && w == v) || HasLeaf(Below(t), q, w)
    decreases |path|, |Below(t)| + 1
  {
    if path != [] {
      InsertLeaves(Below(t), path, v, q, w);
    }
  }

  /** A clear path that starts with the first key goes on below it. */
  lemma ClearBelow<V(!new)>(fields: seq<Field<V>>, path: seq<string>)
    requires path != [] && Plain(fields) && NoEmpty(fields) && Clear(fields, path)
    requires fields != [] && fields[0].key == path[0]
    ensures fields[0].value.Node? && path[1..] != []
    ensures Plain(Below(fields[0].value)) && NoEmpty(Below(fields[0].value)) && Clear(Below(fields[0].value), path[1..])
  {
    var f := fields[0];
    assert path == [f.key] + path[1..];
    var rest, v := LeafUnder(fields, 0);
    assert f.value.Leaf? ==> [f.key] + rest <= path;
    assert path[1..] == [] ==> path <= [f.key] + rest;
    forall q, w | HasLeaf(Below(f.value), q, w)
      ensures !(q <= path[1..]) && !(path[1..] <= q)
    {
      StepInto(fields, 0, q, w);
      assert q <= path[1..] ==> [f.key] + q <= path;
      assert path[1..] <= q ==> path <= [f.key] + q;
    }
  }

  lemma ClearRest<V(!new)>(fields: seq<Field<V>>, path: seq<string>)
    requires fields != [] && Plain(fields) && NoEmpty(fields) && Clear(fields, path)
    ensures Plain(fields[1..]) && NoEmpty(fields[1..]) && Clear(fields[1..], path)
  {
    assert fields == [fields[0]] + fields[1..];
    forall q, w | HasLeaf(fields[1..], q, w)
      ensures !(q <= path) && !(path <= q)
    {
      HasLeafCons(fields[0], fields[1..], q, w);
    }
  }

  lemma {:induction false} InsertIsPlain<V(!new)>(fields: seq<Field<V>>, path: seq<string>, v: Option<V>)
    requires path != [] && DotFreePath(path) && Plain(fields) && NoEmpty(fields)
    ensures Plain(Insert(fields, path, v)) && NoEmpty(Insert(fields, path, v))
    ensures forall i :: 0 <= i < |Insert(fields, path, v)| ==>
              Insert(fields, path, v)[i].key == path[0] || HasKey(fields, Insert(fields, path, v)[i].key)
    decreases |path|, |fields|
  {
    if fields == [] {
      InsertBelowIsPlain(Leaf(v), path[1..], v);
    } else if fields[0].key == path[0] {
      InsertBelowIsPlain(fields[0].value, path[1..], v);
      KeysOfHead(fields, InsertBelow(fields[0].value, path[1..], v));
    } else {
      TailIsPlain(fields);
      InsertIsPlain(fields[1..], path, v);
      KeysOfTail(fields, Insert(fields[1..], path, v), path[0]);
    }
  }

  lemma TailIsPlain<V>(fields: seq<Field<V>>)
    requires fields != [] && Plain(fields) && NoEmpty(fields)
    ensures Plain(fields[1..]) && NoEmpty(fields[1..])
  {
  }

  /** The first field may hold anything plain. */
  lemma KeysOfHead<V>(fields: seq<Field<V>>, t: Tree<V>)
    requires fields != [] && Plain(fields) && NoEmpty(fields)
    requires Plain(Below(t)) && NoEmpty(Below(t)) && (t.Node? ==> t.fields != [])
    ensures var all := [Field(fields[0].key, t)] + fields[1..];
            Plain(all) && NoEmpty(all) && forall i :: 0 <= i < |all| ==> HasKey(fields, all[i].key)
  {
    var all := [Field(fields[0].key, t)] + fields[1..];
    forall i | 0 <= i < |all|
      ensures all[i].key == fields[i].key
    {
    }
  }

  /** The other fields may be replaced by plain ones that add only the key k. */
  lemma KeysOfTail<V>(fields: seq<Field<V>>, rest: seq<Field<V>>, k: string)
    requires fields != [] && Plain(fields) && NoEmpty(fields) && Plain(rest) && NoEmpty(rest) && fields[0].key != k
    requires forall i :: 0 <= i < |rest| ==> rest[i].key == k || HasKey(fields[1..], rest[i].key)
    ensures var all := [fields[0]] + rest;
            Plain(all) && NoEmpty(all) && forall i :: 0 <= i < |all| ==> all[i].key == k || HasKey(fields, all[i].key)
  {
    var all := [fields[0]] + rest;
    forall i | 0 <= i < |rest|
      ensures rest[i].key != fields[0].key && (rest[i].key == k || HasKey(fields, rest[i].key))
    {
      if HasKey(fields[1..], rest[i].key) {
        var j :| 0 <= j < |fields[1..]| && fields[1..][j].key == rest[i].key;
        assert fields[j + 1].key == rest[i].key;
      }
    }
    assert forall i :: 0 < i < |all| ==> all[i] == rest[i - 1];
  }

  lemma {:induction false} InsertBelowIsPlain<V(!new)>(t: Tree<V>, path: seq<string>, v: Option<V>)
    requires DotFreePath(path) && Plain(Below(t)) && NoEmpty(Below(t))
    ensures var u := InsertBelow(t, path, v);
            Plain(Below(u)) && NoEmpty(Below(u)) && (u.Node? ==> u.fields != [])
    decreases |path|, |Below(t)| + 1
  {
    if path != [] {
      InsertIsPlain(Below(t), path, v);
    }
  }

  /** The nested form of a flat one, its entries inserted in any order. */
  ghost function Unflatten<V>(flat: Flat<V>): seq<Field<V>>
    decreases flat.Keys
  {
    if flat == map[] then []
    else
      var key :| key in flat;
      Insert(Unflatten(flat - {key}), Split(key), flat[key])
  }

  /** No entry's path leads through another entry. */
  ghost predicate PrefixFree<V>(flat: Flat<V>) {
    forall k, l :: k in flat && l in flat && k != l ==> !(Split(k) <= Split(l))
  }

  ghost predicate IsEntry<V>(flat: Flat<V>, q: seq<string>, w: Option<V>) {
    q != [] && DotFreePath(q) && Join(q) in flat && flat[Join(q)] == w
  }

  lemma SplitOfJoin(q: seq<string>)
    requires q != [] && DotFreePath(q)
    ensures Split(Join(q)) == q
  {
    JoinIsInjective(Split(Join(q)), q);
  }

  /** The nested form has exactly the entries as leaves. */
  lemma {:induction false} UnflattenLeaves<V(!new)>(flat: Flat<V>)
    requires PrefixFree(flat)
    ensures Plain(Unflatten(flat)) && NoEmpty(Unflatten(flat))
    ensures forall q, w :: HasLeaf(Unflatten(flat), q, w) <==> IsEntry(flat, q, w)
    decreases flat.Keys
  {
    hide Split, Plain, NoEmpty, Join, DotFreePath, Insert;
    if flat == map[] {
      NothingIsPlain<V>();
    } else {
      var key :| key in flat && Unflatten(flat) == Insert(Unflatten(flat - {key}), Split(key), flat[key]);
      var less := flat - {key};
      UnflattenLeaves(less);
      var fields, path := Unflatten(less), Split(key);
      forall q, w | HasLeaf(fields, q, w)
        ensures !(q <= path) && !(path <= q)
      {
        SplitOfJoin(q);
      }
      InsertIsPlain(fields, path, flat[key]);
      forall q, w
        ensures HasLeaf(Unflatten(flat), q, w) <==> IsEntry(flat, q, w)
      {
        InsertLeaves(fields, path, flat[key], q, w);
        if q != [] && DotFreePath(q) {
          SplitOfJoin(q);
        }
      }
    }
  }

  lemma NothingIsPlain<V>()
    ensures Plain<V>([]) && NoEmpty<V>([]) && forall q, w :: !HasLeaf<V>([], q, w)
  {
  }

  /** Flattening undoes it: a flat form is one of a configuration as soon as no key leads
      through another. */
  lemma FlattenOfUnflatten<V(!new)>(flat: Flat<V>)
    requires PrefixFree(flat)
    ensures Flatten(Unflatten(flat), "") == flat
  {
    hide Plain, NoEmpty, Unflatten, Flatten, HasLeaf;
    UnflattenLeaves(flat);
    var fields := Unflatten(flat);
    forall key | key in Flatten(fields, "")
      ensures key in flat && flat[key] == Flatten(fields, "")[key]
    {
      var path := EntryIsLeaf(fields, "", key);
      assert key == Join(path);
    }
    forall key | key in flat
      ensures key in Flatten(fields, "")
    {
      assert IsEntry(flat, Split(key), flat[key]);
      LeafIsEntry(fields, "", Split(key), flat[key]);
      assert "" + Join(Split(key)) == key;
    }
  }

  /** No leaf lies beyond another. */
  lemma {:induction false} LeavesAreApart<V>(fields: seq<Field<V>>, p: seq<string>, q: seq<string>,
                                             v: Option<V>, w: Option<V>)
    requires Plain(fields) && HasLeaf(fields, p, v) && HasLeaf(fields, q, w) && p <= q
    ensures p == q
    decreases |p|
  {
    var i := KeyOfLeaf(fields, p, v);
    var j := KeyOfLeaf(fields, q, w);
    assert i == j;
    if fields[i].value.Node? {
      LeavesAreApart(fields[i].value.fields, p[1..], q[1..], v, w);
    }
    assert p == [p[0]] + p[1..] && q == [q[0]] + q[1..];
  }

  lemma FlattenIsPrefixFree<V(!new)>(a: seq<Field<V>>)
    requires Plain(a)
    ensures PrefixFree(Flatten(a, ""))
  {
    hide Split, Flatten;
    var flat := Flatten(a, "");
    forall k, l | k in flat && l in flat && k != l
      ensures !(Split(k) <= Split(l))
    {
      var p := EntryIsLeaf(a, "", k);
      var q := EntryIsLeaf(a, "", l);
      LeafPathIsDotFree(a, p, flat[k]);
      LeafPathIsDotFree(a, q, flat[l]);
      assert k == Join(p) && l == Join(q);
      SplitOfJoin(p);
      SplitOfJoin(q);
      if p <= q {
        LeavesAreApart(a, p, q, flat[k], flat[l]);
        assert false;
      }
    }
  }

  /** The inverse of flattening: a configuration with dot-free keys and no empty mapping
      inside is read back from its flat form. */
  lemma UnflattenOfFlatten<V(!new)>(a: seq<Field<V>>)
    requires Plain(a) && NoEmpty(a)
    ensures Same(Unflatten(Flatten(a, "")), a)
  {
    hide Plain, NoEmpty, Unflatten, Flatten, Same;
    FlattenIsPrefixFree(a);
    UnflattenLeaves(Flatten(a, ""));
    FlattenOfUnflatten(Flatten(a, ""));
    FlattenIsInjective(Unflatten(Flatten(a, "")), a);
  }

  /** A mapping as it comes: distinct keys at every level, with or without dots. */
  predicate Keyed<V>(fields: seq<Field<V>>)
    decreases fields
  {
    && (forall i, j :: 0 <= i < j < |fields| ==> fields[i].key != fields[j].key)
    && forall i :: 0 <= i < |fields| && fields[i].value.Node? ==> Keyed(fields[i].value.fields)
  }

  /** Whatever the flat form, reading it makes no dotted key and no empty mapping. */
  lemma {:induction false} UnflattenIsPlain<V(!new)>(flat: Flat<V>)
    ensures Plain(Unflatten(flat)) && NoEmpty(Unflatten(flat))
    decreases flat.Keys
  {
    hide Split, Plain, NoEmpty, Insert;
    if flat == map[] {
      NothingIsPlain<V>();
    } else {
      var key :| key in flat && Unflatten(flat) == Insert(Unflatten(flat - {key}), Split(key), flat[key]);
      UnflattenIsPlain(flat - {key});
      InsertIsPlain(Unflatten(flat - {key}), Split(key), flat[key]);
    }
  }

  /** Equality carries over that no key has a dot and no mapping inside is empty. */
  lemma {:induction false} SameIsPlain<V>(u: seq<Field<V>>, a: seq<Field<V>>)
    requires Plain(u) && NoEmpty(u) && Keyed(a) && Same(u, a)
    ensures Plain(a) && NoEmpty(a)
    decreases u
  {
    forall i | 0 <= i < |a|
      ensures DotFree(a[i].key)
      ensures a[i].value.Node? ==>
                Plain(a[i].value.fields) && a[i].value.fields != [] && NoEmpty(a[i].value.fields)
    {
      assert HasKey(u, a[i].key);
      var j :| 0 <= j < |u| && u[j].key == a[i].key;
      assert MatchedIn(u[j], a);
      var k :| 0 <= k < |a| && u[j].key == a[k].key && SameTree(u[j].value, a[k].value);
      assert k == i;
      if a[i].value.Node? {
        SameIsPlain(u[j].value.fields, a[i].value.fields);
        assert MatchedIn(u[j].value.fields[0], a[i].value.fields);
      }
    }
  }

  /** Exactly which configurations are read back: those without a dotted key and without
      an empty mapping inside. */
  lemma ReadBackExactlyWhen<V(!new)>(a: seq<Field<V>>)
    requires Keyed(a)
    ensures Same(Unflatten(Flatten(a, "")), a) <==> Plain(a) && NoEmpty(a)
  {
    hide Plain, NoEmpty, Keyed, Unflatten, Flatten, Same;
    UnflattenIsPlain(Flatten(a, ""));
    if Same(Unflatten(Flatten(a, "")), a) {
      SameIsPlain(Unflatten(Flatten(a, "")), a);
    }
    if Plain(a) && NoEmpty(a) {
      UnflattenOfFlatten(a);
    }
  }

  // ----- diff_config_compatibility -----

  const ALLOWLIST: set<string> := {"metadata_execution.total_run_deadline_seconds"}

  datatype Report = Report(compatible: bool, differing: set<string>, disallowed: set<string>)

  /** dict.get: a missing key reads like the value None. */
  function Get<V>(flat: Flat<V>, key: string): Option<V> {
    if key in flat then flat[key] else None
  }

  ghost predicate Compatible<V>(a: seq<Field<V>>, b: seq<Field<V>>) {
    forall key :: key !in ALLOWLIST ==> Get(Flatten(a, ""), key) == Get(Flatten(b, ""), key)
  }

  method DiffConfigCompatibility<V(==)>(bound: seq<Field<V>>, current: seq<Field<V>>) returns (r: Report)
    ensures forall key :: key in r.differing <==> Get(Flatten(bound, ""), key) != Get(Flatten(current, ""), key)
    ensures r.disallowed == r.differing - ALLOWLIST
    ensures r.compatible <==> Compatible(bound, current)
  {
    var flatBound := FlattenMapping(bound, "");
    var flatCurrent := FlattenMapping(current, "");
    var differing :=
      set key | key in flatBound.Keys + flatCurrent.Keys && Get(flatBound, key) != Get(flatCurrent, key);
    var disallowed := differing - ALLOWLIST;
    r := Report(disallowed == {}, differing, disallowed);
    if disallowed != {} {
      ghost var key :| key in disallowed;
      assert Get(Flatten(bound, ""), key) != Get(Flatten(current, ""), key);
    } else {
      assert forall key :: key in differing ==> key in ALLOWLIST;
    }
  }

  /** A path at which the two configurations are not allowed to differ. */
  predicate Frozen(path: seq<string>) {
    path != [] && DotFreePath(path) && Join(path) !in ALLOWLIST
  }

  /** The one field that may change is the run deadline. */
  lemma OnlyTheDeadlineIsFree(path: seq<string>)
    requires path != [] && DotFreePath(path)
    ensures Frozen(path) <==> path != ["metadata_execution", "total_run_deadline_seconds"]
  {
    hide DotFree;
    var section, field := "metadata_execution", "total_run_deadline_seconds";
    var free := [section, field];
    LiteralsAreDotFree();
    assert free[1..] == [field];
    assert Join(free) == section + "." + field by {
      hide DotFreePath;
    }
    LiteralsJoin();
    if Join(path) == Join(free) {
      JoinIsInjective(path, free);
    }
  }

  lemma LiteralsAreDotFree()
    ensures DotFree("metadata_execution") && DotFree("total_run_deadline_seconds")
  {
  }

  lemma LiteralsJoin()
    ensures "metadata_execution" + "." + "total_run_deadline_seconds" == "metadata_execution.total_run_deadline_seconds"
  {
  }

  ghost predicate SameFrozenLeaves<V(!new)>(a: seq<Field<V>>, b: seq<Field<V>>) {
    forall path, v :: Frozen(path) && v != None ==> (HasLeaf(a, path, v) <==> HasLeaf(b, path, v))
  }

  /** Two configurations are compatible exactly when they have the same leaves at every
      path off the allowlist, where a leaf None counts as no leaf. */
  lemma CompatibleMeansSameLeaves<V(!new)>(a: seq<Field<V>>, b: seq<Field<V>>)
    requires Plain(a) && Plain(b)
    ensures Compatible(a, b) <==> SameFrozenLeaves(a, b)
  {
    if Compatible(a, b) {
      forall path, v | Frozen(path) && v != None
        ensures HasLeaf(a, path, v) <==> HasLeaf(b, path, v)
      {
        FlattenIsLeafLookup(a, path, v);
        FlattenIsLeafLookup(b, path, v);
        assert Get(Flatten(a, ""), Join(path)) == Get(Flatten(b, ""), Join(path));
      }
    }
    if SameFrozenLeaves(a, b) {
      forall key | key !in ALLOWLIST
        ensures Get(Flatten(a, ""), key) == Get(Flatten(b, ""), key)
      {
        GetCarriesOver(a, b, key);
        GetCarriesOver(b, a, key);
      }
    }
  }

  lemma GetCarriesOver<V(!new)>(a: seq<Field<V>>, b: seq<Field<V>>, key: string)
    requires Plain(a) && Plain(b) && key !in ALLOWLIST
    requires SameFrozenLeaves(a, b)
    ensures Get(Flatten(a, ""), key) != None ==> Get(Flatten(b, ""), key) == Get(Flatten(a, ""), key)
  {
    var v := Get(Flatten(a, ""), key);
    if v != None {
      var path := EntryIsLeaf(a, "", key);
      assert key == Join(path);
      LeafPathIsDotFree(a, path, v);
      assert Frozen(path);
      LeafIsEntry(b, "", path, v);
    }
  }

  /** For configurations of the documented kind - dot-free keys, no empty mapping, no
      None - that is: compatible and equal on the allowlist means equal. */
  lemma CompatibleOffAllowlist<V(!new)>(a: seq<Field<V>>, b: seq<Field<V>>)
    requires Plain(a) && Plain(b) && NoEmpty(a) && NoEmpty(b)
    requires forall path :: !HasLeaf(a, path, None) && !HasLeaf(b, path, None)
    ensures Same(a, b) <==>
              Compatible(a, b) && forall key :: key in ALLOWLIST ==> Get(Flatten(a, ""), key) == Get(Flatten(b, ""), key)
  {
    FlattenIsInjective(a, b);
    if forall key :: Get(Flatten(a, ""), key) == Get(Flatten(b, ""), key) {
      NoNoneEntries(a);
      NoNoneEntries(b);
      assert forall key :: key in Flatten(a, "") <==> Get(Flatten(a, ""), key) != None;
      assert forall key :: key in Flatten(b, "") <==> Get(Flatten(b, ""), key) != None;
      assert Flatten(a, "") == Flatten(b, "");
    }
    if Compatible(a, b) && forall key :: key in ALLOWLIST ==> Get(Flatten(a, ""), key) == Get(Flatten(b, ""), key) {
      assert forall key :: Get(Flatten(a, ""), key) == Get(Flatten(b, ""), key);
    }
  }

  lemma NoNoneEntries<V(!new)>(a: seq<Field<V>>)
    requires forall path :: !HasLeaf(a, path, None)
    ensures forall key :: key in Flatten(a, "") ==> Flatten(a, "")[key] != None
  {
    forall key | key in Flatten(a, "")
      ensures Flatten(a, "")[key] != None
    {
      var path := EntryIsLeaf(a, "", key);
    }
  }

  /** A checkpoint may resume across a chain of compatible configurations. */
  lemma CompatibilityIsAnEquivalence<V>(a: seq<Field<V>>, b: seq<Field<V>>, c: seq<Field<V>>)
    ensures Compatible(a, a)
    ensures Compatible(a, b) ==> Compatible(b, a)
    ensures Compatible(a, b) && Compatible(b, c) ==> Compatible(a, c)
  {
  }

  /** A removed field and a field set to None are the same to this test. */
  lemma NoneReadsAsMissing<V>(key: string)
    ensures Compatible([Field(key, Tree<V>.Leaf(None))], []) && !Same([Field(key, Tree<V>.Leaf(None))], [])
  {
    var one := [Field(key, Tree<V>.Leaf(None))];
    assert one[..0] == [];
    assert "" + key == key;
    assert !MatchedIn(one[0], []);
  }
}
