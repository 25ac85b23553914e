/** What a diff tree tells: both sides, whether they are equal, and nothing unchanged under a change. */
module DiffTree {
  import opened Results
  import opened Diff

  datatype Side = Left | Right

  predicate Present(n: Node, side: Side) {
    if side == Left then n.status != Added else n.status != Removed
  }

  function Leaf(n: Node, side: Side): Json
    requires n.Item?
  {
    match if side == Left then n.left else n.right
    case Some(v) => Meaning(v)
    case None => JNull
  }

  // ---------------------------------------------------------------- reading a side back

  /** Array children are named by an index in brackets, object children by a dot and their key. */
  predicate UnderObject(path: string, child: Node) {
    |child.path| > |path| && child.path[|path|] == '.'
  }

  function KeyOf(path: string, child: Node): string {
    if |child.path| > |path| then child.path[|path| + 1..] else ""
  }

  function Kept(children: seq<Node>, values: seq<Json>, side: Side): seq<Json>
    requires |children| == |values|
  {
    if children == [] then []
    else (if Present(children[0], side) then [values[0]] else []) + Kept(children[1..], values[1..], side)
  }

  function Keyed(path: string, children: seq<Node>, values: seq<Json>, side: Side): map<string, Json>
    requires |children| == |values|
  {
    if children == [] then map[]
    else
      var rest := Keyed(path, children[1..], values[1..], side);
      if Present(children[0], side) then rest[KeyOf(path, children[0]) := values[0]] else rest
  }

  /** One side of the comparison, read from the tree alone. */
  function Restore(n: Node, side: Side): Json
    decreases n
  {
    match n
    case Item(_, _, _, _) => Leaf(n, side)
    case Branch(path, _, children) =>
      var values := seq(|children|, i requires 0 <= i < |children| => Restore(children[i], side));
      if children != [] && UnderObject(path, children[0]) then JObj(Keyed(path, children, values, side))
      else JArr(Kept(children, values, side))
  }

  lemma {:induction false} KeptPrefix(children: seq<Node>, values: seq<Json>, side: Side, n: nat)
    requires |children| == |values| && n <= |children|
    requires forall i | 0 <= i < |children| :: Present(children[i], side) <==> i < n
    ensures Kept(children, values, side) == values[..n]
  {
    if children != [] {
      assert forall i | 0 <= i < |children[1..]| :: children[1..][i] == children[i + 1];
      KeptPrefix(children[1..], values[1..], side, if n > 0 then n - 1 else 0);
    }
  }

  ghost predicate DistinctKeys(path: string, children: seq<Node>) {
    forall i, j | 0 <= i < j < |children| :: KeyOf(path, children[i]) != KeyOf(path, children[j])
  }

  lemma {:induction false} KeyedOnly(path: string, children: seq<Node>, values: seq<Json>, side: Side, key: string)
    requires |children| == |values| && key in Keyed(path, children, values, side)
    ensures exists i | 0 <= i < |children| :: Present(children[i], side) && KeyOf(path, children[i]) == key
  {
    if Present(children[0], side) && KeyOf(path, children[0]) == key {
    } else {
      KeyedOnly(path, children[1..], values[1..], side, key);
      var i :| 0 <= i < |children[1..]| && Present(children[1..][i], side) && KeyOf(path, children[1..][i]) == key;
      assert children[i + 1] == children[1..][i];
    }
  }

  lemma {:induction false} KeyedAt(path: string, children: seq<Node>, values: seq<Json>, side: Side, i: nat)
    requires |children| == |values| && i < |children| && DistinctKeys(path, children) && Present(children[i], side)
    ensures KeyOf(path, children[i]) in Keyed(path, children, values, side)
    ensures Keyed(path, children, values, side)[KeyOf(path, children[i])] == values[i]
  {
    if i > 0 {
      assert forall j | 0 <= j < |children[1..]| :: children[1..][j] == children[j + 1];
      KeyedAt(path, children[1..], values[1..], side, i - 1);
      assert KeyOf(path, children[0]) != KeyOf(path, children[i]);
    }
  }

  // ---------------------------------------------------------------- the children of two objects

  lemma KeyOfKeyPath(path: string, key: string, n: Node)
    requires n.path == KeyPath(path, key)
    ensures UnderObject(path, n) && KeyOf(path, n) == key
  {
    assert n.path[|path|] == '.';
    assert n.path[|path| + 1..] == key;
  }

  lemma {:induction false} NotOwnedFacts(left: seq<Field>, fields: seq<Field>)
    requires forall i, j | 0 <= i < j < |fields| :: fields[i].key != fields[j].key
    ensures forall f | f in NotOwned(left, fields) :: f in fields && !Owns(left, f.key)
    ensures forall f | f in fields && !Owns(left, f.key) :: f in NotOwned(left, fields)
    ensures forall i, j | 0 <= i < j < |NotOwned(left, fields)| ::
              NotOwned(left, fields)[i].key != NotOwned(left, fields)[j].key
  {
    if fields != [] {
      assert forall i | 0 <= i < |fields[1..]| :: fields[1..][i] == fields[i + 1];
      NotOwnedFacts(left, fields[1..]);
      assert forall f | f in fields :: f == fields[0] || f in fields[1..];
      forall f | f in NotOwned(left, fields[1..]) ensures f.key != fields[0].key {
        var i :| 0 <= i < |fields[1..]| && fields[1..][i] == f;
        assert fields[0].key != fields[i + 1].key;
      }
      var rest, all := NotOwned(left, fields[1..]), NotOwned(left, fields);
      assert all == rest || all == [fields[0]] + rest;
      forall i, j | 0 <= i < j < |all| ensures all[i].key != all[j].key {
        if all != rest {
          assert all[j] == rest[j - 1];
          if i > 0 { assert all[i] == rest[i - 1]; } else { assert rest[j - 1] in rest; }
        }
      }
    }
  }

  /** The children of two unequal objects are the left fields' children, then one for each field only the right owns. */
  lemma ChildSequence(left: Value, right: Value, path: string)
    requires left.Obj? && right.Obj? && !Equal(left, right)
    ensures OwnDiff(left, right, path) == Branch(path, Changed,
              seq(|left.fields|, i requires 0 <= i < |left.fields| => OwnChild(left, right, path, i))
              + AddedNodes(path, NotOwned(left.fields, right.fields)))
  {
    hide AddedNodes, NotOwned, Equal;
    var cs := OwnDiff(left, right, path).children;
    var first := seq(|left.fields|, i requires 0 <= i < |left.fields| => OwnChild(left, right, path, i));
    assert |cs| == |left.fields| + |AddedNodes(path, NotOwned(left.fields, right.fields))|;
    forall i | 0 <= i < |left.fields| ensures cs[i] == first[i] {}
    assert cs[..|left.fields|] == first;
    assert cs == first + AddedNodes(path, NotOwned(left.fields, right.fields));
  }

  lemma ObjectChildren(left: Value, right: Value, path: string)
    requires left.Obj? && right.Obj? && !Equal(left, right)
    ensures var cs := OwnDiff(left, right, path).children;
            var rest := NotOwned(left.fields, right.fields);
            && OwnDiff(left, right, path) == Parent(path, cs)
            && |cs| == |left.fields| + |rest|
            && (forall i | 0 <= i < |left.fields| :: cs[i] == OwnChild(left, right, path, i))
            && (forall j | 0 <= j < |rest| :: cs[|left.fields| + j] == OnlyRight(KeyPath(path, rest[j].key), rest[j].value))
  {
    ChildSequence(left, right, path);
    hide OwnDiff, OwnChild, NotOwned, Equal, KeyPath;
  }

  lemma OwnDiffShape(left: Value, right: Value, path: string)
    ensures OwnDiff(left, right, path).path == path
    ensures OwnDiff(left, right, path).status in {Same, Changed}
    ensures OwnDiff(left, right, path).status == Same <==> Equal(left, right)
  {
  }

  /** The key a child stands for. */
  function ChildKey(left: Value, right: Value, i: nat): string
    requires left.Obj? && right.Obj? && i < |left.fields| + |NotOwned(left.fields, right.fields)|
  {
    if i < |left.fields| then left.fields[i].key else NotOwned(left.fields, right.fields)[i - |left.fields|].key
  }

  lemma ChildFacts(left: Value, right: Value, path: string, i: nat)
    requires left.Obj? && right.Obj? && IsJson(left) && IsJson(right) && !Equal(left, right)
    requires i < |OwnDiff(left, right, path).children|
    ensures i < |left.fields| + |NotOwned(left.fields, right.fields)|
    ensures var c, key := OwnDiff(left, right, path).children[i], ChildKey(left, right, i);
            && c.path == KeyPath(path, key)
            && (Present(c, Left) <==> i < |left.fields|)
            && (Present(c, Right) <==> Owns(right.fields, key))
  {
    ObjectChildren(left, right, path);
    NotOwnedFacts(left.fields, right.fields);
    var n := |left.fields|;
    if i < n {
      var Field(key, value) := left.fields[i];
      if Owns(right.fields, key) { OwnDiffShape(value, Get(right, key), KeyPath(path, key)); }
    } else {
      var f := NotOwned(left.fields, right.fields)[i - n];
      assert f in NotOwned(left.fields, right.fields);
      var j :| 0 <= j < |right.fields| && right.fields[j] == f;
      OwnIndex(right.fields, j);
    }
  }

  lemma ChildKeysDistinct(left: Value, right: Value, path: string)
    requires left.Obj? && right.Obj? && IsJson(left) && IsJson(right) && !Equal(left, right)
    ensures DistinctKeys(path, OwnDiff(left, right, path).children)
  {
    ObjectChildren(left, right, path);
    NotOwnedFacts(left.fields, right.fields);
    var cs := OwnDiff(left, right, path).children;
    var rest := NotOwned(left.fields, right.fields);
    hide OwnDiff, Equal, NotOwned, UnderObject;
    forall i, j | 0 <= i < j < |cs| ensures KeyOf(path, cs[i]) != KeyOf(path, cs[j]) {
      ChildFacts(left, right, path, i);
      ChildFacts(left, right, path, j);
      KeyOfKeyPath(path, ChildKey(left, right, i), cs[i]);
      KeyOfKeyPath(path, ChildKey(left, right, j), cs[j]);
      if i < |left.fields| {
        OwnIndex(left.fields, i);
        if j >= |left.fields| { assert rest[j - |left.fields|] in rest; }
      }
    }
  }

  // ---------------------------------------------------------------- lossless

  function SideOf(left: Value, right: Value, side: Side): Value { if side == Left then left else right }

  /** The tree determines both values, up to the order of object keys. */
  lemma {:induction false} Lossless(left: Value, right: Value, path: string, side: Side)
    requires IsJson(left) && IsJson(right)
    ensures Restore(OwnDiff(left, right, path), side) == Meaning(SideOf(left, right, side))
    decreases left
  {
    if Equal(left, right) {
    } else if left.Arr? && right.Arr? {
      LosslessArray(left, right, path, side);
    } else if left.Obj? && right.Obj? {
      LosslessObject(left, right, path, side);
    }
  }

  lemma {:induction false} LosslessArray(left: Value, right: Value, path: string, side: Side)
    requires left.Arr? && right.Arr? && IsJson(left) && IsJson(right) && !Equal(left, right)
    ensures Restore(OwnDiff(left, right, path), side) == Meaning(SideOf(left, right, side))
    decreases left, 0
  {
    var node := OwnDiff(left, right, path);
    var cs := node.children;
    var items := SideOf(left, right, side).items;
    var values := seq(|cs|, i requires 0 <= i < |cs| => Restore(cs[i], side));
    forall i | 0 <= i < |cs|
      ensures cs[i].path == IndexPath(path, i)
      ensures Present(cs[i], side) <==> i < |items|
      ensures i < |items| ==> values[i] == Meaning(items[i])
    {
      if i < |left.items| && i < |right.items| {
        Lossless(left.items[i], right.items[i], IndexPath(path, i), side);
        OwnDiffShape(left.items[i], right.items[i], IndexPath(path, i));
      }
    }
    if cs != [] { assert cs[0].path[|path|] == '['; }
    KeptPrefix(cs, values, side, |items|);
    assert values[..|items|] == Meaning(SideOf(left, right, side)).items;
  }

  lemma {:induction false} LosslessChild(left: Value, right: Value, path: string, side: Side, i: nat)
    requires left.Obj? && right.Obj? && IsJson(left) && IsJson(right) && !Equal(left, right)
    requires i < |OwnDiff(left, right, path).children|
    requires Present(OwnDiff(left, right, path).children[i], side)
    ensures i < |left.fields| + |NotOwned(left.fields, right.fields)|
    ensures var fields, key := SideOf(left, right, side).fields, ChildKey(left, right, i);
            && Owns(fields, key)
            && Restore(OwnDiff(left, right, path).children[i], side) == Meaning(fields[IndexOf(fields, key)].value)
    decreases left, 0
  {
    ChildFacts(left, right, path, i);
    ObjectChildren(left, right, path);
    NotOwnedFacts(left.fields, right.fields);
    var n := |left.fields|;
    var c := OwnDiff(left, right, path).children[i];
    hide OwnDiff, Equal, NotOwned, Meaning, IndexPath, KeyPath;
    if i < n {
      var Field(key, value) := left.fields[i];
      OwnIndex(left.fields, i);
      if Owns(right.fields, key) {
        Lossless(value, Get(right, key), KeyPath(path, key), side);
      }
    } else {
      var f := NotOwned(left.fields, right.fields)[i - n];
      assert f in NotOwned(left.fields, right.fields);
      var j :| 0 <= j < |right.fields| && right.fields[j] == f;
      OwnIndex(right.fields, j);
    }
  }

  /** Every key either side owns has a child. */
  lemma ChildFor(left: Value, right: Value, path: string, key: string) returns (i: nat)
    requires left.Obj? && right.Obj? && IsJson(left) && IsJson(right) && !Equal(left, right)
    requires Owns(left.fields, key) || Owns(right.fields, key)
    ensures i < |OwnDiff(left, right, path).children| == |left.fields| + |NotOwned(left.fields, right.fields)|
    ensures ChildKey(left, right, i) == key
  {
    hide OwnDiff, Equal, NotOwned;
    ObjectChildren(left, right, path);
    NotOwnedFacts(left.fields, right.fields);
    if Owns(left.fields, key) {
      i := IndexOf(left.fields, key);
    } else {
      var f := right.fields[IndexOf(right.fields, key)];
      assert f in right.fields;
      var j :| 0 <= j < |NotOwned(left.fields, right.fields)| && NotOwned(left.fields, right.fields)[j] == f;
      i := |left.fields| + j;
    }
  }

  lemma {:induction false} LosslessObject(left: Value, right: Value, path: string, side: Side)
    requires left.Obj? && right.Obj? && IsJson(left) && IsJson(right) && !Equal(left, right)
    ensures Restore(OwnDiff(left, right, path), side) == Meaning(SideOf(left, right, side))
    decreases left, 1
  {
    var fields := SideOf(left, right, side).fields;
    var node := OwnDiff(left, right, path);
    var cs := node.children;
    var values := seq(|cs|, i requires 0 <= i < |cs| => Restore(cs[i], side));
    var restored := Keyed(path, cs, values, side);
    UnequalHaveChildren(left, right, path);
    ChildFacts(left, right, path, 0);
    KeyOfKeyPath(path, ChildKey(left, right, 0), cs[0]);
    ObjectChildren(left, right, path);
    assert Restore(node, side) == JObj(restored);
    ChildKeysDistinct(left, right, path);
    MeaningKeys(fields);
    hide OwnDiff, Equal, NotOwned, Meaning, Keyed, ChildKey;
    forall key | key in restored ensures Owns(fields, key) {
      KeyedOnly(path, cs, values, side, key);
      var i :| 0 <= i < |cs| && Present(cs[i], side) && KeyOf(path, cs[i]) == key;
      ChildFacts(left, right, path, i);
      KeyOfKeyPath(path, ChildKey(left, right, i), cs[i]);
      LosslessChild(left, right, path, side, i);
    }
    forall key | Owns(fields, key)
      ensures key in restored && restored[key] == Meaning(fields[IndexOf(fields, key)].value)
    {
      var i := ChildFor(left, right, path, key);
      ChildFacts(left, right, path, i);
      PresentWhenOwned(left, right, path, side, i);
      KeyOfKeyPath(path, key, cs[i]);
      LosslessChild(left, right, path, side, i);
      KeyedAt(path, cs, values, side, i);
    }
    RestoredIsMeaning(fields, restored);
  }

  lemma PresentWhenOwned(left: Value, right: Value, path: string, side: Side, i: nat)
    requires left.Obj? && right.Obj? && IsJson(left) && IsJson(right) && !Equal(left, right)
    requires i < |OwnDiff(left, right, path).children| == |left.fields| + |NotOwned(left.fields, right.fields)|
    requires Owns(SideOf(left, right, side).fields, ChildKey(left, right, i))
    ensures Present(OwnDiff(left, right, path).children[i], side)
  {
    ChildFacts(left, right, path, i);
    NotOwnedFacts(left.fields, right.fields);
    if i >= |left.fields| {
      assert NotOwned(left.fields, right.fields)[i - |left.fields|] in NotOwned(left.fields, right.fields);
    }
  }

  lemma RestoredIsMeaning(fields: seq<Field>, restored: map<string, Json>)
    requires forall key | key in restored :: Owns(fields, key)
    requires forall key | Owns(fields, key) ::
               key in restored && restored[key] == Meaning(fields[IndexOf(fields, key)].value)
    ensures JObj(restored) == Meaning(Obj(fields))
  {
    MeaningKeys(fields);
    forall key ensures Owns(fields, key) <==> key in KeySet(fields) { OwnsIff(fields, key); }
    forall key | key in restored ensures restored[key] == Meaning(Obj(fields)).fields[key] { MeaningAt(fields, key); }
    assert restored == Meaning(Obj(fields)).fields;
  }

  // ---------------------------------------------------------------- minimal

  /** Two objects that differ have a child that says how. */
  lemma UnequalHaveChildren(left: Value, right: Value, path: string)
    requires left.Obj? && right.Obj? && IsJson(left) && IsJson(right) && !Equal(left, right)
    ensures exists i | 0 <= i < |OwnDiff(left, right, path).children| ::
              OwnDiff(left, right, path).children[i].status != Same
  {
    ObjectChildren(left, right, path);
    var cs := OwnDiff(left, right, path).children;
    var ls, rs := left.fields, right.fields;
    if i :| 0 <= i < |ls| && !(Owns(rs, ls[i].key) && Equal(ls[i].value, Get(right, ls[i].key))) {
      if Owns(rs, ls[i].key) { OwnDiffShape(ls[i].value, Get(right, ls[i].key), KeyPath(path, ls[i].key)); }
      assert cs[i] == OwnChild(left, right, path, i);
      assert cs[i].status != Same;
    } else {
      assert |ls| != |rs|;
      MoreKeys(ls, rs);
      assert cs[|ls| + 0].status == Added;
    }
  }

  lemma SameSize(a: set<string>, b: set<string>)
    requires forall k | k in a :: k in b
    requires forall k | k in b :: k in a
    ensures |a| == |b|
  {
    assert a == b;
  }

  lemma MoreKeys(ls: seq<Field>, rs: seq<Field>)
    requires forall i, j | 0 <= i < j < |ls| :: ls[i].key != ls[j].key
    requires forall i, j | 0 <= i < j < |rs| :: rs[i].key != rs[j].key
    requires |ls| != |rs| && forall i | 0 <= i < |ls| :: Owns(rs, ls[i].key)
    ensures NotOwned(ls, rs) != []
  {
    KeyCount(ls);
    KeyCount(rs);
    NotOwnedFacts(ls, rs);
    if NotOwned(ls, rs) == [] {
      forall k | k in KeySet(rs) ensures k in KeySet(ls) {
        OwnsIff(rs, k);
        assert rs[IndexOf(rs, k)] in rs;
        OwnsIff(ls, k);
      }
      forall k | k in KeySet(ls) ensures k in KeySet(rs) { OwnsIff(rs, k); }
      SameSize(KeySet(ls), KeySet(rs));
    }
  }

  /** Children appear only under a change, and one of them is a change. */
  ghost predicate Minimal(n: Node)
    decreases n
  {
    match n
    case Item(_, _, _, _) => true
    case Branch(_, status, cs) =>
      && status == Changed
      && (exists i | 0 <= i < |cs| :: cs[i].status != Same)
      && forall i | 0 <= i < |cs| :: Minimal(cs[i])
  }

  lemma {:induction false} TreeMinimal(left: Value, right: Value, path: string)
    requires IsJson(left) && IsJson(right)
    ensures Minimal(OwnDiff(left, right, path))
    decreases left
  {
    if Equal(left, right) {
    } else if left.Arr? && right.Arr? {
      var cs := OwnDiff(left, right, path).children;
      forall i | 0 <= i < |cs| ensures Minimal(cs[i]) {
        if i < |left.items| && i < |right.items| { TreeMinimal(left.items[i], right.items[i], IndexPath(path, i)); }
      }
      if i :| 0 <= i < |left.items| && i < |right.items| && !Equal(left.items[i], right.items[i]) {
        OwnDiffShape(left.items[i], right.items[i], IndexPath(path, i));
        assert cs[i].status != Same;
      } else {
        var i := if |left.items| < |right.items| then |left.items| else |right.items|;
        assert cs[i].status != Same;
      }
    } else if left.Obj? && right.Obj? {
      UnequalHaveChildren(left, right, path);
      ObjectChildren(left, right, path);
      var cs := OwnDiff(left, right, path).children;
      hide OwnDiff, Equal, NotOwned;
      forall i | 0 <= i < |cs| ensures Minimal(cs[i]) {
        if i < |left.fields| {
          var Field(key, value) := left.fields[i];
          if Owns(right.fields, key) { TreeMinimal(value, Get(right, key), KeyPath(path, key)); }
        } else {
          assert cs[|left.fields| + (i - |left.fields|)].Item?;
        }
      }
    }
  }

  /** What the comparison page shows: the code's tree, wherever inherited names stay out of the way. */
  lemma TreeTellsAll(left: Value, right: Value, path: string)
    requires IsJson(left) && IsJson(right) && KeysAgree(left, right)
    ensures var node := DiffValues(left, right, path);
            && Restore(node, Left) == Meaning(left)
            && Restore(node, Right) == Meaning(right)
            && (node.status == Same <==> Meaning(left) == Meaning(right))
            && Minimal(node)
  {
    TreeExactIff(left, right, path);
    Lossless(left, right, path, Left);
    Lossless(left, right, path, Right);
    EqualIffSameMeaning(left, right);
    OwnDiffShape(left, right, path);
    TreeMinimal(left, right, path);
  }

  // ---------------------------------------------------------------- topics

  datatype Decoded = Decoded(kind: string, value: Value)

  /** A topic node; a whole topic stands on a side whose kind changed. */
  datatype TopicNode =
    | Slot(node: Node)
    | OneSided(path: string, status: Status, topic: Decoded)
    | Reshaped(path: string, left: Decoded, right: Decoded)

  function TopicPath(i: nat): string { IndexPath("topic", i) }

  function TopicAt(left: seq<Decoded>, right: seq<Decoded>, i: nat): TopicNode
    requires i < Max(|left|, |right|)
  {
    if i >= |left| then OneSided(TopicPath(i), Added, right[i])
    else if i >= |right| then OneSided(TopicPath(i), Removed, left[i])
    else if left[i].kind != right[i].kind then Reshaped(TopicPath(i), left[i], right[i])
    else Slot(DiffValues(left[i].value, right[i].value, TopicPath(i)))
  }

  /** `diffTopics` */
  method DiffTopics(left: seq<Decoded>, right: seq<Decoded>) returns (nodes: seq<TopicNode>)
    ensures |nodes| == Max(|left|, |right|)
    ensures forall i | 0 <= i < |nodes| :: nodes[i] == TopicAt(left, right, i)
  {
    nodes := [];
    for i := 0 to Max(|left|, |right|)
      invariant |nodes| == i
      invariant forall j | 0 <= j < i :: nodes[j] == TopicAt(left, right, j)
    {
      if i >= |left| {
        nodes := nodes + [OneSided(TopicPath(i), Added, right[i])];
      } else if i >= |right| {
        nodes := nodes + [OneSided(TopicPath(i), Removed, left[i])];
      } else if left[i].kind != right[i].kind {
        nodes := nodes + [Reshaped(TopicPath(i), left[i], right[i])];
      } else {
        var node := ComputeDiff(left[i].value, right[i].value, TopicPath(i));
        nodes := nodes + [Slot(node)];
      }
    }
  }

  predicate IsSame(n: TopicNode) { n.Slot? && n.node.status == Same }

  function TopicMeaning(d: Decoded): (string, Json) { (d.kind, Meaning(d.value)) }

  ghost predicate JsonTopics(topics: seq<Decoded>) {
    forall i | 0 <= i < |topics| :: IsJson(topics[i].value)
  }

  /** Every slot is `same`. */
  ghost predicate AllSame(left: seq<Decoded>, right: seq<Decoded>) {
    forall i | 0 <= i < Max(|left|, |right|) :: IsSame(TopicAt(left, right, i))
  }

  /** The lists are equal slot for slot. */
  ghost predicate SameTopics(left: seq<Decoded>, right: seq<Decoded>) {
    |left| == |right| && forall i | 0 <= i < |left| :: TopicMeaning(left[i]) == TopicMeaning(right[i])
  }

  lemma AllSameSlots(left: seq<Decoded>, right: seq<Decoded>)
    ensures AllSame(left, right) <==>
            |left| == |right| && forall i | 0 <= i < |left| :: left[i].kind == right[i].kind && DeepEqual(left[i].value, right[i].value)
  {
    hide DeepEqual, DiffValues;
    forall i | 0 <= i < |left| && i < |right|
      ensures IsSame(TopicAt(left, right, i)) <==> left[i].kind == right[i].kind && DeepEqual(left[i].value, right[i].value)
    {
      SameIffDeepEqual(left[i].value, right[i].value, TopicPath(i));
    }
    if |left| != |right| {
      var i := if |left| < |right| then |left| else |right|;
      assert !IsSame(TopicAt(left, right, i));
    }
  }

  lemma SameIffDeepEqual(left: Value, right: Value, path: string)
    ensures DiffValues(left, right, path).status == Same <==> DeepEqual(left, right)
  {
  }

  /** Topics are all the same as those of an equal list, and of no other unless a left topic owns `__proto__: {}`. */
  lemma AllSameIffEqual(left: seq<Decoded>, right: seq<Decoded>)
    requires JsonTopics(left) && JsonTopics(right)
    ensures SameTopics(left, right) ==> AllSame(left, right)
    ensures (forall i | 0 <= i < |left| :: ProtoFree(left[i].value)) ==> (AllSame(left, right) <==> SameTopics(left, right))
  {
    AllSameSlots(left, right);
    forall i | 0 <= i < |left| && i < |right|
      ensures Meaning(left[i].value) == Meaning(right[i].value) ==> DeepEqual(left[i].value, right[i].value)
      ensures ProtoFree(left[i].value) && DeepEqual(left[i].value, right[i].value) ==> Meaning(left[i].value) == Meaning(right[i].value)
    {
      DeepEqualExactIff(left[i].value);
      DeepEqualWhenKeysAgree(left[i].value, right[i].value);
    }
    hide Meaning, DeepEqual, ProtoFree, AllSame;
  }

  /** The topic diff decides equality with every list exactly when no topic on the left owns `__proto__: {}`. */
  lemma TopicsExactIff(left: seq<Decoded>)
    requires JsonTopics(left)
    ensures (forall right | JsonTopics(right) :: AllSame(left, right) <==> SameTopics(left, right)) <==>
            forall i | 0 <= i < |left| :: ProtoFree(left[i].value)
  {
    forall right | JsonTopics(right)
      ensures (forall i | 0 <= i < |left| :: ProtoFree(left[i].value)) ==> (AllSame(left, right) <==> SameTopics(left, right))
    {
      AllSameIffEqual(left, right);
    }
    if i :| 0 <= i < |left| && !ProtoFree(left[i].value) {
      var twin := Twin(left[i].value);
      TwinTopics(left, i, twin);
    }
  }

  lemma TwinTopics(left: seq<Decoded>, i: nat, twin: Value)
    requires JsonTopics(left) && i < |left|
    requires IsJson(twin) && DeepEqual(left[i].value, twin) && !Equal(left[i].value, twin)
    ensures exists right :: JsonTopics(right) && AllSame(left, right) && !SameTopics(left, right)
  {
    var right := left[i := Decoded(left[i].kind, twin)];
    forall j | 0 <= j < |left| ensures DeepEqual(left[j].value, right[j].value) {
      if j != i { SelfEqual(left[j].value); }
    }
    EqualIffSameMeaning(left[i].value, twin);
    AllSameSlots(left, right);
    assert TopicMeaning(left[i]) != TopicMeaning(right[i]);
    assert JsonTopics(right) && AllSame(left, right) && !SameTopics(left, right);
  }
}
