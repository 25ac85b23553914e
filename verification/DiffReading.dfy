/** What the code's own tree still tells when inherited names get in the way. */
module DiffReading {
  import opened Results
  import opened JavaScript
  import opened Diff
  import opened DiffTree

  ghost predicate KeysMatch(left: seq<Field>, right: seq<Field>) {
    forall k | Inherited(k) :: Owns(left, k) <==> Owns(right, k)
  }

  /** As `KeysAgree`, but not asked below a pair the code takes for equal: there both values are kept whole. */
  ghost predicate AgreeBelow(left: Value, right: Value)
    decreases left
  {
    if DeepEqual(left, right) then true
    else if left.Arr? && right.Arr? then
      forall i | 0 <= i < |left.items| && i < |right.items| :: AgreeBelow(left.items[i], right.items[i])
    else if left.Obj? && right.Obj? then
      && KeysMatch(left.fields, right.fields)
      && forall i | 0 <= i < |left.fields| && Owns(right.fields, left.fields[i].key) ::
           AgreeBelow(left.fields[i].value, Get(right, left.fields[i].key))
    else true
  }

  // ---------------------------------------------------------------- reading an object back

  /** A branch over distinct keys reads as an object exactly when its children are that object's fields. */
  lemma ReadObject(path: string, status: Status, keys: seq<string>, cs: seq<Node>, side: Side, fields: seq<Field>)
    requires cs != [] && |keys| == |cs| && forall i | 0 <= i < |cs| :: cs[i].path == KeyPath(path, keys[i])
    requires forall i, j | 0 <= i < j < |keys| :: keys[i] != keys[j]
    ensures Restore(Branch(path, status, cs), side) == Meaning(Obj(fields)) <==>
            && (forall i | 0 <= i < |cs| :: Present(cs[i], side) <==> Owns(fields, keys[i]))
            && (forall i | 0 <= i < |cs| && Owns(fields, keys[i]) ::
                  Restore(cs[i], side) == Meaning(fields[IndexOf(fields, keys[i])].value))
            && (forall k | Owns(fields, k) :: k in keys)
  {
    var values := seq(|cs|, i requires 0 <= i < |cs| => Restore(cs[i], side));
    var restored := Keyed(path, cs, values, side);
    forall i | 0 <= i < |cs| ensures UnderObject(path, cs[i]) && KeyOf(path, cs[i]) == keys[i] { KeyOfKeyPath(path, keys[i], cs[i]); }
    assert Restore(Branch(path, status, cs), side) == JObj(restored);
    forall i | 0 <= i < |cs|
      ensures Present(cs[i], side) ==> keys[i] in restored && restored[keys[i]] == values[i]
      ensures keys[i] in restored ==> Present(cs[i], side)
    {
      if Present(cs[i], side) { KeyedAt(path, cs, values, side, i); }
      if keys[i] in restored { KeyedOnly(path, cs, values, side, keys[i]); }
    }
    forall k | k in restored ensures k in keys {
      KeyedOnly(path, cs, values, side, k);
    }
    ReadFields(keys, restored, fields);
  }

  lemma ReadFields(keys: seq<string>, restored: map<string, Json>, fields: seq<Field>)
    requires forall k | k in restored :: k in keys
    ensures JObj(restored) == Meaning(Obj(fields)) <==>
            && (forall i | 0 <= i < |keys| :: keys[i] in restored <==> Owns(fields, keys[i]))
            && (forall i | 0 <= i < |keys| && Owns(fields, keys[i]) && keys[i] in restored ::
                  restored[keys[i]] == Meaning(fields[IndexOf(fields, keys[i])].value))
            && (forall k | Owns(fields, k) :: k in keys)
  {
    MeaningKeys(fields);
    forall k ensures Owns(fields, k) <==> k in KeySet(fields) { OwnsIff(fields, k); }
    forall k | Owns(fields, k)
      ensures k in Meaning(Obj(fields)).fields
      ensures Meaning(Obj(fields)).fields[k] == Meaning(fields[IndexOf(fields, k)].value)
    {
      MeaningAt(fields, k);
    }
    if (forall i | 0 <= i < |keys| :: keys[i] in restored <==> Owns(fields, keys[i]))
      && (forall i | 0 <= i < |keys| && Owns(fields, keys[i]) && keys[i] in restored ::
            restored[keys[i]] == Meaning(fields[IndexOf(fields, keys[i])].value))
      && (forall k | Owns(fields, k) :: k in keys) {
      RestoredIsMeaning(fields, restored);
    }
  }

  // ---------------------------------------------------------------- the code's children of two objects

  lemma {:induction false} NotInFacts(left: Value, fields: seq<Field>)
    requires left.Obj? && forall i, j | 0 <= i < j < |fields| :: fields[i].key != fields[j].key
    ensures forall f :: f in NotIn(left, fields) <==> f in fields && !In(left, f.key)
    ensures forall i, j | 0 <= i < j < |NotIn(left, fields)| :: NotIn(left, fields)[i].key != NotIn(left, fields)[j].key
  {
    if fields != [] {
      var rest, all := NotIn(left, fields[1..]), NotIn(left, fields);
      assert forall i | 0 <= i < |fields[1..]| :: fields[1..][i] == fields[i + 1];
      NotInFacts(left, fields[1..]);
      assert forall f | f in fields :: f == fields[0] || f in fields[1..];
      forall f | f in rest ensures f.key != fields[0].key {
        var i :| 0 <= i < |fields[1..]| && fields[1..][i] == f;
        assert fields[0].key != fields[i + 1].key;
      }
      assert all == rest || all == [fields[0]] + rest;
      forall i, j | 0 <= i < j < |all| ensures all[i].key != all[j].key {
        if all != rest {
          assert all[j] == rest[j - 1];
          if i > 0 { assert all[i] == rest[i - 1]; } else { assert rest[j - 1] in rest; }
        }
      }
    }
  }

  function CodeKeys(left: Value, right: Value): seq<string>
    requires left.Obj? && right.Obj?
  {
    var rest := NotIn(left, right.fields);
    seq(|left.fields|, i requires 0 <= i < |left.fields| => left.fields[i].key)
    + seq(|rest|, i requires 0 <= i < |rest| => rest[i].key)
  }

  lemma CodeChildren(left: Value, right: Value, path: string)
    requires left.Obj? && right.Obj? && !DeepEqual(left, right)
    ensures var n, rest, cs := |left.fields|, NotIn(left, right.fields), DiffValues(left, right, path).children;
      && DiffValues(left, right, path) == Branch(path, Changed, cs) && |cs| == n + |rest| == |CodeKeys(left, right)|
      && (forall i | 0 <= i < n :: cs[i] == KeyChild(left.fields, right, path, i))
      && (forall i | n <= i < |cs| :: cs[i] == OnlyRight(KeyPath(path, rest[i - n].key), rest[i - n].value))
  {
  }

  lemma ChildShape(left: Value, right: Value, path: string, i: nat)
    requires left.Obj? && right.Obj? && i < |left.fields|
    ensures var c, key := KeyChild(left.fields, right, path, i), left.fields[i].key;
      && c.path == KeyPath(path, key) && Present(c, Left) && (Present(c, Right) <==> In(right, key))
  {
  }

  lemma CodeKeysDistinct(left: Value, right: Value)
    requires left.Obj? && right.Obj? && IsJson(left) && IsJson(right)
    ensures var keys := CodeKeys(left, right); forall i, j | 0 <= i < j < |keys| :: keys[i] != keys[j]
  {
    NotInFacts(left, right.fields);
    var keys, n, rest := CodeKeys(left, right), |left.fields|, NotIn(left, right.fields);
    hide NotIn;
    forall i, j | 0 <= i < j < |keys| ensures keys[i] != keys[j] {
      if i < n <= j {
        assert rest[j - n] in rest;
        OwnIndex(left.fields, i);
      }
    }
  }

  /** The children stand for every key of either side, but for the strays of the right. */
  lemma KeyStands(left: Value, right: Value, key: string)
    requires left.Obj? && right.Obj? && IsJson(right)
    ensures key in CodeKeys(left, right) <==> Owns(left.fields, key) || (Owns(right.fields, key) && !In(left, key))
  {
    NotInFacts(left, right.fields);
    var keys, n, rest := CodeKeys(left, right), |left.fields|, NotIn(left, right.fields);
    hide NotIn;
    if Owns(left.fields, key) { assert keys[IndexOf(left.fields, key)] == key; }
    if Owns(right.fields, key) && !In(left, key) {
      var f := right.fields[IndexOf(right.fields, key)];
      assert f in rest;
      var j :| 0 <= j < |rest| && rest[j] == f;
      assert keys[n + j] == key;
    }
    if key in keys {
      var i :| 0 <= i < |keys| && keys[i] == key;
      if i >= n { assert rest[i - n] in rest; }
    }
  }

  lemma AddedChild(left: Value, right: Value, j: nat)
    requires left.Obj? && right.Obj? && IsJson(right) && j < |NotIn(left, right.fields)|
    ensures var f := NotIn(left, right.fields)[j];
      && !Owns(left.fields, f.key) && Owns(right.fields, f.key) && right.fields[IndexOf(right.fields, f.key)] == f
  {
    NotInFacts(left, right.fields);
    var f := NotIn(left, right.fields)[j];
    assert f in NotIn(left, right.fields);
    var i :| 0 <= i < |right.fields| && right.fields[i] == f;
    OwnIndex(right.fields, i);
  }

  /** The children that stand for left fields read as the fields of that side. */
  ghost predicate ChildrenRead(left: Value, right: Value, path: string, side: Side)
    requires left.Obj? && right.Obj?
  {
    var fields := SideOf(left, right, side).fields;
    forall i | 0 <= i < |left.fields| && Owns(fields, left.fields[i].key) ::
      Restore(KeyChild(left.fields, right, path, i), side) == Meaning(fields[IndexOf(fields, left.fields[i].key)].value)
  }

  lemma ChildAt(left: Value, right: Value, path: string, side: Side, i: nat)
    requires left.Obj? && right.Obj? && IsJson(right) && !DeepEqual(left, right)
    requires i < |DiffValues(left, right, path).children|
    ensures |CodeKeys(left, right)| == |DiffValues(left, right, path).children| >= |left.fields|
    ensures var c, key, n := DiffValues(left, right, path).children[i], CodeKeys(left, right)[i], |left.fields|;
      var fields := SideOf(left, right, side).fields;
      && c.path == KeyPath(path, key)
      && (i < n ==> c == KeyChild(left.fields, right, path, i) && key == left.fields[i].key && Owns(left.fields, key))
      && (i < n ==> (Present(c, side) <==> side == Left || In(right, key)))
      && (i >= n ==> (Present(c, side) <==> side == Right) && (Owns(fields, key) <==> side == Right))
      && (i >= n && side == Right ==> Restore(c, side) == Meaning(fields[IndexOf(fields, key)].value))
  {
    CodeChildren(left, right, path);
    hide DiffValues, DeepEqual, NotIn, Meaning, KeyChild, IsJson;
    if i < |left.fields| { ChildShape(left, right, path, i); OwnIndexOf(left.fields, i); }
    else { AddedChild(left, right, i - |left.fields|); }
  }

  /** Two objects the code tells apart: what a side reads as, from what its children read as. */
  lemma ReadCodeObject(left: Value, right: Value, path: string, side: Side)
    requires left.Obj? && right.Obj? && IsJson(left) && IsJson(right) && !DeepEqual(left, right)
    requires DiffValues(left, right, path).children != []
    ensures Restore(DiffValues(left, right, path), side) == Meaning(SideOf(left, right, side)) <==>
            (side == Right ==> KeysMatch(left.fields, right.fields)) && ChildrenRead(left, right, path, side)
  {
    var fields, cs, keys := SideOf(left, right, side).fields, DiffValues(left, right, path).children, CodeKeys(left, right);
    var n := |left.fields|;
    CodeChildren(left, right, path);
    CodeKeysDistinct(left, right);
    forall i | 0 <= i < |cs|
      ensures cs[i].path == KeyPath(path, keys[i])
      ensures i < n ==> cs[i] == KeyChild(left.fields, right, path, i) && keys[i] == left.fields[i].key && Owns(left.fields, keys[i])
      ensures i < n ==> (Present(cs[i], side) <==> side == Left || In(right, keys[i]))
      ensures i >= n ==> (Present(cs[i], side) <==> side == Right) && (Owns(fields, keys[i]) <==> side == Right)
      ensures i >= n && side == Right ==> Restore(cs[i], side) == Meaning(fields[IndexOf(fields, keys[i])].value)
    {
      ChildAt(left, right, path, side, i);
    }
    ReadObject(path, Changed, keys, cs, side, fields);
    KeysStand(left, right, side);
    hide DiffValues, DeepEqual, NotIn, Meaning, KeyChild, IsJson, Owns, CodeKeys, KeysMatch, Restore, Present;
  }

  /** No stray on either side, in terms of the children's keys. */
  lemma KeysStand(left: Value, right: Value, side: Side)
    requires left.Obj? && right.Obj? && IsJson(right)
    ensures side == Right ==>
      (KeysMatch(left.fields, right.fields) <==>
        && (forall i | 0 <= i < |left.fields| :: In(right, left.fields[i].key) <==> Owns(right.fields, left.fields[i].key))
        && (forall k | Owns(right.fields, k) :: k in CodeKeys(left, right)))
    ensures side == Left ==> forall k | Owns(left.fields, k) :: k in CodeKeys(left, right)
  {
    forall key ensures key in CodeKeys(left, right) <==> Owns(left.fields, key) || (Owns(right.fields, key) && !In(left, key)) {
      KeyStands(left, right, key);
    }
    hide CodeKeys, IsJson, Owns;
    MatchIff(left.fields, right.fields);
  }

  lemma OwnIndexOf(fields: seq<Field>, i: nat)
    requires i < |fields|
    ensures Owns(fields, fields[i].key)
  {
  }

  lemma MatchIff(left: seq<Field>, right: seq<Field>)
    ensures KeysMatch(left, right) <==>
            && (forall i | 0 <= i < |left| :: Inherited(left[i].key) ==> Owns(right, left[i].key))
            && (forall k | Owns(right, k) && Inherited(k) :: Owns(left, k))
  {
    forall i | 0 <= i < |left| ensures Owns(left, left[i].key) { OwnIndexOf(left, i); }
    forall k | Owns(left, k) ensures left[IndexOf(left, k)].key == k {}
  }

  /** A branch without children: the left is empty and the right owns nothing but inherited names. */
  lemma NoChildren(left: Value, right: Value, path: string)
    requires left.Obj? && right.Obj? && IsJson(left) && IsJson(right) && !DeepEqual(left, right)
    requires DiffValues(left, right, path).children == []
    ensures !KeysMatch(left.fields, right.fields)
    ensures forall side :: Restore(DiffValues(left, right, path), side) == JArr([])
  {
    CodeChildren(left, right, path);
    NotInFacts(left, right.fields);
    assert right.fields != [] && right.fields[0] in right.fields;
    OwnIndexOf(right.fields, 0);
    assert Inherited(right.fields[0].key);
  }

  // ---------------------------------------------------------------- lossless

  /** The code's tree gives a side back when keys agree below; and the right side only then. */
  lemma {:induction false} CodeLossless(left: Value, right: Value, path: string, side: Side)
    requires IsJson(left) && IsJson(right)
    ensures AgreeBelow(left, right) ==> Restore(DiffValues(left, right, path), side) == Meaning(SideOf(left, right, side))
    ensures side == Right && Restore(DiffValues(left, right, path), Right) == Meaning(right) ==> AgreeBelow(left, right)
    decreases left
  {
    if DeepEqual(left, right) {
    } else if left.Arr? && right.Arr? {
      CodeLosslessArray(left, right, path, side);
    } else if left.Obj? && right.Obj? {
      CodeLosslessObject(left, right, path, side);
    }
  }

  lemma ReadArray(path: string, cs: seq<Node>, side: Side)
    requires forall i | 0 <= i < |cs| :: cs[i].path == IndexPath(path, i)
    ensures var values := seq(|cs|, i requires 0 <= i < |cs| => Restore(cs[i], side));
            Restore(Parent(path, cs), side) == JArr(Kept(cs, values, side))
  {
    if cs != [] { assert cs[0].path[|path|] == '['; }
  }

  lemma {:induction false} ItemChildLossless(left: Value, right: Value, path: string, side: Side, i: nat)
    requires left.Arr? && right.Arr? && IsJson(left) && IsJson(right) && i < Max(|left.items|, |right.items|)
    ensures var c, items := ItemChild(left, right, path, i), SideOf(left, right, side).items;
      && c.path == IndexPath(path, i) && (Present(c, side) <==> i < |items|)
      && (i < |items| && (i < |left.items| && i < |right.items| ==> AgreeBelow(left.items[i], right.items[i])) ==>
            Restore(c, side) == Meaning(items[i]))
      && (side == Right && i < |left.items| && i < |right.items| && Restore(c, side) == Meaning(items[i]) ==>
            AgreeBelow(left.items[i], right.items[i]))
    decreases left, 0
  {
    if i < |left.items| && i < |right.items| { CodeLossless(left.items[i], right.items[i], IndexPath(path, i), side); }
  }

  lemma {:induction false} CodeLosslessArray(left: Value, right: Value, path: string, side: Side)
    requires left.Arr? && right.Arr? && IsJson(left) && IsJson(right) && !DeepEqual(left, right)
    ensures AgreeBelow(left, right) ==> Restore(DiffValues(left, right, path), side) == Meaning(SideOf(left, right, side))
    ensures side == Right && Restore(DiffValues(left, right, path), Right) == Meaning(right) ==> AgreeBelow(left, right)
    decreases left, 1
  {
    var node := DiffValues(left, right, path);
    var cs, items := node.children, SideOf(left, right, side).items;
    var values := seq(|cs|, i requires 0 <= i < |cs| => Restore(cs[i], side));
    forall i | 0 <= i < |cs|
      ensures cs[i].path == IndexPath(path, i)
      ensures Present(cs[i], side) <==> i < |items|
      ensures i < |items| && (i < |left.items| && i < |right.items| ==> AgreeBelow(left.items[i], right.items[i])) ==>
                values[i] == Meaning(items[i])
      ensures side == Right && i < |left.items| && i < |right.items| && values[i] == Meaning(items[i]) ==>
                AgreeBelow(left.items[i], right.items[i])
    {
      assert cs[i] == ItemChild(left, right, path, i);
      ItemChildLossless(left, right, path, side, i);
    }
    hide DiffValues, DeepEqual, AgreeBelow, Restore, ItemChild;
    KeptPrefix(cs, values, side, |items|);
    var meant := Meaning(SideOf(left, right, side)).items;
    assert Restore(node, side) == JArr(values[..|items|]) by { ReadArray(path, cs, side); }
    assert values[..|items|] == meant <==> forall i | 0 <= i < |items| :: values[i] == meant[i];
  }

  ghost predicate FieldsAgree(left: Value, right: Value)
    requires left.Obj? && right.Obj?
  {
    forall i | 0 <= i < |left.fields| && Owns(right.fields, left.fields[i].key) ::
      AgreeBelow(left.fields[i].value, Get(right, left.fields[i].key))
  }

  lemma AgreeUnfolded(left: Value, right: Value)
    requires left.Obj? && right.Obj? && !DeepEqual(left, right)
    ensures AgreeBelow(left, right) <==> KeysMatch(left.fields, right.fields) && FieldsAgree(left, right)
  {
  }

  lemma {:induction false} CodeLosslessObject(left: Value, right: Value, path: string, side: Side)
    requires left.Obj? && right.Obj? && IsJson(left) && IsJson(right) && !DeepEqual(left, right)
    ensures AgreeBelow(left, right) ==> Restore(DiffValues(left, right, path), side) == Meaning(SideOf(left, right, side))
    ensures side == Right && Restore(DiffValues(left, right, path), Right) == Meaning(right) ==> AgreeBelow(left, right)
    decreases left, 2
  {
    CodeChildren(left, right, path);
    hide DiffValues, DeepEqual, Meaning, IsJson, Restore, AgreeBelow, FieldsAgree, ChildrenRead, KeysMatch;
    AgreeUnfolded(left, right);
    if DiffValues(left, right, path).children == [] {
      NoChildren(left, right, path);
      ObjectIsNoArray(right);
    } else {
      ReadCodeObject(left, right, path, side);
      ChildrenLossless(left, right, path, side);
    }
  }

  lemma ObjectIsNoArray(v: Value)
    requires v.Obj?
    ensures Meaning(v).JObj?
  {
  }

  lemma {:induction false} ChildrenLossless(left: Value, right: Value, path: string, side: Side)
    requires left.Obj? && right.Obj? && IsJson(left) && IsJson(right)
    ensures KeysMatch(left.fields, right.fields) && FieldsAgree(left, right) ==> ChildrenRead(left, right, path, side)
    ensures side == Right && ChildrenRead(left, right, path, side) ==> FieldsAgree(left, right)
    decreases left, 1
  {
    hide DiffValues, DeepEqual, Meaning, NotIn, Restore, AgreeBelow, KeysMatch, KeyChild;
    forall i | 0 <= i < |left.fields| && (side == Left ==> KeysMatch(left.fields, right.fields))
      ensures var Field(key, value) := left.fields[i]; var fields := SideOf(left, right, side).fields;
        var read := Restore(KeyChild(left.fields, right, path, i), side);
        && (Owns(fields, key) && (Owns(right.fields, key) ==> AgreeBelow(value, Get(right, key))) ==>
              read == Meaning(fields[IndexOf(fields, key)].value))
        && (side == Right && Owns(fields, key) && read == Meaning(Get(right, key)) ==> AgreeBelow(value, Get(right, key)))
    {
      ObjectChildLossless(left, right, path, side, i);
    }
  }

  lemma {:induction false} ObjectChildLossless(left: Value, right: Value, path: string, side: Side, i: nat)
    requires left.Obj? && right.Obj? && IsJson(left) && IsJson(right) && i < |left.fields|
    requires side == Left ==> KeysMatch(left.fields, right.fields)
    ensures var Field(key, value) := left.fields[i]; var fields := SideOf(left, right, side).fields;
      var read := Restore(KeyChild(left.fields, right, path, i), side);
      && (Owns(fields, key) && (Owns(right.fields, key) ==> AgreeBelow(value, Get(right, key))) ==>
            read == Meaning(fields[IndexOf(fields, key)].value))
      && (side == Right && Owns(fields, key) && read == Meaning(Get(right, key)) ==> AgreeBelow(value, Get(right, key)))
    decreases left, 0
  {
    var Field(key, value) := left.fields[i];
    OwnIndex(left.fields, i);
    OwnIndexOf(left.fields, i);
    if Owns(right.fields, key) { CodeLossless(value, Get(right, key), KeyPath(path, key), side); }
  }

  /** Both sides can be read back from the code's tree exactly when keys agree wherever it is not cut off as `same`. */
  lemma LosslessExactIff(left: Value, right: Value, path: string)
    requires IsJson(left) && IsJson(right)
    ensures var node := DiffValues(left, right, path);
            (Restore(node, Left) == Meaning(left) && Restore(node, Right) == Meaning(right)) <==> AgreeBelow(left, right)
  {
    CodeLossless(left, right, path, Left);
    CodeLossless(left, right, path, Right);
  }

  // ---------------------------------------------------------------- minimal

  /** Some key of either object accounts for their difference, as the code looks keys up. */
  ghost predicate Accounted(left: Value, right: Value)
    requires left.Obj? && IsPlainObject(right)
  {
    || (exists i | 0 <= i < |left.fields| ::
          !In(right, left.fields[i].key) || !DeepEqual(left.fields[i].value, Get(right, left.fields[i].key)))
    || (exists i | 0 <= i < |FieldsOf(right)| :: !In(left, FieldsOf(right)[i].key))
  }

  /** Every two objects the walk lines up and tells apart are accounted for. */
  ghost predicate Explained(left: Value, right: Value)
    decreases left
  {
    if DeepEqual(left, right) then true
    else if left.Arr? && right.Arr? then
      forall i | 0 <= i < |left.items| && i < |right.items| :: Explained(left.items[i], right.items[i])
    else if left.Obj? && IsPlainObject(right) then
      && Accounted(left, right)
      && forall i | 0 <= i < |left.fields| && In(right, left.fields[i].key) ::
           Explained(left.fields[i].value, Get(right, left.fields[i].key))
    else true
  }

  lemma StatusOf(left: Value, right: Value, path: string)
    ensures DiffValues(left, right, path).status == (if DeepEqual(left, right) then Same else Changed)
  {
  }

  /** The code's tree is minimal exactly when every difference of two objects is accounted for by a key. */
  lemma {:induction false} MinimalExactIff(left: Value, right: Value, path: string)
    requires IsJson(left)
    ensures Minimal(DiffValues(left, right, path)) <==> Explained(left, right)
    decreases left
  {
    if DeepEqual(left, right) {
    } else if left.Arr? && right.Arr? {
      MinimalArray(left, right, path);
    } else if left.Obj? && IsPlainObject(right) {
      MinimalObject(left, right, path);
    }
  }

  lemma {:induction false} MinimalArray(left: Value, right: Value, path: string)
    requires left.Arr? && right.Arr? && IsJson(left) && !DeepEqual(left, right)
    ensures Minimal(DiffValues(left, right, path)) <==> Explained(left, right)
    decreases left, 0
  {
    var cs := DiffValues(left, right, path).children;
    forall i | 0 <= i < |cs|
      ensures cs[i] == ItemChild(left, right, path, i)
      ensures Minimal(cs[i]) <==> (i < |left.items| && i < |right.items| ==> Explained(left.items[i], right.items[i]))
      ensures cs[i].status == Same <==> i < |left.items| && i < |right.items| && DeepEqual(left.items[i], right.items[i])
    {
      assert cs[i] == ItemChild(left, right, path, i);
      if i < |left.items| && i < |right.items| {
        MinimalExactIff(left.items[i], right.items[i], IndexPath(path, i));
        StatusOf(left.items[i], right.items[i], IndexPath(path, i));
      }
    }
    if |left.items| != |right.items| {
      var i := if |left.items| < |right.items| then |left.items| else |right.items|;
      assert cs[i].status != Same;
    } else {
      var i :| 0 <= i < |left.items| && !DeepEqual(left.items[i], right.items[i]);
      assert cs[i].status != Same;
    }
    hide DiffValues;
  }

  lemma FieldStatus(left: Value, right: Value, path: string, i: nat)
    requires left.Obj? && IsPlainObject(right) && i < |left.fields|
    ensures var Field(key, value) := left.fields[i];
      KeyChild(left.fields, right, path, i).status == Same <==> In(right, key) && DeepEqual(value, Get(right, key))
  {
    var Field(key, value) := left.fields[i];
    if In(right, key) { StatusOf(value, Get(right, key), KeyPath(path, key)); }
  }

  lemma {:induction false} NotInEmpty(left: Value, fields: seq<Field>)
    requires left.Obj?
    ensures NotIn(left, fields) == [] <==> forall i | 0 <= i < |fields| :: In(left, fields[i].key)
  {
    if fields != [] {
      NotInEmpty(left, fields[1..]);
      assert forall i | 0 < i < |fields| :: fields[i] == fields[1..][i - 1];
    }
  }

  lemma PlainChildren(left: Value, right: Value, path: string)
    requires left.Obj? && IsPlainObject(right) && !DeepEqual(left, right)
    ensures var n, rest, cs := |left.fields|, NotIn(left, FieldsOf(right)), DiffValues(left, right, path).children;
      && DiffValues(left, right, path) == Branch(path, Changed, cs) && |cs| == n + |rest|
      && (forall i | 0 <= i < n :: cs[i] == KeyChild(left.fields, right, path, i))
      && (forall i | n <= i < |cs| :: cs[i].Item? && cs[i].status == Added)
  {
  }

  lemma {:induction false} MinimalField(left: Value, right: Value, path: string, i: nat)
    requires left.Obj? && IsPlainObject(right) && IsJson(left) && i < |left.fields|
    ensures var Field(key, value) := left.fields[i];
      Minimal(KeyChild(left.fields, right, path, i)) <==> (In(right, key) ==> Explained(value, Get(right, key)))
    decreases left, 0
  {
    var Field(key, value) := left.fields[i];
    if In(right, key) { MinimalExactIff(value, Get(right, key), KeyPath(path, key)); }
  }

  lemma {:induction false} MinimalObject(left: Value, right: Value, path: string)
    requires left.Obj? && IsPlainObject(right) && IsJson(left) && !DeepEqual(left, right)
    ensures Minimal(DiffValues(left, right, path)) <==> Explained(left, right)
    decreases left, 1
  {
    PlainChildren(left, right, path);
    var cs, n := DiffValues(left, right, path).children, |left.fields|;
    hide DiffValues, NotIn, Get, In, KeyChild, DeepEqual;
    forall i | 0 <= i < n
      ensures cs[i].status == Same <==> In(right, left.fields[i].key) && DeepEqual(left.fields[i].value, Get(right, left.fields[i].key))
      ensures Minimal(cs[i]) <==> (In(right, left.fields[i].key) ==> Explained(left.fields[i].value, Get(right, left.fields[i].key)))
    {
      FieldStatus(left, right, path, i);
      MinimalField(left, right, path, i);
    }
    SomeChange(left, right, cs);
    hide Accounted;
  }

  lemma SomeChange(left: Value, right: Value, cs: seq<Node>)
    requires left.Obj? && IsPlainObject(right) && |cs| == |left.fields| + |NotIn(left, FieldsOf(right))|
    requires forall i | 0 <= i < |left.fields| ::
      cs[i].status == Same <==> In(right, left.fields[i].key) && DeepEqual(left.fields[i].value, Get(right, left.fields[i].key))
    requires forall i | |left.fields| <= i < |cs| :: cs[i].status == Added
    ensures (exists i | 0 <= i < |cs| :: cs[i].status != Same) <==> Accounted(left, right)
  {
    NotInEmpty(left, FieldsOf(right));
    hide DeepEqual, NotIn, In, Get;
    var n := |left.fields|;
    if i :| 0 <= i < |FieldsOf(right)| && !In(left, FieldsOf(right)[i].key) { assert cs[n].status == Added; }
  }

  /** Where inherited names match, a difference is accounted for: only strays are not. */
  lemma MatchedIsAccounted(left: Value, right: Value)
    requires left.Obj? && right.Obj? && IsJson(left) && IsJson(right) && !DeepEqual(left, right)
    requires KeysMatch(left.fields, right.fields)
    ensures Accounted(left, right)
  {
    var ls, rs := left.fields, right.fields;
    forall i | 0 <= i < |ls| ensures Owns(ls, ls[i].key) { OwnIndexOf(ls, i); }
    forall i | 0 <= i < |rs| ensures Owns(rs, rs[i].key) { OwnIndexOf(rs, i); }
    if forall i | 0 <= i < |ls| :: In(right, ls[i].key) && DeepEqual(ls[i].value, Get(right, ls[i].key)) {
      MoreKeys(ls, rs);
      NotOwnedFacts(ls, rs);
      var f := NotOwned(ls, rs)[0];
      assert f in NotOwned(ls, rs);
      var i :| 0 <= i < |rs| && rs[i] == f;
      assert !In(left, rs[i].key);
    }
  }

  /** The smallest tree that is neither: `{}` against `{"toString": 1}` is a change without a child. */
  lemma ChangeWithoutChild(path: string)
    ensures var left, right := Obj([]), Obj([Field("toString", Num(1.0))]);
      && DiffValues(left, right, path) == Parent(path, [])
      && !Explained(left, right) && !AgreeBelow(left, right)
  {
    var left, right := Obj([]), Obj([Field("toString", Num(1.0))]);
    assert NotIn(left, right.fields) == NotIn(left, []) == [];
    assert Inherited("toString") && Owns(right.fields, "toString") && !Owns(left.fields, "toString");
    assert In(left, "toString");
  }
}
