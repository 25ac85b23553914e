/**
 The structural diff between two decoded payloads. Objects are records of own keys in
 insertion order; `in` and indexing also find the members every object inherits, which is
 where the diff and its ideal part ways.
 */
module Diff {
  import opened Results
  import opened JavaScript

  /** A JavaScript value; JSON never holds the last two, which inherited lookups can return. */
  datatype Value =
    | Null
    | Bool(b: bool)
    | Num(r: real)
    | Str(s: string)
    | Arr(items: seq<Value>)
    | Obj(fields: seq<Field>)
    | Function(name: string)
    | Prototype

  datatype Field = Field(key: string, value: Value)

  predicate Inherited(key: string) { key in INHERITED }

  /** Position of the own key `key`, or the number of fields. */
  function IndexOf(fields: seq<Field>, key: string): (i: nat)
    ensures i <= |fields|
    ensures i < |fields| ==> fields[i].key == key
    ensures forall j | 0 <= j < i :: fields[j].key != key
  {
    if fields == [] || fields[0].key == key then 0 else 1 + IndexOf(fields[1..], key)
  }

  predicate Owns(fields: seq<Field>, key: string) {
    IndexOf(fields, key) < |fields|
  }

  /** A JSON value: no functions, and no object with a key twice. */
  predicate IsJson(v: Value) {
    match v
    case Arr(items) => forall i | 0 <= i < |items| :: IsJson(items[i])
    case Obj(fields) =>
      && (forall i, j | 0 <= i < j < |fields| :: fields[i].key != fields[j].key)
      && (forall i | 0 <= i < |fields| :: IsJson(fields[i].value))
    case Function(_) => false
    case Prototype => false
    case _ => true
  }

  predicate IsPlainObject(v: Value) {
    v.Obj? || v.Prototype?
  }

  /** `Object.keys`; the members of the prototype are not enumerable. */
  function FieldsOf(v: Value): seq<Field>
    requires IsPlainObject(v)
  {
    if v.Obj? then v.fields else []
  }

  /** `key in v` */
  predicate In(v: Value, key: string)
    requires IsPlainObject(v)
  {
    Owns(FieldsOf(v), key) || Inherited(key)
  }

  /** `v[key]` */
  function Get(v: Value, key: string): Value
    requires IsPlainObject(v) && In(v, key)
  {
    var fields := FieldsOf(v);
    if Owns(fields, key) then fields[IndexOf(fields, key)].value
    else if key != "__proto__" then Function(key)
    else if v.Prototype? then Null
    else Prototype
  }

  /** `deepEqual`; `===` on two separately built objects is false. */
  predicate DeepEqual(left: Value, right: Value)
    decreases left
  {
    if left.Arr? && right.Arr? then
      |left.items| == |right.items| && forall i | 0 <= i < |left.items| :: DeepEqual(left.items[i], right.items[i])
    else if left.Obj? && IsPlainObject(right) then
      && |left.fields| == |FieldsOf(right)|
      && forall i | 0 <= i < |left.fields| ::
           In(right, left.fields[i].key) && DeepEqual(left.fields[i].value, Get(right, left.fields[i].key))
    else if left.Prototype? && IsPlainObject(right) then right == Prototype || FieldsOf(right) == []
    else left == right
  }

  // ---------------------------------------------------------------- the tree

  datatype Status = Same | Changed | Added | Removed

  /** A leaf holds the values of the sides that have one; a branch holds the children of two maps or two lists. */
  datatype Node =
    | Item(path: string, status: Status, left: Option<Value>, right: Option<Value>)
    | Branch(path: string, status: Status, children: seq<Node>)

  function IndexPath(path: string, i: nat): string { path + "[" + Decimal(i) + "]" }
  function KeyPath(path: string, key: string): string { path + "." + key }

  function Both(path: string, status: Status, left: Value, right: Value): Node {
    Item(path, status, Some(left), Some(right))
  }

  function OnlyLeft(path: string, left: Value): Node { Item(path, Removed, Some(left), None) }
  function OnlyRight(path: string, right: Value): Node { Item(path, Added, None, Some(right)) }
  function Parent(path: string, children: seq<Node>): Node { Branch(path, Changed, children) }

  function Max(a: nat, b: nat): nat { if a < b then b else a }

  /** The fields of `right` whose key is not `in` left. */
  function NotIn(left: Value, fields: seq<Field>): seq<Field>
    requires IsPlainObject(left)
  {
    if fields == [] then []
    else if In(left, fields[0].key) then NotIn(left, fields[1..])
    else [fields[0]] + NotIn(left, fields[1..])
  }

  function AddedNodes(path: string, fields: seq<Field>): seq<Node> {
    seq(|fields|, i requires 0 <= i < |fields| => OnlyRight(KeyPath(path, fields[i].key), fields[i].value))
  }

  function DiffValues(left: Value, right: Value, path: string): Node
    decreases left
  {
    if DeepEqual(left, right) then Both(path, Same, left, right)
    else if left.Arr? && right.Arr? then
      Parent(path, seq(Max(|left.items|, |right.items|), i requires 0 <= i < Max(|left.items|, |right.items|) =>
        if i >= |right.items| then OnlyLeft(IndexPath(path, i), left.items[i])
        else if i >= |left.items| then OnlyRight(IndexPath(path, i), right.items[i])
        else DiffValues(left.items[i], right.items[i], IndexPath(path, i))))
    else if IsPlainObject(left) && IsPlainObject(right) then
      Parent(path, seq(|FieldsOf(left)|, i requires 0 <= i < |FieldsOf(left)| =>
        var Field(key, value) := FieldsOf(left)[i];
        if !In(right, key) then OnlyLeft(KeyPath(path, key), value)
        else DiffValues(value, Get(right, key), KeyPath(path, key)))
        + AddedNodes(path, NotIn(left, FieldsOf(right))))
    else Both(path, Changed, left, right)
  }

  // ---------------------------------------------------------------- the diff on own keys

  /** Equality of JSON values: objects are equal when they own the same keys with equal values. */
  predicate Equal(left: Value, right: Value)
    decreases left
  {
    if left.Arr? && right.Arr? then
      |left.items| == |right.items| && forall i | 0 <= i < |left.items| :: Equal(left.items[i], right.items[i])
    else if left.Obj? && right.Obj? then
      && |left.fields| == |right.fields|
      && forall i | 0 <= i < |left.fields| ::
           Owns(right.fields, left.fields[i].key) && Equal(left.fields[i].value, Get(right, left.fields[i].key))
    else left == right
  }

  function NotOwned(left: seq<Field>, fields: seq<Field>): seq<Field> {
    if fields == [] then []
    else if Owns(left, fields[0].key) then NotOwned(left, fields[1..])
    else [fields[0]] + NotOwned(left, fields[1..])
  }

  /** The diff as its comments promise it: a key is present on a side when that side owns it. */
  function OwnDiff(left: Value, right: Value, path: string): Node
    decreases left
  {
    if Equal(left, right) then Both(path, Same, left, right)
    else if left.Arr? && right.Arr? then
      Parent(path, seq(Max(|left.items|, |right.items|), i requires 0 <= i < Max(|left.items|, |right.items|) =>
        if i >= |right.items| then OnlyLeft(IndexPath(path, i), left.items[i])
        else if i >= |left.items| then OnlyRight(IndexPath(path, i), right.items[i])
        else OwnDiff(left.items[i], right.items[i], IndexPath(path, i))))
    else if left.Obj? && right.Obj? then
      Parent(path, seq(|left.fields|, i requires 0 <= i < |left.fields| =>
        var Field(key, value) := left.fields[i];
        if !Owns(right.fields, key) then OnlyLeft(KeyPath(path, key), value)
        else OwnDiff(value, Get(right, key), KeyPath(path, key)))
        + AddedNodes(path, NotOwned(left.fields, right.fields)))
    else Both(path, Changed, left, right)
  }

  // ---------------------------------------------------------------- what a value means

  /** A JSON value with its objects as maps, in which the order of keys plays no part. */
  datatype Json =
    | JNull | JBool(b: bool) | JNum(r: real) | JStr(s: string) | JArr(items: seq<Json>) | JObj(fields: map<string, Json>)
    | NotJson(v: Value)

  function KeySet(fields: seq<Field>): set<string> {
    set i | 0 <= i < |fields| :: fields[i].key
  }

  function Meaning(v: Value): Json
    decreases v, 1
  {
    match v
    case Null => JNull
    case Bool(b) => JBool(b)
    case Num(r) => JNum(r)
    case Str(s) => JStr(s)
    case Arr(items) => JArr(seq(|items|, i requires 0 <= i < |items| => Meaning(items[i])))
    case Obj(fields) => JObj(map k | k in KeySet(fields) && Owns(fields, k) :: Meaning(fields[IndexOf(fields, k)].value))
    case _ => NotJson(v)
  }

  lemma OwnsIff(fields: seq<Field>, key: string)
    ensures Owns(fields, key) <==> key in KeySet(fields)
  {
  }

  lemma OwnIndex(fields: seq<Field>, i: nat)
    requires i < |fields| && forall j, k | 0 <= j < k < |fields| :: fields[j].key != fields[k].key
    ensures IndexOf(fields, fields[i].key) == i
  {
  }

  lemma {:induction false} KeyCount(fields: seq<Field>)
    requires forall i, j | 0 <= i < j < |fields| :: fields[i].key != fields[j].key
    ensures |KeySet(fields)| == |fields|
  {
    if fields != [] {
      var n := |fields| - 1;
      KeyCount(fields[..n]);
      assert forall i | 0 <= i < n :: fields[..n][i] == fields[i];
      assert KeySet(fields) == KeySet(fields[..n]) + {fields[n].key};
    }
  }

  /** The key-count argument: equal counts and one inclusion give the other inclusion. */
  lemma KeysMutual(left: seq<Field>, right: seq<Field>)
    requires forall i, j | 0 <= i < j < |left| :: left[i].key != left[j].key
    requires forall i, j | 0 <= i < j < |right| :: right[i].key != right[j].key
    requires |left| == |right| && forall i | 0 <= i < |left| :: Owns(right, left[i].key)
    ensures KeySet(left) == KeySet(right)
  {
    KeyCount(left);
    KeyCount(right);
    forall i | 0 <= i < |left| ensures left[i].key in KeySet(right) { OwnsIff(right, left[i].key); }
    var rest := KeySet(right) - KeySet(left);
    assert KeySet(right) == KeySet(left) + rest;
    assert |KeySet(right)| == |KeySet(left)| + |rest|;
  }

  lemma MeaningAt(fields: seq<Field>, key: string)
    requires Owns(fields, key)
    ensures key in Meaning(Obj(fields)).fields
    ensures Meaning(Obj(fields)).fields[key] == Meaning(fields[IndexOf(fields, key)].value)
  {
    OwnsIff(fields, key);
  }

  lemma MeaningKeys(fields: seq<Field>)
    ensures Meaning(Obj(fields)).fields.Keys == KeySet(fields)
  {
    forall k | k in KeySet(fields) ensures Owns(fields, k) { OwnsIff(fields, k); }
  }

  /** Equality on own keys is equality of meanings, hence an equivalence. */
  lemma {:induction false} EqualIffSameMeaning(left: Value, right: Value)
    requires IsJson(left) && IsJson(right)
    ensures Equal(left, right) <==> Meaning(left) == Meaning(right)
    decreases left
  {
    if left.Arr? && right.Arr? {
      if |left.items| == |right.items| {
        forall i | 0 <= i < |left.items|
          ensures Equal(left.items[i], right.items[i]) <==> Meaning(left).items[i] == Meaning(right).items[i]
        {
          EqualIffSameMeaning(left.items[i], right.items[i]);
        }
      }
    } else if left.Obj? && right.Obj? {
      ObjectsEqualIff(left, right);
    }
  }

  /** The values under a common key are equal exactly when their meanings are. */
  ghost predicate FieldsIff(left: Value, right: Value)
    requires left.Obj? && right.Obj?
  {
    forall i | 0 <= i < |left.fields| && Owns(right.fields, left.fields[i].key) ::
      Equal(left.fields[i].value, Get(right, left.fields[i].key)) <==>
      Meaning(left.fields[i].value) == Meaning(Get(right, left.fields[i].key))
  }

  lemma EqualObjectsMean(left: Value, right: Value)
    requires left.Obj? && right.Obj? && IsJson(left) && IsJson(right) && FieldsIff(left, right)
    requires Equal(left, right)
    ensures Meaning(left).fields == Meaning(right).fields
  {
    var ls, rs := left.fields, right.fields;
    KeysMutual(ls, rs);
    MeaningKeys(ls);
    MeaningKeys(rs);
    forall k | k in KeySet(ls) ensures Meaning(left).fields[k] == Meaning(right).fields[k] {
      OwnsIff(ls, k);
      var i := IndexOf(ls, k);
      assert ls[i].key == k;
      MeaningAt(ls, k);
      MeaningAt(rs, k);
    }
  }

  lemma SameMeaningObjects(left: Value, right: Value)
    requires left.Obj? && right.Obj? && IsJson(left) && IsJson(right) && FieldsIff(left, right)
    requires Meaning(left) == Meaning(right)
    ensures Equal(left, right)
  {
    hide Meaning;
    var ls, rs := left.fields, right.fields;
    MeaningKeys(ls);
    MeaningKeys(rs);
    KeyCount(ls);
    KeyCount(rs);
    forall i | 0 <= i < |ls| ensures Owns(rs, ls[i].key) && Equal(ls[i].value, Get(right, ls[i].key)) {
      assert ls[i].key in KeySet(ls);
      OwnsIff(rs, ls[i].key);
      OwnIndex(ls, i);
      MeaningAt(ls, ls[i].key);
      MeaningAt(rs, ls[i].key);
    }
  }

  lemma {:induction false} ObjectsEqualIff(left: Value, right: Value)
    requires left.Obj? && right.Obj? && IsJson(left) && IsJson(right)
    ensures Equal(left, right) <==> Meaning(left) == Meaning(right)
    decreases left, 0
  {
    assert FieldsIff(left, right) by {
      hide Meaning, Equal;
      forall i | 0 <= i < |left.fields| && Owns(right.fields, left.fields[i].key)
        ensures Equal(left.fields[i].value, Get(right, left.fields[i].key)) <==>
                Meaning(left.fields[i].value) == Meaning(Get(right, left.fields[i].key))
      {
        EqualIffSameMeaning(left.fields[i].value, Get(right, left.fields[i].key));
      }
    }
    if Equal(left, right) { EqualObjectsMean(left, right); }
    if Meaning(left) == Meaning(right) { SameMeaningObjects(left, right); }
  }

  // ---------------------------------------------------------------- when the code's diff is right

  /** No inherited name is a key on one side only, in any pair of objects the diff lines up. */
  ghost predicate KeysAgree(left: Value, right: Value)
    decreases left
  {
    if left.Arr? && right.Arr? then
      forall i | 0 <= i < |left.items| && i < |right.items| :: KeysAgree(left.items[i], right.items[i])
    else if left.Obj? && right.Obj? then
      && (forall k | Inherited(k) :: Owns(left.fields, k) <==> Owns(right.fields, k))
      && (forall i | 0 <= i < |left.fields| && Owns(right.fields, left.fields[i].key) ::
            KeysAgree(left.fields[i].value, Get(right, left.fields[i].key)))
    else true
  }

  lemma {:induction false} EqualAgrees(left: Value, right: Value)
    requires IsJson(left) && IsJson(right) && Equal(left, right)
    ensures DeepEqual(left, right) && KeysAgree(left, right)
    decreases left
  {
    if left.Arr? && right.Arr? {
      forall i | 0 <= i < |left.items|
        ensures DeepEqual(left.items[i], right.items[i]) && KeysAgree(left.items[i], right.items[i])
      {
        EqualAgrees(left.items[i], right.items[i]);
      }
    } else if left.Obj? && right.Obj? {
      KeysMutual(left.fields, right.fields);
      forall k ensures Owns(left.fields, k) <==> Owns(right.fields, k) {
        OwnsIff(left.fields, k);
        OwnsIff(right.fields, k);
      }
      forall i | 0 <= i < |left.fields|
        ensures DeepEqual(left.fields[i].value, Get(right, left.fields[i].key))
        ensures KeysAgree(left.fields[i].value, Get(right, left.fields[i].key))
      {
        EqualAgrees(left.fields[i].value, Get(right, left.fields[i].key));
      }
    }
  }

  lemma {:induction false} AgreeingDeepEqual(left: Value, right: Value)
    requires IsJson(left) && IsJson(right) && KeysAgree(left, right) && DeepEqual(left, right)
    ensures Equal(left, right)
    decreases left
  {
    if left.Arr? && right.Arr? {
      forall i | 0 <= i < |left.items| ensures Equal(left.items[i], right.items[i]) {
        AgreeingDeepEqual(left.items[i], right.items[i]);
      }
    } else if left.Obj? && right.Obj? {
      forall i | 0 <= i < |left.fields|
        ensures Owns(right.fields, left.fields[i].key) && Equal(left.fields[i].value, Get(right, left.fields[i].key))
      {
        OwnIndex(left.fields, i);
        assert Owns(left.fields, left.fields[i].key);
        AgreeingDeepEqual(left.fields[i].value, Get(right, left.fields[i].key));
      }
    }
  }

  /** On a pair whose keys agree `deepEqual` decides equality; on any pair it only ever errs towards equal. */
  lemma DeepEqualWhenKeysAgree(left: Value, right: Value)
    requires IsJson(left) && IsJson(right)
    ensures KeysAgree(left, right) ==> (DeepEqual(left, right) <==> Meaning(left) == Meaning(right))
    ensures Meaning(left) == Meaning(right) ==> DeepEqual(left, right)
  {
    EqualIffSameMeaning(left, right);
    if Equal(left, right) { EqualAgrees(left, right); }
    if KeysAgree(left, right) && DeepEqual(left, right) { AgreeingDeepEqual(left, right); }
  }

  // ---------------------------------------------------------------- when `deepEqual` is right

  /** No object in the value owns the key `__proto__` with an empty object for its value. */
  predicate ProtoFree(v: Value)
    decreases v
  {
    match v
    case Arr(items) => forall i | 0 <= i < |items| :: ProtoFree(items[i])
    case Obj(fields) =>
      forall i | 0 <= i < |fields| ::
        (fields[i].key == "__proto__" ==> fields[i].value != Obj([])) && ProtoFree(fields[i].value)
    case _ => true
  }

  /** What an object inherits equals a JSON value only as the prototype stands for an empty object. */
  lemma InheritedEquals(v: Value, right: Value, key: string)
    requires IsJson(v) && right.Obj? && !Owns(right.fields, key) && Inherited(key)
    ensures DeepEqual(v, Get(right, key)) <==> key == "__proto__" && v == Obj([])
  {
  }

  lemma {:induction false} DeepEqualMeansEqual(left: Value, right: Value)
    requires IsJson(left) && IsJson(right) && ProtoFree(left) && DeepEqual(left, right)
    ensures Equal(left, right)
    decreases left
  {
    if left.Arr? && right.Arr? {
      forall i | 0 <= i < |left.items| ensures Equal(left.items[i], right.items[i]) {
        DeepEqualMeansEqual(left.items[i], right.items[i]);
      }
    } else if left.Obj? && right.Obj? {
      forall i | 0 <= i < |left.fields|
        ensures Owns(right.fields, left.fields[i].key) && Equal(left.fields[i].value, Get(right, left.fields[i].key))
      {
        var Field(key, value) := left.fields[i];
        if Owns(right.fields, key) {
          DeepEqualMeansEqual(value, Get(right, key));
        } else {
          InheritedEquals(value, right, key);
        }
      }
    }
  }

  lemma SelfEqual(v: Value)
    requires IsJson(v)
    ensures Equal(v, v) && DeepEqual(v, v)
  {
    EqualIffSameMeaning(v, v);
    EqualAgrees(v, v);
  }

  /** A key longer than every key of the object. */
  lemma {:induction false} FreshKey(fields: seq<Field>) returns (key: string)
    ensures forall i | 0 <= i < |fields| :: |fields[i].key| < |key|
    ensures |key| > 20
  {
    if fields == [] {
      key := "neither owned nor inherited";
    } else {
      var rest := FreshKey(fields[1..]);
      key := rest + fields[0].key + "x";
      assert forall i | 1 <= i < |fields| :: fields[i] == fields[1..][i - 1];
    }
  }

  /** The twin of an object that owns `__proto__: {}`: another key in its place. */
  lemma TwinHere(left: Value, i: nat) returns (right: Value)
    requires IsJson(left) && left.Obj? && i < |left.fields| && left.fields[i] == Field("__proto__", Obj([]))
    ensures IsJson(right) && DeepEqual(left, right) && !Equal(left, right)
  {
    var fields := left.fields;
    var key := FreshKey(fields);
    var twin := fields[i := Field(key, Null)];
    right := Obj(twin);
    forall j | 0 <= j < |fields|
      ensures In(right, fields[j].key) && DeepEqual(fields[j].value, Get(right, fields[j].key))
      ensures j == i ==> !Owns(twin, fields[j].key)
    {
      if j == i {
        forall k | 0 <= k < |twin| ensures twin[k].key != "__proto__" {
          if k == i { assert |twin[i].key| > |"__proto__"|; } else { assert fields[k].key != fields[i].key; }
        }
        assert Inherited("__proto__");
        InheritedEquals(Obj([]), right, "__proto__");
      } else {
        OwnIndex(twin, j);
        SelfEqual(fields[j].value);
      }
    }
  }

  /** Changing one value of an object for one that passes as equal. */
  lemma TwinBelow(left: Value, i: nat, twin: Value) returns (right: Value)
    requires IsJson(left) && left.Obj? && i < |left.fields|
    requires IsJson(twin) && DeepEqual(left.fields[i].value, twin) && !Equal(left.fields[i].value, twin)
    ensures IsJson(right) && DeepEqual(left, right) && !Equal(left, right)
  {
    var fields := left.fields;
    var changed := fields[i := Field(fields[i].key, twin)];
    right := Obj(changed);
    forall j | 0 <= j < |fields|
      ensures Owns(changed, fields[j].key) && Get(right, fields[j].key) == changed[j].value
      ensures DeepEqual(fields[j].value, Get(right, fields[j].key))
    {
      OwnIndex(changed, j);
      if j != i { SelfEqual(fields[j].value); }
    }
  }

  lemma TwinInside(left: Value, i: nat, twin: Value) returns (right: Value)
    requires IsJson(left) && left.Arr? && i < |left.items|
    requires IsJson(twin) && DeepEqual(left.items[i], twin) && !Equal(left.items[i], twin)
    ensures IsJson(right) && DeepEqual(left, right) && !Equal(left, right)
  {
    var changed := left.items[i := twin];
    right := Arr(changed);
    forall j | 0 <= j < |changed| && j != i ensures DeepEqual(left.items[j], changed[j]) { SelfEqual(left.items[j]); }
  }

  /** A value that is not `ProtoFree` has an unequal twin it passes as equal to. */
  lemma {:induction false} Twin(left: Value) returns (right: Value)
    requires IsJson(left) && !ProtoFree(left)
    ensures IsJson(right) && DeepEqual(left, right) && !Equal(left, right)
    decreases left
  {
    if left.Arr? {
      var i :| 0 <= i < |left.items| && !ProtoFree(left.items[i]);
      var twin := Twin(left.items[i]);
      right := TwinInside(left, i, twin);
    } else if i :| 0 <= i < |left.fields| && left.fields[i] == Field("__proto__", Obj([])) {
      right := TwinHere(left, i);
    } else {
      var i :| 0 <= i < |left.fields| && !ProtoFree(left.fields[i].value);
      var twin := Twin(left.fields[i].value);
      right := TwinBelow(left, i, twin);
    }
  }

  /** `deepEqual` decides equality with every JSON value exactly when no object on the left owns `__proto__: {}`. */
  lemma DeepEqualExactIff(left: Value)
    requires IsJson(left)
    ensures (forall right | IsJson(right) :: DeepEqual(left, right) <==> Meaning(left) == Meaning(right)) <==> ProtoFree(left)
  {
    hide Equal, DeepEqual, ProtoFree, Meaning, IsJson;
    forall right | IsJson(right)
      ensures Meaning(left) == Meaning(right) ==> DeepEqual(left, right)
      ensures ProtoFree(left) && DeepEqual(left, right) ==> Meaning(left) == Meaning(right)
    {
      DeepEqualWhenKeysAgree(left, right);
      if ProtoFree(left) && DeepEqual(left, right) {
        DeepEqualMeansEqual(left, right);
        EqualIffSameMeaning(left, right);
      }
    }
    if !ProtoFree(left) {
      var right := Twin(left);
      EqualIffSameMeaning(left, right);
    }
  }

  // ---------------------------------------------------------------- keys added

  lemma {:induction false} NotInVersusNotOwned(left: Value, fields: seq<Field>)
    requires left.Obj?
    ensures |NotIn(left, fields)| <= |NotOwned(left.fields, fields)|
    ensures if forall i | 0 <= i < |fields| :: Inherited(fields[i].key) ==> Owns(left.fields, fields[i].key)
            then NotIn(left, fields) == NotOwned(left.fields, fields)
            else |NotIn(left, fields)| < |NotOwned(left.fields, fields)|
  {
    if fields != [] {
      NotInVersusNotOwned(left, fields[1..]);
      if forall i | 0 <= i < |fields[1..]| :: Inherited(fields[1..][i].key) ==> Owns(left.fields, fields[1..][i].key) {
        assert forall i | 1 <= i < |fields| :: fields[i] == fields[1..][i - 1];
      } else {
        var i :| 0 <= i < |fields[1..]| && Inherited(fields[1..][i].key) && !Owns(left.fields, fields[1..][i].key);
        assert fields[i + 1] == fields[1..][i];
      }
    }
  }

  // ---------------------------------------------------------------- the diff in loops

  /** The child for index `i` of two arrays. */
  function ItemChild(left: Value, right: Value, path: string, i: nat): Node
    requires left.Arr? && right.Arr? && i < Max(|left.items|, |right.items|)
  {
    if i >= |right.items| then OnlyLeft(IndexPath(path, i), left.items[i])
    else if i >= |left.items| then OnlyRight(IndexPath(path, i), right.items[i])
    else DiffValues(left.items[i], right.items[i], IndexPath(path, i))
  }

  method ItemChildren(left: Value, right: Value, path: string) returns (children: seq<Node>)
    requires left.Arr? && right.Arr?
    ensures |children| == Max(|left.items|, |right.items|)
    ensures forall i | 0 <= i < |children| :: children[i] == ItemChild(left, right, path, i)
    decreases left, 0
  {
    hide DiffValues, IndexPath;
    children := [];
    for i := 0 to Max(|left.items|, |right.items|)
      invariant |children| == i && forall j | 0 <= j < i :: children[j] == ItemChild(left, right, path, j)
    {
      if i >= |right.items| {
        children := children + [OnlyLeft(IndexPath(path, i), left.items[i])];
      } else if i >= |left.items| {
        children := children + [OnlyRight(IndexPath(path, i), right.items[i])];
      } else {
        var child := ComputeDiff(left.items[i], right.items[i], IndexPath(path, i));
        children := children + [child];
      }
    }
  }

  /** The child for the `i`th key of the left object. */
  function KeyChild(fields: seq<Field>, right: Value, path: string, i: nat): Node
    requires IsPlainObject(right) && i < |fields|
  {
    var Field(key, value) := fields[i];
    if !In(right, key) then OnlyLeft(KeyPath(path, key), value)
    else DiffValues(value, Get(right, key), KeyPath(path, key))
  }

  /** The right-only keys come after the left ones. */
  method KeyChildren(left: Value, right: Value, path: string) returns (children: seq<Node>)
    requires IsPlainObject(left) && IsPlainObject(right)
    ensures |children| == |FieldsOf(left)| + |NotIn(left, FieldsOf(right))|
    ensures forall i | 0 <= i < |FieldsOf(left)| :: children[i] == KeyChild(FieldsOf(left), right, path, i)
    ensures children[|FieldsOf(left)|..] == AddedNodes(path, NotIn(left, FieldsOf(right)))
    decreases left, 0
  {
    hide DiffValues, In, NotIn, KeyPath, Get;
    var fields := FieldsOf(left);
    children := [];
    for i := 0 to |fields|
      invariant |children| == i && forall j | 0 <= j < i :: children[j] == KeyChild(fields, right, path, j)
    {
      var key := fields[i].key;
      var child;
      if !In(right, key) {
        child := OnlyLeft(KeyPath(path, key), fields[i].value);
      } else {
        child := ComputeDiff(fields[i].value, Get(right, key), KeyPath(path, key));
      }
      children := children + [child];
    }
    var others := NotIn(left, FieldsOf(right));
    var added: seq<Node> := [];
    for i := 0 to |others|
      invariant added == AddedNodes(path, others)[..i]
    {
      added := added + [OnlyRight(KeyPath(path, others[i].key), others[i].value)];
    }
    children := children + added;
  }

  /** `diffValues` as it runs: children pushed in order. */
  method ComputeDiff(left: Value, right: Value, path: string) returns (node: Node)
    ensures node == DiffValues(left, right, path)
    decreases left
  {
    hide DeepEqual, In, NotIn, Get, IndexPath, KeyPath;
    ghost var whole := DiffValues(left, right, path);
    if DeepEqual(left, right) { return Both(path, Same, left, right); }
    if left.Arr? && right.Arr? {
      var children := ItemChildren(left, right, path);
      assert children == whole.children;
      return Parent(path, children);
    }
    if IsPlainObject(left) && IsPlainObject(right) {
      var children := KeyChildren(left, right, path);
      var n := |FieldsOf(left)|;
      assert children == children[..n] + children[n..];
      assert children == whole.children;
      return Parent(path, children);
    }
    return Both(path, Changed, left, right);
  }

  // ---------------------------------------------------------------- the code's diff against the promised one

  /** Arrays: the two trees agree exactly when every aligned pair does. */
  lemma ArrayTrees(left: Value, right: Value, path: string)
    requires left.Arr? && right.Arr? && !DeepEqual(left, right) && !Equal(left, right)
    ensures DiffValues(left, right, path) == OwnDiff(left, right, path) <==>
            forall i | 0 <= i < |left.items| && i < |right.items| ::
              DiffValues(left.items[i], right.items[i], IndexPath(path, i)) ==
              OwnDiff(left.items[i], right.items[i], IndexPath(path, i))
  {
    var code, own := DiffValues(left, right, path).children, OwnDiff(left, right, path).children;
    assert code == own <==> forall i | 0 <= i < |code| :: code[i] == own[i];
    forall i | 0 <= i < |left.items| && i < |right.items|
      ensures code[i] == DiffValues(left.items[i], right.items[i], IndexPath(path, i))
      ensures own[i] == OwnDiff(left.items[i], right.items[i], IndexPath(path, i))
    {
    }
  }

  /** The child the promised tree holds for the left field at `i`. */
  function OwnChild(left: Value, right: Value, path: string, i: nat): Node
    requires left.Obj? && right.Obj? && i < |left.fields|
  {
    var Field(key, value) := left.fields[i];
    if !Owns(right.fields, key) then OnlyLeft(KeyPath(path, key), value)
    else OwnDiff(value, Get(right, key), KeyPath(path, key))
  }

  predicate NoStrayKeys(left: seq<Field>, fields: seq<Field>) {
    forall i | 0 <= i < |fields| :: Inherited(fields[i].key) ==> Owns(left, fields[i].key)
  }

  lemma ObjectTrees(left: Value, right: Value, path: string)
    requires left.Obj? && right.Obj? && !DeepEqual(left, right) && !Equal(left, right)
    ensures DiffValues(left, right, path) == OwnDiff(left, right, path) <==>
            && NoStrayKeys(left.fields, right.fields)
            && forall i | 0 <= i < |left.fields| :: KeyChild(left.fields, right, path, i) == OwnChild(left, right, path, i)
  {
    NotInVersusNotOwned(left, right.fields);
    var n := |left.fields|;
    var code, own := DiffValues(left, right, path).children, OwnDiff(left, right, path).children;
    forall i | 0 <= i < n ensures code[i] == KeyChild(left.fields, right, path, i) && own[i] == OwnChild(left, right, path, i) {}
    assert code[n..] == AddedNodes(path, NotIn(left, right.fields));
    assert own[n..] == AddedNodes(path, NotOwned(left.fields, right.fields));
    if NoStrayKeys(left.fields, right.fields) {
      assert code == own <==> forall i | 0 <= i < n :: code[i] == own[i];
    } else {
      assert |code| != |own|;
    }
  }

  /** A left field: the trees hold the same child exactly when its key does not stray and the values agree. */
  lemma FieldChild(left: Value, right: Value, path: string, i: nat)
    requires left.Obj? && right.Obj? && i < |left.fields|
    requires var Field(key, value) := left.fields[i];
      Owns(right.fields, key) ==>
        (DiffValues(value, Get(right, key), KeyPath(path, key)) == OwnDiff(value, Get(right, key), KeyPath(path, key)) <==>
         KeysAgree(value, Get(right, key)))
    ensures var Field(key, value) := left.fields[i];
      KeyChild(left.fields, right, path, i) == OwnChild(left, right, path, i) <==>
      if Owns(right.fields, key) then KeysAgree(value, Get(right, key)) else !Inherited(key)
  {
    var Field(key, value) := left.fields[i];
    if !Owns(right.fields, key) && Inherited(key) {
      assert DiffValues(value, Get(right, key), KeyPath(path, key)).status != Removed;
    }
  }

  lemma StrayKeys(left: seq<Field>, fields: seq<Field>)
    ensures NoStrayKeys(left, fields) <==> forall k | Inherited(k) && Owns(fields, k) :: Owns(left, k)
  {
    forall k | Owns(fields, k) ensures fields[IndexOf(fields, k)].key == k {}
    forall i | 0 <= i < |fields| ensures Owns(fields, fields[i].key) {}
  }

  lemma KeysAgreeUnfolded(left: Value, right: Value)
    requires left.Obj? && right.Obj?
    ensures KeysAgree(left, right) <==>
            && NoStrayKeys(left.fields, right.fields)
            && forall i | 0 <= i < |left.fields| ::
                 if Owns(right.fields, left.fields[i].key) then KeysAgree(left.fields[i].value, Get(right, left.fields[i].key))
                 else !Inherited(left.fields[i].key)
  {
    StrayKeys(left.fields, right.fields);
    StrayKeys(right.fields, left.fields);
    hide Owns, Get, Inherited;
  }

  /**
   The tree the code builds is the promised one exactly when no inherited name ("toString",
   "__proto__", ...) is an own key on one side only of two objects the diff lines up.
   */
  lemma {:induction false} TreeExactIff(left: Value, right: Value, path: string)
    requires IsJson(left) && IsJson(right)
    ensures DiffValues(left, right, path) == OwnDiff(left, right, path) <==> KeysAgree(left, right)
    decreases left
  {
    DeepEqualWhenKeysAgree(left, right);
    EqualIffSameMeaning(left, right);
    if Equal(left, right) {
      EqualAgrees(left, right);
    } else if DeepEqual(left, right) {
      assert OwnDiff(left, right, path).status == Changed;
    } else if left.Arr? && right.Arr? {
      forall i | 0 <= i < |left.items| && i < |right.items|
        ensures DiffValues(left.items[i], right.items[i], IndexPath(path, i)) ==
                OwnDiff(left.items[i], right.items[i], IndexPath(path, i)) <==>
                KeysAgree(left.items[i], right.items[i])
      {
        TreeExactIff(left.items[i], right.items[i], IndexPath(path, i));
      }
      ArrayTrees(left, right, path);
    } else if left.Obj? && right.Obj? {
      ObjectTreesAgree(left, right, path);
    }
  }

  lemma {:induction false} ObjectTreesAgree(left: Value, right: Value, path: string)
    requires left.Obj? && right.Obj? && IsJson(left) && IsJson(right)
    requires !DeepEqual(left, right) && !Equal(left, right)
    ensures DiffValues(left, right, path) == OwnDiff(left, right, path) <==> KeysAgree(left, right)
    decreases left, 0
  {
    ObjectTrees(left, right, path);
    KeysAgreeUnfolded(left, right);
    hide DiffValues, OwnDiff, KeysAgree, KeyChild, OwnChild;
    forall i | 0 <= i < |left.fields|
      ensures KeyChild(left.fields, right, path, i) == OwnChild(left, right, path, i) <==>
              if Owns(right.fields, left.fields[i].key) then KeysAgree(left.fields[i].value, Get(right, left.fields[i].key))
              else !Inherited(left.fields[i].key)
    {
      var Field(key, value) := left.fields[i];
      if Owns(right.fields, key) { TreeExactIff(value, Get(right, key), KeyPath(path, key)); }
      FieldChild(left, right, path, i);
    }
  }

  /** The failing family at its smallest: a wrong "same", and two right sides with one tree. */
  lemma InheritedNamesMislead(path: string)
    ensures DeepEqual(Obj([Field("__proto__", Obj([]))]), Obj([Field("b", Num(1.0))]))
    ensures DiffValues(Obj([]), Obj([Field("toString", Num(1.0))]), path)
         == DiffValues(Obj([]), Obj([Field("toString", Num(2.0))]), path)
  {
    var b := [Field("b", Num(1.0))];
    assert IndexOf(b, "__proto__") == 1;
    assert DeepEqual(Obj([]), Prototype);
    assert NotIn(Obj([]), [Field("toString", Num(1.0))]) == [] == NotIn(Obj([]), [Field("toString", Num(2.0))]);
    assert DiffValues(Obj([]), Obj([Field("toString", Num(1.0))]), path).children == [];
    assert DiffValues(Obj([]), Obj([Field("toString", Num(2.0))]), path).children == [];
  }
}
