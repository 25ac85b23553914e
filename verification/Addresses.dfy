/** The walk that collects every address inside a raw XDR value. */
module Addresses {
  import opened Results

  /** An XDR value as a tree; the arms without an address inside are scalars. */
  datatype ScVal =
    | AddressVal(text: Option<string>)    // None: an address the SDK refuses to print, by throwing
    | VecVal(items: seq<ScVal>)
    | AbsentArm                           // a vector or map arm without its value, which cannot be iterated
    | MapVal(entries: seq<Entry>)
    | Scalar(json: string)

  datatype Entry = Entry(key: ScVal, value: ScVal)

  datatype Xdr = Malformed(base64: string) | Tree(base64: string, scv: ScVal)

  // ---------------------------------------------------------------- the reference: leaves in reading order

  /** The address leaves of a tree from left to right; None is a leaf where the walk throws. */
  function Leaves(scv: ScVal): seq<Option<string>>
    decreases scv
  {
    match scv
    case AddressVal(text) => [text]
    case VecVal(items) => LeavesOf(items)
    case AbsentArm => [None]
    case MapVal(entries) => EntryLeaves(entries)
    case Scalar(_) => []
  }

  function LeavesOf(items: seq<ScVal>): seq<Option<string>>
    decreases items
  {
    if items == [] then [] else Leaves(items[0]) + LeavesOf(items[1..])
  }

  function EntryLeaves(entries: seq<Entry>): seq<Option<string>>
    decreases entries
  {
    if entries == [] then [] else PairLeaves(entries[0]) + EntryLeaves(entries[1..])
  }

  function PairLeaves(e: Entry): seq<Option<string>>
    decreases e
  {
    Leaves(e.key) + Leaves(e.value)
  }

  /** The texts before the first throwing leaf. */
  function Texts(leaves: seq<Option<string>>): set<string> {
    if leaves == [] || leaves[0] == None then {} else {leaves[0].value} + Texts(leaves[1..])
  }

  lemma {:induction false} TextsAppend(a: seq<Option<string>>, b: seq<Option<string>>)
    ensures Texts(a + b) == if None in a then Texts(a) else Texts(a) + Texts(b)
  {
    if a == [] {
      assert a + b == b;
    } else {
      assert (a + b)[1..] == a[1..] + b;
      assert a == [a[0]] + a[1..];
      TextsAppend(a[1..], b);
    }
  }

  lemma {:induction false} AllTexts(leaves: seq<Option<string>>, text: string)
    ensures text in Texts(leaves) ==> Some(text) in leaves
    ensures None !in leaves ==> (text in Texts(leaves) <==> Some(text) in leaves)
  {
    if leaves != [] {
      assert leaves == [leaves[0]] + leaves[1..];
      AllTexts(leaves[1..], text);
    }
  }

  // ---------------------------------------------------------------- the walk

  /** `walkForAddresses`: adds to the shared set, and stops everything at the first leaf that throws. */
  method Walk(scv: ScVal, seen: set<string>) returns (out: set<string>, threw: bool)
    ensures threw <==> None in Leaves(scv)
    ensures out == seen + Texts(Leaves(scv))
    decreases scv
  {
    match scv
    case AddressVal(text) =>
      if text == None { return seen, true; }
      out, threw := seen + {text.value}, false;
      assert Texts([text]) == {text.value} + Texts([text][1..]);
    case AbsentArm =>
      out, threw := seen, true;
    case VecVal(items) =>
      out, threw := WalkItems(items, seen);
    case MapVal(entries) =>
      out, threw := WalkEntries(entries, seen);
    case Scalar(_) =>
      out, threw := seen, false;
  }

  method WalkItems(items: seq<ScVal>, seen: set<string>) returns (out: set<string>, threw: bool)
    ensures threw <==> None in LeavesOf(items)
    ensures out == seen + Texts(LeavesOf(items))
    decreases items
  {
    out, threw := seen, false;
    ghost var done: seq<Option<string>> := [];
    for i := 0 to |items|
      invariant !threw && None !in done
      invariant LeavesOf(items) == done + LeavesOf(items[i..])
      invariant out == seen + Texts(done)
    {
      ghost var here, rest := Leaves(items[i]), LeavesOf(items[i + 1..]);
      Regroup(done, here, rest);
      assert LeavesOf(items[i..]) == here + rest by { assert items[i..][0] == items[i] && items[i..][1..] == items[i + 1..]; }
      out, threw := Walk(items[i], out);
      if threw { return; }
      done := done + here;
    }
    assert done == LeavesOf(items);
  }

  /** The leaves so far, those of the value at hand, and those still to come. */
  lemma Regroup(done: seq<Option<string>>, here: seq<Option<string>>, rest: seq<Option<string>>)
    requires None !in done
    ensures done + (here + rest) == (done + here) + rest
    ensures Texts(done + here) == Texts(done) + Texts(here)
    ensures None in here ==> Texts(done + (here + rest)) == Texts(done) + Texts(here)
  {
    TextsAppend(done, here);
    TextsAppend(done + here, rest);
    assert done + (here + rest) == (done + here) + rest;
  }

  method WalkEntries(entries: seq<Entry>, seen: set<string>) returns (out: set<string>, threw: bool)
    ensures threw <==> None in EntryLeaves(entries)
    ensures out == seen + Texts(EntryLeaves(entries))
    decreases entries
  {
    out, threw := seen, false;
    ghost var done: seq<Option<string>> := [];
    for i := 0 to |entries|
      invariant !threw && None !in done
      invariant EntryLeaves(entries) == done + EntryLeaves(entries[i..])
      invariant out == seen + Texts(done)
    {
      ghost var here, rest := PairLeaves(entries[i]), EntryLeaves(entries[i + 1..]);
      Regroup(done, here, rest);
      assert EntryLeaves(entries[i..]) == here + rest by { assert entries[i..][0] == entries[i] && entries[i..][1..] == entries[i + 1..]; }
      out, threw := WalkPair(entries[i], out);
      if threw { return; }
      done := done + here;
    }
    assert done == EntryLeaves(entries);
  }

  method WalkPair(e: Entry, seen: set<string>) returns (out: set<string>, threw: bool)
    ensures threw <==> None in PairLeaves(e)
    ensures out == seen + Texts(PairLeaves(e))
    decreases e
  {
    TextsAppend(Leaves(e.key), Leaves(e.value));
    out, threw := Walk(e.key, seen);
    if threw { return; }
    out, threw := Walk(e.value, out);
  }

  /** What `extractAddresses` finds; a value that does not parse holds nothing to find. */
  function Found(x: Xdr): set<string> {
    if x.Malformed? then {} else Texts(Leaves(x.scv))
  }

  method ExtractAddresses(x: Xdr) returns (found: set<string>)
    ensures found == Found(x)
  {
    if x.Malformed? { return {}; }
    var threw;
    found, threw := Walk(x.scv, {});
  }

  /** An address is mentioned in a value when some leaf of its tree prints it. */
  predicate Mentioned(x: Xdr, address: string) {
    x.Tree? && Some(address) in Leaves(x.scv)
  }

  predicate Printable(x: Xdr) {
    x.Tree? ==> None !in Leaves(x.scv)
  }

  /** Position of the first leaf that throws, or the number of leaves. */
  function ThrowAt(leaves: seq<Option<string>>): (k: nat)
    ensures k <= |leaves|
    ensures k < |leaves| ==> leaves[k] == None
    ensures forall i | 0 <= i < k :: leaves[i].Some?
  {
    if leaves == [] || leaves[0] == None then 0 else 1 + ThrowAt(leaves[1..])
  }

  lemma {:induction false} TextsAreBeforeThrow(leaves: seq<Option<string>>, text: string)
    ensures text in Texts(leaves) <==> Some(text) in leaves[..ThrowAt(leaves)]
  {
    if leaves != [] && leaves[0].Some? {
      TextsAreBeforeThrow(leaves[1..], text);
      assert leaves[..ThrowAt(leaves)] == [leaves[0]] + leaves[1..][..ThrowAt(leaves[1..])];
    }
  }

  /** The leaves the walk never reaches. */
  function Unreached(x: Xdr): seq<Option<string>> {
    if x.Malformed? then [] else Leaves(x.scv)[ThrowAt(Leaves(x.scv))..]
  }

  /** An address the walk loses: printed by an unreached leaf and by no leaf before. */
  predicate Hidden(x: Xdr, address: string) {
    Some(address) in Unreached(x) && address !in Found(x)
  }

  /** What is found is exactly what is mentioned and not hidden. */
  lemma FoundIff(x: Xdr, address: string)
    ensures address in Found(x) <==> Mentioned(x, address) && !Hidden(x, address)
    ensures Hidden(x, address) ==> Mentioned(x, address) && !Printable(x)
  {
    if x.Tree? {
      var leaves := Leaves(x.scv);
      TextsAreBeforeThrow(leaves, address);
      assert leaves == leaves[..ThrowAt(leaves)] + leaves[ThrowAt(leaves)..];
      assert None !in leaves ==> ThrowAt(leaves) == |leaves|;
    }
  }

  /** Every address printed after the first throwing leaf is also printed before it. */
  predicate HidesNothing(x: Xdr) {
    x.Tree? ==>
      var leaves := Leaves(x.scv);
      var k := ThrowAt(leaves);
      forall j | k <= j < |leaves| && leaves[j].Some? :: leaves[j] in leaves[..k]
  }

  /** The walk finds every address of a value exactly when nothing new is printed after a throwing leaf. */
  lemma FoundExactIff(x: Xdr)
    ensures (forall address :: address in Found(x) <==> Mentioned(x, address)) <==> HidesNothing(x)
  {
    forall address ensures address in Found(x) <==> Mentioned(x, address) && !Hidden(x, address) { FoundIff(x, address); }
    if x.Tree? {
      var leaves := Leaves(x.scv);
      var k := ThrowAt(leaves);
      forall j | k <= j < |leaves| && leaves[j].Some?
        ensures leaves[j] in leaves[..k] <==> leaves[j].value in Found(x)
        ensures Mentioned(x, leaves[j].value) && Some(leaves[j].value) in Unreached(x)
      {
        TextsAreBeforeThrow(leaves, leaves[j].value);
        assert Unreached(x)[j - k] == leaves[j];
      }
      forall address | Hidden(x, address)
        ensures exists j | k <= j < |leaves| :: leaves[j] == Some(address)
      {
        var i :| 0 <= i < |Unreached(x)| && Unreached(x)[i] == Some(address);
        assert leaves[k + i] == Some(address);
      }
    }
  }

  /** A throwing leaf keeps what came before it and loses what comes after. */
  lemma ThrowingLeafHides(a: string, b: string)
    requires a != b
    ensures var x := Tree("", VecVal([AddressVal(Some(a)), AbsentArm, AddressVal(Some(b))]));
            Found(x) == {a} && Mentioned(x, b)
  {
    var items := [AddressVal(Some(a)), AbsentArm, AddressVal(Some(b))];
    var leaves := [Some(a), None, Some(b)];
    assert items[1..] == [AbsentArm, AddressVal(Some(b))] && items[1..][1..] == [AddressVal(Some(b))];
    assert LeavesOf([AddressVal(Some(b))]) == [Some(b)];
    assert LeavesOf(items[1..]) == [None, Some(b)];
    assert LeavesOf(items) == leaves;
    assert leaves[1..] == [None, Some(b)];
    assert Texts(leaves) == {a};
  }
}
