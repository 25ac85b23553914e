/**
 The event table and its address side table: insert, re-decode, repair and prune, with the index
 kept in step with the raw XDR of the stored rows.
 */
module Store {
  import opened Results
  import opened Addresses

  // ---------------------------------------------------------------- decoding

  datatype Scalar = Text(s: string) | Other(shown: string) | Structured

  datatype Decoded = Decoded(kind: string, value: Scalar)

  /** A decoder for single values; None is a decoder that throws. It changes from one release to the next. */
  type Decoder = Xdr -> Option<Decoded>

  /** `topicKey`: the text a topic is filtered by; `Other` is a number or a boolean as it prints. */
  function TopicKey(topics: seq<Decoded>, i: nat): Option<string> {
    if i >= |topics| then None
    else
      match topics[i].value
      case Text(s) => Some(s)
      case Other(shown) => Some(shown)
      case Structured => None
  }

  function DecodeOne(x: Xdr, decode: Decoder): Decoded {
    decode(x).GetOr(Decoded("undecodable", Text(x.base64)))
  }

  datatype LensEvent = LensEvent(
    id: string, ledger: int, topicsXdr: seq<Xdr>, valueXdr: Xdr, topics: seq<Decoded>, value: Decoded, decodeError: bool)

  /** `decodeEvent` on a raw event: never fails, but remembers that some part did not decode. */
  function DecodeEvent(id: string, ledger: int, topicsXdr: seq<Xdr>, valueXdr: Xdr, decode: Decoder): LensEvent {
    LensEvent(id, ledger, topicsXdr, valueXdr,
      seq(|topicsXdr|, i requires 0 <= i < |topicsXdr| => DecodeOne(topicsXdr[i], decode)),
      DecodeOne(valueXdr, decode),
      decode(valueXdr) == None || exists i | 0 <= i < |topicsXdr| :: decode(topicsXdr[i]) == None)
  }

  // ---------------------------------------------------------------- the tables

  datatype Row = Row(
    ledger: int, topicsXdr: seq<Xdr>, valueXdr: Xdr, topics: seq<Decoded>, value: Decoded,
    topicCount: nat, keys: seq<Option<string>>, decodeError: bool)

  function Keys(topics: seq<Decoded>): seq<Option<string>> {
    [TopicKey(topics, 0), TopicKey(topics, 1), TopicKey(topics, 2), TopicKey(topics, 3)]
  }

  function RowOf(e: LensEvent): Row {
    Row(e.ledger, e.topicsXdr, e.valueXdr, e.topics, e.value, |e.topics|, Keys(e.topics), e.decodeError)
  }

  datatype Position = Topic(i: nat) | Body

  /** A row of the side table: this event mentions this address there. */
  type Mention = (string, string, Position)

  type Events = map<string, Row>

  datatype Tables = Tables(events: Events, addresses: set<Mention>)

  function Mentions(id: string, topicsXdr: seq<Xdr>, valueXdr: Xdr): set<Mention> {
    (set i, a | 0 <= i < |topicsXdr| && a in Found(topicsXdr[i]) :: (id, a, Topic(i)))
    + (set a | a in Found(valueXdr) :: (id, a, Body))
  }

  function RowMentions(id: string, row: Row): set<Mention> { Mentions(id, row.topicsXdr, row.valueXdr) }

  /** The side table is exactly what walking every stored row's raw XDR finds. */
  ghost predicate IndexExact(t: Tables) {
    forall m :: m in t.addresses <==> m.0 in t.events && m in RowMentions(m.0, t.events[m.0])
  }

  /** The foreign key: no mention of an event that is not stored. */
  ghost predicate KeysExist(t: Tables) {
    forall m | m in t.addresses :: m.0 in t.events
  }

  lemma MentionsAreOf(id: string, row: Row, m: Mention)
    ensures m in RowMentions(id, row) <==>
            m.0 == id && match m.2
              case Topic(i) => i < |row.topicsXdr| && m.1 in Found(row.topicsXdr[i])
              case Body => m.1 in Found(row.valueXdr)
  {
  }

  // ---------------------------------------------------------------- what each operation does

  function InsertOne(t: Tables, e: LensEvent): Tables {
    if e.id in t.events then t
    else Tables(t.events[e.id := RowOf(e)], t.addresses + Mentions(e.id, e.topicsXdr, e.valueXdr))
  }

  function InsertAll(t: Tables, batch: seq<LensEvent>): Tables
    decreases |batch|
  {
    if batch == [] then t else InsertAll(InsertOne(t, batch[0]), batch[1..])
  }

  function Rewrite(row: Row, decode: Decoder): Row {
    var e := DecodeEvent("", row.ledger, row.topicsXdr, row.valueXdr, decode);
    RowOf(e)
  }

  /** Re-decoding some rows: their derived columns and mentions are computed afresh from the raw XDR. */
  function RewriteRows(t: Tables, ids: set<string>, decode: Decoder): Tables {
    Tables(
      map id | id in t.events :: if id in ids then Rewrite(t.events[id], decode) else t.events[id],
      (set m | m in t.addresses && m.0 !in ids)
      + (set id, m | id in t.events && id in ids && m in RowMentions(id, t.events[id]) :: m))
  }

  function Selected(t: Tables, all: bool): set<string> {
    set id | id in t.events && (all || t.events[id].decodeError)
  }

  function Redecode(t: Tables, all: bool, decode: Decoder): Tables {
    RewriteRows(t, Selected(t, all), decode)
  }

  function RepairRow(t: Tables, id: string, decode: Decoder): Tables {
    RewriteRows(t, if id in t.events then {id} else {}, decode)
  }

  function Surviving(events: Events, cutoff: int): Events {
    map id | id in events && events[id].ledger >= cutoff :: events[id]
  }

  /** Deleting the rows below a ledger; the foreign key cascades to the side table. */
  function DeleteBelow(t: Tables, cutoff: int): Tables {
    Tables(Surviving(t.events, cutoff), set m | m in t.addresses && m.0 in Surviving(t.events, cutoff))
  }

  // ---------------------------------------------------------------- every run keeps the index

  datatype Op =
    | Insert(batch: seq<LensEvent>)        // from the indexer or an import
    | RedecodeRows(all: bool, decode: Decoder)
    | Repair(id: string, decode: Decoder)
    | Prune(cutoff: int)                   // both prunes come to this, see EventStore

  function Apply(t: Tables, op: Op): Tables {
    match op
    case Insert(batch) => InsertAll(t, batch)
    case RedecodeRows(all, decode) => Redecode(t, all, decode)
    case Repair(id, decode) => RepairRow(t, id, decode)
    case Prune(cutoff) => DeleteBelow(t, cutoff)
  }

  function Run(t: Tables, ops: seq<Op>): Tables
    decreases |ops|
  {
    if ops == [] then t else Run(Apply(t, ops[0]), ops[1..])
  }

  /** The projections kept beside the decoded topics. */
  predicate Consistent(row: Row) {
    row.topicCount == |row.topics| && row.keys == Keys(row.topics)
  }

  ghost predicate Sound(t: Tables) {
    IndexExact(t) && forall id | id in t.events :: Consistent(t.events[id])
  }

  lemma InsertOneSound(t: Tables, e: LensEvent)
    requires Sound(t)
    ensures Sound(InsertOne(t, e))
  {
    hide Keys;
    var u := InsertOne(t, e);
    if e.id !in t.events {
      forall m ensures m in u.addresses <==> m.0 in u.events && m in RowMentions(m.0, u.events[m.0]) {
        MentionsAreOf(e.id, RowOf(e), m);
      }
    }
  }

  lemma {:induction false} InsertAllSound(t: Tables, batch: seq<LensEvent>)
    requires Sound(t)
    ensures Sound(InsertAll(t, batch))
    decreases |batch|
  {
    if batch != [] {
      InsertOneSound(t, batch[0]);
      InsertAllSound(InsertOne(t, batch[0]), batch[1..]);
    }
  }

  /** Rewriting rows makes their part of the index exact, whatever it was, and leaves the rest alone. */
  lemma RewriteExact(t: Tables, ids: set<string>, decode: Decoder, m: Mention)
    requires ids <= t.events.Keys
    ensures var u := RewriteRows(t, ids, decode);
      m in u.addresses <==>
        if m.0 in ids then m in RowMentions(m.0, u.events[m.0]) else m in t.addresses
  {
    hide Mentions;
    var u := RewriteRows(t, ids, decode);
    forall id | id in ids ensures m in RowMentions(id, t.events[id]) ==> m.0 == id { MentionsAreOf(id, t.events[id], m); }
    if m.0 in ids { assert RowMentions(m.0, u.events[m.0]) == RowMentions(m.0, t.events[m.0]); }
  }

  lemma RewriteSound(t: Tables, ids: set<string>, decode: Decoder)
    requires Sound(t) && ids <= t.events.Keys
    ensures Sound(RewriteRows(t, ids, decode))
  {
    var u := RewriteRows(t, ids, decode);
    hide Mentions, Keys;
    forall m ensures m in u.addresses <==> m.0 in u.events && m in RowMentions(m.0, u.events[m.0]) {
      RewriteExact(t, ids, decode, m);
    }
  }

  lemma ApplySound(t: Tables, op: Op)
    requires Sound(t)
    ensures Sound(Apply(t, op))
  {
    match op
    case Insert(batch) => InsertAllSound(t, batch);
    case RedecodeRows(all, decode) => RewriteSound(t, Selected(t, all), decode);
    case Repair(id, decode) => RewriteSound(t, if id in t.events then {id} else {}, decode);
    case Prune(cutoff) =>
  }

  const EMPTY: Tables := Tables(map[], {})

  /** Address index agreement: after any run from an empty store, index and columns match the rows. */
  lemma {:induction false} RunSound(t: Tables, ops: seq<Op>)
    requires Sound(t)
    ensures Sound(Run(t, ops))
    decreases |ops|
  {
    if ops != [] {
      ApplySound(t, ops[0]);
      RunSound(Apply(t, ops[0]), ops[1..]);
    }
  }

  lemma IndexAlwaysExact(ops: seq<Op>)
    ensures Sound(Run(EMPTY, ops))
  {
    RunSound(EMPTY, ops);
  }

  /** `redecode(true)` repairs the index and the columns from any state the foreign key allows. */
  lemma RedecodeRestores(t: Tables, decode: Decoder)
    requires KeysExist(t)
    ensures Sound(Redecode(t, true, decode))
    ensures Redecode(t, true, decode).events.Keys == t.events.Keys
  {
    var u := Redecode(t, true, decode);
    hide Mentions, Keys;
    forall m ensures m in u.addresses <==> m.0 in u.events && m in RowMentions(m.0, u.events[m.0]) {
      RewriteExact(t, Selected(t, true), decode, m);
    }
  }

  /** Without the flag only rows that once failed are rewritten: a wrong mention of a clean row stays. */
  lemma PartialRedecodeLeaves(t: Tables, decode: Decoder, m: Mention)
    requires m.0 in t.events && !t.events[m.0].decodeError
    ensures m in Redecode(t, false, decode).addresses <==> m in t.addresses
  {
    RewriteExact(t, Selected(t, false), decode, m);
  }

  ghost predicate DecodedBy(row: Row, decode: Decoder) {
    row == Rewrite(row, decode)
  }

  /** `newer` decodes whatever `older` did, alike. */
  ghost predicate Extends(newer: Decoder, older: Decoder) {
    forall x | older(x).Some? :: newer(x) == older(x)
  }

  /** After a release that only decodes more, the partial redecode leaves the store as the full one would. */
  lemma PartialRedecodeSuffices(t: Tables, older: Decoder, newer: Decoder)
    requires Sound(t) && Extends(newer, older)
    requires forall id | id in t.events :: DecodedBy(t.events[id], older)
    ensures Redecode(t, false, newer) == Redecode(t, true, newer)
  {
    hide RewriteRows, Rewrite, RowMentions;
    var part, full := Redecode(t, false, newer), Redecode(t, true, newer);
    forall id | id in t.events && !t.events[id].decodeError ensures t.events[id] == Rewrite(t.events[id], newer) {
      SameDecoding(t.events[id], older, newer);
    }
    SameRows(t, newer);
    RedecodeRestores(t, newer);
    RewriteSound(t, Selected(t, false), newer);
    SameIndex(part, full);
  }

  lemma SameRows(t: Tables, decode: Decoder)
    requires forall id | id in t.events && !t.events[id].decodeError :: t.events[id] == Rewrite(t.events[id], decode)
    ensures Redecode(t, false, decode).events == Redecode(t, true, decode).events
  {
    hide Rewrite, RowMentions;
  }

  /** The rows determine an exact index. */
  lemma SameIndex(a: Tables, b: Tables)
    requires IndexExact(a) && IndexExact(b) && a.events == b.events
    ensures a == b
  {
    hide RowMentions;
    assert forall m :: m in a.addresses <==> m in b.addresses;
  }

  lemma SameDecoding(row: Row, older: Decoder, newer: Decoder)
    requires DecodedBy(row, older) && Extends(newer, older) && !row.decodeError
    ensures row == Rewrite(row, newer)
  {
    var a := DecodeEvent("", row.ledger, row.topicsXdr, row.valueXdr, older);
    var b := DecodeEvent("", row.ledger, row.topicsXdr, row.valueXdr, newer);
    assert !a.decodeError;
    forall i | 0 <= i < |row.topicsXdr| ensures newer(row.topicsXdr[i]) == older(row.topicsXdr[i]) && older(row.topicsXdr[i]).Some? {}
    assert a.topics == b.topics;
  }

  // ---------------------------------------------------------------- the address filter

  /** `id IN (SELECT event_id FROM event_addresses WHERE address = ?)` */
  function Indexed(t: Tables, address: string): set<string> {
    set m | m in t.addresses && m.1 == address && m.0 in t.events :: m.0
  }

  function Values(row: Row): seq<Xdr> { row.topicsXdr + [row.valueXdr] }

  /** A row mentions an address when some value of it does. */
  predicate RowMatches(row: Row, address: string) {
    exists v | v in Values(row) :: Mentioned(v, address)
  }

  predicate RowFinds(row: Row, address: string) {
    exists v | v in Values(row) :: address in Found(v)
  }

  /** The rows a full scan would return. */
  function Scan(t: Tables, address: string): set<string> {
    set id | id in t.events && RowMatches(t.events[id], address)
  }

  /** Every address printed after a throwing leaf of some value is found in some value of the row. */
  ghost predicate RowHidesNothing(row: Row) {
    forall v, address | v in Values(row) && Some(address) in Unreached(v) :: RowFinds(row, address)
  }

  lemma IndexedIff(t: Tables, address: string, id: string)
    requires IndexExact(t)
    ensures id in Indexed(t, address) <==> id in t.events && RowFinds(t.events[id], address)
  {
    hide Found;
    if id in t.events {
      var row := t.events[id];
      if id in Indexed(t, address) {
        var m :| m in t.addresses && m.1 == address && m.0 == id;
        MentionsAreOf(id, row, m);
        match m.2
        case Topic(i) => assert Values(row)[i] == row.topicsXdr[i];
        case Body => assert Values(row)[|row.topicsXdr|] == row.valueXdr;
      }
      if RowFinds(row, address) {
        var v :| v in Values(row) && address in Found(v);
        var i :| 0 <= i < |Values(row)| && Values(row)[i] == v;
        var m := (id, address, if i < |row.topicsXdr| then Topic(i) else Body);
        MentionsAreOf(id, row, m);
        assert m in t.addresses;
      }
    }
  }

  lemma RowFindsIff(row: Row, address: string)
    ensures RowFinds(row, address) ==> RowMatches(row, address)
    ensures RowMatches(row, address) && !RowFinds(row, address) ==> exists v | v in Values(row) :: Some(address) in Unreached(v)
    ensures forall v | v in Values(row) && Some(address) in Unreached(v) :: RowMatches(row, address)
  {
    forall v
      ensures address in Found(v) ==> Mentioned(v, address)
      ensures Mentioned(v, address) && address !in Found(v) ==> Some(address) in Unreached(v)
      ensures Some(address) in Unreached(v) ==> Mentioned(v, address)
    {
      FoundIff(v, address);
    }
  }

  /**
   The filter finds a row exactly when some value mentions the address and not only after a leaf that
   throws; for all addresses it finds the row as a scan would exactly when the row hides nothing.
   */
  lemma FilterIsScanIff(t: Tables, id: string)
    requires IndexExact(t) && id in t.events
    ensures (forall address :: id in Indexed(t, address) <==> id in Scan(t, address)) <==> RowHidesNothing(t.events[id])
  {
    var row := t.events[id];
    forall address
      ensures id in Indexed(t, address) <==> RowFinds(row, address)
      ensures RowFinds(row, address) ==> RowMatches(row, address)
      ensures RowMatches(row, address) && !RowFinds(row, address) ==> exists v | v in Values(row) :: Some(address) in Unreached(v)
      ensures forall v | v in Values(row) && Some(address) in Unreached(v) :: RowMatches(row, address)
    {
      IndexedIff(t, address, id);
      RowFindsIff(row, address);
    }
    hide Indexed, RowFinds, RowMatches, Unreached, Values, IndexExact;
  }

  /** The `address` filter equals a full scan, for every address, exactly when no stored row hides one. */
  lemma AddressFilterExactIff(t: Tables)
    requires IndexExact(t)
    ensures (forall address :: Indexed(t, address) == Scan(t, address)) <==>
            forall id | id in t.events :: RowHidesNothing(t.events[id])
  {
    forall id | id in t.events
      ensures (forall address :: id in Indexed(t, address) <==> id in Scan(t, address)) <==> RowHidesNothing(t.events[id])
    {
      FilterIsScanIff(t, id);
    }
    hide IndexExact, RowHidesNothing, RowMatches;
  }

  /** The event of a vector that prints `a`, throws, and would print `b`. */
  function HidingEvent(id: string, a: string, b: string): LensEvent {
    LensEvent(id, 1, [], Tree("", VecVal([AddressVal(Some(a)), AbsentArm, AddressVal(Some(b))])), [],
              Decoded("vec", Structured), false)
  }

  /** At the filter: the event is stored and mentions both addresses, and is only found by the first. */
  lemma FilterMisses(id: string, a: string, b: string)
    requires a != b
    ensures var t := Run(EMPTY, [Insert([HidingEvent(id, a, b)])]);
      && Scan(t, a) == Scan(t, b) == {id} == Indexed(t, a) && Indexed(t, b) == {}
  {
    var e := HidingEvent(id, a, b);
    var ops := [Insert([e])];
    var t := Run(EMPTY, ops);
    IndexAlwaysExact(ops);
    assert ops[1..] == [] && [e][1..] == [];
    assert InsertAll(EMPTY, [e]) == InsertAll(InsertOne(EMPTY, e), []) == InsertOne(EMPTY, e);
    assert t == Run(Apply(EMPTY, ops[0]), []) == Apply(EMPTY, ops[0]);
    assert t.events == map[id := RowOf(e)];
    ThrowingLeafHides(a, b);
    var row := RowOf(e);
    assert Values(row) == [e.valueXdr];
    forall other
      ensures other in Indexed(t, a) <==> other == id
      ensures other !in Indexed(t, b)
      ensures other in Scan(t, a) <==> other == id
      ensures other in Scan(t, b) <==> other == id
    {
      IndexedIff(t, a, other);
      IndexedIff(t, b, other);
      if other == id { FoundIff(e.valueXdr, a); assert e.valueXdr in Values(row); }
    }
  }

  // ---------------------------------------------------------------- integrity

  datatype Problem = CountMismatch | KeyMismatch(i: nat)

  /** `checkIntegrity` on one row whose JSON columns parse. */
  method RowProblems(row: Row) returns (problems: seq<Problem>)
    requires |row.keys| == 4
    ensures problems == [] <==> Consistent(row)
    ensures CountMismatch in problems <==> row.topicCount != |row.topics|
    ensures forall i: nat :: KeyMismatch(i) in problems <==> i < 4 && row.keys[i] != TopicKey(row.topics, i)
  {
    problems := [];
    if row.topicCount != |row.topics| { problems := [CountMismatch]; }
    for i := 0 to 4
      invariant CountMismatch in problems <==> row.topicCount != |row.topics|
      invariant forall j: nat :: KeyMismatch(j) in problems <==> j < i && row.keys[j] != TopicKey(row.topics, j)
    {
      if row.keys[i] != TopicKey(row.topics, i) { problems := problems + [KeyMismatch(i)]; }
    }
    if problems != [] && problems[0].KeyMismatch? { assert KeyMismatch(problems[0].i) in problems; }
    if row.keys == Keys(row.topics) {
      assert forall i: nat | i < 4 :: row.keys[i] == TopicKey(row.topics, i);
    } else {
      assert exists i: nat :: i < 4 && row.keys[i] != TopicKey(row.topics, i);
    }
  }

  /** Repairing a row leaves nothing to report about it, and touches no other row or mention. */
  lemma RepairMends(t: Tables, id: string, decode: Decoder)
    requires id in t.events
    ensures var u := RepairRow(t, id, decode);
      && Consistent(u.events[id])
      && u.events[id].topicsXdr == t.events[id].topicsXdr && u.events[id].valueXdr == t.events[id].valueXdr
      && (forall m: Mention | m.0 == id :: m in u.addresses <==> m in RowMentions(id, u.events[id]))
      && (forall m: Mention | m.0 != id :: m in u.addresses <==> m in t.addresses)
      && (forall other | other in t.events && other != id :: other in u.events && u.events[other] == t.events[other])
  {
    var u := RepairRow(t, id, decode);
    hide Mentions, Keys;
    forall m: Mention
      ensures m.0 == id ==> (m in u.addresses <==> m in RowMentions(id, u.events[id]))
      ensures m.0 != id ==> (m in u.addresses <==> m in t.addresses)
    {
      RewriteExact(t, {id}, decode, m);
    }
  }
}
