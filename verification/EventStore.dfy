/** The store's operations as they run: statements on two tables, and pruning until the files fit. */
module EventStore {
  import opened Results
  import opened Addresses
  import opened Store

  // ---------------------------------------------------------------- ledgers gone and ledgers left

  function Doomed(events: Events, cutoff: int): set<string> {
    set id | id in events && events[id].ledger < cutoff
  }

  function Ledgers(events: Events, ids: set<string>): set<int>
    requires ids <= events.Keys
  {
    set id | id in ids :: events[id].ledger
  }

  lemma DisjointSizes<T>(a: set<T>, b: set<T>)
    requires a !! b
    ensures |a + b| == |a| + |b|
  {
  }

  /**
   One more chunk: `events` are what survived up to ledger `top`, and the chunk takes everything
   below `cutoff`, of which `newTop` is the highest ledger present.
   */
  lemma ChunkAdds(before: Events, top: int, events: Events, cutoff: int, newTop: int)
    requires events == Surviving(before, top + 1) && top < cutoff
    requires newTop in Ledgers(events, Doomed(events, cutoff))
    requires forall id | id in Doomed(events, cutoff) :: events[id].ledger <= newTop
    ensures Surviving(events, cutoff) == Surviving(before, newTop + 1)
    ensures |Doomed(before, newTop + 1)| == |Doomed(before, top + 1)| + |Doomed(events, cutoff)|
    ensures |Ledgers(before, Doomed(before, newTop + 1))|
         == |Ledgers(before, Doomed(before, top + 1))| + |Ledgers(events, Doomed(events, cutoff))|
    ensures newTop in Ledgers(before, Doomed(before, newTop + 1)) && top < newTop
  {
    var old0, chunk, gone := Doomed(before, top + 1), Doomed(events, cutoff), Doomed(before, newTop + 1);
    var id :| id in chunk && events[id].ledger == newTop;
    assert id in before && before[id].ledger == newTop;
    assert gone == old0 + chunk;
    DisjointSizes(old0, chunk);
    var a, b := Ledgers(before, old0), Ledgers(events, chunk);
    LedgersJoin(before, old0, events, chunk, gone);
    DisjointSizes(a, b);
  }

  lemma LedgersJoin(before: Events, a: set<string>, events: Events, b: set<string>, all: set<string>)
    requires a <= before.Keys && b <= events.Keys && all <= before.Keys && all == a + b
    requires forall id | id in b :: id in before && before[id] == events[id]
    ensures Ledgers(before, all) == Ledgers(before, a) + Ledgers(events, b)
  {
  }

  lemma RowsSplit(events: Events, cutoff: int)
    ensures |events| == |Doomed(events, cutoff)| + |Surviving(events, cutoff)|
  {
    assert events.Keys == Doomed(events, cutoff) + Surviving(events, cutoff).Keys;
    DisjointSizes(Doomed(events, cutoff), Surviving(events, cutoff).Keys);
  }

  /** What a size prune reports, against the tables before it. */
  ghost predicate PruneReport(before: Tables, after: Tables, rows: nat, ledgers: nat, highest: Option<int>) {
    match highest
    case None => after == before && rows == 0 && ledgers == 0
    case Some(top) =>
      && after == DeleteBelow(before, top + 1)
      && rows == |Doomed(before.events, top + 1)|
      && ledgers == |Ledgers(before.events, Doomed(before.events, top + 1))|
      && top in Ledgers(before.events, Doomed(before.events, top + 1))
  }

  lemma NothingPruned(t: Tables)
    ensures PruneReport(t, t, 0, 0, None)
  {
  }

  lemma ReportGrows(before: Tables, now: Tables, rows: nat, ledgers: nat, highest: Option<int>, cutoff: int, newTop: int)
    requires PruneReport(before, now, rows, ledgers, highest)
    requires highest.Some? ==> highest.value < cutoff
    requires newTop in Ledgers(now.events, Doomed(now.events, cutoff))
    requires forall id | id in Doomed(now.events, cutoff) :: now.events[id].ledger <= newTop
    ensures var n := |Doomed(now.events, cutoff)|;
            var l := |Ledgers(now.events, Doomed(now.events, cutoff))|;
            PruneReport(before, DeleteBelow(now, cutoff), rows + n, ledgers + l, Some(newTop))
  {
    match highest
    case None =>
      assert Doomed(before.events, cutoff) == Doomed(before.events, newTop + 1);
      assert Surviving(before.events, cutoff) == Surviving(before.events, newTop + 1);
    case Some(top) =>
      hide Ledgers;
      ChunkAdds(before.events, top, now.events, cutoff, newTop);
      assert DeleteBelow(now, cutoff).addresses == DeleteBelow(before, newTop + 1).addresses by { hide Doomed; }
  }

  /** Whole ledgers from the old end, nothing else: what a report means for history. */
  lemma PruneIsPrefix(before: Tables, after: Tables, rows: nat, ledgers: nat, highest: Option<int>)
    requires PruneReport(before, after, rows, ledgers, highest)
    ensures rows + |after.events| == |before.events|
    ensures forall id | id in after.events :: highest.Some? ==> after.events[id].ledger > highest.value
    ensures forall id | id in before.events ::
              if id in after.events then after.events[id] == before.events[id]
              else highest.Some? && before.events[id].ledger <= highest.value
    ensures forall a, b | a in before.events && b in before.events && before.events[a].ledger == before.events[b].ledger ::
              a in after.events <==> b in after.events
    ensures Ledgers(before.events, before.events.Keys)
         == Ledgers(before.events, before.events.Keys - after.events.Keys) + Ledgers(after.events, after.events.Keys)
    ensures ledgers == |Ledgers(before.events, before.events.Keys - after.events.Keys)|
  {
    if highest.Some? {
      RowsSplit(before.events, highest.value + 1);
      assert Doomed(before.events, highest.value + 1) == before.events.Keys - after.events.Keys;
    }
    LedgersJoin(before.events, before.events.Keys - after.events.Keys, after.events, after.events.Keys, before.events.Keys);
  }

  // ---------------------------------------------------------------- one statement at a time

  /** Rewriting one more row after `done`: an update, a delete and the fresh mentions. */
  lemma RewriteOneMore(t: Tables, done: set<string>, id: string, decode: Decoder)
    requires done <= t.events.Keys && id in t.events && id !in done
    ensures var now, next := RewriteRows(t, done, decode), RewriteRows(t, done + {id}, decode);
      && now.events[id] == t.events[id]
      && next.events == now.events[id := Rewrite(t.events[id], decode)]
      && next.addresses == (set m | m in now.addresses && m.0 != id) + RowMentions(id, t.events[id])
  {
    var now, next := RewriteRows(t, done, decode), RewriteRows(t, done + {id}, decode);
    assert RowMentions(id, next.events[id]) == RowMentions(id, t.events[id]);
    forall m ensures m in next.addresses <==> m in (set m | m in now.addresses && m.0 != id) + RowMentions(id, t.events[id]) {
      RewriteExact(t, done, decode, m);
      RewriteExact(t, done + {id}, decode, m);
      MentionsAreOf(id, t.events[id], m);
    }
  }

  lemma RewriteNone(t: Tables, decode: Decoder)
    ensures RewriteRows(t, {}, decode) == t
  {
    hide Rewrite, RowMentions;
  }

  lemma {:induction false} InsertKeepsKeys(t: Tables, batch: seq<LensEvent>)
    requires KeysExist(t)
    ensures KeysExist(InsertAll(t, batch))
    decreases |batch|
  {
    if batch != [] {
      forall m ensures m in Mentions(batch[0].id, batch[0].topicsXdr, batch[0].valueXdr) ==> m.0 == batch[0].id {}
      InsertKeepsKeys(InsertOne(t, batch[0]), batch[1..]);
    }
  }

  lemma RewriteKeepsKeys(t: Tables, ids: set<string>, decode: Decoder)
    requires KeysExist(t) && ids <= t.events.Keys
    ensures KeysExist(RewriteRows(t, ids, decode))
  {
    forall m | m in RewriteRows(t, ids, decode).addresses ensures m.0 in t.events {
      RewriteExact(t, ids, decode, m);
    }
  }

  // ---------------------------------------------------------------- the store

  class EventStore {
    var events: Events
    var addresses: set<Mention>
    const inMemory: bool

    function State(): Tables
      reads this
    {
      Tables(events, addresses)
    }

    /** The foreign key the database enforces. */
    ghost predicate Valid()
      reads this
    {
      KeysExist(State())
    }

    constructor (inMemory: bool)
      ensures Valid() && this.inMemory == inMemory && State() == EMPTY
    {
      this.inMemory := inMemory;
      events, addresses := map[], {};
    }

    method InsertAddresses(id: string, topicsXdr: seq<Xdr>, valueXdr: Xdr)
      modifies this`addresses
      ensures addresses == old(addresses) + Mentions(id, topicsXdr, valueXdr)
    {
      for i := 0 to |topicsXdr|
        invariant addresses == old(addresses) + (set j, a | 0 <= j < i && a in Found(topicsXdr[j]) :: (id, a, Topic(j)))
      {
        var found := ExtractAddresses(topicsXdr[i]);
        addresses := addresses + (set a | a in found :: (id, a, Topic(i)));
      }
      var found := ExtractAddresses(valueXdr);
      addresses := addresses + (set a | a in found :: (id, a, Body));
    }

    /** One transaction; a replayed event changes nothing and is not counted. */
    method InsertDecoded(batch: seq<LensEvent>) returns (inserted: nat)
      modifies this`events, this`addresses
      requires Valid()
      ensures Valid() && State() == InsertAll(old(State()), batch)
      ensures |events| == |old(events)| + inserted
    {
      InsertKeepsKeys(State(), batch);
      inserted := 0;
      for i := 0 to |batch|
        invariant InsertAll(State(), batch[i..]) == InsertAll(old(State()), batch)
        invariant |events| == |old(events)| + inserted
      {
        var e := batch[i];
        assert batch[i..][0] == e && batch[i..][1..] == batch[i + 1..];
        label Before:
        if e.id !in events {
          events := events[e.id := RowOf(e)];
          inserted := inserted + 1;
          InsertAddresses(e.id, e.topicsXdr, e.valueXdr);
        }
        assert State() == InsertOne(old@Before(State()), e);
      }
    }

    /** One row of a re-decode of `t`, after the rows in `done`. */
    method RewriteOne(id: string, decode: Decoder, ghost t: Tables, ghost done: set<string>)
      requires State() == RewriteRows(t, done, decode) && done <= t.events.Keys && id in t.events && id !in done
      modifies this`events, this`addresses
      ensures State() == RewriteRows(t, done + {id}, decode)
    {
      RewriteOneMore(t, done, id, decode);
      hide RewriteRows, Mentions;
      var row := events[id];
      events := events[id := Rewrite(row, decode)];
      addresses := set m | m in addresses && m.0 != id;
      InsertAddresses(id, row.topicsXdr, row.valueXdr);
    }

    /** Rewrites the derived columns of the rows read beforehand, and replaces their mentions. */
    method RewriteAll(ids: set<string>, decode: Decoder)
      requires Valid() && ids <= events.Keys
      modifies this`events, this`addresses
      ensures Valid() && State() == RewriteRows(old(State()), ids, decode)
    {
      RewriteKeepsKeys(State(), ids, decode);
      RewriteNone(State(), decode);
      hide RewriteRows, Rewrite, Mentions, RowMentions, KeysExist;
      assert ids - ids == {};
      var left := ids;
      while left != {}
        invariant left <= ids
        invariant State() == RewriteRows(old(State()), ids - left, decode)
      {
        var id :| id in left;
        RewriteOne(id, decode, old(State()), ids - left);
        assert ids - (left - {id}) == (ids - left) + {id};
        left := left - {id};
      }
      assert ids - {} == ids;
    }

    method Redecode(all: bool, decode: Decoder) returns (rewritten: nat)
      requires Valid()
      modifies this`events, this`addresses
      ensures Valid() && State() == Store.Redecode(old(State()), all, decode)
      ensures rewritten == |Selected(old(State()), all)|
    {
      var ids := Selected(State(), all);
      RewriteAll(ids, decode);
      return |ids|;
    }

    method RepairRow(id: string, decode: Decoder)
      requires Valid()
      modifies this`events, this`addresses
      ensures Valid() && State() == Store.RepairRow(old(State()), id, decode)
    {
      RewriteAll(if id in events then {id} else {}, decode);
    }

    method PruneBefore(ledger: int) returns (removed: nat)
      requires Valid()
      modifies this`events, this`addresses
      ensures Valid() && State() == DeleteBelow(old(State()), ledger)
      ensures removed + |events| == |old(events)|
    {
      RowsSplit(events, ledger);
      removed := |Doomed(events, ledger)|;
      if removed == 0 {
        assert Doomed(events, ledger) == {};
        forall id | id in events ensures events[id].ledger >= ledger { assert id !in Doomed(events, ledger); }
        assert Surviving(events, ledger) == events;
        return;
      }
      events := Surviving(events, ledger);
      addresses := set m | m in addresses && m.0 in events;
    }

    method OldestLedger() returns (oldest: Option<int>)
      ensures oldest.None? <==> events == map[]
      ensures oldest.Some? ==> oldest.value in Ledgers(events, events.Keys)
      ensures oldest.Some? ==> forall id | id in events :: oldest.value <= events[id].ledger
    {
      oldest := None;
      var left := events.Keys;
      while left != {}
        invariant left <= events.Keys
        invariant oldest.None? ==> left == events.Keys
        invariant oldest.Some? ==> oldest.value in Ledgers(events, events.Keys)
        invariant oldest.Some? ==> forall id | id in events && id !in left :: oldest.value <= events[id].ledger
      {
        var id :| id in left;
        if oldest.None? || events[id].ledger < oldest.value { oldest := Some(events[id].ledger); }
        left := left - {id};
      }
    }

    method HighestLedger(ids: set<string>) returns (top: int)
      requires ids != {} && ids <= events.Keys
      ensures top in Ledgers(events, ids)
      ensures forall id | id in ids :: events[id].ledger <= top
    {
      var first :| first in ids;
      top := events[first].ledger;
      var left := ids;
      while left != {}
        invariant left <= ids && top in Ledgers(events, ids)
        invariant forall id | id in ids && id !in left :: events[id].ledger <= top
      {
        var id :| id in left;
        if events[id].ledger > top { top := events[id].ledger; }
        left := left - {id};
      }
    }

    /** One chunk: what goes is counted, then deleted. */
    method DeleteChunk(oldest: int, cutoff: int) returns (n: nat, l: nat, top: int)
      requires Valid() && oldest in Ledgers(events, events.Keys) && oldest < cutoff
      modifies this`events, this`addresses
      ensures Valid() && State() == DeleteBelow(old(State()), cutoff)
      ensures n == |Doomed(old(events), cutoff)| && l == |Ledgers(old(events), Doomed(old(events), cutoff))|
      ensures top in Ledgers(old(events), Doomed(old(events), cutoff))
      ensures forall id | id in Doomed(old(events), cutoff) :: old(events)[id].ledger <= top
      ensures forall id | id in events :: events[id].ledger > top
      ensures |events| < |old(events)|
    {
      var doomed := Doomed(events, cutoff);
      var first :| first in events && events[first].ledger == oldest;
      assert first in doomed;
      n, l := |doomed|, |Ledgers(events, doomed)|;
      top := HighestLedger(doomed);
      RowsSplit(events, cutoff);
      events := Surviving(events, cutoff);
      addresses := set m | m in addresses && m.0 in events;
    }

    /**
     `pruneToSize`; `sizes(k)` is what the k-th measurement of the files will say. It ends at the first
     measurement that fits or when nothing is left, having removed whole ledgers from the old end.
     */
    method PruneToSize(target: int, chunkLedgers: int, sizes: nat -> int)
      returns (rows: nat, ledgers: nat, highest: Option<int>, within: bool, ghost rounds: nat)
      requires Valid()
      modifies this`events, this`addresses
      ensures Valid()
      ensures PruneReport(old(State()), State(), rows, ledgers, highest)
      ensures inMemory ==> State() == old(State()) && within
      ensures !inMemory ==> (sizes(rounds) <= target || events == map[]) && forall k: nat | k < rounds :: sizes(k) > target
      ensures !inMemory ==> (within <==> sizes(rounds + 1) <= target)
    {
      hide PruneReport, KeysExist;
      NothingPruned(State());
      var chunk := if chunkLedgers > 1 then chunkLedgers else 1;
      rows, ledgers, highest, rounds := 0, 0, None, 0;
      if inMemory { return 0, 0, None, true, 0; }
      var measured: nat := 0;
      while sizes(measured) > target
        invariant Valid() && measured == rounds
        invariant PruneReport(old(State()), State(), rows, ledgers, highest)
        invariant highest.Some? ==> forall id | id in events :: events[id].ledger > highest.value
        invariant forall k: nat | k < rounds :: sizes(k) > target
        decreases |events|
      {
        var oldest := OldestLedger();
        if oldest == None { break; }
        var cutoff := oldest.value + chunk;
        ghost var before := State();
        var n, l, top := DeleteChunk(oldest.value, cutoff);
        ReportGrows(old(State()), before, rows, ledgers, highest, cutoff, top);
        ledgers := ledgers + l;
        rows := rows + n;
        highest := Some(top);
        measured, rounds := measured + 1, rounds + 1;
      }
      within := sizes(measured + 1) <= target;
    }
  }
}
