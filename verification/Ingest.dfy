/**
 The ingest protocol: fetch a page, drop repeats, hand it to the consumer, insert, save the
 cursor; with crashes, restarts, cursors out of retention and provider failover in between.

 The chain is a growing log of the events that match the stream's filter. A cursor is a
 position in that log; nodes answer it with the events that follow, or with an error. A node
 whose latest ledger is `tip` shows exactly the events up to that ledger.
 */
module Ingest {
  import opened Results

  datatype Event = Event(id: nat, ledger: nat)

  /** Closed ledgers never change: new events belong to ledgers above `closed`. */
  datatype Chain = Chain(log: seq<Event>, closed: nat)

  ghost predicate ValidChain(c: Chain) {
    && (forall i, j | 0 <= i < j < |c.log| :: c.log[i].id < c.log[j].id && c.log[i].ledger <= c.log[j].ledger)
    && (forall i | 0 <= i < |c.log| :: 0 < c.log[i].ledger <= c.closed)
  }

  /** Index of the first event at or after `ledger`. */
  function FirstAt(log: seq<Event>, ledger: nat): (i: nat)
    ensures i <= |log|
    ensures forall j | 0 <= j < i :: log[j].ledger < ledger
    ensures i < |log| ==> log[i].ledger >= ledger
  {
    if log == [] || log[0].ledger >= ledger then 0 else 1 + FirstAt(log[1..], ledger)
  }

  // ---------------------------------------------------------------- repeats

  type Ids = seq<nat>

  /** `RecentIds.add`: a known id is refused; a new one is kept and may evict the oldest. */
  function Remember(seen: Ids, id: nat, capacity: nat): Ids {
    if id in seen then seen
    else if |seen| + 1 > capacity then (seen + [id])[1..]
    else seen + [id]
  }

  /** The events not seen recently, and the window afterwards. */
  function Fresh(events: seq<Event>, seen: Ids, capacity: nat): (seq<Event>, Ids) {
    if events == [] then ([], seen)
    else
      var (rest, after) := Fresh(events[1..], Remember(seen, events[0].id, capacity), capacity);
      (if events[0].id in seen then rest else [events[0]] + rest, after)
  }

  lemma FreshStep(events: seq<Event>, i: nat, seen: Ids, capacity: nat)
    requires i < |events|
    ensures var (rest, after) := Fresh(events[i + 1..], Remember(seen, events[i].id, capacity), capacity);
            Fresh(events[i..], seen, capacity) == (if events[i].id in seen then rest else [events[i]] + rest, after)
  {
    assert events[i..][1..] == events[i + 1..];
  }

  lemma FreshNone(events: seq<Event>, seen: Ids, capacity: nat)
    ensures Fresh(events[|events|..], seen, capacity) == ([], seen)
  {
  }

  /** A fixed-capacity window of ids in insertion order. */
  class RecentIds {
    const capacity: nat
    var ids: Ids

    constructor (capacity: int)
      ensures this.capacity == (if capacity < 1 then 1 else capacity) && ids == []
    {
      this.capacity := if capacity < 1 then 1 else capacity;
      ids := [];
    }

    method Add(id: nat) returns (added: bool)
      modifies this
      ensures added <==> id !in old(ids)
      ensures ids == Remember(old(ids), id, capacity)
    {
      if id in ids { return false; }
      ids := ids + [id];
      if |ids| > capacity { ids := ids[1..]; }
      added := true;
    }

    method FilterFresh(events: seq<Event>) returns (unseen: seq<Event>)
      modifies this
      ensures unseen == Fresh(events, old(ids), capacity).0
      ensures ids == Fresh(events, old(ids), capacity).1
    {
      hide Fresh, Remember;
      unseen := [];
      var i := 0;
      assert events[0..] == events;
      while i < |events|
        invariant i <= |events|
        invariant Fresh(events, old(ids), capacity).0 == unseen + Fresh(events[i..], ids, capacity).0
        invariant Fresh(events, old(ids), capacity).1 == Fresh(events[i..], ids, capacity).1
      {
        FreshStep(events, i, ids, capacity);
        var added := Add(events[i].id);
        if added { unseen := unseen + [events[i]]; }
        i := i + 1;
      }
      FreshNone(events, ids, capacity);
    }
  }

  // ---------------------------------------------------------------- state

  /** `pageSize` events per request; ids remembered are a multiple of that; where to begin, if configured. */
  datatype Config = Config(pageSize: nat, capacity: nat, startLedger: Option<nat>)

  /** Where to begin without a saved cursor: the ledger configured, kept inside what the node retains. */
  function StartLedger(requested: Option<nat>, oldest: nat, latest: nat): (start: nat)
    ensures start <= latest && (oldest <= latest ==> oldest <= start)
    ensures requested.None? && oldest <= latest ==> start == oldest
    ensures requested.Some? && oldest <= requested.value <= latest ==> start == requested.value
  {
    var wanted := requested.GetOr(oldest);
    var raised := if wanted < oldest then oldest else wanted;
    if raised > latest then latest else raised
  }

  /** The position saved in the cursor store; an absent one covers the empty tombstone too. */
  datatype Saved = Saved(pos: nat, ledger: nat)

  datatype Mode = Unresolved | AtCursor(pos: nat) | AtLedger(ledger: nat)

  /** A page after repeats were dropped, with the position to save once it is processed. */
  datatype Batch = Batch(events: seq<Event>, cursor: nat, ledger: nat)

  /** Volatile state: not running, between pages, batch with the consumer, consumer back. */
  datatype Process =
    | Down
    | Polling(mode: Mode, seen: Ids)
    | Handing(batch: Batch, seen: Ids)
    | Handed(batch: Batch, seen: Ids)

  /**
   Durable are the saved position and the event table; `missed` is a history variable, the
   events that some start or restart at a later ledger left behind unstored.
   */
  datatype State = State(chain: Chain, saved: Option<Saved>, table: Ids, process: Process, missed: set<nat>)

  /** The events below ledger `floor` that are not in the table. */
  function LeftBehind(log: seq<Event>, table: Ids, floor: nat): set<nat> {
    set i | 0 <= i < |log| && log[i].ledger < floor && log[i].id !in table :: log[i].id
  }

  function IdsOf(events: seq<Event>): Ids {
    seq(|events|, i requires 0 <= i < |events| => events[i].id)
  }

  /** INSERT OR IGNORE on the primary key. */
  function InsertOrIgnore(table: Ids, ids: Ids): Ids
    decreases |ids|
  {
    if ids == [] then table
    else InsertOrIgnore(if ids[0] in table then table else table + [ids[0]], ids[1..])
  }

  // ---------------------------------------------------------------- nodes

  datatype Page = Page(events: seq<Event>, cursor: nat, latestLedger: nat)

  /**
   A node whose latest ledger is `page.latestLedger` answers position `from`: some of the next
   events, in order and at most a page of them. It may stop short, even of the first: nodes scan a
   bounded range of ledgers for one page.
   */
  ghost predicate Serves(c: Chain, from: nat, limit: nat, page: Page) {
    var visible := FirstAt(c.log, page.latestLedger + 1);
    && page.latestLedger <= c.closed
    && page.cursor == from + |page.events|
    && |page.events| <= limit
    && (page.events != [] ==> page.cursor <= visible && page.events == c.log[from..page.cursor])
  }

  // ---------------------------------------------------------------- steps of the indexer

  function Boot(s: State): State
    requires s.process.Down?
  {
    s.(process := Polling(Unresolved, []))
  }

  /** A saved cursor wins; otherwise reading begins at ledger `start`. */
  function Resolve(s: State, start: nat): State
    requires s.process.Polling? && s.process.mode.Unresolved?
  {
    if s.saved.Some? then s.(process := s.process.(mode := AtCursor(s.saved.value.pos)))
    else s.(process := s.process.(mode := AtLedger(start)), missed := s.missed + LeftBehind(s.chain.log, s.table, start))
  }

  /** No event at or beyond the saved position is older than the saved ledger. */
  ghost predicate Overlaps(s: State) {
    && s.saved.Some?
    && forall i | s.saved.value.pos <= i < |s.chain.log| :: s.chain.log[i].ledger >= s.saved.value.ledger
  }

  /** A failover that reads on from the saved ledger. */
  ghost predicate FailsOver(s: State, from: nat) {
    s.process.Polling? && s.process.mode.AtCursor? && s.saved.Some? && from == FirstAt(s.chain.log, s.saved.value.ledger)
  }

  /** Positions a page may be served from: the one asked for, or a failover's ledger if that overlaps. */
  ghost predicate AskedFrom(s: State, from: nat)
    requires s.process.Polling?
  {
    match s.process.mode
    case Unresolved => false
    case AtCursor(pos) => from == pos || (FailsOver(s, from) && Overlaps(s))
    case AtLedger(ledger) => from == FirstAt(s.chain.log, ledger)
  }

  /** The ledger saved with a page: its last event's, or else the node's latest. */
  function LedgerOf(page: Page): nat {
    if page.events == [] then page.latestLedger else page.events[|page.events| - 1].ledger
  }

  function Receive(cfg: Config, s: State, page: Page): State
    requires s.process.Polling?
  {
    var (unseen, seen) := Fresh(page.events, s.process.seen, cfg.capacity);
    var batch := Batch(unseen, page.cursor, LedgerOf(page));
    s.(process := if unseen == [] then Handed(batch, seen) else Handing(batch, seen))
  }

  function InsertBatch(s: State): State
    requires s.process.Handing?
  {
    s.(table := InsertOrIgnore(s.table, IdsOf(s.process.batch.events)),
       process := Handed(s.process.batch, s.process.seen))
  }

  function SaveCursor(s: State): State
    requires s.process.Handed?
  {
    var batch := s.process.batch;
    s.(saved := Some(Saved(batch.cursor, batch.ledger)), process := Polling(AtCursor(batch.cursor), s.process.seen))
  }

  /** The cursor fell out of retention: forget it and start over at the oldest retained ledger. */
  function OutOfRange(s: State, oldest: nat): State
    requires s.process.Polling? && s.process.mode.AtCursor?
  {
    s.(saved := None, process := s.process.(mode := AtLedger(oldest)),
       missed := s.missed + LeftBehind(s.chain.log, s.table, oldest))
  }

  function Crash(s: State): State {
    s.(process := Down)
  }

  ghost predicate Grows(c: Chain, d: Chain) {
    && ValidChain(d) && c.closed <= d.closed && c.log <= d.log
    && forall i | |c.log| <= i < |d.log| :: d.log[i].ledger > c.closed
  }

  // ---------------------------------------------------------------- the indexer, run

  lemma InsertStep(table: Ids, ids: Ids, i: nat)
    requires i < |ids|
    ensures InsertOrIgnore(table, ids[i..]) ==
            InsertOrIgnore(if ids[i] in table then table else table + [ids[i]], ids[i + 1..])
  {
    assert ids[i..][1..] == ids[i + 1..];
  }

  /** The poller and its consumer: the cursor store and the table outlive a crash, the rest does not. */
  class Indexer {
    const cfg: Config
    var saved: Option<Saved>
    var table: Ids
    var running: bool
    var mode: Mode
    var recent: RecentIds
    var batch: Option<Batch>
    var inserted: bool

    ghost function View(chain: Chain, missed: set<nat>): State
      reads this, recent
    {
      State(chain, saved, table,
            if !running then Down
            else if batch.None? then Polling(mode, recent.ids)
            else if inserted then Handed(batch.value, recent.ids) else Handing(batch.value, recent.ids), missed)
    }

    constructor (cfg: Config)
      requires cfg.capacity >= 1
      ensures this.cfg == cfg && fresh(recent) && recent.capacity == cfg.capacity
      ensures forall chain, missed :: View(chain, missed) == State(chain, None, [], Down, missed)
    {
      this.cfg := cfg;
      saved, table, running, mode, batch, inserted := None, [], false, Unresolved, None, false;
      recent := new RecentIds(cfg.capacity);
    }

    /** A new process begins with an empty window of recent ids. */
    method Start(ghost chain: Chain, ghost missed: set<nat>)
      requires !running && cfg.capacity >= 1
      modifies this
      ensures View(chain, missed) == Boot(old(View(chain, missed)))
      ensures fresh(recent) && recent.capacity == cfg.capacity
    {
      running, mode, batch, inserted := true, Unresolved, None, false;
      recent := new RecentIds(cfg.capacity);
    }

    method ResolveStart(oldest: nat, latest: nat, ghost chain: Chain, ghost missed: set<nat>)
      requires running && batch.None? && mode.Unresolved?
      modifies this`mode
      ensures var start := StartLedger(cfg.startLedger, oldest, latest);
              Resolve(old(View(chain, missed)), start) ==
              View(chain, if saved.Some? then missed else missed + LeftBehind(chain.log, table, start))
    {
      mode := if saved.Some? then AtCursor(saved.value.pos) else AtLedger(StartLedger(cfg.startLedger, oldest, latest));
    }

    /** A page came back: drop repeats; the batch is yielded unless nothing is left of it. */
    method ReceivePage(page: Page, ghost chain: Chain, ghost missed: set<nat>)
      requires running && batch.None? && recent.capacity == cfg.capacity
      modifies this`batch, this`inserted, recent
      ensures View(chain, missed) == Receive(cfg, old(View(chain, missed)), page)
    {
      var unseen := recent.FilterFresh(page.events);
      var ledger := if page.events == [] then page.latestLedger else page.events[|page.events| - 1].ledger;
      batch := Some(Batch(unseen, page.cursor, ledger));
      inserted := unseen == [];
    }

    /** `insertEvents`: every new row counts once, a row already there is left alone. */
    method InsertEvents(ghost chain: Chain, ghost missed: set<nat>) returns (added: nat)
      requires running && batch.Some? && !inserted
      modifies this`table, this`inserted
      ensures View(chain, missed) == InsertBatch(old(View(chain, missed)))
      ensures |table| == old(|table|) + added
    {
      var ids := IdsOf(batch.value.events);
      var i := 0;
      added := 0;
      assert ids[0..] == ids;
      while i < |ids|
        invariant i <= |ids|
        invariant InsertOrIgnore(table, ids[i..]) == InsertOrIgnore(old(table), ids)
        invariant |table| == old(|table|) + added
      {
        InsertStep(table, ids, i);
        if ids[i] !in table {
          table := table + [ids[i]];
          added := added + 1;
        }
        i := i + 1;
      }
      inserted := true;
    }

    method Save(ghost chain: Chain, ghost missed: set<nat>)
      requires running && batch.Some? && inserted
      modifies this`saved, this`mode, this`batch
      ensures View(chain, missed) == SaveCursor(old(View(chain, missed)))
    {
      saved := Some(Saved(batch.value.cursor, batch.value.ledger));
      mode := AtCursor(batch.value.cursor);
      batch := None;
    }

    method RestartAtOldest(oldest: nat, ghost chain: Chain, ghost missed: set<nat>)
      requires running && batch.None? && mode.AtCursor?
      modifies this`saved, this`mode
      ensures View(chain, missed + LeftBehind(chain.log, table, oldest)) == OutOfRange(old(View(chain, missed)), oldest)
    {
      saved := None;
      mode := AtLedger(oldest);
    }

    method Stop(ghost chain: Chain, ghost missed: set<nat>)
      modifies this`running
      ensures View(chain, missed) == Crash(old(View(chain, missed)))
    {
      running := false;
    }
  }

  // ---------------------------------------------------------------- runs

  ghost predicate Init(s: State) {
    ValidChain(s.chain) && s.saved.None? && s.table == [] && s.process.Down? && s.missed == {}
  }

  /** A start, or a restart, at a ledger that has closed, as all that a node retains have. */
  ghost predicate Begins(s: State, t: State, start: nat) {
    && start <= s.chain.closed && s.process.Polling?
    && match s.process.mode
       case Unresolved => t == Resolve(s, start)
       case AtCursor(_) => t == OutOfRange(s, start)
       case AtLedger(_) => false
  }

  ghost predicate Next(cfg: Config, s: State, t: State) {
    || (exists chain :: Grows(s.chain, chain) && t == s.(chain := chain))
    || t == Crash(s)
    || (s.process.Down? && t == Boot(s))
    || (exists start: nat :: Begins(s, t, start))
    || (s.process.Polling? && exists from, page ::
          AskedFrom(s, from) && Serves(s.chain, from, cfg.pageSize, page) && t == Receive(cfg, s, page))
    || (s.process.Handing? && t == InsertBatch(s))
    || (s.process.Handed? && t == SaveCursor(s))
  }

  ghost predicate IsRun(cfg: Config, run: seq<State>) {
    run != [] && Init(run[0]) && forall i | 0 <= i < |run| - 1 :: Next(cfg, run[i], run[i + 1])
  }

  // ---------------------------------------------------------------- the invariant

  ghost predicate Stored(s: State, i: nat)
    requires i < |s.chain.log|
  {
    s.chain.log[i].id in s.table || s.chain.log[i].id in s.missed
  }

  ghost predicate StoredBefore(s: State, pos: nat) {
    pos <= |s.chain.log| && forall i | 0 <= i < pos :: Stored(s, i)
  }

  ghost predicate Distinct(ids: Ids) {
    forall i, j | 0 <= i < j < |ids| :: ids[i] != ids[j]
  }

  ghost predicate Among(ids: Ids, more: Ids) {
    forall x | x in ids :: x in more
  }

  ghost predicate ProcessInv(s: State) {
    match s.process
    case Down => true
    case Polling(mode, seen) =>
      && Among(seen, s.table)
      && (mode.AtCursor? ==> s.saved.Some? && mode.pos == s.saved.value.pos)
      && (mode.AtLedger? ==> mode.ledger <= s.chain.closed && StoredBefore(s, FirstAt(s.chain.log, mode.ledger)))
    case Handing(batch, seen) =>
      && Among(seen, s.table + IdsOf(batch.events))
      && Among(IdsOf(batch.events), IdsOf(s.chain.log))
      && batch.cursor <= |s.chain.log|
      && forall i | 0 <= i < batch.cursor :: Stored(s, i) || s.chain.log[i].id in IdsOf(batch.events)
    case Handed(batch, seen) =>
      && Among(seen, s.table)
      && StoredBefore(s, batch.cursor)
  }

  ghost predicate Inv(s: State) {
    && ValidChain(s.chain)
    && Distinct(s.table)
    && Among(s.table, IdsOf(s.chain.log))
    && (s.saved.Some? ==> StoredBefore(s, s.saved.value.pos))
    && ProcessInv(s)
  }

  // ---------------------------------------------------------------- every step keeps it

  lemma FirstAtIs(log: seq<Event>, ledger: nat, i: nat)
    requires i <= |log|
    requires forall j | 0 <= j < i :: log[j].ledger < ledger
    requires i < |log| ==> log[i].ledger >= ledger
    ensures FirstAt(log, ledger) == i
  {
    var k := FirstAt(log, ledger);
    assert k >= i;
  }

  lemma GrownStoredBefore(s: State, chain: Chain)
    requires Inv(s) && Grows(s.chain, chain)
    ensures forall pos: nat | StoredBefore(s, pos) :: StoredBefore(s.(chain := chain), pos)
  {
    var t := s.(chain := chain);
    assert forall j | 0 <= j < |s.chain.log| :: t.chain.log[j] == s.chain.log[j];
    forall pos: nat | StoredBefore(s, pos) ensures StoredBefore(t, pos) {
      forall i | 0 <= i < pos ensures Stored(t, i) { assert Stored(s, i); }
    }
  }

  lemma GrownFirstAt(c: Chain, d: Chain, ledger: nat)
    requires Grows(c, d) && ledger <= c.closed
    ensures FirstAt(d.log, ledger) == FirstAt(c.log, ledger)
  {
    assert forall j | 0 <= j < |c.log| :: d.log[j] == c.log[j];
    FirstAtIs(d.log, ledger, FirstAt(c.log, ledger));
  }

  lemma GrowInv(s: State, chain: Chain)
    requires Inv(s) && Grows(s.chain, chain)
    ensures Inv(s.(chain := chain))
  {
    var t := s.(chain := chain);
    assert forall j | 0 <= j < |s.chain.log| :: t.chain.log[j] == s.chain.log[j];
    forall x | x in IdsOf(s.chain.log) ensures x in IdsOf(chain.log) {
      var j :| 0 <= j < |s.chain.log| && IdsOf(s.chain.log)[j] == x;
      assert IdsOf(chain.log)[j] == x;
    }
    forall i | 0 <= i < |s.chain.log| ensures Stored(s, i) <==> Stored(t, i) {}
    GrownStoredBefore(s, chain);
    if s.process.Polling? && s.process.mode.AtLedger? { GrownFirstAt(s.chain, chain, s.process.mode.ledger); }
  }

  lemma {:induction false} InsertOrIgnoreFacts(table: Ids, ids: Ids)
    requires Distinct(table)
    ensures var after := InsertOrIgnore(table, ids);
            Distinct(after) && forall x :: x in after <==> x in table || x in ids
    decreases |ids|
  {
    if ids != [] {
      var more := if ids[0] in table then table else table + [ids[0]];
      InsertOrIgnoreFacts(more, ids[1..]);
      assert forall x :: x in ids <==> x == ids[0] || x in ids[1..];
    }
  }

  /** A dropped event was known; the window only ever learns ids of the page. */
  lemma {:induction false} FreshFacts(events: seq<Event>, seen: Ids, capacity: nat)
    ensures var (unseen, after) := Fresh(events, seen, capacity);
            && (forall e | e in unseen :: e in events)
            && (forall e | e in events :: e.id in seen || e.id in IdsOf(unseen))
            && (forall x | x in after :: x in seen || x in IdsOf(unseen))
    decreases |events|
  {
    if events != [] {
      var e, window := events[0], Remember(seen, events[0].id, capacity);
      FreshFacts(events[1..], window, capacity);
      var (unseen, after) := Fresh(events, seen, capacity);
      var (rest, _) := Fresh(events[1..], window, capacity);
      assert forall x | x in window :: x in seen || x == e.id;
      if e.id !in seen {
        assert unseen == [e] + rest;
        assert IdsOf(unseen)[0] == e.id;
        forall x | x in IdsOf(rest) ensures x in IdsOf(unseen) {
          var j :| 0 <= j < |rest| && IdsOf(rest)[j] == x;
          assert IdsOf(unseen)[j + 1] == x;
        }
      }
      assert forall f | f in events :: f == e || f in events[1..];
      assert forall f | f in events[1..] :: f in events;
      assert e in events && forall f | f in unseen :: f == e || f in rest;
    }
  }

  lemma AskedFromStored(s: State, from: nat)
    requires Inv(s) && s.process.Polling? && AskedFrom(s, from)
    ensures StoredBefore(s, from)
  {
  }

  lemma ReceiveInv(cfg: Config, s: State, from: nat, page: Page)
    requires Inv(s) && s.process.Polling? && StoredBefore(s, from) && Serves(s.chain, from, cfg.pageSize, page)
    ensures Inv(Receive(cfg, s, page))
  {
    hide Fresh, IdsOf, FirstAt, Distinct, Stored, Serves;
    var unseen, seen := Fresh(page.events, s.process.seen, cfg.capacity).0, Fresh(page.events, s.process.seen, cfg.capacity).1;
    FreshFacts(page.events, s.process.seen, cfg.capacity);
    PageOnChain(s.chain, from, cfg.pageSize, page);
    ReceivedStored(s, from, page, unseen);
    EventIdsAmong(unseen, page.events);
    BatchInv(s, Batch(unseen, page.cursor, LedgerOf(page)), seen);
  }

  /** What the page left behind is a sound batch, handed over at once when it is empty. */
  lemma BatchInv(s: State, batch: Batch, seen: Ids)
    requires Inv(s) && s.process.Polling?
    requires Among(IdsOf(batch.events), IdsOf(s.chain.log)) && batch.cursor <= |s.chain.log|
    requires forall x | x in seen :: x in s.process.seen || x in IdsOf(batch.events)
    requires forall i | 0 <= i < batch.cursor :: Stored(s, i) || s.chain.log[i].id in IdsOf(batch.events)
    ensures Inv(s.(process := if batch.events == [] then Handed(batch, seen) else Handing(batch, seen)))
  {
    var t := s.(process := if batch.events == [] then Handed(batch, seen) else Handing(batch, seen));
    FloorInv(s, t);
    forall i | 0 <= i < batch.cursor ensures Stored(t, i) || s.chain.log[i].id in IdsOf(batch.events) {
      assert Stored(s, i) || s.chain.log[i].id in IdsOf(batch.events);
    }
    assert batch.events == [] ==> IdsOf(batch.events) == [];
  }

  /** Everything before the page's cursor is stored, or in the batch about to be handed over. */
  lemma ReceivedStored(s: State, from: nat, page: Page, unseen: seq<Event>)
    requires StoredBefore(s, from) && page.cursor <= |s.chain.log| && s.process.Polling?
    requires Among(s.process.seen, s.table)
    requires forall i | from <= i < page.cursor :: s.chain.log[i] in page.events
    requires forall e | e in page.events :: e.id in s.process.seen || e.id in IdsOf(unseen)
    ensures forall i | 0 <= i < page.cursor :: Stored(s, i) || s.chain.log[i].id in IdsOf(unseen)
  {
    forall i | 0 <= i < page.cursor ensures Stored(s, i) || s.chain.log[i].id in IdsOf(unseen) {
      if i >= from { assert s.chain.log[i] in page.events; }
    }
  }

  /** The page covers exactly the log from the position it was served for. */
  lemma PageOnChain(c: Chain, from: nat, limit: nat, page: Page)
    requires from <= |c.log| && Serves(c, from, limit, page)
    ensures page.cursor <= |c.log|
    ensures forall i | from <= i < page.cursor :: c.log[i] in page.events
    ensures Among(IdsOf(page.events), IdsOf(c.log))
  {
    forall i | from <= i < page.cursor ensures c.log[i] in page.events {
      assert page.events[i - from] == c.log[i];
    }
    forall k | 0 <= k < |page.events| ensures page.events[k].id in IdsOf(c.log) {
      assert IdsOf(c.log)[from + k] == page.events[k].id;
    }
  }

  lemma EventIdsAmong(some: seq<Event>, all: seq<Event>)
    requires forall e | e in some :: e in all
    ensures Among(IdsOf(some), IdsOf(all))
  {
    forall j | 0 <= j < |some| ensures some[j].id in IdsOf(all) {
      assert some[j] in all;
      var k :| 0 <= k < |all| && all[k] == some[j];
      assert IdsOf(all)[k] == some[j].id;
    }
  }

  lemma InsertBatchInv(s: State)
    requires Inv(s) && s.process.Handing?
    ensures Inv(InsertBatch(s))
  {
    var batch, t := s.process.batch, InsertBatch(s);
    InsertOrIgnoreFacts(s.table, IdsOf(batch.events));
    assert forall x | x in s.table :: x in t.table;
    forall i | 0 <= i < batch.cursor ensures Stored(t, i) {
      assert Stored(s, i) || s.chain.log[i].id in IdsOf(batch.events);
    }
    if s.saved.Some? {
      forall i | 0 <= i < s.saved.value.pos ensures Stored(t, i) { assert Stored(s, i); }
    }
  }

  lemma SaveCursorInv(s: State)
    requires Inv(s) && s.process.Handed?
    ensures Inv(SaveCursor(s))
  {
    var t := SaveCursor(s);
    forall i | 0 <= i < s.process.batch.cursor ensures Stored(t, i) { assert Stored(s, i); }
  }

  /** A restart only adds to what is missed. */
  lemma FloorInv(s: State, t: State)
    requires t.chain == s.chain && t.table == s.table && s.missed <= t.missed
    ensures forall pos: nat | StoredBefore(s, pos) :: StoredBefore(t, pos)
  {
    forall pos: nat | StoredBefore(s, pos) ensures StoredBefore(t, pos) {
      forall i | 0 <= i < pos ensures Stored(t, i) { assert Stored(s, i); }
    }
  }

  /** Starting over leaves everything below that ledger either stored or counted as missed. */
  lemma RestartStored(s: State, t: State, start: nat)
    requires t.chain == s.chain && t.table == s.table
    requires t.missed == s.missed + LeftBehind(s.chain.log, s.table, start)
    ensures StoredBefore(t, FirstAt(s.chain.log, start))
  {
    forall i | 0 <= i < FirstAt(s.chain.log, start) ensures Stored(t, i) {
      assert s.chain.log[i].ledger < start;
    }
  }

  lemma RestartInv(s: State, t: State, start: nat)
    requires Inv(s) && Begins(s, t, start)
    ensures Inv(t)
  {
    FloorInv(s, t);
    if t.process.mode.AtLedger? { RestartStored(s, t, start); }
  }

  lemma StepInv(cfg: Config, s: State, t: State)
    requires Inv(s) && Next(cfg, s, t)
    ensures Inv(t)
  {
    if chain :| Grows(s.chain, chain) && t == s.(chain := chain) {
      GrowInv(s, chain);
    } else if t == Crash(s) {
      FloorInv(s, t);
    } else if s.process.Handing? && t == InsertBatch(s) {
      InsertBatchInv(s);
    } else if s.process.Handed? && t == SaveCursor(s) {
      SaveCursorInv(s);
    } else if s.process.Polling? {
      if from, page :| AskedFrom(s, from) && Serves(s.chain, from, cfg.pageSize, page) && t == Receive(cfg, s, page) {
        AskedFromStored(s, from);
        ReceiveInv(cfg, s, from, page);
      } else if start: nat :| Begins(s, t, start) {
        RestartInv(s, t, start);
      }
    } else {
      FloorInv(s, t);
    }
  }

  lemma {:induction false} ReachableInv(cfg: Config, run: seq<State>)
    requires IsRun(cfg, run)
    ensures Inv(run[|run| - 1])
  {
    var n := |run| - 1;
    if n > 0 {
      ReachableInv(cfg, run[..n]);
      assert Next(cfg, run[n - 1], run[n]);
      StepInv(cfg, run[n - 1], run[n]);
    }
  }

  // ---------------------------------------------------------------- failover

  /** A page received, inserted unless it is empty, and saved. */
  function Processed(cfg: Config, s: State, page: Page): State
    requires s.process.Polling?
  {
    var r := Receive(cfg, s, page);
    SaveCursor(if r.process.Handing? then InsertBatch(r) else r)
  }

  lemma ProcessedInv(cfg: Config, s: State, from: nat, page: Page)
    requires Inv(s) && s.process.Polling? && StoredBefore(s, from) && Serves(s.chain, from, cfg.pageSize, page)
    ensures Inv(Processed(cfg, s, page))
  {
    hide Inv, Serves;
    ReceiveInv(cfg, s, from, page);
    var r := Receive(cfg, s, page);
    if r.process.Handing? { InsertBatchInv(r); }
    SaveCursorInv(if r.process.Handing? then InsertBatch(r) else r);
  }

  lemma PageIsBeyond(c: Chain, from: nat, limit: nat, page: Page, i: nat)
    requires ValidChain(c) && i < from <= |c.log| && Serves(c, from, limit, page)
    ensures c.log[i].id !in IdsOf(page.events)
  {
    forall k | 0 <= k < |page.events| ensures page.events[k].id != c.log[i].id {
      assert page.events[k] == c.log[from + k];
    }
  }

  /** An event before the page is stored afterwards only if it was before. */
  lemma ProcessedLeaves(cfg: Config, s: State, from: nat, page: Page, i: nat)
    requires Inv(s) && s.process.Polling? && i < from <= |s.chain.log| && Serves(s.chain, from, cfg.pageSize, page)
    ensures Stored(Processed(cfg, s, page), i) ==> Stored(s, i)
  {
    hide Fresh, IdsOf, Serves, ValidChain, ProcessInv, InsertOrIgnore, Distinct;
    var unseen := Fresh(page.events, s.process.seen, cfg.capacity).0;
    FreshFacts(page.events, s.process.seen, cfg.capacity);
    InsertOrIgnoreFacts(s.table, IdsOf(unseen));
    EventIdsAmong(unseen, page.events);
    PageIsBeyond(s.chain, from, cfg.pageSize, page, i);
  }

  /**
   What a failover does, whatever was saved: once its page is processed, everything before the
   position is stored if and only if each event between the saved position and the first of the
   saved ledger was stored already. There is none exactly when the failover overlaps; otherwise
   the event at the saved position is the first to be passed.
   */
  lemma FailoverExactIff(cfg: Config, s: State, from: nat, page: Page)
    requires Inv(s) && FailsOver(s, from) && Serves(s.chain, from, cfg.pageSize, page)
    ensures var t := Processed(cfg, s, page);
      && t.saved.Some? && t.saved.value.pos == page.cursor >= from
      && (StoredBefore(t, page.cursor) <==> forall i | s.saved.value.pos <= i < from :: Stored(s, i))
    ensures Overlaps(s) <==> from <= s.saved.value.pos
  {
    hide Fresh, ProcessInv, Processed, Overlaps;
    var t, pos := Processed(cfg, s, page), s.saved.value.pos;
    ProcessedPosition(cfg, s, page);
    SkippedIff(s, from);
    if forall i | pos <= i < from :: Stored(s, i) {
      assert StoredBefore(s, from);
      ProcessedInv(cfg, s, from, page);
    } else {
      var i :| pos <= i < from && !Stored(s, i);
      ProcessedLeaves(cfg, s, from, page, i);
    }
  }

  lemma ProcessedPosition(cfg: Config, s: State, page: Page)
    requires s.process.Polling?
    ensures Processed(cfg, s, page).saved == Some(Saved(page.cursor, LedgerOf(page)))
    ensures Processed(cfg, s, page).chain == s.chain
  {
  }

  lemma SkippedIff(s: State, from: nat)
    requires Inv(s) && FailsOver(s, from)
    ensures Overlaps(s) <==> from <= s.saved.value.pos
  {
    var pos := s.saved.value.pos;
    if from > pos { assert s.chain.log[pos].ledger < s.saved.value.ledger; }
    if from < |s.chain.log| { assert forall i | from <= i < |s.chain.log| :: s.chain.log[i].ledger >= s.chain.log[from].ledger; }
  }

  /** So in every reachable state a failover that does not overlap passes the event at the saved position for good. */
  lemma SkippingFailoverLoses(cfg: Config, run: seq<State>, from: nat, page: Page)
    requires IsRun(cfg, run)
    requires var s := run[|run| - 1];
      && FailsOver(s, from) && !Overlaps(s) && Serves(s.chain, from, cfg.pageSize, page)
      && !Stored(s, s.saved.value.pos)
    ensures var s := run[|run| - 1]; var t := Processed(cfg, s, page); var id := s.chain.log[s.saved.value.pos].id;
      && t.saved.Some? && s.saved.value.pos < t.saved.value.pos && Count(t.table, id) == 0 && id !in t.missed
  {
    hide Fresh, ProcessInv, Processed, FirstAt;
    var s := run[|run| - 1];
    ReachableInv(cfg, run);
    SkippedIff(s, from);
    ProcessedPosition(cfg, s, page);
    ProcessedLeaves(cfg, s, from, page, s.saved.value.pos);
    ProcessedTable(cfg, s, page);
    DistinctCount(Processed(cfg, s, page).table, s.chain.log[s.saved.value.pos].id);
  }

  lemma ProcessedTable(cfg: Config, s: State, page: Page)
    requires Inv(s) && s.process.Polling?
    ensures Distinct(Processed(cfg, s, page).table)
  {
    InsertOrIgnoreFacts(s.table, IdsOf(Fresh(page.events, s.process.seen, cfg.capacity).0));
  }

  /** A position whose ledger never overtakes it: reading from the ledger overlaps, never skips. */
  ghost predicate LedgerBehind(c: Chain, pos: nat, ledger: nat) {
    ledger <= c.closed && FirstAt(c.log, ledger) <= pos <= |c.log|
  }

  /** The saved ledger stays behind the position exactly when nothing at or beyond it is older. */
  lemma LedgerBehindIff(c: Chain, pos: nat, ledger: nat)
    requires ValidChain(c) && pos <= |c.log| && ledger <= c.closed
    ensures LedgerBehind(c, pos, ledger) <==> forall i | pos <= i < |c.log| :: c.log[i].ledger >= ledger
  {
    var i := FirstAt(c.log, ledger);
    if i > pos { assert c.log[pos].ledger < ledger; }
    if i < |c.log| { assert forall j | i <= j < |c.log| :: c.log[j].ledger >= c.log[i].ledger; }
  }

  /** Only an empty page can save a ledger past its position: when an event it stopped short of is older. */
  lemma PageLedgerBehindIff(c: Chain, from: nat, limit: nat, page: Page)
    requires ValidChain(c) && from <= |c.log| && Serves(c, from, limit, page)
    ensures LedgerBehind(c, page.cursor, LedgerOf(page)) <==>
            page.events != [] || forall i | from <= i < |c.log| :: c.log[i].ledger >= page.latestLedger
  {
    if page.events == [] {
      LedgerBehindIff(c, from, page.latestLedger);
    } else {
      var last := page.cursor - 1;
      assert page.events[|page.events| - 1] == c.log[last];
      var i := FirstAt(c.log, c.log[last].ledger);
      assert i <= last;
    }
  }

  /** The ledgers at hand, saved or about to be, stay behind their positions. */
  ghost predicate Behind(s: State) {
    && (s.saved.Some? ==> LedgerBehind(s.chain, s.saved.value.pos, s.saved.value.ledger))
    && (s.process.Handing? || s.process.Handed? ==> LedgerBehind(s.chain, s.process.batch.cursor, s.process.batch.ledger))
  }

  lemma GrownLedgerBehind(c: Chain, d: Chain, pos: nat, ledger: nat)
    requires Grows(c, d) && LedgerBehind(c, pos, ledger)
    ensures LedgerBehind(d, pos, ledger)
  {
    GrownFirstAt(c, d, ledger);
  }

  /** So every failover overlaps as long as no page received has a ledger past its position. */
  lemma BehindKept(cfg: Config, s: State, t: State)
    requires Inv(s) && Behind(s) && Next(cfg, s, t)
    requires s.process.Polling? && (t.process.Handing? || t.process.Handed?) ==>
               LedgerBehind(t.chain, t.process.batch.cursor, t.process.batch.ledger)
    ensures Behind(t) && (t.saved.Some? ==> Overlaps(t))
  {
    StepInv(cfg, s, t);
    if chain :| Grows(s.chain, chain) && t == s.(chain := chain) {
      if s.saved.Some? { GrownLedgerBehind(s.chain, chain, s.saved.value.pos, s.saved.value.ledger); }
      if s.process.Handing? || s.process.Handed? {
        GrownLedgerBehind(s.chain, chain, s.process.batch.cursor, s.process.batch.ledger);
      }
    }
    hide LedgerBehind, ProcessInv, FirstAt;
    if t.saved.Some? { SavedOverlaps(t); }
  }

  lemma SavedOverlaps(s: State)
    requires ValidChain(s.chain) && s.saved.Some? && LedgerBehind(s.chain, s.saved.value.pos, s.saved.value.ledger)
    ensures Overlaps(s)
  {
    LedgerBehindIff(s.chain, s.saved.value.pos, s.saved.value.ledger);
  }

  /** A node that stops short: an empty page although it shows an event beyond the position. */
  const SHORT_CHAIN := Chain([Event(1, 1)], 2)

  /**
   Without the overlap the theorem below fails. After one empty page that stops short, a failover
   reads from the saved ledger and the event is passed, neither stored nor ever missed.
   */
  lemma EarlyEmptyPageSkips(cfg: Config)
    ensures var s0 := State(SHORT_CHAIN, None, [], Down, {});
            var s1 := Resolve(Boot(s0), 0);
            var early := Page([], 0, 2);
            var s2 := Processed(cfg, s1, early);
            var honest := Page([], 1, 2);
            var s3 := Processed(cfg, s2, honest);
            && Init(s0) && AskedFrom(s1, 0) && Serves(SHORT_CHAIN, 0, cfg.pageSize, early)
            && FailsOver(s2, 1) && !Overlaps(s2) && Serves(SHORT_CHAIN, 1, cfg.pageSize, honest)
            && s3.saved == Some(Saved(1, 2)) && s3.table == [] && s3.missed == {}
  {
    FirstAtIs(SHORT_CHAIN.log, 0, 0);
    FirstAtIs(SHORT_CHAIN.log, 2, 1);
    FirstAtIs(SHORT_CHAIN.log, 3, 1);
    assert SHORT_CHAIN.log[0].ledger < 2;
  }

  // ---------------------------------------------------------------- the theorem

  function Count(ids: Ids, x: nat): nat {
    if ids == [] then 0 else (if ids[0] == x then 1 else 0) + Count(ids[1..], x)
  }

  lemma {:induction false} DistinctCount(ids: Ids, x: nat)
    requires Distinct(ids)
    ensures Count(ids, x) == if x in ids then 1 else 0
  {
    if ids != [] {
      DistinctCount(ids[1..], x);
      assert x in ids <==> x == ids[0] || x in ids[1..];
    }
  }

  /** From `s` to `t` the indexer starts over at a ledger beyond some event `x` of the chain that is not stored. */
  ghost predicate Abandons(s: State, t: State, x: nat) {
    exists start: nat :: Begins(s, t, start) && t.saved == None && x in LeftBehind(s.chain.log, s.table, start)
  }

  ghost predicate AbandonedAt(run: seq<State>, k: nat, x: nat) {
    k < |run| - 1 && Abandons(run[k], run[k + 1], x)
  }

  /** What is counted as missed was on the chain, unstored, below the ledger of some restart. */
  lemma {:induction false} MissedWhen(cfg: Config, run: seq<State>, x: nat)
    requires IsRun(cfg, run) && x in run[|run| - 1].missed
    ensures exists k :: AbandonedAt(run, k, x)
  {
    var n := |run| - 1;
    assert n > 0;
    assert Next(cfg, run[n - 1], run[n]);
    if x in run[n - 1].missed {
      MissedWhen(cfg, run[..n], x);
      var k :| AbandonedAt(run[..n], k, x);
      assert AbandonedAt(run, k, x);
    } else {
      var start: nat :| Begins(run[n - 1], run[n], start);
      assert AbandonedAt(run, n - 1, x);
    }
  }

  /**
   In every reachable state of a run whose failovers overlap, early empty pages or not, each event
   before the saved cursor is in the table exactly once, or
   was on the chain and not yet stored when the stream had to start over at a later ledger.
   */
  lemma DeliveredExactlyOnce(cfg: Config, run: seq<State>, i: nat)
    requires IsRun(cfg, run)
    requires var s := run[|run| - 1]; s.saved.Some? && i < s.saved.value.pos
    ensures var s := run[|run| - 1];
            && i < |s.chain.log|
            && (Count(s.table, s.chain.log[i].id) == 1
                || exists k :: AbandonedAt(run, k, s.chain.log[i].id))
  {
    var s := run[|run| - 1];
    ReachableInv(cfg, run);
    assert Stored(s, i);
    DistinctCount(s.table, s.chain.log[i].id);
    if s.chain.log[i].id !in s.table { MissedWhen(cfg, run, s.chain.log[i].id); }
  }

  /** The table never holds a row twice, nor a row that is not on the chain. */
  lemma TableSound(cfg: Config, run: seq<State>, x: nat)
    requires IsRun(cfg, run)
    ensures var s := run[|run| - 1];
            Count(s.table, x) <= 1 && (Count(s.table, x) == 1 ==> x in IdsOf(s.chain.log))
  {
    ReachableInv(cfg, run);
    DistinctCount(run[|run| - 1].table, x);
  }
}
