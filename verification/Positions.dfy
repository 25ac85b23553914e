/** Positions in the event table: what lies beyond one, and what a reader that started at one is owed. */
module Positions {
  import opened Results
  import opened Keyset

  predicate Above(id: Id, position: Option<Id>) {
    position.None? || position.value < id
  }

  ghost function Matching(matches: Id -> bool, store: set<Id>): set<Id> {
    set x | x in store && matches(x)
  }

  /** The matching ids after `start`, up to and including `upTo`. */
  ghost function Owed(matches: Id -> bool, start: Option<Id>, store: set<Id>, upTo: Option<Id>): set<Id> {
    set x | x in store && matches(x) && Above(x, start) && !Above(x, upTo)
  }

  /** An id is inserted above every id in the table, as by an indexer that follows the chain. */
  ghost predicate Gains(store: set<Id>, after: set<Id>) {
    exists id :: id !in store && after == store + {id} && forall x | x in store :: x < id
  }

  ghost predicate Follows(store: set<Id>, after: set<Id>) {
    after == store || Gains(store, after)
  }
}
