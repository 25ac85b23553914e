# Verified model of a Soroban event indexer

A Dafny model of the hard parts of the indexer and its API, with proofs. `dafny verify dfyconfig.toml`
checks everything.

| modules | what they model |
|---|---|
| `GraphqlLexer`, `GraphqlParser`, `GraphqlDescent`, `GraphqlPrint`, `GraphqlRoundTrip`, `GraphqlText` | the lexer and the recursive-descent parser, as functions and as the loops and the object they are, against a printer |
| `GraphqlSyntax`, `GraphqlArguments`, `GraphqlCollect`, `GraphqlMerge`, `GraphqlAnalyse`, `GraphqlExecute` | argument coercion, field collection through fragments, the static walk with depth, cost and type checks, and the executor with null propagation |
| `GraphqlSoundness`, `GraphqlConformance`, `GraphqlCost`, `GraphqlSchema` | what the walk's acceptance guarantees: no error of its own kinds, a response of the right shape, a size within the cost; and this schema |
| `GraphqlCrash`, `GraphqlLimits` | exactly when the walk ends in a type error, and what negative limits and `__typename` do to cost and ceiling |
| `Keyset`, `Walk`, `Export`, `Positions`, `Stream` | keyset pages as slices of the sorted matching rows, and what clients that follow cursors see while the table changes |
| `Ingest` | the poller, its consumer, the cursor store and provider failover as steps with crashes |
| `RateLimit`, `Throttle`, `Webhooks` | token buckets over real numbers, shared budgets, and the dispatch loop of a subscription |
| `Addresses`, `Store`, `EventStore` | the address side table, derived columns, re-decoding, repair and pruning |
| `Diff`, `DiffTree`, `DiffReading`, `Chunked`, `Csv` | the structural diff and what its tree tells, the concurrent fetch of several filters, CSV output |
| `Settings`, `JavaScript`, `Results` | the query limits, inherited names and decimal text, outcomes of operations that may throw |

Concurrency is a state machine over the stretches of code between two `await`s; a theorem about a
run holds for every interleaving. Objects whose methods change fields are classes, and each method
is proved to do what a function on the object's state says; the theorems are about those functions.

## Where the code falls short of its promise

Each of these has a theorem that says exactly when the promise holds, and a lemma with an input on which it fails.

- The complexity ceiling is not checked after a `__typename` field, so trailing ones escape it, any
  number of them under any ceiling (`GraphqlCost.AcceptedIffPeak`, `GraphqlCost.EscapesIffAbovePeak`,
  `GraphqlCost.CeilingHoldsIffLastFieldIsTyped`, `GraphqlLimits.TypenamesEscapeTheCeiling`).
- `limit` has no lower bound. The cost bounds the response when no limit is negative
  (`GraphqlCost.CostBoundsResponse`); for every negative one, -1 included, an accepted request exceeds
  its cost (`GraphqlLimits.LimitBoundIff`, `GraphqlLimits.NegativeLimitUndercounts`):
  `query ($id: String!, $n: Int) { contract(id: $id) { topics(limit: $n) { topic count } } }`. Such a field pays
  for the root fields after it: sums past the ceiling are accepted (`GraphqlLimits.NegativeLimitBuysRoom`,
  `GraphqlLimits.CeilingBypassed`).
- `{ contracts { contractId } }` without a limit is costed at 50 items while the store returns up to
  100 (`GraphqlSchema.DefaultContractsWithinCostIff`).
- Plain objects used as maps answer to inherited names. A field such as `toString` ends in a type
  error, exactly when it is the first the walk refuses, and never in a request without such names
  (`GraphqlCrash.AnalyseCrashesIff`, `GraphqlCrash.PlainNamesNeverCrash`,
  `GraphqlCrash.InheritedNameCrashes`). An argument of such a name counts as repeated
  (`GraphqlRoundTrip.ArgsFitIff`, `GraphqlRoundTrip.OneArgumentRefusedIff`), and a response key or an
  object key `__proto__` is lost (`GraphqlConformance.KeysExactUnlessProto`,
  `GraphqlSchema.ProtoKeyIsLost`, `GraphqlRoundTrip.StoredExactIff`, `GraphqlRoundTrip.KeysAreLost`).
- The diff has the same flaw twice: `deepEqual` is wrong for a value that owns `__proto__: {}`, and for
  no other (`Diff.DeepEqualExactIff`, `DiffTree.TopicsExactIff`); the tree is wrong when an inherited
  name is a key on one side only (`Diff.TreeExactIff`, `Diff.InheritedNamesMislead`), and then may lose
  a side or show a change without a cause (`DiffReading.LosslessExactIff`, `DiffReading.MinimalExactIff`,
  `DiffReading.ChangeWithoutChild`).
- A CSV export asked for `direction=backward` goes on to the page before the last row it returned
  instead of the page before the first, so it repeats rows, or stops after one page; the cases in
  which it is right are few (`Export.BackwardExportExactIff`, `Export.BackwardRepeats`,
  `Export.BackwardFailsAt`, `Export.BackwardStopsAfterOnePage`).
- A stream whose position is empty leaves the `cursor` of its query in force
  (`Stream.StreamExactIff`, `Stream.SkippingRunSkips`).
- A webhook removed or stopped while it waits still moves its cursor over the event at hand
  (`Webhooks.UncountedIff`, `Webhooks.AbandoningRunAbandons`).
- An address that cannot be printed hides the addresses first printed after it in the same value,
  where the comment promises an empty list (`Addresses.FoundExactIff`, `Addresses.ThrowingLeafHides`);
  the `address` filter equals a scan exactly when no stored row hides one
  (`Store.AddressFilterExactIff`, `Store.FilterMisses`).
- The formula guard of CSV cells merges a text with its apostrophe-prefixed twin (`Csv.GuardMerges`, `Csv.GuardedTwins`).
- The ledger saved with an empty page is the node's latest. When the page stopped short of an event,
  it can lie past the position, and a failover that reads on from it passes the event. Runs are exact
  when failovers overlap, early empty pages or not, and a failover that does not overlap is harmless
  only if what it passes was stored already (`Ingest.DeliveredExactlyOnce`, `Ingest.FailoverExactIff`,
  `Ingest.PageLedgerBehindIff`, `Ingest.EarlyEmptyPageSkips`).

## Model

| member | source | states |
|---|---|---|
| GraphqlLexer.Tokenize | packages/api/src/graphql.ts:98-202 | the loop returns exactly the tokens the lexical grammar gives, or an error exactly when it gives none |
| GraphqlLexer.ScanNumber | packages/api/src/graphql.ts:132-156 | a number ends where sign, digits, fraction and exponent end; a missing digit anywhere is an error |
| GraphqlLexer.ScanString | packages/api/src/graphql.ts:158-196 | a string literal's value and end, every escape included; a line break, a bad escape or the end of the text is an error |
| GraphqlText.LexerInvertsWriting | packages/api/src/graphql.ts:98-202 | any spelling of a token list, with any blanks, commas and comments between, lexes back to that list |
| GraphqlText.ParsingInvertsPrinting | packages/api/src/graphql.ts:507-509 | a printed document, in any spelling, parses back to its own syntax tree exactly when it fits the parser's limits, and to an error otherwise |
| GraphqlText.TokensHaveText | packages/api/src/graphql.ts:83-89 | every list of spellable tokens has a source text, so the round trip is about all of them |
| GraphqlText.NamesAndTextsSpellable | packages/api/src/graphql.ts:83-92 | every name, every string value and every punctuator can be spelled |
| GraphqlRoundTrip.ParserInvertsPrinter | packages/api/src/graphql.ts:271-505 | on tokens: the parser returns the printed document if and only if nesting, constants, argument names, fragment names and the need for an operation are respected |
| GraphqlRoundTrip.ArgsFitIff | packages/api/src/graphql.ts:429-440 | an argument list is accepted if and only if names are distinct, none is a name every object inherits (`name in args`), and the values fit |
| GraphqlRoundTrip.OneArgumentRefusedIff | packages/api/src/graphql.ts:429-440 | `{ f(name: null) }` is refused if and only if every object inherits that name |
| GraphqlRoundTrip.StoredExactIff | packages/api/src/graphql.ts:472-485 | a value is stored as written if and only if no object in it repeats a key or uses `__proto__`, which assignment to a plain object loses |
| GraphqlRoundTrip.KeysAreLost | packages/api/src/graphql.ts:472-485 | of a key written twice the first value is lost, of `__proto__` the only one |
| GraphqlRoundTrip.ValueTrip | packages/api/src/graphql.ts:452-504 | printed values parse back, whatever follows; too deep nesting or a variable in a constant is refused |
| GraphqlRoundTrip.SelectionTrip | packages/api/src/graphql.ts:399-427 | printed selections parse back when followed by another selection or a closing brace |
| GraphqlRoundTrip.SetTrip | packages/api/src/graphql.ts:385-397 | printed selection sets parse back, and are refused past the nesting limit |
| GraphqlRoundTrip.TypeTrip | packages/api/src/graphql.ts:365-383 | printed types parse back to their text and their non-null mark |
| GraphqlRoundTrip.VariablesTrip | packages/api/src/graphql.ts:345-363 | printed variable definitions parse back |
| GraphqlRoundTrip.DefinitionsTrip | packages/api/src/graphql.ts:305-343 | printed definitions extend the document in order, shorthand queries, operations and fragments alike |
| GraphqlDescent.ParseSource | packages/api/src/graphql.ts:507-509 | lexing and descending as the code does equals the specified parse on every text |
| GraphqlDescent.Parser.ParseDocument | packages/api/src/graphql.ts:305-343 | never reads past the end-of-file token, and on success stands on it with the nesting counter at zero |
| GraphqlDescent.Parser.ParseSelectionSet | packages/api/src/graphql.ts:385-397 | loop equals the grammar function; nesting counter restored |
| GraphqlDescent.Parser.ParseSelection | packages/api/src/graphql.ts:399-427 | field, spread or inline fragment as the grammar function says |
| GraphqlDescent.Parser.ParseArguments | packages/api/src/graphql.ts:429-440 | argument loop with the inherited-name check equals the grammar function |
| GraphqlDescent.Parser.ParseDirectives | packages/api/src/graphql.ts:442-450 | directive loop equals the grammar function |
| GraphqlDescent.Parser.ParseValue | packages/api/src/graphql.ts:452-504 | value parsing equals the grammar function, the step past the end-of-file token before throwing included |
| GraphqlDescent.Parser.ParseList | packages/api/src/graphql.ts:460-471 | list loop equals the grammar function; nesting counter restored |
| GraphqlDescent.Parser.ParseObject | packages/api/src/graphql.ts:472-485 | object loop with property assignment equals the grammar function; nesting counter restored |
| GraphqlDescent.Parser.ParseType | packages/api/src/graphql.ts:365-383 | recursive type parsing equals the grammar function; nesting counter restored |
| GraphqlDescent.Parser.ParseVariableDefinitions | packages/api/src/graphql.ts:345-363 | variable loop equals the grammar function |
| GraphqlDescent.Parser.ParseOperation | packages/api/src/graphql.ts:325-335 | a named or anonymous operation as the grammar function says |
| GraphqlDescent.Parser.ParseFragment | packages/api/src/graphql.ts:313-324 | a fragment definition with its checks in their order |
| GraphqlArguments.IntegersReadBack | packages/api/src/graphql.ts:710-712 | a decimal integer, negative or not, is read as that number, up to 2^53 where the code begins to round |
| GraphqlArguments.CoerceArgIff | packages/api/src/graphql.ts:730-759 | an argument is accepted if and only if it has its declared type, a lone value standing for a list of one, or is an allowed null; it comes out as itself or as that list |
| GraphqlArguments.CoercionStable | packages/api/src/graphql.ts:730-759 | coercing a coerced argument changes nothing |
| GraphqlArguments.ArgumentsResolveIff | packages/api/src/graphql.ts:762-789 | arguments resolve if and only if each is declared or inherited, every required one has a value and all are acceptable; the result holds exactly the declared ones with a value |
| GraphqlArguments.ResolversSeeTypedArguments | packages/api/src/graphql.ts:762-789 | a resolver sees every required argument, and only values of the declared types |
| GraphqlArguments.IncludedIff | packages/api/src/graphql.ts:792-806 | a selection stays if and only if every directive is understood and none excludes it; it goes if and only if the first that excludes follows only understood ones |
| GraphqlCollect.FieldCollector.CollectFields | packages/api/src/graphql.ts:817-853 | mutating `into` and `visiting` computes the collection function on every document, cyclic fragments included, and restores `visiting` |
| GraphqlMerge.CollectIsMergeOfInlined | packages/api/src/graphql.ts:817-853 | collecting through fragments equals first inlining what applies, then merging field by field |
| GraphqlMerge.MergeYieldsGroups | packages/api/src/graphql.ts:829-838 | merging yields one entry per response key in first-seen order, each with all sub-selections of its occurrences, or a conflict |
| GraphqlMerge.CollectedFieldsAreTheGroups | packages/api/src/graphql.ts:817-853 | the collected map is exactly the grouping of the applicable fields by response key |
| GraphqlAnalyse.Walk | packages/api/src/graphql.ts:880-938 | the loop with its running total returns the cost function or its first error, on every document |
| GraphqlAnalyse.WalkField | packages/api/src/graphql.ts:897-927 | one field adds one plus its multiplier times its children |
| GraphqlSoundness.AcceptedRunsClean | packages/api/src/graphql.ts:874-1016 | an accepted query executes within `maxDepth` levels, and no recorded or raised error is an unknown type, field or fragment, a bad directive or argument, or a crash on a missing definition |
| GraphqlSoundness.SelectionSound | packages/api/src/graphql.ts:958-996 | the same for every selection set that passed the walk at its depth |
| GraphqlSoundness.MoreFuelSelection | packages/api/src/graphql.ts:958-1016 | once execution ends, allowing more levels changes nothing |
| GraphqlConformance.ResponseConforms | packages/api/src/graphql.ts:958-1033 | data has one entry per collected key, no null where the schema forbids it, list lengths of the resolved lists, and every other null is a resolver's or lies above a recorded error; a null answer carries an error |
| GraphqlConformance.SelectionConforms | packages/api/src/graphql.ts:958-996 | the same at every object, for every completion order of its fields; a failure's path never leaves its object |
| GraphqlConformance.KeysExactUnlessProto | packages/api/src/graphql.ts:994-996 | an object has exactly the collected keys if and only if none of them is `__proto__` |
| GraphqlCost.CostBoundsResponse | packages/api/src/graphql.ts:874-1016 | the response holds at most as many entries as the cost returned, when no limit is negative and lists are no longer than assumed |
| GraphqlCost.CostBoundsSelection | packages/api/src/graphql.ts:958-996 | the same for every selection set |
| GraphqlCost.AcceptedIffPeak | packages/api/src/graphql.ts:895-936 | an accepted request, whatever its limits, is accepted under exactly the ceilings from the highest total it compares with one, at the same cost |
| GraphqlCost.EscapesIffAbovePeak | packages/api/src/graphql.ts:895-936 | it passes under a ceiling below its cost if and only if it costs more than that total |
| GraphqlCost.CeilingHoldsIffLastFieldIsTyped | packages/api/src/graphql.ts:895-936 | no ceiling is passed when the root selection does not end in `__typename`; with limits of at least 1, only then |
| GraphqlCost.ExcessIsTrailing | packages/api/src/graphql.ts:895-936 | an accepted cost exceeds the ceiling by at most the trailing `__typename` fields |
| GraphqlSchema.SchemaClosed | packages/api/src/graphql.ts:586-692 | every object type the schema mentions is defined in it |
| GraphqlSchema.NoUnknownType | packages/api/src/graphql.ts:892-893 | so the walk of this schema never reports an unknown type |
| GraphqlLimits.TypenamesEscapeTheCeiling | packages/api/src/graphql.ts:898-901 | the analysis accepts any number of aliased `__typename` fields under any ceiling, at a cost of one each |
| GraphqlCrash.AnalyseCrashesIff | packages/api/src/graphql.ts:880-938 | the walk fails with a type error if and only if the first field it refuses has the name of an inherited member that its type does not define and that does not begin with two underscores, and no argument is refused before it |
| GraphqlCrash.PlainNamesNeverCrash | packages/api/src/graphql.ts:905-908 | no request without such a name in its operation and fragments ends in a type error |
| GraphqlCrash.RiskyNames | packages/api/src/graphql.ts:905-908 | in this schema such names are exactly the inherited ones that do not begin with two underscores |
| GraphqlCrash.RiskyFieldCrashes | packages/api/src/graphql.ts:905-908 | a request whose first root field has such a name always ends in a type error |
| GraphqlCrash.InheritedNameCrashes | packages/api/src/graphql.ts:905-908 | smallest failure: `{ toString }` ends in a type error, not a query error |
| GraphqlSchema.ProtoKeyIsLost | packages/api/src/graphql.ts:994-996 | `{ __proto__: __typename }` is accepted at cost 1 and answered by an empty object without an error |
| GraphqlLimits.NegativeLimitUndercounts | packages/api/src/graphql.ts:917-927 | for every negative n, `query ($id: String!, $n: Int) { contract(id: $id) { topics(limit: $n) { topic count } } }` is accepted at a cost of 2 + 2n, and every response exceeds it |
| GraphqlLimits.LimitBoundIff | packages/api/src/graphql.ts:917-927 | the cost of that request bounds all its responses if and only if n is not negative |
| GraphqlLimits.NegativeLimitBuysRoom | packages/api/src/graphql.ts:917-936 | any root fields of nonnegative cost that the ceiling refuses, none answered under `contract` and a `__typename` not last, are accepted behind that field as soon as its negative cost makes up for the excess |
| GraphqlLimits.CeilingBypassed | packages/api/src/graphql.ts:917-936 | an operation of two listings of contracts, of cost 102, is refused under a ceiling of 60 and accepted with that field and a limit of -22 before them |
| GraphqlSchema.DefaultContractsWithinCostIff | packages/api/src/graphql.ts:917-927 | `{ contracts { contractId } }`, answered without nulls, stays within its cost if and only if at most 50 items come back, while the store's default is 100 |
| Keyset.RunQuery | packages/store/src/sqlite-store.ts:308-373 | reading, trimming, reversing and probing returns the specified page |
| Keyset.SelectRows | packages/store/src/sqlite-store.ts:333-341 | the first limit + 1 matching rows beyond the cursor in scan order |
| Keyset.Probe | packages/store/src/sqlite-store.ts:376-381 | whether a matching row lies on one side of an id |
| Keyset.ForwardPageIsSlice | packages/store/src/sqlite-store.ts:316-373 | a forward page is the slice of the sorted matching rows after the cursor, its cursors exact |
| Keyset.BackwardPageIsSlice | packages/store/src/sqlite-store.ts:316-373 | a backward page is the slice before the cursor, in the order of the query |
| Keyset.CursorsExact | packages/store/src/sqlite-store.ts:343-364 | on a non-empty page each cursor is present if and only if a matching row lies beyond that side |
| Keyset.ForwardThenBack | packages/store/src/postgres-store.ts:326-396 | paging back from the next page's `prevCursor` returns the same page, rows and both cursors |
| Keyset.PageIdsBeyondCursor | packages/store/src/sqlite-store.ts:331-341 | a page only holds rows beyond its cursor |
| Walk.PageFacts | packages/store/src/sqlite-store.ts:324-357 | a page holds the nearest rows ahead; `nextCursor` says whether more are ahead |
| Walk.WalkIsOrdered | packages/store/src/sqlite-store.ts:324-357 | following `nextCursor` over a changing table returns ids in strict order, none twice |
| Walk.WalkIsComplete | packages/store/src/sqlite-store.ts:324-357 | a finished walk returned every matching row present throughout |
| Walk.WalkIsSound | packages/store/src/sqlite-store.ts:324-357 | every id returned was there when its page was read |
| Walk.WalkEnds | packages/store/src/sqlite-store.ts:324-357 | once nothing new appears ahead, the walk ends within one page per row ahead and one more |
| Export.EachEventPage | packages/api/src/server.ts:196-210 | the loop on `remaining` and `cursor` yields exactly the specified pages |
| Export.ForwardExportExact | packages/api/src/server.ts:196-210 | forward, the pages are the first min(limit, n) matching rows after the cursor |
| Export.BackwardExportExactIff | packages/api/src/server.ts:196-210 | a backward export yields the rows right before the cursor (the last ones without a cursor), as many as the limit asks for, if and only if nothing is wanted, at most one row lies before the cursor, nothing matches at or after it and one page holds what is wanted, or the first page meets the limit |
| Export.BackwardRepeats | packages/api/src/server.ts:196-210 | what an unlimited one yields when a row matches at or after the cursor: a page of the rows before it, then one that ends a row earlier, down to the first row |
| Export.BackwardFailsAt | packages/api/src/server.ts:196-210 | rows 1 to 3 exported backward from 3: 1, 2 and 1 again, or 2 before 1 when pages hold one row |
| Export.BackwardStopsAfterOnePage | packages/api/src/server.ts:196-210 | without a cursor a backward export ends after its first page, whatever is wanted |
| Stream.Subscriber.BeginDrain | packages/api/src/stream.ts:160-166 | nothing starts while a drain runs or the socket is not ready |
| Stream.Subscriber.ReceivePage | packages/api/src/stream.ts:168-177 | the queried page becomes the one to write |
| Stream.Subscriber.WritePage | packages/api/src/stream.ts:178-187 | writes the page in order, moves the position, jumps to `latest` when nothing more matched |
| Stream.Subscriber.FailDrain | packages/api/src/stream.ts:188-192 | a failed drain leaves position and output as they were |
| Stream.FetchCurrent | packages/api/src/stream.ts:168-175 | a page just queried holds everything matching beyond the position |
| Stream.DeliverInv | packages/api/src/stream.ts:178-187 | writing a page keeps what was written between what is owed of the rows that stayed and of all there ever were |
| Stream.StreamExact | packages/api/src/stream.ts:136-193 | in every interleaving of polls, drains, slow sockets and table changes the ids written ascend, each was a matching row between start and position, and every one that stayed since it lay beyond is written |
| Stream.GrowingExact | packages/api/src/stream.ts:136-193 | beside an indexer that only adds above the greatest id, exactly the matching rows between start and position are written |
| Stream.SkippingRunSkips | packages/api/src/stream.ts:168-175 | with an empty position the query's own `cursor` stays in force and an event indexed first is skipped |
| Stream.StreamExactIff | packages/api/src/stream.ts:136-193 | every run is exact, and every run beside such an indexer, if and only if the query's own cursor can hide nothing |
| Ingest.RecentIds.Add | packages/ingest/src/poller.ts:419-427 | remembers an id, refuses a known one, evicts the oldest beyond capacity |
| Ingest.RecentIds.FilterFresh | packages/ingest/src/poller.ts:252 | the events of a page not seen recently, in order, and the window afterwards |
| Ingest.FreshFacts | packages/ingest/src/poller.ts:252 | only known ids are dropped, and the window only learns ids of the page |
| Ingest.Indexer.ResolveStart | packages/ingest/src/poller.ts:113-134 | a saved cursor wins; otherwise reading begins at the configured ledger kept inside the retention window, or at the oldest |
| Ingest.Indexer.ReceivePage | packages/ingest/src/poller.ts:196-201 | a page, perhaps served from an earlier ledger by another provider, becomes the batch to hand over |
| Ingest.Indexer.InsertEvents | packages/cli/src/indexer.ts:223-224 | the consumer inserts the batch, ignoring ids already stored |
| Ingest.Indexer.Save | packages/ingest/src/poller.ts:287-306 | the position is saved only after the consumer came back |
| Ingest.Indexer.RestartAtOldest | packages/ingest/src/poller.ts:202-217 | a cursor out of retention is cleared and reading restarts at the oldest ledger |
| Ingest.Indexer.Stop | packages/cli/src/indexer.ts:24-39 | a crash loses position and window but neither cursor store nor table |
| Ingest.InsertOrIgnoreFacts | packages/store/src/sqlite-store.ts:265-280 | inserting again changes nothing; what is counted is what was new |
| Ingest.PageLedgerBehindIff | packages/ingest/src/poller.ts:287-306 | the ledger saved with a page lies past the position only for an empty page that stopped short of an older event, and then always |
| Ingest.BehindKept | packages/ingest/src/rpc-pool.ts:36-61 | as long as no such page is received, every failover overlaps |
| Ingest.FailoverExactIff | packages/ingest/src/rpc-pool.ts:36-61 | whatever was saved: after a failover's page everything before the position is stored if and only if each event between the saved position and the saved ledger was; there is none exactly when the failover overlaps |
| Ingest.SkippingFailoverLoses | packages/ingest/src/rpc-pool.ts:36-61 | in every reachable state a failover that does not overlap passes the event at the saved position for good, unless it was stored already |
| Ingest.StepInv | packages/ingest/src/poller.ts:162-316 | every step keeps the invariant: everything before the saved position is stored or was left behind by a restart |
| Ingest.ReachableInv | packages/ingest/src/poller.ts:162-316 | hence every reachable state does |
| Ingest.DeliveredExactlyOnce | packages/ingest/src/poller.ts:162-316 | in every run whose failovers overlap, early empty pages or not, each event before the saved cursor is in the table exactly once, unless it was on the chain and not yet stored when the stream began, or began again, at a later ledger |
| Ingest.MissedWhen | packages/ingest/src/poller.ts:113-134 | what is missing was on the chain, not stored and below the ledger begun at, at such a moment of the run |
| Ingest.StartLedger | packages/ingest/src/poller.ts:126-132 | a configured start ledger is moved into the retention window, from either side |
| Ingest.EarlyEmptyPageSkips | packages/ingest/src/rpc-pool.ts:36-61 | the run of one empty page that stops short of an event and one failover that passes it |
| Ingest.TableSound | packages/store/src/sqlite-store.ts:265-280 | the table holds no row twice and none that is not on the chain |
| RateLimit.TokenBucketLimiter.Create | packages/api/src/rate-limit.ts:34-42 | options give a limiter if and only if the rate is positive and a given burst at least one; the limiter is empty and its bucket holds the whole tokens of the burst, by default the rate rounded up |
| RateLimit.TokenBucketLimiter.TakeToken | packages/api/src/rate-limit.ts:44-58 | one call decides and spends as specified |
| RateLimit.TokenBucketLimiter.SweepFull | packages/api/src/rate-limit.ts:70-74 | removes exactly the full buckets |
| RateLimit.SweepInvisible | packages/api/src/rate-limit.ts:44-74 | every call is decided as by a limiter that never sweeps, from related states |
| RateLimit.SweepInvisibleFromEmpty | packages/api/src/rate-limit.ts:44-74 | the same from an empty limiter, for every sequence of keys and non-decreasing clock |
| RateLimit.TokensConserved | packages/api/src/rate-limit.ts:44-68 | calls allowed plus tokens left never exceed tokens held plus refill |
| RateLimit.RateCeiling | packages/api/src/rate-limit.ts:44-68 | in any stretch a key is allowed at most burst plus rate times its duration |
| RateLimit.RunSound | packages/api/src/rate-limit.ts:44-74 | reachable states hold between no and all tokens, so the ceiling applies from any point |
| RateLimit.OthersKeepTokens | packages/api/src/rate-limit.ts:44-58 | calls of other keys leave a key's tokens alone |
| RateLimit.RetryAfterSuffices | packages/api/src/rate-limit.ts:54-58 | a denied key that no other call spends from is allowed after `retryAfterSeconds` |
| Throttle.RateLimiter.RefillTo | packages/api/src/webhooks.ts:281-285 | refills by the elapsed share of the allowance, capped |
| Throttle.RateLimiter.Wait | packages/api/src/webhooks.ts:288-292 | zero exactly when a token is there, else the milliseconds to it |
| Throttle.RateLimiter.Consume | packages/api/src/webhooks.ts:294-297 | refills and takes one token |
| Throttle.WaitSuffices | packages/api/src/webhooks.ts:288-292 | sleeping for the returned wait with no other spender makes a token available |
| Throttle.TryFacts | packages/api/src/webhooks.ts:624-636 | one pass of the throttle loop conserves every owner's tokens: an attempt costs one of the subscription and one of the host |
| Throttle.AttemptsConserve | packages/api/src/webhooks.ts:624-636 | the same over any interleaving of passes |
| Throttle.SharedCeiling | packages/api/src/webhooks.ts:624-636 | attempts of a subscription, or of all subscriptions of a host, in any interval are at most capacity plus the allowance of its length |
| Throttle.GainIsAllowance | packages/api/src/webhooks.ts:281-285 | what flows in over an interval is the allowance per minute times its length |
| Throttle.NeverNegative | packages/api/src/webhooks.ts:271-298 | no limiter ever holds less than zero tokens |
| Webhooks.Subscription.Tick | packages/api/src/webhooks.ts:638-640 | a second pump never starts; removed or stopped subscriptions stay idle |
| Webhooks.Subscription.ReceivePage | packages/api/src/webhooks.ts:643-655 | the page becomes the queue; an empty one ends the pass |
| Webhooks.Subscription.BudgetReady | packages/api/src/webhooks.ts:673-675 | an attempt is counted only after the budgets let it through |
| Webhooks.Subscription.ReceiveAnswer | packages/api/src/webhooks.ts:678-705 | success, permanent failure and retry take their own branches |
| Webhooks.Subscription.FinishEvent | packages/api/src/webhooks.ts:649-657 | the cursor moves over the event and the pump goes on, pages on or stops |
| Webhooks.Subscription.PassEvent | packages/api/src/webhooks.ts:707-716 | counts the outcome and keeps the newest dead letters |
| Webhooks.Subscription.Remove | packages/api/src/webhooks.ts:521-526 | removal is final |
| Webhooks.DispatchExact | packages/api/src/webhooks.ts:638-663 | however the table changes: events are passed in strictly ascending order, each a matching row the table held between start and cursor, and every one that stayed since it lay beyond; the counters account for all but at most one |
| Webhooks.StayingRowPassed | packages/api/src/webhooks.ts:638-663 | a matching row that is in the table throughout is passed once the cursor reaches it |
| Webhooks.GrowingExact | packages/api/src/webhooks.ts:638-663 | beside an indexer that only adds above the greatest id, the cursor has passed exactly the matching rows up to it |
| Webhooks.AttemptsAndDeadLetters | packages/api/src/webhooks.ts:665-722 | each event takes 1 to `maxAttempts` attempts, dead letters kept are the newest `deadLetterLimit`, and the counters match |
| Webhooks.CountsAddUp | packages/api/src/webhooks.ts:665-722 | delivered, dead-lettered and abandoned events add up to those passed |
| Webhooks.UncountedIff | packages/api/src/webhooks.ts:649-704 | the cursor passes an event neither delivered nor dead-lettered if and only if the subscription was removed or stopped while waiting for a budget or a backoff |
| Webhooks.AbandoningRunAbandons | packages/api/src/webhooks.ts:649-704 | every matching event can be so passed: a run from the start that ends with its cursor on it and nothing counted |
| Webhooks.FetchAhead | packages/api/src/webhooks.ts:643-648 | a page just queried is everything matching beyond the cursor, as far as it goes |
| Addresses.Walk | packages/store/src/decode.ts:163-180 | adds every address before the first leaf that throws, a vector or map arm without its content included, and says whether one did |
| Addresses.ExtractAddresses | packages/store/src/decode.ts:152-161 | what is found, nothing for malformed XDR |
| Addresses.FoundIff | packages/store/src/decode.ts:152-180 | an address is found if and only if the value mentions it and not only after a leaf that throws |
| Addresses.FoundExactIff | packages/store/src/decode.ts:152-180 | every address of a value is found if and only if each leaf printed after the first that throws was printed before it as well |
| Addresses.ThrowingLeafHides | packages/store/src/decode.ts:152-161 | smallest failure: an address, a throwing leaf and another address in one vector |
| EventStore.EventStore.InsertAddresses | packages/store/src/sqlite-store.ts:294-301 | adds exactly the event's mentions, topic positions beyond the fourth included |
| EventStore.EventStore.InsertDecoded | packages/store/src/sqlite-store.ts:251-284 | inserts what is new with its mentions, ignores the rest, counts rows added |
| EventStore.EventStore.RewriteOne | packages/store/src/sqlite-store.ts:858-862 | one row's derived columns and mentions are replaced |
| EventStore.EventStore.Redecode | packages/store/src/sqlite-store.ts:763-782 | all rows, or those with a decode error, are rewritten from their raw XDR and counted |
| EventStore.EventStore.RepairRow | packages/store/src/sqlite-store.ts:843-856 | rewrites one row; an unknown id is left alone |
| EventStore.EventStore.PruneBefore | packages/store/src/sqlite-store.ts:644-680 | deletes exactly the rows below the ledger, and their mentions |
| EventStore.EventStore.DeleteChunk | packages/store/src/sqlite-store.ts:719-740 | counts rows, distinct ledgers and the highest ledger, then deletes the chunk |
| EventStore.EventStore.PruneToSize | packages/store/src/sqlite-store.ts:698-761 | terminates whatever sizes are measured, stops at the first that fits or when nothing is left, and reports truthfully |
| EventStore.PruneIsPrefix | packages/store/src/postgres-store.ts:633-677 | what a prune report means: whole ledgers from the old end, survivors above `highestPrunedLedger`, rows removed plus left equal rows before, `ledgersRemoved` the distinct ledgers gone |
| EventStore.ReportGrows | packages/store/src/sqlite-store.ts:725-740 | adding a chunk to the counters keeps the report true |
| Store.IndexAlwaysExact | packages/store/src/sqlite-store.ts:265-301 | after any run of inserts, imports, redecodes, repairs and prunes the side table is exactly what walking each row's raw XDR finds, and topic columns match |
| Store.RunSound | packages/store/src/sqlite-store.ts:265-301 | every operation keeps that, from any state that has it |
| Store.RedecodeRestores | packages/store/src/sqlite-store.ts:763-782 | `redecode(true)` establishes it from any side table the foreign key allows and any derived columns |
| Store.RewriteExact | packages/store/src/sqlite-store.ts:858-862 | a rewrite makes exactly its rows' part of the index exact and leaves the rest |
| Store.PartialRedecodeLeaves | packages/store/src/sqlite-store.ts:763-782 | without the flag, wrong mentions of rows without an error stay |
| Store.PartialRedecodeSuffices | packages/store/src/sqlite-store.ts:763-782 | after a decoder change that only decodes more, the partial redecode equals the full one |
| Store.IndexedIff | packages/store/src/sqlite-store.ts:1172-1182 | the `address` filter finds a row if and only if walking one of its values finds the address |
| Store.FilterIsScanIff | packages/store/src/sqlite-store.ts:1172-1182 | for a stored row, the filter agrees with a scan of its values for every address if and only if no value hides one |
| Store.AddressFilterExactIff | packages/store/src/sqlite-store.ts:1172-1182 | the `address` filter equals a full scan for every address if and only if no stored row hides one |
| Store.FilterMisses | packages/store/src/sqlite-store.ts:1172-1182 | one inserted event that a scan finds by two addresses and the filter by the first alone |
| Store.RowProblems | packages/store/src/sqlite-store.ts:825-838 | a row is reported if and only if its topic count or a topic column disagrees with its topics, each problem exactly |
| Store.RepairMends | packages/store/src/sqlite-store.ts:843-856 | a repaired row has nothing to report and no other row or mention changes |
| Diff.ComputeDiff | apps/web/src/diff.ts:53-80 | the loops push exactly the children the definition gives |
| Diff.EqualIffSameMeaning | apps/web/src/diff.ts:37-50 | own-key equality is equality of JSON meanings, hence an equivalence |
| Diff.KeysMutual | apps/web/src/diff.ts:43-48 | the key-count argument: equal counts and one inclusion give the other |
| Diff.DeepEqualExactIff | apps/web/src/diff.ts:37-50 | `deepEqual` from a value decides equality with every JSON value if and only if no object in it owns `__proto__` with the value `{}` |
| Diff.DeepEqualWhenKeysAgree | apps/web/src/diff.ts:37-50 | it never calls equal values different, and decides equality of any two values whose keys agree |
| Diff.TreeExactIff | apps/web/src/diff.ts:53-80 | the tree is the promised one if and only if no inherited name is an own key on one side only of two objects lined up |
| Diff.InheritedNamesMislead | apps/web/src/diff.ts:43-77 | smallest failures: a wrong "same", and two right sides with one tree |
| DiffTree.Lossless | apps/web/src/diff.ts:53-80 | each side can be read back from the promised tree, up to the order of keys |
| DiffTree.TreeMinimal | apps/web/src/diff.ts:53-80 | children appear only under a change, and one of them is not the same |
| DiffTree.TreeTellsAll | apps/web/src/diff.ts:53-80 | the code's tree determines both sides, is `same` if and only if they are equal, and is minimal, wherever keys agree |
| DiffReading.LosslessExactIff | apps/web/src/diff.ts:53-80 | both sides can be read back from the code's tree if and only if no inherited name is a key on one side only of two objects lined up above any `same` |
| DiffReading.MinimalExactIff | apps/web/src/diff.ts:53-80 | the code's tree is minimal if and only if every two objects told apart have a key that accounts for it as the code looks keys up |
| DiffReading.MatchedIsAccounted | apps/web/src/diff.ts:53-80 | which fails only for objects with an inherited name as a key on one side only |
| DiffReading.ChangeWithoutChild | apps/web/src/diff.ts:53-80 | smallest failure of both: `{}` against an object with the key `toString` is a change without a child |
| DiffTree.DiffTopics | apps/web/src/diff.ts:83-101 | one node a slot, by position |
| DiffTree.AllSameIffEqual | apps/web/src/diff.ts:83-101 | all topics are `same` if and only if the lists are equal slot for slot, when no topic on the left owns `__proto__: {}` |
| DiffTree.TopicsExactIff | apps/web/src/diff.ts:83-101 | and that is exactly when the topics on the left can be compared with every list |
| Chunked.CompareIsTotalOrder | packages/ingest/src/rpc-client.ts:221-226 | the comparator is a total order that ties exactly events of one place and id |
| Chunked.SortFacts | packages/ingest/src/rpc-client.ts:191 | the merged list is an ordered permutation |
| Chunked.OrderedUnique | packages/ingest/src/rpc-client.ts:191 | and the only one, when place and id identify an event |
| Chunked.Merge | packages/ingest/src/rpc-client.ts:181-197 | events of all pages ordered, one cursor a filter in filter order, newest and oldest ledger |
| Chunked.MergeIndependent | packages/ingest/src/rpc-client.ts:181-197 | neither the order of the filters nor the sort used changes the merged list |
| Chunked.PoolSize | packages/ingest/src/rpc-client.ts:162 | as many workers as filters and concurrency allow, and at least one |
| Chunked.FilterPool.constructor | packages/ingest/src/rpc-client.ts:162-179 | workers start with the first indices in turn |
| Chunked.FilterPool.Answer | packages/ingest/src/rpc-client.ts:166-178 | an answered worker stores its page and claims the next index or stops |
| Chunked.FilterPool.Reject | packages/ingest/src/rpc-client.ts:171-179 | a failed request ends its worker |
| Chunked.StepInv | packages/ingest/src/rpc-client.ts:164-178 | every index claimed is stored, in flight or failed, and held by one worker at most |
| Chunked.ScheduleIndependent | packages/ingest/src/rpc-client.ts:154-198 | whatever order requests settle in: each index is requested once and in turn, never more than `poolSize` at a time, and the outcome depends on the answers alone |
| Chunked.BuildFilters | packages/ingest/src/rpc-client.ts:254-274 | every contract id in one filter, in order, at most five a filter, as few filters as that allows |
| Csv.CellRead | packages/api/src/csv.ts:26-28 | a reader of RFC 4180 gets back the text of every cell |
| Csv.LinesRead | packages/api/src/csv.ts:19-28 | and of every file of lines, whatever the texts contain |
| Csv.GuardMerges | packages/api/src/csv.ts:40-42 | the formula guard gives two texts one cell if and only if one is the other behind the apostrophe it was given |
| Csv.GuardedTwins | packages/api/src/csv.ts:40-42 | the string `=1` and the string of an apostrophe and `=1` have one cell |
| Csv.RowIsLine | packages/api/src/csv.ts:83-109 | a row is the line of its cell texts, numbers and booleans needing no quotes |
| Csv.HeaderIsLine | packages/api/src/csv.ts:62-81 | the header is the line of its column names |
| Csv.RecordWidth | packages/api/src/csv.ts:83-91 | a record is as wide as the header if and only if the event has no more topics than columns, and never narrower |
| Csv.TopicColumnsOf | packages/api/src/server.ts:212-214 | the widest event of a page, at least four |
| Csv.SizeColumns | packages/api/src/server.ts:234-237 | the first scan finds the widest event over all pages |
| Csv.WriteRows | packages/api/src/server.ts:238-243 | the second scan writes the header and one line an event, whatever the pages |
| Csv.CsvExport | packages/api/src/server.ts:230-246 | both scans together |
| Csv.ExportReadsBack | packages/api/src/server.ts:230-246 | the file reads back as header and exact cell texts, and is rectangular if and only if no event of the second scan outgrew the first |

## Left out

- Positions and wording of error messages: errors are kinds; the parser's are syntax, nesting, repeated fragment, no operation.
- GraphqlArguments.IntegersReadBack: numbers are exact reals throughout, while the code's round past 2^53; tokens, delays and time are reals too.
- Choosing the operation and coercing its variables (`coerceVariables`): the theorems hold for every operation and every variable values, and the requests shown declare the variables they use.
- `maxQueryLength`: documents are of any length here, so "any number of aliases" means as many as fit the configured length.
- The resolvers, the store behind them and their timing: an arbitrary function of path, arguments and source, and an arbitrary schedule.
- The entries of `errors` have no order beyond what a schedule allows, and no message.
- GraphqlDescent.Parser.ParseValue: the nesting counter and position after an error are not constrained, since the parser is discarded then.
- Event ids are numbers in `Keyset` and its clients: only their order matters there.
- Filters are the set of matching ids; the SQL text of `buildWhere`, full-text search, the count cache and totals are not modelled. One specification stands for both stores.
- Transactions are atomic; a rolled back one changes nothing. VACUUM, checkpoints, WAL, column compression and the JSON text of columns are not modelled, sizes are arbitrary numbers.
- EventStore.EventStore.PruneToSize: nothing else writes between two chunks.
- Ingest.DeliveredExactlyOnce: for runs without an end ledger, as the client sends none in cursor mode, and for a table that only ingestion writes: pruning and backfill beside it are outside the theorem. Stall detection, idle backoff and retry classification only decide when steps happen.
- Recovery of the primary RPC provider, archive backfill and contract-spec lookups.
- Provider failover is the choice to serve a page from the ledger of the saved position instead of the cursor.
- The SSE hub's timers, heartbeats, stream count and annotation of events; the socket's readiness is an arbitrary input.
- Signing, DNS checks, registration and HTTP transport of webhooks; a request answers with a status, or fails.
- Webhooks.AttemptsAndDeadLetters: requires `maxAttempts` of at least one, below which the code dead-letters without an attempt.
- The Stellar SDK: an XDR value is malformed or a tree of addresses, vectors, maps and scalars, and decoding an arbitrary function.
- `checkIntegrity` on columns whose JSON does not parse.
- Values decoded to JSON are trees with real numbers; NaN and negative zero do not occur. `diffTypedFields` and the fact that a payload's own type is not compared are left out.
- `getEventsChunked` without filters, or with a wrong number of cursors, which it refuses at once; the request each index makes is an arbitrary answer.
- CSV cells of a value without JSON text (`undefined`), content negotiation and streaming of the response.
- HTTP routing, authentication, compression, caching headers, metrics, configuration, the web interface and the command line.
