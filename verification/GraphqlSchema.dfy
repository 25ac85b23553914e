/**
 The schema the endpoint serves, and two documents on which the analysis does less than it promises.
 */
module GraphqlSchema {
  import opened Results
  import opened Settings
  import opened GraphqlSyntax
  import opened GraphqlCollect
  import opened GraphqlAnalyse
  import opened GraphqlExecute
  import opened GraphqlConformance
  import opened GraphqlCost
  import opened GraphqlSoundness

  function Nullable(name: string): TypeRef { TypeRef(name, false, false, false) }
  function Required(name: string): TypeRef { TypeRef(name, false, true, false) }
  function ListOf(name: string): TypeRef { TypeRef(name, true, true, true) }

  function Plain(typ: TypeRef): FieldDef { FieldDef(typ, [], Unsized, false) }

  const PAGE_ARGS: seq<ArgDef> := [
    ArgDef("topics", StringListArg, false), ArgDef("fromLedger", IntArg, false), ArgDef("toLedger", IntArg, false),
    ArgDef("fromTime", IntArg, false), ArgDef("toTime", IntArg, false), ArgDef("txHash", StringArg, false),
    ArgDef("address", StringArg, false), ArgDef("search", StringArg, false),
    ArgDef("successfulOnly", BooleanArg, false), ArgDef("limit", IntArg, false), ArgDef("cursor", StringArg, false),
    ArgDef("order", OrderArg, false)
  ]

  const LIMIT: seq<ArgDef> := [ArgDef("limit", IntArg, false)]
  const ID: seq<ArgDef> := [ArgDef("id", StringArg, true)]

  const QUERY: map<string, FieldDef> := map[
    "events" := FieldDef(Required("EventPage"), [ArgDef("contractId", StringArg, false)] + PAGE_ARGS, Unsized, true),
    "event" := FieldDef(Nullable("Event"), ID, Unsized, false),
    "contracts" := FieldDef(ListOf("Contract"), LIMIT, LimitArgument, false),
    "contract" := FieldDef(Nullable("Contract"), ID, Unsized, false),
    "topics" := FieldDef(ListOf("Topic"), [ArgDef("contractId", StringArg, true)] + LIMIT, LimitArgument, false)
  ]

  const EVENT_PAGE: map<string, FieldDef> := map[
    "events" := FieldDef(ListOf("Event"), [], ParentPage, false),
    "nextCursor" := Plain(Nullable("String")),
    "total" := Plain(Required("Int"))
  ]

  const EVENT: map<string, FieldDef> := map[
    "id" := Plain(Required("String")), "contractId" := Plain(Required("String")), "type" := Plain(Required("String")),
    "ledger" := Plain(Required("Int")), "ledgerClosedAt" := Plain(Required("String")),
    "txHash" := Plain(Required("String")), "transactionIndex" := Plain(Required("Int")),
    "operationIndex" := Plain(Required("Int")), "inSuccessfulContractCall" := Plain(Required("Boolean")),
    "topics" := FieldDef(ListOf("DecodedValue"), [], Fixed(8), false),
    "value" := Plain(Required("DecodedValue")), "decodeError" := Plain(Nullable("String")),
    "indexedAt" := Plain(Required("String")), "contract" := Plain(Nullable("Contract"))
  ]

  const DECODED_VALUE: map<string, FieldDef> := map[
    "type" := Plain(Required("String")), "value" := Plain(Nullable("JSON"))
  ]

  const CONTRACT: map<string, FieldDef> := map[
    "contractId" := Plain(Required("String")), "eventCount" := Plain(Required("Int")),
    "firstLedger" := Plain(Required("Int")), "lastLedger" := Plain(Required("Int")),
    "lastSeenAt" := Plain(Required("String")),
    "topics" := FieldDef(ListOf("Topic"), LIMIT, LimitArgument, false),
    "events" := FieldDef(Required("EventPage"), PAGE_ARGS, Unsized, true)
  ]

  const TOPIC: map<string, FieldDef> := map[
    "topic" := Plain(Required("String")), "count" := Plain(Required("Int"))
  ]

  const SCHEMA: Schema := map[
    "Query" := QUERY, "EventPage" := EVENT_PAGE, "Event" := EVENT, "DecodedValue" := DECODED_VALUE,
    "Contract" := CONTRACT, "Topic" := TOPIC
  ]

  // ---------------------------------------------------------------- the schema is closed

  const OBJECTS: set<string> := {"Query", "EventPage", "Event", "DecodedValue", "Contract", "Topic"}

  ghost predicate ClosedFields(fields: map<string, FieldDef>, objects: set<string>) {
    forall f | f in fields :: fields[f].typ.name in SCALARS || fields[f].typ.name in objects
  }

  ghost predicate Closed(schema: Schema) {
    forall t | t in schema :: ClosedFields(schema[t], schema.Keys)
  }

  lemma QueryClosed()
    ensures ClosedFields(QUERY, OBJECTS)
  {
  }

  lemma EventClosed()
    ensures ClosedFields(EVENT, OBJECTS)
  {
  }

  lemma OthersClosed()
    ensures ClosedFields(EVENT_PAGE, OBJECTS) && ClosedFields(DECODED_VALUE, OBJECTS)
    ensures ClosedFields(CONTRACT, OBJECTS) && ClosedFields(TOPIC, OBJECTS)
  {
  }

  lemma SixClosed(schema: Schema, query: map<string, FieldDef>, page: map<string, FieldDef>,
                  event: map<string, FieldDef>, value: map<string, FieldDef>, contract: map<string, FieldDef>,
                  topic: map<string, FieldDef>)
    requires schema == map["Query" := query, "EventPage" := page, "Event" := event, "DecodedValue" := value,
                           "Contract" := contract, "Topic" := topic]
    requires ClosedFields(query, OBJECTS) && ClosedFields(page, OBJECTS) && ClosedFields(event, OBJECTS)
    requires ClosedFields(value, OBJECTS) && ClosedFields(contract, OBJECTS) && ClosedFields(topic, OBJECTS)
    ensures Closed(schema)
  {
    assert schema.Keys == OBJECTS;
  }

  lemma SchemaClosed()
    ensures Closed(SCHEMA)
  {
    QueryClosed();
    EventClosed();
    OthersClosed();
    SixClosed(SCHEMA, QUERY, EVENT_PAGE, EVENT, DECODED_VALUE, CONTRACT, TOPIC);
  }

  /** Over a closed schema no selection ever reaches a type that does not exist. */
  lemma {:induction false} NoUnknownType(req: Request, typeName: string, selections: seq<Selection>, depth: int,
                                         pageSize: int)
    requires Closed(req.schema) && typeName in req.schema
    ensures forall t :: CostOf(req, typeName, selections, depth, pageSize) != Err(UnknownType(t))
    decreases Levels(req, depth), 2
  {
    if depth <= req.maxDepth {
      match Fields(req, typeName, selections) {
        case Ok(fields) => NoUnknownTypeIn(req, typeName, fields, depth, pageSize, 0);
        case Err(_) => CollectKnowsNoTypes(req.doc, typeName, selections, req.vars, [], {});
      }
    }
  }

  lemma {:induction false} NoUnknownTypeIn(req: Request, typeName: string, fields: Into, depth: int, pageSize: int,
                                           total: int)
    requires Closed(req.schema) && typeName in req.schema && depth <= req.maxDepth
    ensures forall t :: CostOfFields(req, typeName, fields, depth, pageSize, total) != Err(UnknownType(t))
    decreases Levels(req, depth), 1, |fields|
  {
    if fields == [] {
    } else if fields[0].node.name == "__typename" {
      NoUnknownTypeIn(req, typeName, fields[1..], depth, pageSize, total + 1);
    } else {
      NoUnknownTypeField(req, typeName, fields[0], depth, pageSize);
      var cost := CostOfField(req, typeName, fields[0], depth, pageSize);
      if cost.Ok? { NoUnknownTypeIn(req, typeName, fields[1..], depth, pageSize, total + cost.value); }
    }
  }

  lemma {:induction false} NoUnknownTypeField(req: Request, typeName: string, c: Collected, depth: int, pageSize: int)
    requires Closed(req.schema) && typeName in req.schema && depth <= req.maxDepth
    ensures forall t :: CostOfField(req, typeName, c, depth, pageSize) != Err(UnknownType(t))
    decreases Levels(req, depth), 0
  {
    CheckKnowsNoTypes(req, typeName, c);
    var checked := Check(req, typeName, c);
    if checked.Ok? && !IsLeaf(checked.value.0) {
      var (def, args) := checked.value;
      NoUnknownType(req, def.typ.name, c.selections, depth + 1, ChildPageSize(def, args, pageSize));
    }
  }

  lemma CheckKnowsNoTypes(req: Request, typeName: string, c: Collected)
    requires typeName in req.schema
    ensures forall t :: Check(req, typeName, c) != Err(UnknownType(t))
  {
    if c.node.name in req.schema[typeName] {
      CoercionKnowsNoTypes(req.schema[typeName][c.node.name].args, c.node.args, req.vars);
    }
  }

  lemma {:induction false} CoercionKnowsNoTypes(declared: seq<ArgDef>, given: seq<Arg>, vars: Variables)
    ensures forall t :: CoerceAll(declared, given, vars) != Err(UnknownType(t))
  {
    if declared != [] { CoercionKnowsNoTypes(declared[1..], given, vars); }
  }

  lemma {:induction false} IncludedKnowsNoTypes(directives: seq<Directive>, vars: Variables)
    ensures forall t :: Included(directives, vars) != Err(UnknownType(t))
  {
    if directives != [] { IncludedKnowsNoTypes(directives[1..], vars); }
  }

  lemma {:induction false} CollectKnowsNoTypes(doc: Document, typeName: string, selections: seq<Selection>,
                                               vars: Variables, into: Into, visiting: set<string>)
    ensures forall t :: Collect(doc, typeName, selections, vars, into, visiting) != Err(UnknownType(t))
    decreases |doc.fragments.Keys - visiting|, selections
  {
    if selections != [] {
      CollectOneKnowsNoTypes(doc, typeName, selections[0], vars, into, visiting);
      match CollectOne(doc, typeName, selections[0], vars, into, visiting) {
        case Ok(after) => CollectKnowsNoTypes(doc, typeName, selections[1..], vars, after, visiting);
        case Err(_) =>
      }
    }
  }

  lemma {:induction false} CollectOneKnowsNoTypes(doc: Document, typeName: string, selection: Selection,
                                                  vars: Variables, into: Into, visiting: set<string>)
    ensures forall t :: CollectOne(doc, typeName, selection, vars, into, visiting) != Err(UnknownType(t))
    decreases |doc.fragments.Keys - visiting|, selection
  {
    IncludedKnowsNoTypes(selection.directives, vars);
    match selection
    case Field(_, _, _, _, _) =>
    case Spread(name, _) =>
      if name in doc.fragments && name !in visiting {
        SubsetSmaller(doc.fragments.Keys - (visiting + {name}), doc.fragments.Keys - visiting);
        CollectKnowsNoTypes(doc, typeName, doc.fragments[name].selections, vars, into, visiting + {name});
      }
    case Inline(_, _, inner) => CollectKnowsNoTypes(doc, typeName, inner, vars, into, visiting);
  }

  // ---------------------------------------------------------------- documents at the edges

  function Leafy(name: string): FieldNode { Field(None, name, [], [], None) }

  function Aliased(alias: string, name: string): FieldNode { Field(Some(alias), name, [], [], None) }

  function Ask(selections: seq<Selection>, maxComplexity: int): Request {
    Request(SCHEMA, Document([Operation(OperationKind.Query, None, [], selections)], map[]), name => Undefined, 8, maxComplexity)
  }

  /** A field without directives joins what was collected before it. */
  lemma CollectPlain(req: Request, typeName: string, f: FieldNode, rest: seq<Selection>, into: Into)
    requires f.directives == [] && AddField(into, f).Ok?
    ensures Collect(req.doc, typeName, [f] + rest, req.vars, into, {}) ==
            Collect(req.doc, typeName, rest, req.vars, AddField(into, f).value, {})
  {
    assert ([f] + rest)[1..] == rest;
    assert CollectOne(req.doc, typeName, f, req.vars, into, {}) == AddField(into, f);
  }

  lemma SingleField(req: Request, typeName: string, f: FieldNode)
    requires f.directives == []
    ensures Fields(req, typeName, [f]) == Ok([Collected(f.ResponseKey(), f, f.Subselections())])
  {
    assert [] + [Collected(f.ResponseKey(), f, f.Subselections())] == [Collected(f.ResponseKey(), f, f.Subselections())];
    CollectPlain(req, typeName, f, [], []);
    assert [f] + [] == [f];
  }

  /** A selection of one field costs what that field costs. */
  lemma SoleFieldCost(req: Request, typeName: string, f: FieldNode, depth: int, pageSize: int)
    requires typeName in req.schema && depth <= req.maxDepth
    requires f.directives == [] && f.name != "__typename"
    requires var cost := CostOfField(req, typeName, Collected(f.ResponseKey(), f, f.Subselections()), depth, pageSize);
             cost.Ok? && cost.value <= req.maxComplexity
    ensures CostOf(req, typeName, [f], depth, pageSize) ==
            CostOfField(req, typeName, Collected(f.ResponseKey(), f, f.Subselections()), depth, pageSize)
  {
    var c := Collected(f.ResponseKey(), f, f.Subselections());
    var cost := CostOfField(req, typeName, c, depth, pageSize).value;
    SingleField(req, typeName, f);
    assert [c][1..] == [];
    assert CostOfFields(req, typeName, [], depth, pageSize, cost) == Ok(cost);
  }

  lemma SoleArgument(def: FieldDef, arg: ArgDef, given: Value, vars: Variables)
    requires def.args == [arg]
    requires !ValueOf(given, vars).Undefined? && CoerceArg(arg, ValueOf(given, vars)).Ok?
    ensures ResolveArgs(def, [Arg(arg.name, given)], vars) ==
            Ok(map[arg.name := CoerceArg(arg, ValueOf(given, vars)).value])
  {
    var args := [Arg(arg.name, given)];
    assert def.args[0].name == args[0].name;
    assert def.args[1..] == [];
    assert CoerceAll([], args, vars) == Ok(map[]);
  }

  lemma LeafCost(req: Request, typeName: string, name: string, depth: int, pageSize: int)
    requires typeName in req.schema && name in req.schema[typeName] && depth <= req.maxDepth
    requires !StartsWith(name, "__") && name != "__typename"
    requires req.schema[typeName][name].args == [] && IsLeaf(req.schema[typeName][name])
    requires req.maxComplexity >= 1
    ensures CostOf(req, typeName, [Leafy(name)], depth, pageSize) == Ok(1)
  {
    var c := Collected(name, Leafy(name), []);
    var def := req.schema[typeName][name];
    assert AllDeclared([], []);
    assert ResolveArgs(def, [], req.vars) == Ok(map[]);
    assert Check(req, typeName, c) == Ok((def, map[]));
    SoleFieldCost(req, typeName, Leafy(name), depth, pageSize);
  }

  lemma TopicsDefinition()
    ensures "Contract" in SCHEMA && "topics" in SCHEMA["Contract"]
    ensures SCHEMA["Contract"]["topics"] == FieldDef(ListOf("Topic"), LIMIT, LimitArgument, false)
    ensures "Topic" in SCHEMA && "topic" in SCHEMA["Topic"] && SCHEMA["Topic"]["topic"] == Plain(Required("String"))
    ensures "Topic" !in SCALARS && !StartsWith("topics", "__") && !StartsWith("topic", "__")
  {
    assert "topics"[0] != "__"[0] && "topic"[0] != "__"[0];
  }

  lemma ContractDefinition()
    ensures "Query" in SCHEMA && "contract" in SCHEMA["Query"]
    ensures SCHEMA["Query"]["contract"] == FieldDef(Nullable("Contract"), ID, Unsized, false)
    ensures "Contract" !in SCALARS && !StartsWith("contract", "__")
  {
    assert "contract"[0] != "__"[0];
  }

  // ---------------------------------------------------------------- a response key that is lost

  /** `{ __proto__: __typename }` is accepted at cost 1 and answered, without an error, by an empty object. */
  lemma ProtoKeyIsLost(w: World, maxComplexity: int)
    requires w.req == Ask([Aliased("__proto__", "__typename")], maxComplexity)
    ensures var selections: seq<Selection> := [Aliased("__proto__", "__typename")];
      && Analyse(w.req, selections) == Ok(1)
      && Respond(w, selections) == Some(Response(Record([]), []))
  {
    var f := Aliased("__proto__", "__typename");
    var c := Collected("__proto__", f, []);
    SingleField(w.req, "Query", f);
    assert CostOfFields(w.req, "Query", [c], 1, DEFAULT_QUERY_LIMIT, 0) == Ok(1);
    var outcomes := ExecuteFields(w, "Query", [c], JsObj(map[]), [], Levels(w.req, 1) - 1);
    assert outcomes[0] == ExecuteField(w, "Query", c, JsObj(map[]), [], Levels(w.req, 1) - 1);
    assert outcomes == [Completed(Leaf(JsStr(NameText("Query"))), [])];
    assert AllErrors(outcomes) == [] + AllErrors(outcomes[1..]) == [];
    assert Entries([c], Values(outcomes)) == Entries([c][1..], Values(outcomes)[1..]) == [];
  }

  // ---------------------------------------------------------------- `contracts` without a limit

  const CONTRACTS_FIELD: FieldNode := Field(None, "contracts", [], [], Some([Leafy("contractId")]))

  lemma ContractsDefinition()
    ensures "Query" in SCHEMA && "contracts" in SCHEMA["Query"]
    ensures SCHEMA["Query"]["contracts"] == FieldDef(ListOf("Contract"), LIMIT, LimitArgument, false)
    ensures "Contract" !in SCALARS && !StartsWith("contracts", "__")
    ensures "Contract" in SCHEMA && "contractId" in SCHEMA["Contract"]
    ensures SCHEMA["Contract"]["contractId"] == Plain(Required("String")) && !StartsWith("contractId", "__")
  {
    assert "contracts"[0] != "__"[0] && "contractId"[0] != "__"[0];
    assert SCHEMA["Query"] == QUERY && "contracts" in QUERY;
    assert SCHEMA["Contract"] == CONTRACT && "contractId" in CONTRACT;
  }

  /** Every resolver call returns something that is not null. */
  ghost predicate NeverNull(w: World) {
    forall path, typeName, field, args, source ::
      w.resolve(path, typeName, field, args, source).Returned? &&
      !Nullish(w.resolve(path, typeName, field, args, source).value)
  }

  /** A selection of one field that completes is a record of one entry. */
  lemma SoleFieldRecord(w: World, typeName: string, f: FieldNode, source: Js, path: Path, fuel: nat)
    requires f.directives == [] && f.ResponseKey() != "__proto__" && fuel >= 1
    requires ExecuteField(w, typeName, Collected(f.ResponseKey(), f, f.Subselections()), source, path, fuel - 1).Completed?
    ensures var o := ExecuteField(w, typeName, Collected(f.ResponseKey(), f, f.Subselections()), source, path, fuel - 1);
            ExecuteSelection(w, typeName, [f], source, path, fuel) ==
            Completed(Record([Entry(f.ResponseKey(), o.value)]), o.errors)
  {
    var c := Collected(f.ResponseKey(), f, f.Subselections());
    SingleField(w.req, typeName, f);
    var outcomes := ExecuteFields(w, typeName, [c], source, path, fuel - 1);
    assert outcomes[0] == ExecuteField(w, typeName, c, source, path, fuel - 1);
    assert outcomes[1..] == [];
    assert AllErrors(outcomes) == outcomes[0].errors + [] == outcomes[0].errors;
    var values := Values(outcomes);
    assert values[1..] == [] && [c][1..] == [];
    assert Entries([c][1..], values[1..]) == [];
    assert Entries([c], values) == [Entry(c.key, values[0])] + [] == [Entry(c.key, values[0])];
    assert FirstFailed(outcomes) == 1;
    assert All(w.schedule, path, outcomes) == Completed(values, outcomes[0].errors);
    assert ExecuteSelection(w, typeName, [f], source, path, fuel) ==
           AsRecord([c], All(w.schedule, path, outcomes));
  }

  lemma SoleEntryCount(entry: Entry)
    ensures EntryCount(Record([entry])) == 1 + EntryCount(entry.value)
  {
    assert [entry][1..] == [];
    assert EntryCountOf([entry]) == 1 + EntryCount([entry][0].value) + EntryCountOf([entry][1..]);
  }

  lemma ContractItem(w: World, item: Js, path: Path, fuel: nat)
    requires w.req.schema == SCHEMA && NeverNull(w) && !Nullish(item) && fuel >= 1
    ensures var o := CompleteOne(w, "Contract", true, item, [Leafy("contractId")], path, fuel);
            o.Completed? && o.errors == [] && EntryCount(o.value) == 1
  {
    var f := Leafy("contractId");
    var c := Collected("contractId", f, []);
    SingleField(w.req, "Contract", f);
    ContractsDefinition();
    var def := Plain(Required("String"));
    assert ResolveArgs(def, [], w.req.vars) == Ok(map[]);
    var leaf := w.resolve(path + [Name("contractId")], "Contract", "contractId", map[], item).value;
    assert "String" in SCALARS;
    assert Complete(w, def.typ, leaf, [], path + [Name("contractId")], fuel - 1) == Completed(Leaf(leaf), []);
    assert c.node.name == "contractId" != "__typename";
    assert ExecuteField(w, "Contract", c, item, path, fuel - 1) == Completed(Leaf(leaf), []);
    assert |"contractId"| != |"__proto__"|;
    SoleFieldRecord(w, "Contract", f, item, path, fuel);
    SoleEntryCount(Entry("contractId", Leaf(leaf)));
  }

  lemma {:induction false} EqualCounts(items: seq<Data>)
    requires forall i | 0 <= i < |items| :: EntryCount(items[i]) == 1
    ensures ItemCount(items) == |items|
  {
    if items != [] { EqualCounts(items[1..]); }
  }

  lemma {:induction false} NoErrors(outcomes: seq<Outcome<Data>>)
    requires forall i | 0 <= i < |outcomes| :: outcomes[i].Completed? && outcomes[i].errors == []
    ensures AllErrors(outcomes) == []
  {
    if outcomes != [] { NoErrors(outcomes[1..]); }
  }

  lemma ContractsComplete(w: World, items: seq<Js>, path: Path, fuel: nat)
    requires w.req.schema == SCHEMA && NeverNull(w) && fuel >= 1
    requires forall i | 0 <= i < |items| :: !Nullish(items[i])
    ensures var o := Complete(w, ListOf("Contract"), JsArr(items), [Leafy("contractId")], path, fuel);
            o.Completed? && o.errors == [] && EntryCount(o.value) == |items|
  {
    var outcomes := CompleteItems(w, ListOf("Contract"), items, [Leafy("contractId")], path, fuel);
    forall i | 0 <= i < |outcomes|
      ensures outcomes[i].Completed? && outcomes[i].errors == [] && EntryCount(outcomes[i].value) == 1
    {
      ContractItem(w, items[i], path + [Index(i)], fuel);
    }
    NoErrors(outcomes);
    EqualCounts(Values(outcomes));
  }

  lemma ContractsCost(maxComplexity: nat)
    requires maxComplexity >= 51
    ensures Analyse(Ask([CONTRACTS_FIELD], maxComplexity), [CONTRACTS_FIELD]) == Ok(51)
  {
    var req := Ask([CONTRACTS_FIELD], maxComplexity);
    var c := Collected("contracts", CONTRACTS_FIELD, [Leafy("contractId")]);
    ContractsDefinition();
    var def := FieldDef(ListOf("Contract"), LIMIT, LimitArgument, false);
    assert LIMIT[1..] == [] && CoerceAll([], [], req.vars) == Ok(map[]);
    assert ResolveArgs(def, [], req.vars) == Ok(map[]);
    assert Check(req, "Query", c) == Ok((def, map[]));
    LeafCost(req, "Contract", "contractId", 2, DEFAULT_QUERY_LIMIT);
    assert CostOfField(req, "Query", c, 1, DEFAULT_QUERY_LIMIT) == Ok(1 + DEFAULT_QUERY_LIMIT * 1);
    SoleFieldCost(req, "Query", CONTRACTS_FIELD, 1, DEFAULT_QUERY_LIMIT);
  }

  /**
   `{ contracts { contractId } }` is priced at 51, for 50 contracts, while the store answers up
   to 100 of them by default: the response stays within its cost exactly up to 50.
   */
  lemma DefaultContractsWithinCostIff(w: World, items: seq<Js>, maxComplexity: nat)
    requires maxComplexity >= 51 && w.req == Ask([CONTRACTS_FIELD], maxComplexity) && NeverNull(w)
    requires w.resolve([Name("contracts")], "Query", "contracts", map[], JsObj(map[])) == Returned(JsArr(items))
    requires forall i | 0 <= i < |items| :: !Nullish(items[i])
    ensures Respond(w, [CONTRACTS_FIELD]).Some? && Analyse(w.req, [CONTRACTS_FIELD]).Ok?
    ensures EntryCount(Respond(w, [CONTRACTS_FIELD]).value.data) <= Analyse(w.req, [CONTRACTS_FIELD]).value <==>
            |items| <= 50
  {
    var c := Collected("contracts", CONTRACTS_FIELD, [Leafy("contractId")]);
    var at: Path := [Name("contracts")];
    ContractsCost(maxComplexity);
    SingleField(w.req, "Query", CONTRACTS_FIELD);
    ContractsDefinition();
    var def := FieldDef(ListOf("Contract"), LIMIT, LimitArgument, false);
    assert LIMIT[1..] == [] && CoerceAll([], [], w.req.vars) == Ok(map[]);
    assert ResolveArgs(def, [], w.req.vars) == Ok(map[]);
    assert [] + [Name("contracts")] == at;
    ContractsComplete(w, items, at, 7);
    var listed := Complete(w, ListOf("Contract"), JsArr(items), [Leafy("contractId")], at, 7);
    assert ExecuteField(w, "Query", c, JsObj(map[]), [], 7) == listed;
    assert "contracts"[0] != "__proto__"[0];
    SoleFieldRecord(w, "Query", CONTRACTS_FIELD, JsObj(map[]), [], 8);
    SoleEntryCount(Entry("contracts", listed.value));
  }
}
