/**
 Requests on which the cost or its ceiling falls short: a `limit` has no lower bound, so it can
 make a field's cost as negative as it likes, and `__typename` is never checked.
 */
module GraphqlLimits {
  import opened Results
  import opened Settings
  import opened GraphqlSyntax
  import opened GraphqlCollect
  import opened GraphqlMerge
  import opened GraphqlAnalyse
  import opened GraphqlExecute
  import opened GraphqlConformance
  import opened GraphqlCost
  import opened GraphqlSoundness
  import opened GraphqlSchema

  // ---------------------------------------------------------------- `__typename` is never checked

  function Tag(i: nat): string { seq(i + 1, _ => 'a') }

  /** `{ a: __typename aa: __typename ... }` with `k` aliases. */
  function Typenames(k: nat): seq<Selection> { seq(k, i requires 0 <= i < k => Aliased(Tag(i), "__typename")) }

  function TypenameFields(k: nat): Into {
    seq(k, i requires 0 <= i < k => Collected(Tag(i), Aliased(Tag(i), "__typename"), []))
  }

  lemma NextTypename(i: nat)
    ensures AddField(TypenameFields(i), Aliased(Tag(i), "__typename")) == Ok(TypenameFields(i + 1))
  {
    var into := TypenameFields(i);
    forall j | 0 <= j < i ensures into[j].key != Tag(i) { assert |into[j].key| == j + 1 && |Tag(i)| == i + 1; }
    assert IndexOf(into, Tag(i)) == i;
    assert into + [Collected(Tag(i), Aliased(Tag(i), "__typename"), [])] == TypenameFields(i + 1);
  }

  lemma {:induction false} CollectTypenames(req: Request, k: nat, i: nat)
    requires i <= k
    ensures Collect(req.doc, "Query", Typenames(k)[i..], req.vars, TypenameFields(i), {}) == Ok(TypenameFields(k))
    decreases k - i
  {
    if i < k {
      NextTypename(i);
      assert Typenames(k)[i..] == [Aliased(Tag(i), "__typename")] + Typenames(k)[i + 1..];
      CollectPlain(req, "Query", Aliased(Tag(i), "__typename"), Typenames(k)[i + 1..], TypenameFields(i));
      CollectTypenames(req, k, i + 1);
    }
  }

  lemma {:induction false} TypenamesCost(req: Request, k: nat, i: nat)
    requires i <= k && req.maxDepth >= 1 && "Query" in req.schema
    ensures CostOfFields(req, "Query", TypenameFields(k)[i..], 1, DEFAULT_QUERY_LIMIT, i) == Ok(k)
    decreases k - i
  {
    if i < k {
      assert TypenameFields(k)[i..][0] == TypenameFields(k)[i];
      assert TypenameFields(k)[i..][1..] == TypenameFields(k)[i + 1..];
      TypenamesCost(req, k, i + 1);
    }
  }

  /** Under every ceiling, any number of aliased `__typename` fields is accepted, at a cost of that number. */
  lemma TypenamesEscapeTheCeiling(k: nat, maxComplexity: int)
    ensures Analyse(Ask(Typenames(k), maxComplexity), Typenames(k)) == Ok(k)
  {
    var req := Ask(Typenames(k), maxComplexity);
    assert Typenames(k)[0..] == Typenames(k) && TypenameFields(k)[0..] == TypenameFields(k);
    assert TypenameFields(0) == [];
    CollectTypenames(req, k, 0);
    TypenamesCost(req, k, 0);
  }

  // ---------------------------------------------------------------- a limit of any sign

  const LIMIT_VARIABLES: seq<VariableDefinition> :=
    [VariableDefinition("id", "String!", true, None), VariableDefinition("n", "Int", false, None)]

  /** The variables of a request for `$n` topics of the contract with the empty id. */
  function LimitVars(n: int): Variables {
    name => if name == "n" then JsNum(n as real) else if name == "id" then JsStr([]) else Undefined
  }

  const TOPICS_FIELD: FieldNode :=
    Field(None, "topics", [Arg("limit", Variable("n"))], [], Some([Leafy("topic"), Leafy("count")]))

  const CONTRACT_FIELD: FieldNode :=
    Field(None, "contract", [Arg("id", Variable("id"))], [], Some([TOPICS_FIELD]))

  const ROOT_CONTRACT: Collected := Collected("contract", CONTRACT_FIELD, [TOPICS_FIELD])

  /** A request on this schema with `$n` for the limit. */
  ghost predicate AsksFor(req: Request, n: int) {
    && req.schema == SCHEMA && req.maxDepth >= 3 && req.maxComplexity >= 2
    && req.vars("n") == JsNum(n as real) && req.vars("id") == JsStr([])
  }

  /** `query ($id: String!, $n: Int) { ... }` with these root selections. */
  function RequestFor(selections: seq<Selection>, n: int, maxComplexity: nat): Request {
    Request(SCHEMA, Document([Operation(OperationKind.Query, None, LIMIT_VARIABLES, selections)], map[]), LimitVars(n), 8,
            maxComplexity)
  }

  /** `query ($id: String!, $n: Int) { contract(id: $id) { topics(limit: $n) { topic count } } }` */
  function LimitRequest(n: int, maxComplexity: nat): Request { RequestFor([CONTRACT_FIELD], n, maxComplexity) }

  function Capped(n: int): int { if n < MAX_QUERY_LIMIT then n else MAX_QUERY_LIMIT }

  const TOPICS_DEF: FieldDef := FieldDef(ListOf("Topic"), LIMIT, LimitArgument, false)
  const CONTRACT_DEF: FieldDef := FieldDef(Nullable("Contract"), ID, Unsized, false)

  lemma TopicDefinitions()
    ensures "Topic" in SCHEMA && "topic" in SCHEMA["Topic"] && "count" in SCHEMA["Topic"]
    ensures SCHEMA["Topic"]["topic"] == Plain(Required("String")) && SCHEMA["Topic"]["count"] == Plain(Required("Int"))
    ensures !StartsWith("topic", "__") && !StartsWith("count", "__")
  {
    assert SCHEMA["Topic"] == TOPIC;
    assert "topic"[0] != "__"[0] && "count"[0] != "__"[0];
  }

  const LEAVES: Into := [Collected("topic", Leafy("topic"), []), Collected("count", Leafy("count"), [])]

  lemma LeavesCollected(req: Request)
    ensures Fields(req, "Topic", [Leafy("topic"), Leafy("count")]) == Ok(LEAVES)
  {
    var a, b := Leafy("topic"), Leafy("count");
    var one: Into := [LEAVES[0]];
    assert "topic"[0] != "count"[0];
    assert [] + one == one && one + [LEAVES[1]] == LEAVES;
    assert AddField([], a) == Ok(one) && AddField(one, b) == Ok(LEAVES);
    CollectPlain(req, "Topic", a, [b], []);
    CollectPlain(req, "Topic", b, [], one);
    assert [a] + [b] == [a, b] && [b] + [] == [b];
  }

  lemma LeafChecked(req: Request, i: nat)
    requires req.schema == SCHEMA && i < 2
    ensures var c := LEAVES[i];
      && c.node.name != "__typename"
      && Check(req, "Topic", c) == Ok((SCHEMA["Topic"][c.node.name], map[])) && IsLeaf(SCHEMA["Topic"][c.node.name])
  {
    TopicDefinitions();
    var c := LEAVES[i];
    var def := SCHEMA["Topic"][c.node.name];
    assert |"topic"| != |"__typename"| && |"count"| != |"__typename"|;
    assert AllDeclared([], []) && ResolveArgs(def, [], req.vars) == Ok(map[]);
  }

  lemma LeavesCost(req: Request, depth: int, pageSize: int)
    requires req.schema == SCHEMA && depth <= req.maxDepth && req.maxComplexity >= 2
    ensures CostOf(req, "Topic", [Leafy("topic"), Leafy("count")], depth, pageSize) == Ok(2)
  {
    TopicDefinitions();
    LeavesCollected(req);
    LeafChecked(req, 0);
    LeafChecked(req, 1);
    assert CostOfField(req, "Topic", LEAVES[0], depth, pageSize) == Ok(1);
    assert CostOfField(req, "Topic", LEAVES[1], depth, pageSize) == Ok(1);
    assert LEAVES[1..][0] == LEAVES[1] && LEAVES[1..][1..] == [];
    assert CostOfFields(req, "Topic", LEAVES[1..], depth, pageSize, 1) == Ok(2);
  }

  lemma TopicsChecked(req: Request, n: int)
    requires AsksFor(req, n)
    ensures var c := Collected("topics", TOPICS_FIELD, [Leafy("topic"), Leafy("count")]);
      && "Contract" in SCHEMA && !IsLeaf(TOPICS_DEF)
      && Check(req, "Contract", c) == Ok((TOPICS_DEF, map["limit" := JsNum(n as real)]))
      && OwnLimit(map["limit" := JsNum(n as real)]) == Capped(n)
  {
    TopicsDefinition();
    assert (n as real).Floor == n;
    SoleArgument(TOPICS_DEF, LIMIT[0], Variable("n"), req.vars);
  }

  lemma ContractChecked(req: Request, n: int)
    requires AsksFor(req, n)
    ensures "Query" in SCHEMA && !IsLeaf(CONTRACT_DEF)
    ensures Check(req, "Query", ROOT_CONTRACT) == Ok((CONTRACT_DEF, map["id" := JsStr([])]))
    ensures OwnLimit(map["id" := JsStr([])]) == DEFAULT_QUERY_LIMIT
  {
    ContractDefinition();
    assert "id"[0] != "n"[0];
    SoleArgument(CONTRACT_DEF, ID[0], Variable("id"), req.vars);
    assert "id" != "limit" by { assert |"id"| != |"limit"|; }
  }

  lemma TopicsCost(req: Request, n: int)
    requires AsksFor(req, n) && req.maxComplexity >= 1 + 2 * Capped(n)
    ensures CostOf(req, "Contract", [TOPICS_FIELD], 2, DEFAULT_QUERY_LIMIT) == Ok(1 + 2 * Capped(n))
  {
    hide SCHEMA, Check;
    var c := Collected("topics", TOPICS_FIELD, [Leafy("topic"), Leafy("count")]);
    TopicsDefinition();
    TopicsChecked(req, n);
    LeavesCost(req, 3, DEFAULT_QUERY_LIMIT);
    assert CostOfField(req, "Contract", c, 2, DEFAULT_QUERY_LIMIT) == Ok(1 + Capped(n) * 2);
    SoleFieldCost(req, "Contract", TOPICS_FIELD, 2, DEFAULT_QUERY_LIMIT);
  }

  /** The contract field costs `2 + 2n`, for a limit of any sign up to the maximum. */
  lemma ContractCost(req: Request, n: int)
    requires AsksFor(req, n) && req.maxComplexity >= 1 + 2 * Capped(n)
    ensures "Query" in req.schema && CostOfField(req, "Query", ROOT_CONTRACT, 1, DEFAULT_QUERY_LIMIT) == Ok(2 + 2 * Capped(n))
    ensures CONTRACT_FIELD.name != "__typename"
  {
    hide SCHEMA, Check, CostOf;
    ContractDefinition();
    ContractChecked(req, n);
    TopicsCost(req, n);
    assert CostOfField(req, "Query", ROOT_CONTRACT, 1, DEFAULT_QUERY_LIMIT) == Ok(1 + 1 * (1 + 2 * Capped(n)));
  }

  lemma RequestAsks(selections: seq<Selection>, n: int, maxComplexity: nat)
    requires maxComplexity >= 2
    ensures var req := RequestFor(selections, n, maxComplexity);
      AsksFor(req, n) && req.schema == SCHEMA && req.maxDepth == 8 && req.maxComplexity == maxComplexity
  {
    hide SCHEMA;
    assert "id"[0] != "n"[0];
  }

  lemma LimitRequestCost(n: int, maxComplexity: nat)
    requires maxComplexity >= 2 && maxComplexity >= 2 + 2 * Capped(n)
    ensures Analyse(LimitRequest(n, maxComplexity), [CONTRACT_FIELD]) == Ok(2 + 2 * Capped(n))
  {
    ContractCost(LimitRequest(n, maxComplexity), n);
    SoleFieldCost(LimitRequest(n, maxComplexity), "Query", CONTRACT_FIELD, 1, DEFAULT_QUERY_LIMIT);
  }

  lemma OneEntry(w: World, entries: seq<Entry>, errors: seq<ResponseError>)
    requires EntriesConform(w, "Query", [ROOT_CONTRACT], JsObj(map[]), [], entries, errors)
    ensures |entries| == 1 && entries == [entries[0]] && entries[0].key == "contract"
    ensures FieldConforms(w, "Query", ROOT_CONTRACT, JsObj(map[]), [], entries[0].value, errors)
  {
    hide FieldConforms;
    assert [ROOT_CONTRACT][1..] == [];
    assert |"contract"| != |"__proto__"|;
    assert EntriesConform(w, "Query", [], JsObj(map[]), [], entries[1..], errors);
    assert entries[1..] == [];
  }

  /** The answer to the request always holds one entry, whatever the resolvers do. */
  lemma LimitResponse(w: World, n: int, maxComplexity: nat)
    requires w.req == LimitRequest(n, maxComplexity) && maxComplexity >= 2 && maxComplexity >= 2 + 2 * Capped(n)
    ensures Respond(w, [CONTRACT_FIELD]).Some?
    ensures var Response(data, errors) := Respond(w, [CONTRACT_FIELD]).value;
      && data.Record? && |data.entries| == 1 && data.entries[0].key == "contract"
      && FieldConforms(w, "Query", ROOT_CONTRACT, JsObj(map[]), [], data.entries[0].value, errors)
      && EntryCount(data) == 1 + EntryCount(data.entries[0].value)
  {
    LimitRequestCost(n, maxComplexity);
    AcceptedRunsClean(w, [CONTRACT_FIELD]);
    ResponseConforms(w, [CONTRACT_FIELD]);
    SingleField(w.req, "Query", CONTRACT_FIELD);
    ContractDefinition();
    var outcomes := ExecuteFields(w, "Query", [ROOT_CONTRACT], JsObj(map[]), [], 7);
    assert outcomes[0] == ExecuteField(w, "Query", ROOT_CONTRACT, JsObj(map[]), [], 7);
    assert !outcomes[0].Failed?;
    assert |"contract"| != |"__proto__"|;
    var data := Respond(w, [CONTRACT_FIELD]).value.data;
    OneEntry(w, data.entries, Respond(w, [CONTRACT_FIELD]).value.errors);
    SoleEntryCount(data.entries[0]);
  }

  /** For every negative limit there is an accepted request that every response exceeds. */
  lemma NegativeLimitUndercounts(w: World, n: int, maxComplexity: nat)
    requires n < 0 && maxComplexity >= 2 && w.req == LimitRequest(n, maxComplexity)
    ensures Analyse(w.req, [CONTRACT_FIELD]) == Ok(2 + 2 * n)
    ensures Respond(w, [CONTRACT_FIELD]).Some?
    ensures EntryCount(Respond(w, [CONTRACT_FIELD]).value.data) > 2 + 2 * n
  {
    hide SCHEMA, Analyse, Respond, FieldConforms, RequestFor;
    LimitRequestCost(n, maxComplexity);
    LimitResponse(w, n, maxComplexity);
  }

  // ---------------------------------------------------------------- exactly the negative ones

  /** The cost bounds every response whose lists are as long as assumed. */
  ghost predicate CostBounds(req: Request, selections: seq<Selection>)
    requires Analyse(req, selections).Ok?
  {
    forall w: World ::
      w.req == req && Respond(w, selections).Some?
      && ListsWithin(req, "Query", selections, Respond(w, selections).value.data, DEFAULT_QUERY_LIMIT) ==>
        EntryCount(Respond(w, selections).value.data) <= Analyse(req, selections).value
  }

  /** Every resolver throws. */
  function Failing(req: Request): World {
    World(req, (path, typeName, field, args, source) => Threw(true), Schedule(path => 0, (path, e) => false))
  }

  lemma LimitRequestFrom(n: int, maxComplexity: nat)
    requires n >= 0 && maxComplexity >= 2
    ensures LimitsFrom(0, LimitRequest(n, maxComplexity), "Query", [CONTRACT_FIELD], 1)
  {
    var req := LimitRequest(n, maxComplexity);
    var topics := Collected("topics", TOPICS_FIELD, [Leafy("topic"), Leafy("count")]);
    SingleField(req, "Query", CONTRACT_FIELD);
    SingleField(req, "Contract", TOPICS_FIELD);
    ContractChecked(req, n);
    TopicsChecked(req, n);
    LeavesCollected(req);
    TopicDefinitions();
    forall i: nat | i < 2 ensures LimitFrom(0, req, "Topic", LEAVES[i], 3) { LeafChecked(req, i); }
    assert LimitsFrom(0, req, "Topic", [Leafy("topic"), Leafy("count")], 3);
    assert LimitFrom(0, req, "Contract", topics, 2);
    assert LimitsFrom(0, req, "Contract", [TOPICS_FIELD], 2);
    assert LimitFrom(0, req, "Query", ROOT_CONTRACT, 1);
  }

  lemma NullWithin(req: Request, data: Data)
    requires req.schema == SCHEMA && data.Record? && |data.entries| == 1 && data.entries[0].value.NullData?
    ensures ListsWithin(req, "Query", [CONTRACT_FIELD], data, DEFAULT_QUERY_LIMIT)
  {
    hide SCHEMA, Check;
    SingleField(req, "Query", CONTRACT_FIELD);
    if "Query" in SCHEMA { assert ListWithin(req, "Query", ROOT_CONTRACT, data.entries[0].value, DEFAULT_QUERY_LIMIT); }
  }

  lemma FailingGivesNull(req: Request, data: Data, errors: seq<ResponseError>)
    requires FieldConforms(Failing(req), "Query", ROOT_CONTRACT, JsObj(map[]), [], data, errors)
    ensures data.NullData?
  {
    assert |"contract"| != |"__typename"|;
  }

  lemma FailingExceeds(n: int, maxComplexity: nat)
    requires n < 0 && maxComplexity >= 2
    ensures Analyse(LimitRequest(n, maxComplexity), [CONTRACT_FIELD]).Ok?
    ensures !CostBounds(LimitRequest(n, maxComplexity), [CONTRACT_FIELD])
  {
    hide SCHEMA, Analyse, Respond, FieldConforms, RequestFor, ListsWithin, AsksFor;
    var req := LimitRequest(n, maxComplexity);
    var w := Failing(req);
    RequestAsks([CONTRACT_FIELD], n, maxComplexity);
    NegativeLimitUndercounts(w, n, maxComplexity);
    LimitResponse(w, n, maxComplexity);
    var Response(data, errors) := Respond(w, [CONTRACT_FIELD]).value;
    FailingGivesNull(req, data.entries[0].value, errors);
    NullWithin(req, data);
  }

  /** The cost of the request bounds its responses if and only if its limit is not negative. */
  lemma LimitBoundIff(n: int, maxComplexity: nat)
    requires maxComplexity >= 2 && maxComplexity >= 2 + 2 * Capped(n)
    ensures Analyse(LimitRequest(n, maxComplexity), [CONTRACT_FIELD]).Ok?
    ensures CostBounds(LimitRequest(n, maxComplexity), [CONTRACT_FIELD]) <==> n >= 0
  {
    var req := LimitRequest(n, maxComplexity);
    LimitRequestCost(n, maxComplexity);
    if n < 0 {
      FailingExceeds(n, maxComplexity);
    } else {
      LimitRequestFrom(n, maxComplexity);
      forall w: World | w.req == req && Respond(w, [CONTRACT_FIELD]).Some?
          && ListsWithin(req, "Query", [CONTRACT_FIELD], Respond(w, [CONTRACT_FIELD]).value.data, DEFAULT_QUERY_LIMIT)
        ensures EntryCount(Respond(w, [CONTRACT_FIELD]).value.data) <= Analyse(req, [CONTRACT_FIELD]).value
      {
        CostBoundsResponse(w, [CONTRACT_FIELD]);
      }
    }
  }

  // ---------------------------------------------------------------- around the ceiling

  /** What a root field adds to the total. */
  function Price(req: Request, c: Collected): Result<int, RequestError>
    requires req.maxDepth >= 1 && "Query" in req.schema
  {
    if c.node.name == "__typename" then Ok(1) else CostOfField(req, "Query", c, 1, DEFAULT_QUERY_LIMIT)
  }

  /** Root fields that are accepted one by one, at a cost that is not negative. */
  predicate Priced(req: Request, fields: Into)
    requires req.maxDepth >= 1 && "Query" in req.schema
  {
    forall i | 0 <= i < |fields| :: Price(req, fields[i]).Ok? && Price(req, fields[i]).value >= 0
  }

  function Sum(req: Request, fields: Into): int
    requires req.maxDepth >= 1 && "Query" in req.schema && Priced(req, fields)
  {
    if fields == [] then 0
    else Price(req, fields[0]).value + Sum(req, fields[1..])
  }

  lemma {:induction false} SumGrows(req: Request, fields: Into)
    requires req.maxDepth >= 1 && "Query" in req.schema && Priced(req, fields)
    ensures Sum(req, fields) >= 0
  {
    if fields != [] { SumGrows(req, fields[1..]); }
  }

  lemma {:induction false} SumAccepted(req: Request, fields: Into, total: int)
    requires req.maxDepth >= 1 && "Query" in req.schema && Priced(req, fields)
    requires total + Sum(req, fields) <= req.maxComplexity
    ensures CostOfFields(req, "Query", fields, 1, DEFAULT_QUERY_LIMIT, total) == Ok(total + Sum(req, fields))
    decreases |fields|
  {
    if fields != [] {
      SumGrows(req, fields[1..]);
      SumAccepted(req, fields[1..], total + Price(req, fields[0]).value);
    }
  }

  lemma {:induction false} SumRejected(req: Request, fields: Into, total: int)
    requires req.maxDepth >= 1 && "Query" in req.schema && Priced(req, fields)
    requires total + Sum(req, fields) > req.maxComplexity
    requires fields != [] && fields[|fields| - 1].node.name != "__typename"
    ensures CostOfFields(req, "Query", fields, 1, DEFAULT_QUERY_LIMIT, total) == Err(TooComplex)
    decreases |fields|
  {
    var rest := fields[1..];
    if rest != [] {
      assert rest[|rest| - 1] == fields[|fields| - 1];
      SumRejected(req, rest, total + Price(req, fields[0]).value);
    }
  }

  lemma Purchase(req: Request, n: int)
    requires AsksFor(req, n) && n < 0
    ensures "Query" in req.schema && req.maxDepth >= 1 && req.maxComplexity >= 2
    ensures CostOfField(req, "Query", ROOT_CONTRACT, 1, DEFAULT_QUERY_LIMIT) == Ok(2 + 2 * n)
    ensures ROOT_CONTRACT.node.name != "__typename"
  {
    hide SCHEMA, CostOfField;
    ContractCost(req, n);
  }

  lemma FirstField(req: Request, c: Collected, others: Into, cost: int)
    requires req.maxDepth >= 1 && "Query" in req.schema && c.node.name != "__typename"
    requires CostOfField(req, "Query", c, 1, DEFAULT_QUERY_LIMIT) == Ok(cost) && cost <= req.maxComplexity
    ensures CostOfFields(req, "Query", [c] + others, 1, DEFAULT_QUERY_LIMIT, 0) ==
            CostOfFields(req, "Query", others, 1, DEFAULT_QUERY_LIMIT, cost)
  {
    hide CostOfField;
    assert ([c] + others)[1..] == others;
  }

  predicate HasKey(into: Into, key: string) { IndexOf(into, key) < |into| }

  lemma AddFieldHas(into: Into, f: FieldNode, key: string)
    requires AddField(into, f).Ok?
    ensures HasKey(AddField(into, f).value, key) <==> HasKey(into, key) || key == f.ResponseKey()
  {
    var after, k := AddField(into, f).value, IndexOf(into, key);
    assert forall i | 0 <= i < |into| :: after[i].key == into[i].key;
    if k < |into| { assert after[k].key == key; }
    if key == f.ResponseKey() { assert after[k].key == key; }
    var i := IndexOf(after, key);
    if i < |into| { assert into[i].key == key; }
  }

  /** Merging loses no key. */
  lemma {:induction false} MergeHas(fields: seq<FieldNode>, into: Into, key: string)
    requires Merge(fields, into).Ok?
    ensures HasKey(into, key) || (exists i | 0 <= i < |fields| :: fields[i].ResponseKey() == key) ==>
              HasKey(Merge(fields, into).value, key)
    decreases |fields|
  {
    if fields != [] {
      AddFieldHas(into, fields[0], key);
      MergeHas(fields[1..], AddField(into, fields[0]).value, key);
      assert forall i | 0 < i < |fields| :: fields[i] == fields[1..][i - 1];
    }
  }

  lemma AddFieldBehind(first: Collected, into: Into, f: FieldNode)
    requires f.ResponseKey() != first.key && AddField(into, f).Ok?
    ensures AddField([first] + into, f) == Ok([first] + AddField(into, f).value)
  {
    var all, key := [first] + into, f.ResponseKey();
    assert all[1..] == into;
    var i := IndexOf(into, key);
    assert IndexOf(all, key) == 1 + i;
    if i < |into| {
      var grown := into[i].(selections := into[i].selections + f.Subselections());
      assert all[1 + i] == into[i];
      assert all[1 + i := grown] == [first] + into[i := grown];
    } else {
      assert all + [Collected(key, f, f.Subselections())] == [first] + (into + [Collected(key, f, f.Subselections())]);
    }
  }

  /** A field answered under a key of its own stays in front of what is merged after it. */
  lemma {:induction false} MergeBehind(first: Collected, fields: seq<FieldNode>, into: Into)
    requires Merge(fields, into).Ok? && !HasKey(Merge(fields, into).value, first.key)
    ensures Merge(fields, [first] + into) == Ok([first] + Merge(fields, into).value)
    decreases |fields|
  {
    if fields != [] {
      MergeHas(fields, into, first.key);
      AddFieldBehind(first, into, fields[0]);
      MergeBehind(first, fields[1..], AddField(into, fields[0]).value);
    }
  }

  lemma FieldsBehind(req: Request, typeName: string, f: FieldNode, more: seq<Selection>, others: Into)
    requires f.directives == [] && Fields(req, typeName, more) == Ok(others) && !HasKey(others, f.ResponseKey())
    ensures Fields(req, typeName, [f] + more) == Ok([Collected(f.ResponseKey(), f, f.Subselections())] + others)
  {
    hide Collect, Inlined, Merge;
    var first := Collected(f.ResponseKey(), f, f.Subselections());
    JoinNew(req, [], f);
    CollectPlain(req, typeName, f, more, []);
    assert [] + [first] == [first] == [first] + [];
    CollectIsMergeOfInlined(req.doc, typeName, more, req.vars, [], {});
    CollectIsMergeOfInlined(req.doc, typeName, more, req.vars, [first], {});
    MergeBehind(first, Inlined(req.doc, typeName, more, req.vars, {}).value, []);
  }

  /**
   A negative limit on a nullable root field pays for the fields after it: root fields that the
   ceiling refuses, by whatever sum, are accepted behind it as soon as `2 + 2n` makes up for it.
   */
  lemma NegativeLimitBuysRoom(req: Request, n: int, more: seq<Selection>, others: Into)
    requires AsksFor(req, n) && n < 0 && Priced(req, others)
    requires others != [] && others[|others| - 1].node.name != "__typename"
    requires Fields(req, "Query", more) == Ok(others) && !HasKey(others, "contract")
    requires 2 + 2 * n + Sum(req, others) <= req.maxComplexity < Sum(req, others)
    ensures Analyse(req, more) == Err(TooComplex)
    ensures Analyse(req, [CONTRACT_FIELD] + more) == Ok(2 + 2 * n + Sum(req, others))
  {
    hide SCHEMA, AsksFor, Fields, CostOfField, CostOfFields, Priced, Price, Sum, HasKey;
    Purchase(req, n);
    SumRejected(req, others, 0);
    SumAccepted(req, others, 2 + 2 * n);
    FirstField(req, ROOT_CONTRACT, others, 2 + 2 * n);
    FieldsBehind(req, "Query", CONTRACT_FIELD, more, others);
  }

  function AliasedContracts(alias: string): FieldNode {
    Field(Some(alias), "contracts", [], [], Some([Leafy("contractId")]))
  }

  lemma AliasedContractsPrice(req: Request, alias: string)
    requires req.schema == SCHEMA && req.maxDepth >= 2 && req.maxComplexity >= 1
    ensures "Query" in SCHEMA
    ensures Price(req, Collected(alias, AliasedContracts(alias), [Leafy("contractId")])) == Ok(51)
  {
    var c := Collected(alias, AliasedContracts(alias), [Leafy("contractId")]);
    ContractsDefinition();
    var def := FieldDef(ListOf("Contract"), LIMIT, LimitArgument, false);
    assert LIMIT[1..] == [] && CoerceAll([], [], req.vars) == Ok(map[]);
    assert ResolveArgs(def, [], req.vars) == Ok(map[]);
    assert Check(req, "Query", c) == Ok((def, map[]));
    LeafCost(req, "Contract", "contractId", 2, DEFAULT_QUERY_LIMIT);
    assert CostOfField(req, "Query", c, 1, DEFAULT_QUERY_LIMIT) == Ok(1 + DEFAULT_QUERY_LIMIT * 1);
    assert |"contracts"| != |"__typename"|;
  }

  function Listed(alias: string): Collected { Collected(alias, AliasedContracts(alias), [Leafy("contractId")]) }

  lemma ListingsJoin(req: Request)
    ensures Fields(req, "Query", [AliasedContracts("a"), AliasedContracts("b")]) == Ok([Listed("a"), Listed("b")])
  {
    var a, b := AliasedContracts("a"), AliasedContracts("b");
    assert "a"[0] != "b"[0];
    SingleField(req, "Query", b);
    FieldsBehind(req, "Query", a, [b], [Listed("b")]);
    assert [a] + [b] == [a, b] && [Listed("a")] + [Listed("b")] == [Listed("a"), Listed("b")];
  }

  lemma JoinNew(req: Request, into: Into, f: FieldNode)
    requires forall i | 0 <= i < |into| :: into[i].key != f.ResponseKey()
    ensures AddField(into, f) == Ok(into + [Collected(f.ResponseKey(), f, f.Subselections())])
  {
    assert IndexOf(into, f.ResponseKey()) == |into|;
  }

  lemma TwoPrices(req: Request, a: Collected, b: Collected, price: nat)
    requires req.maxDepth >= 1 && "Query" in req.schema && Price(req, a) == Price(req, b) == Ok(price)
    ensures Priced(req, [a, b]) && Sum(req, [a, b]) == 2 * price
  {
    hide Price;
    var fields: Into := [a, b];
    assert fields[1..] == [b] && fields[1..][1..] == [];
    assert Sum(req, fields[1..]) == price + Sum(req, fields[1..][1..]);
  }

  /** Two root fields of one price, together and behind the field that pays for them. */
  lemma RoomForTwo(req: Request, n: int, a: FieldNode, b: FieldNode, ca: Collected, cb: Collected, price: nat)
    requires AsksFor(req, n) && n < 0 && "Query" in req.schema && Price(req, ca) == Price(req, cb) == Ok(price)
    requires cb.node.name != "__typename" && ca.key != "contract" && cb.key != "contract"
    requires Fields(req, "Query", [a, b]) == Ok([ca, cb])
    requires 2 + 2 * n + 2 * price <= req.maxComplexity < 2 * price
    ensures Analyse(req, [a, b]) == Err(TooComplex)
    ensures Analyse(req, [CONTRACT_FIELD, a, b]) == Ok(2 + 2 * n + 2 * price)
  {
    hide SCHEMA, Price, Priced, Sum, Fields, Analyse;
    TwoPrices(req, ca, cb, price);
    assert [CONTRACT_FIELD] + [a, b] == [CONTRACT_FIELD, a, b];
    NegativeLimitBuysRoom(req, n, [a, b], [ca, cb]);
  }

  lemma ListingsPriced(selections: seq<Selection>)
    ensures var a, b, req := AliasedContracts("a"), AliasedContracts("b"), RequestFor(selections, -22, 60);
            Analyse(req, [a, b]) == Err(TooComplex) && Analyse(req, [CONTRACT_FIELD, a, b]) == Ok(60)
  {
    hide SCHEMA, Price, Fields, Analyse, AsksFor, RequestFor;
    var req := RequestFor(selections, -22, 60);
    RequestAsks(selections, -22, 60);
    ListingsJoin(req);
    AliasedContractsPrice(req, "a");
    AliasedContractsPrice(req, "b");
    assert |"contracts"| != |"__typename"| && |"contract"| != |"a"| && |"contract"| != |"b"|;
    RoomForTwo(req, -22, AliasedContracts("a"), AliasedContracts("b"), Listed("a"), Listed("b"), 51);
  }

  /** Two listings of contracts, 102 together, pass a ceiling of 60 behind a limit of -22. */
  lemma CeilingBypassed()
    ensures var two: seq<Selection> := [AliasedContracts("a"), AliasedContracts("b")];
            var three := [CONTRACT_FIELD] + two;
            && Analyse(RequestFor(two, -22, 60), two) == Err(TooComplex)
            && Analyse(RequestFor(three, -22, 60), three) == Ok(60)
  {
    var two: seq<Selection> := [AliasedContracts("a"), AliasedContracts("b")];
    var three := [CONTRACT_FIELD] + two;
    assert three == [CONTRACT_FIELD, AliasedContracts("a"), AliasedContracts("b")];
    hide Analyse, RequestFor, AliasedContracts;
    ListingsPriced(two);
    ListingsPriced(three);
  }
}
