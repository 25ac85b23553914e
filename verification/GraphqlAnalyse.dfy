/**
 The static analysis that every document passes before the store is touched: it types each
 selected field, limits the nesting and estimates the cost of the response.
 */
module GraphqlAnalyse {
  import opened Results
  import opened Settings
  import opened JavaScript
  import opened GraphqlSyntax
  import opened GraphqlCollect

  /** A document with its variable values, the schema and the limits it is checked against. */
  datatype Request =
    Request(schema: Schema, doc: Document, vars: Variables, maxDepth: int, maxComplexity: int)

  type Args = map<string, Js>

  function Fields(req: Request, typeName: string, selections: seq<Selection>): Result<Into, RequestError> {
    Collect(req.doc, typeName, selections, req.vars, [], {})
  }

  predicate StartsWith(s: string, prefix: string) {
    prefix <= s
  }

  predicate IsLeaf(def: FieldDef) {
    def.typ.name in SCALARS
  }

  /** The definition and coerced arguments of a selected field other than `__typename`. */
  function Check(req: Request, typeName: string, c: Collected): Result<(FieldDef, Args), RequestError>
    requires typeName in req.schema
  {
    var name := c.node.name;
    if StartsWith(name, "__") then Err(Introspection)
    else if name !in req.schema[typeName] then
      if name !in INHERITED then Err(UnknownField(typeName, name))
      else if !AllDeclared(c.node.args, []) then Err(UnknownArgument(name))
      else Err(TypeFailure)
    else
      var def := req.schema[typeName][name];
      var args :- ResolveArgs(def, c.node.args, req.vars);
      if IsLeaf(def) && c.selections != [] then Err(LeafWithSelection(name))
      else if !IsLeaf(def) && c.selections == [] then Err(ObjectWithoutSelection(name))
      else Ok((def, args))
  }

  function OwnLimit(args: Args): int {
    if "limit" in args && args["limit"].JsNum? then
      if args["limit"].r.Floor < MAX_QUERY_LIMIT then args["limit"].r.Floor else MAX_QUERY_LIMIT
    else DEFAULT_QUERY_LIMIT
  }

  /** How many items the analysis assumes one occurrence of the field holds. */
  function Multiplier(def: FieldDef, args: Args, pageSize: int): int {
    if !def.typ.list then 1
    else match def.size
      case LimitArgument => OwnLimit(args)
      case ParentPage => pageSize
      case Fixed(items) => items
      case Unsized => DEFAULT_QUERY_LIMIT
  }

  function ChildPageSize(def: FieldDef, args: Args, pageSize: int): int {
    if def.paged then OwnLimit(args) else pageSize
  }

  function Levels(req: Request, depth: int): nat {
    if depth > req.maxDepth then 0 else req.maxDepth - depth + 1
  }

  /** The cost of selecting `selections` on an object of type `typeName`. */
  function CostOf(req: Request, typeName: string, selections: seq<Selection>, depth: int, pageSize: int)
    : Result<int, RequestError>
    decreases Levels(req, depth), 3
  {
    if depth > req.maxDepth then Err(TooDeep)
    else if typeName !in req.schema then Err(UnknownType(typeName))
    else
      var fields :- Fields(req, typeName, selections);
      CostOfFields(req, typeName, fields, depth, pageSize, 0)
  }

  /** The running total after `fields`, checked against the ceiling after each typed field. */
  function CostOfFields(req: Request, typeName: string, fields: Into, depth: int, pageSize: int, total: int)
    : Result<int, RequestError>
    requires depth <= req.maxDepth && typeName in req.schema
    decreases Levels(req, depth), 2, |fields|
  {
    if fields == [] then Ok(total)
    else if fields[0].node.name == "__typename" then
      CostOfFields(req, typeName, fields[1..], depth, pageSize, total + 1)
    else
      var cost :- CostOfField(req, typeName, fields[0], depth, pageSize);
      if total + cost > req.maxComplexity then Err(TooComplex)
      else CostOfFields(req, typeName, fields[1..], depth, pageSize, total + cost)
  }

  /** One for the field itself, plus its children for every item it is assumed to hold. */
  function CostOfField(req: Request, typeName: string, c: Collected, depth: int, pageSize: int)
    : Result<int, RequestError>
    requires depth <= req.maxDepth && typeName in req.schema
    decreases Levels(req, depth), 1
  {
    var (def, args) :- Check(req, typeName, c);
    var children :- CostOfChildren(req, def, args, c.selections, depth, pageSize);
    Ok(1 + Multiplier(def, args, pageSize) * children)
  }

  function CostOfChildren(req: Request, def: FieldDef, args: Args, selections: seq<Selection>, depth: int,
                          pageSize: int): Result<int, RequestError>
    requires depth <= req.maxDepth
    decreases Levels(req, depth), 0
  {
    if IsLeaf(def) then Ok(0)
    else CostOf(req, def.typ.name, selections, depth + 1, ChildPageSize(def, args, pageSize))
  }

  /** `analyse` on the selections of a query operation. */
  function Analyse(req: Request, selections: seq<Selection>): Result<int, RequestError> {
    CostOf(req, "Query", selections, 1, DEFAULT_QUERY_LIMIT)
  }

  lemma CostStep(req: Request, typeName: string, fields: Into, i: nat, depth: int, pageSize: int, total: int)
    requires depth <= req.maxDepth && typeName in req.schema && i < |fields|
    ensures CostOfFields(req, typeName, fields[i..], depth, pageSize, total) ==
            if fields[i].node.name == "__typename" then
              CostOfFields(req, typeName, fields[i + 1..], depth, pageSize, total + 1)
            else match CostOfField(req, typeName, fields[i], depth, pageSize)
              case Err(e) => Err(e)
              case Ok(cost) =>
                if total + cost > req.maxComplexity then Err(TooComplex)
                else CostOfFields(req, typeName, fields[i + 1..], depth, pageSize, total + cost)
  {
    assert fields[i..][1..] == fields[i + 1..];
  }

  method CollectAll(req: Request, typeName: string, selections: seq<Selection>)
    returns (fields: Result<Into, RequestError>)
    ensures fields == Fields(req, typeName, selections)
  {
    var collector := new FieldCollector(req.doc, typeName, req.vars);
    var failure := collector.CollectFields(selections);
    fields := if failure.Some? then Err(failure.value) else Ok(collector.into);
  }

  /** The walk of `analyse` as the server runs it: a running total over the collected fields. */
  method Walk(req: Request, typeName: string, selections: seq<Selection>, depth: int, pageSize: int)
    returns (cost: Result<int, RequestError>)
    ensures cost == CostOf(req, typeName, selections, depth, pageSize)
    decreases Levels(req, depth), 1
  {
    if depth > req.maxDepth { return Err(TooDeep); }
    if typeName !in req.schema { return Err(UnknownType(typeName)); }
    var collected := CollectAll(req, typeName, selections);
    if collected.Err? { return Err(collected.error); }
    var fields := collected.value;
    var total, i := 0, 0;
    while i < |fields|
      invariant i <= |fields|
      invariant CostOfFields(req, typeName, fields[i..], depth, pageSize, total) ==
                CostOf(req, typeName, selections, depth, pageSize)
    {
      CostStep(req, typeName, fields, i, depth, pageSize, total);
      if fields[i].node.name == "__typename" {
        total := total + 1;
      } else {
        var one := WalkField(req, typeName, fields[i], depth, pageSize);
        if one.Err? { return one; }
        total := total + one.value;
        if total > req.maxComplexity { return Err(TooComplex); }
      }
      i := i + 1;
    }
    cost := Ok(total);
  }

  method WalkField(req: Request, typeName: string, c: Collected, depth: int, pageSize: int)
    returns (cost: Result<int, RequestError>)
    requires depth <= req.maxDepth && typeName in req.schema
    ensures cost == CostOfField(req, typeName, c, depth, pageSize)
    decreases Levels(req, depth), 0
  {
    var checked := Check(req, typeName, c);
    if checked.Err? { return Err(checked.error); }
    var (def, args) := checked.value;
    var children := Ok(0);
    if !IsLeaf(def) {
      children := Walk(req, def.typ.name, c.selections, depth + 1, ChildPageSize(def, args, pageSize));
      if children.Err? { return children; }
    }
    cost := Ok(1 + Multiplier(def, args, pageSize) * children.value);
  }
}
