/**
 Execution of a query operation over arbitrary resolvers, with null propagation.

 The fields of an object, and the items of a list, run concurrently under `Promise.all`. When
 several fail, which failure is seen first, and which errors of the others have been recorded
 by the time the response is built, depends on timing; a `Schedule` makes both choices, and
 everything proved holds for every schedule.
 */
module GraphqlExecute {
  import opened Results
  import opened GraphqlSyntax
  import opened GraphqlCollect
  import opened GraphqlAnalyse

  datatype Step = Name(key: string) | Index(i: nat)
  type Path = seq<Step>

  /** What a resolver does: return a value, or throw (an `ApiError` or anything else). */
  datatype Resolution = Returned(value: Js) | Threw(api: bool)

  /** Value of a field, by path, type, field name, coerced arguments and source object. */
  type Resolver = (Path, string, string, Args, Js) -> Resolution

  datatype Raised =
    | Rejected(error: RequestError)
    | NullInNonNull(path: Path)
    | NotAList(path: Path)
    | ResolverThrew(api: bool)

  datatype ResponseError = ResponseError(path: Path, cause: Raised)

  datatype Schedule = Schedule(loser: Path -> nat, late: (Path, ResponseError) -> bool)

  datatype World = World(req: Request, resolve: Resolver, schedule: Schedule)

  datatype Data = NullData | Leaf(value: Js) | Items(items: seq<Data>) | Record(entries: seq<Entry>)
  datatype Entry = Entry(key: string, value: Data)

  /** How a promise settles, with the errors recorded on the way; `Exhausted` when fuel ran out. */
  datatype Outcome<+T> =
    | Completed(value: T, errors: seq<ResponseError>)
    | Failed(raised: Raised, errors: seq<ResponseError>)
    | Exhausted

  function ToResponseError(raised: Raised, path: Path): ResponseError {
    match raised
    case NullInNonNull(at) => ResponseError(at, raised)
    case NotAList(at) => ResponseError(at, raised)
    case _ => ResponseError(path, raised)
  }

  // ---------------------------------------------------------------- Promise.all

  function FirstFailed(outcomes: seq<Outcome<Data>>): (i: nat)
    ensures i <= |outcomes|
    ensures i < |outcomes| ==> outcomes[i].Failed?
    ensures i == |outcomes| ==> forall j | 0 <= j < |outcomes| :: !outcomes[j].Failed?
  {
    if outcomes == [] || outcomes[0].Failed? then 0 else 1 + FirstFailed(outcomes[1..])
  }

  function ErrorsOf(o: Outcome<Data>): seq<ResponseError> {
    if o.Exhausted? then [] else o.errors
  }

  function AllErrors(outcomes: seq<Outcome<Data>>): seq<ResponseError> {
    if outcomes == [] then [] else ErrorsOf(outcomes[0]) + AllErrors(outcomes[1..])
  }

  function Recorded(schedule: Schedule, path: Path, errors: seq<ResponseError>): (kept: seq<ResponseError>)
    ensures forall e | e in kept :: e in errors
  {
    if errors == [] then []
    else
      var rest := Recorded(schedule, path, errors[1..]);
      if schedule.late(path, errors[0]) then rest else [errors[0]] + rest
  }

  function Values(outcomes: seq<Outcome<Data>>): (values: seq<Data>)
    requires forall i | 0 <= i < |outcomes| :: outcomes[i].Completed?
    ensures |values| == |outcomes|
    ensures forall i | 0 <= i < |outcomes| :: values[i] == outcomes[i].value
  {
    seq(|outcomes|, i requires 0 <= i < |outcomes| => outcomes[i].value)
  }

  /** `Promise.all`: all values, or the failure the schedule lets through first. */
  function All(schedule: Schedule, path: Path, outcomes: seq<Outcome<Data>>): Outcome<seq<Data>> {
    var i := FirstFailed(outcomes);
    if exists j | 0 <= j < |outcomes| :: outcomes[j].Exhausted? then Exhausted
    else if i == |outcomes| then Completed(Values(outcomes), AllErrors(outcomes))
    else
      var chosen := schedule.loser(path);
      var loser := if chosen < |outcomes| && outcomes[chosen].Failed? then chosen else i;
      Failed(outcomes[loser].raised, Recorded(schedule, path, AllErrors(outcomes)))
  }

  // ---------------------------------------------------------------- execution

  /** Keys are assigned to a plain object, where `__proto__` sets the prototype instead. */
  function Entries(fields: Into, values: seq<Data>): seq<Entry>
    requires |fields| == |values|
  {
    if fields == [] then []
    else if fields[0].key == "__proto__" then Entries(fields[1..], values[1..])
    else [Entry(fields[0].key, values[0])] + Entries(fields[1..], values[1..])
  }

  /** `executeSelection`; `fuel` counts the nested selection sets still allowed. */
  function ExecuteSelection(w: World, typeName: string, selections: seq<Selection>, source: Js, path: Path,
                            fuel: nat): Outcome<Data>
    decreases fuel, 0
  {
    if fuel == 0 then Exhausted
    else match Fields(w.req, typeName, selections)
      case Err(e) => Failed(Rejected(e), [])
      case Ok(fields) =>
        AsRecord(fields, All(w.schedule, path, ExecuteFields(w, typeName, fields, source, path, fuel - 1)))
  }

  function AsRecord(fields: Into, settled: Outcome<seq<Data>>): Outcome<Data>
    requires settled.Completed? ==> |settled.value| == |fields|
  {
    match settled
    case Completed(values, errors) => Completed(Record(Entries(fields, values)), errors)
    case Failed(raised, errors) => Failed(raised, errors)
    case Exhausted => Exhausted
  }

  function AsItems(settled: Outcome<seq<Data>>): Outcome<Data> {
    match settled
    case Completed(values, errors) => Completed(Items(values), errors)
    case Failed(raised, errors) => Failed(raised, errors)
    case Exhausted => Exhausted
  }

  function ExecuteFields(w: World, typeName: string, fields: Into, source: Js, path: Path, fuel: nat)
    : seq<Outcome<Data>>
    decreases fuel, 5
  {
    seq(|fields|, i requires 0 <= i < |fields| => ExecuteField(w, typeName, fields[i], source, path, fuel))
  }

  /** One field: a failure of a nullable field is recorded and answered with null. */
  function ExecuteField(w: World, typeName: string, c: Collected, source: Js, path: Path, fuel: nat): Outcome<Data>
    decreases fuel, 4
  {
    var name, at := c.node.name, path + [Name(c.key)];
    if name == "__typename" then Completed(Leaf(JsStr(NameText(typeName))), [])
    else if typeName !in w.req.schema || name !in w.req.schema[typeName] then Failed(Rejected(TypeFailure), [])
    else
      var def := w.req.schema[typeName][name];
      Caught(def, at, match ResolveArgs(def, c.node.args, w.req.vars)
                      case Err(e) => Failed(Rejected(e), [])
                      case Ok(args) =>
                        match w.resolve(at, typeName, name, args, source)
                        case Threw(api) => Failed(ResolverThrew(api), [])
                        case Returned(raw) => Complete(w, def.typ, raw, c.selections, at, fuel))
  }

  function Caught(def: FieldDef, path: Path, o: Outcome<Data>): Outcome<Data> {
    if o.Failed? && !def.typ.nonNull then Completed(NullData, o.errors + [ToResponseError(o.raised, path)]) else o
  }

  /** `completeValue` for a field's own type. */
  function Complete(w: World, typ: TypeRef, value: Js, selections: seq<Selection>, path: Path, fuel: nat)
    : Outcome<Data>
    decreases fuel, 3
  {
    if !typ.list || Nullish(value) then CompleteOne(w, typ.name, typ.nonNull, value, selections, path, fuel)
    else if !value.JsArr? then Failed(NotAList(path), [])
    else AsItems(All(w.schedule, path, CompleteItems(w, typ, value.items, selections, path, fuel)))
  }

  function CompleteItems(w: World, typ: TypeRef, items: seq<Js>, selections: seq<Selection>, path: Path, fuel: nat)
    : seq<Outcome<Data>>
    decreases fuel, 2
  {
    seq(|items|, i requires 0 <= i < |items| =>
          CompleteOne(w, typ.name, typ.itemNonNull, items[i], selections, path + [Index(i)], fuel))
  }

  /** `completeValue` for a type that is not a list. */
  function CompleteOne(w: World, typeName: string, nonNull: bool, value: Js, selections: seq<Selection>, path: Path,
                       fuel: nat): Outcome<Data>
    decreases fuel, 1
  {
    if Nullish(value) then
      if nonNull then Failed(NullInNonNull(path), []) else Completed(NullData, [])
    else if typeName in SCALARS then Completed(Leaf(value), [])
    else ExecuteSelection(w, typeName, selections, value, path, fuel)
  }

  datatype Response = Response(data: Data, errors: seq<ResponseError>)

  /** The response to a query operation whose analysis passed, with fuel for `maxDepth` levels. */
  function Respond(w: World, selections: seq<Selection>): Option<Response> {
    match ExecuteSelection(w, "Query", selections, JsObj(map[]), [], Levels(w.req, 1))
    case Completed(data, errors) => Some(Response(data, errors))
    case Failed(raised, errors) => Some(Response(NullData, errors + [ToResponseError(raised, [])]))
    case Exhausted => None
  }
}
