/**
 What the analysis accepts cannot go wrong: execution needs no more levels than `maxDepth`,
 and never meets an unknown type, field or fragment, a bad directive or a bad argument.
 */
module GraphqlSoundness {
  import opened Results
  import opened Settings
  import opened GraphqlSyntax
  import opened GraphqlCollect
  import opened GraphqlAnalyse
  import opened GraphqlExecute

  /** None of the errors comes from the document itself. */
  ghost predicate CleanErrors(errors: seq<ResponseError>) {
    forall e | e in errors :: !e.cause.Rejected?
  }

  ghost predicate Clean<T>(o: Outcome<T>) {
    && !o.Exhausted?
    && CleanErrors(o.errors)
    && (o.Failed? ==> !o.raised.Rejected?)
  }

  lemma {:induction false} CleanAllErrors(outcomes: seq<Outcome<Data>>)
    requires forall i | 0 <= i < |outcomes| :: Clean(outcomes[i])
    ensures CleanErrors(AllErrors(outcomes))
  {
    if outcomes != [] {
      assert Clean(outcomes[0]);
      CleanAllErrors(outcomes[1..]);
    }
  }

  lemma CleanAll(schedule: Schedule, path: Path, outcomes: seq<Outcome<Data>>)
    requires forall i | 0 <= i < |outcomes| :: Clean(outcomes[i])
    ensures Clean(All(schedule, path, outcomes))
  {
    CleanAllErrors(outcomes);
  }

  lemma {:induction false} SelectionSound(w: World, typeName: string, selections: seq<Selection>, depth: int,
                                          pageSize: int, source: Js, path: Path, fuel: nat)
    requires CostOf(w.req, typeName, selections, depth, pageSize).Ok?
    requires fuel >= Levels(w.req, depth)
    ensures Clean(ExecuteSelection(w, typeName, selections, source, path, fuel))
    decreases fuel, 0
  {
    var fields := Fields(w.req, typeName, selections).value;
    var outcomes := ExecuteFields(w, typeName, fields, source, path, fuel - 1);
    FieldsSound(w, typeName, fields, depth, pageSize, 0, source, path, fuel - 1);
    CleanAll(w.schedule, path, outcomes);
  }

  lemma {:induction false} FieldsSound(w: World, typeName: string, fields: Into, depth: int, pageSize: int,
                                       total: int, source: Js, path: Path, fuel: nat)
    requires depth <= w.req.maxDepth && typeName in w.req.schema
    requires CostOfFields(w.req, typeName, fields, depth, pageSize, total).Ok?
    requires fuel >= Levels(w.req, depth + 1)
    ensures forall i | 0 <= i < |fields| :: Clean(ExecuteField(w, typeName, fields[i], source, path, fuel))
    decreases fuel, 4, |fields|
  {
    if fields != [] {
      var c := fields[0];
      var cost := 1;
      if c.node.name != "__typename" {
        FieldSound(w, typeName, c, depth, pageSize, source, path, fuel);
        cost := CostOfField(w.req, typeName, c, depth, pageSize).value;
      }
      FieldsSound(w, typeName, fields[1..], depth, pageSize, total + cost, source, path, fuel);
      forall i | 0 <= i < |fields| ensures Clean(ExecuteField(w, typeName, fields[i], source, path, fuel)) {
        if i > 0 { assert fields[i] == fields[1..][i - 1]; }
      }
    }
  }

  lemma {:induction false} FieldSound(w: World, typeName: string, c: Collected, depth: int, pageSize: int,
                                      source: Js, path: Path, fuel: nat)
    requires depth <= w.req.maxDepth && typeName in w.req.schema
    requires c.node.name != "__typename"
    requires CostOfField(w.req, typeName, c, depth, pageSize).Ok?
    requires fuel >= Levels(w.req, depth + 1)
    ensures Clean(ExecuteField(w, typeName, c, source, path, fuel))
    decreases fuel, 3
  {
    var (def, args) := Check(w.req, typeName, c).value;
    var at := path + [Name(c.key)];
    var resolution := w.resolve(at, typeName, c.node.name, args, source);
    if resolution.Returned? {
      CompleteSound(w, def, args, resolution.value, c.selections, depth, pageSize, at, fuel);
    }
  }

  lemma {:induction false} CompleteSound(w: World, def: FieldDef, args: Args, value: Js, selections: seq<Selection>,
                                         depth: int, pageSize: int, path: Path, fuel: nat)
    requires depth <= w.req.maxDepth
    requires CostOfChildren(w.req, def, args, selections, depth, pageSize).Ok?
    requires fuel >= Levels(w.req, depth + 1)
    ensures Clean(Complete(w, def.typ, value, selections, path, fuel))
    decreases fuel, 2
  {
    if def.typ.list && value.JsArr? {
      var outcomes := CompleteItems(w, def.typ, value.items, selections, path, fuel);
      forall i | 0 <= i < |outcomes| ensures Clean(outcomes[i]) {
        OneSound(w, def, args, def.typ.itemNonNull, value.items[i], selections, depth, pageSize, path + [Index(i)], fuel);
      }
      CleanAll(w.schedule, path, outcomes);
    } else {
      OneSound(w, def, args, def.typ.nonNull, value, selections, depth, pageSize, path, fuel);
    }
  }

  lemma {:induction false} OneSound(w: World, def: FieldDef, args: Args, nonNull: bool, value: Js,
                                    selections: seq<Selection>, depth: int, pageSize: int, path: Path, fuel: nat)
    requires depth <= w.req.maxDepth
    requires CostOfChildren(w.req, def, args, selections, depth, pageSize).Ok?
    requires fuel >= Levels(w.req, depth + 1)
    ensures Clean(CompleteOne(w, def.typ.name, nonNull, value, selections, path, fuel))
    decreases fuel, 1
  {
    if !Nullish(value) && !IsLeaf(def) {
      SelectionSound(w, def.typ.name, selections, depth + 1, ChildPageSize(def, args, pageSize), value, path, fuel);
    }
  }

  // ---------------------------------------------------------------- fuel does not matter

  lemma {:induction false} MoreFuelSelection(w: World, typeName: string, selections: seq<Selection>, source: Js,
                                             path: Path, fuel: nat, more: nat)
    requires fuel <= more
    requires !ExecuteSelection(w, typeName, selections, source, path, fuel).Exhausted?
    ensures ExecuteSelection(w, typeName, selections, source, path, more) ==
            ExecuteSelection(w, typeName, selections, source, path, fuel)
    decreases fuel, 0
  {
    hide Collect, CollectOne, ExecuteFields;
    var fields := Fields(w.req, typeName, selections);
    if fields.Ok? {
      MoreFuelFields(w, typeName, fields.value, source, path, fuel - 1, more - 1);
    }
  }

  lemma {:induction false} MoreFuelFields(w: World, typeName: string, fields: Into, source: Js, path: Path,
                                          fuel: nat, more: nat)
    requires fuel <= more
    requires !All(w.schedule, path, ExecuteFields(w, typeName, fields, source, path, fuel)).Exhausted?
    ensures ExecuteFields(w, typeName, fields, source, path, more) ==
            ExecuteFields(w, typeName, fields, source, path, fuel)
    decreases fuel, 4
  {
    var a := ExecuteFields(w, typeName, fields, source, path, fuel);
    forall i | 0 <= i < |a| ensures ExecuteFields(w, typeName, fields, source, path, more)[i] == a[i] {
      assert !a[i].Exhausted?;
      MoreFuelField(w, typeName, fields[i], source, path, fuel, more);
    }
  }

  lemma {:induction false} MoreFuelField(w: World, typeName: string, c: Collected, source: Js, path: Path,
                                         fuel: nat, more: nat)
    requires fuel <= more
    requires !ExecuteField(w, typeName, c, source, path, fuel).Exhausted?
    ensures ExecuteField(w, typeName, c, source, path, more) == ExecuteField(w, typeName, c, source, path, fuel)
    decreases fuel, 3
  {
    var name, at := c.node.name, path + [Name(c.key)];
    if name != "__typename" && typeName in w.req.schema && name in w.req.schema[typeName] {
      var def := w.req.schema[typeName][name];
      var args := ResolveArgs(def, c.node.args, w.req.vars);
      if args.Ok? {
        var resolution := w.resolve(at, typeName, name, args.value, source);
        if resolution.Returned? {
          MoreFuelComplete(w, def.typ, resolution.value, c.selections, at, fuel, more);
        }
      }
    }
  }

  lemma {:induction false} MoreFuelComplete(w: World, typ: TypeRef, value: Js, selections: seq<Selection>,
                                            path: Path, fuel: nat, more: nat)
    requires fuel <= more
    requires !Complete(w, typ, value, selections, path, fuel).Exhausted?
    ensures Complete(w, typ, value, selections, path, more) == Complete(w, typ, value, selections, path, fuel)
    decreases fuel, 2
  {
    if !typ.list || Nullish(value) {
      MoreFuelOne(w, typ.name, typ.nonNull, value, selections, path, fuel, more);
    } else if value.JsArr? {
      var a := CompleteItems(w, typ, value.items, selections, path, fuel);
      var b := CompleteItems(w, typ, value.items, selections, path, more);
      forall i | 0 <= i < |a| ensures a[i] == b[i] {
        assert !a[i].Exhausted?;
        MoreFuelOne(w, typ.name, typ.itemNonNull, value.items[i], selections, path + [Index(i)], fuel, more);
      }
      assert a == b;
    }
  }

  lemma {:induction false} MoreFuelOne(w: World, typeName: string, nonNull: bool, value: Js,
                                       selections: seq<Selection>, path: Path, fuel: nat, more: nat)
    requires fuel <= more
    requires !CompleteOne(w, typeName, nonNull, value, selections, path, fuel).Exhausted?
    ensures CompleteOne(w, typeName, nonNull, value, selections, path, more) ==
            CompleteOne(w, typeName, nonNull, value, selections, path, fuel)
    decreases fuel, 1
  {
    if !Nullish(value) && typeName !in SCALARS {
      MoreFuelSelection(w, typeName, selections, value, path, fuel, more);
    }
  }

  // ---------------------------------------------------------------- the theorem

  /**
   For every document, operation, variables, resolvers and schedule: when the analysis passes,
   `maxDepth` levels are enough for the execution, more would not change its outcome, and
   every error in the response was raised by a resolver or by what a resolver returned.
   */
  lemma AcceptedRunsClean(w: World, selections: seq<Selection>)
    requires Analyse(w.req, selections).Ok?
    ensures Respond(w, selections).Some?
    ensures CleanErrors(Respond(w, selections).value.errors)
    ensures Levels(w.req, 1) == w.req.maxDepth
    ensures forall fuel: nat | fuel >= w.req.maxDepth ::
              ExecuteSelection(w, "Query", selections, JsObj(map[]), [], fuel) ==
              ExecuteSelection(w, "Query", selections, JsObj(map[]), [], w.req.maxDepth)
  {
    var source := JsObj(map[]);
    SelectionSound(w, "Query", selections, 1, DEFAULT_QUERY_LIMIT, source, [], Levels(w.req, 1));
    forall fuel: nat | fuel >= w.req.maxDepth
      ensures ExecuteSelection(w, "Query", selections, source, [], fuel) ==
              ExecuteSelection(w, "Query", selections, source, [], w.req.maxDepth)
    {
      MoreFuelSelection(w, "Query", selections, source, [], w.req.maxDepth, fuel);
    }
  }
}
