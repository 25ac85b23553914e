/**
 Null propagation. Whatever data the executor returns has the shape its selection asks for:
 one entry per collected response key, no null where the schema forbids one, and every other
 null accounted for by a resolver or by an entry in `errors`.
 */
module GraphqlConformance {
  import opened Results
  import opened GraphqlSyntax
  import opened GraphqlCollect
  import opened GraphqlAnalyse
  import opened GraphqlExecute

  /** Some recorded error lies at `path` or below it. */
  ghost predicate Explained(path: Path, errors: seq<ResponseError>) {
    exists e | e in errors :: path <= e.path
  }

  /** `data` is what an object of type `typeName` answers for `selections`. */
  ghost predicate Conforms(w: World, typeName: string, selections: seq<Selection>, source: Js, path: Path,
                           data: Data, errors: seq<ResponseError>)
    decreases data, 3, 0
  {
    && data.Record?
    && Fields(w.req, typeName, selections).Ok?
    && EntriesConform(w, typeName, Fields(w.req, typeName, selections).value, source, path, data.entries, errors)
  }

  /** One entry per collected field, in order; a field answered under `__proto__` has none. */
  ghost predicate EntriesConform(w: World, typeName: string, fields: Into, source: Js, path: Path,
                                 entries: seq<Entry>, errors: seq<ResponseError>)
    decreases entries, 2, |fields|
  {
    if fields == [] then entries == []
    else if fields[0].key == "__proto__" then
      EntriesConform(w, typeName, fields[1..], source, path, entries, errors)
    else
      && entries != []
      && entries[0].key == fields[0].key
      && FieldConforms(w, typeName, fields[0], source, path, entries[0].value, errors)
      && EntriesConform(w, typeName, fields[1..], source, path, entries[1..], errors)
  }

  ghost predicate FieldConforms(w: World, typeName: string, c: Collected, source: Js, path: Path, data: Data,
                                errors: seq<ResponseError>)
    decreases data, 5
  {
    var name, at := c.node.name, path + [Name(c.key)];
    if name == "__typename" then data == Leaf(JsStr(NameText(typeName)))
    else
      && typeName in w.req.schema && name in w.req.schema[typeName]
      && var def := w.req.schema[typeName][name];
         var args := ResolveArgs(def, c.node.args, w.req.vars);
         var resolution := if args.Ok? then w.resolve(at, typeName, name, args.value, source) else Threw(false);
         if data.NullData? then
           !def.typ.nonNull && (Explained(at, errors) || (resolution.Returned? && Nullish(resolution.value)))
         else
           resolution.Returned? && ValueConforms(w, def.typ, resolution.value, c.selections, at, data, errors)
  }

  ghost predicate ValueConforms(w: World, typ: TypeRef, value: Js, selections: seq<Selection>, path: Path,
                                data: Data, errors: seq<ResponseError>)
    decreases data, 4
  {
    if !typ.list then OneConforms(w, typ.name, typ.nonNull, value, selections, path, data, errors)
    else
      && data.Items? && value.JsArr? && |data.items| == |value.items|
      && forall i | 0 <= i < |data.items| ::
           OneConforms(w, typ.name, typ.itemNonNull, value.items[i], selections, path + [Index(i)], data.items[i], errors)
  }

  ghost predicate OneConforms(w: World, typeName: string, nonNull: bool, value: Js, selections: seq<Selection>,
                              path: Path, data: Data, errors: seq<ResponseError>)
    decreases data, 3, 1
  {
    if data.NullData? then !nonNull && Nullish(value)
    else
      && !Nullish(value)
      && if typeName in SCALARS then data == Leaf(value)
         else Conforms(w, typeName, selections, value, path, data, errors)
  }

  // ---------------------------------------------------------------- more errors never hurt

  ghost predicate Within(some: seq<ResponseError>, all: seq<ResponseError>) {
    forall e | e in some :: e in all
  }

  lemma {:induction false} EntriesConformMore(w: World, typeName: string, fields: Into, source: Js, path: Path,
                                              entries: seq<Entry>, some: seq<ResponseError>, all: seq<ResponseError>)
    requires Within(some, all)
    requires EntriesConform(w, typeName, fields, source, path, entries, some)
    ensures EntriesConform(w, typeName, fields, source, path, entries, all)
    decreases entries, 2, |fields|
  {
    if fields != [] {
      if fields[0].key == "__proto__" {
        EntriesConformMore(w, typeName, fields[1..], source, path, entries, some, all);
      } else {
        FieldConformsMore(w, typeName, fields[0], source, path, entries[0].value, some, all);
        EntriesConformMore(w, typeName, fields[1..], source, path, entries[1..], some, all);
      }
    }
  }

  lemma {:induction false} FieldConformsMore(w: World, typeName: string, c: Collected, source: Js, path: Path,
                                             data: Data, some: seq<ResponseError>, all: seq<ResponseError>)
    requires Within(some, all)
    requires FieldConforms(w, typeName, c, source, path, data, some)
    ensures FieldConforms(w, typeName, c, source, path, data, all)
    decreases data, 5
  {
    var name, at := c.node.name, path + [Name(c.key)];
    if name != "__typename" && !data.NullData? {
      var def := w.req.schema[typeName][name];
      var args := ResolveArgs(def, c.node.args, w.req.vars);
      var value := w.resolve(at, typeName, name, args.value, source).value;
      if def.typ.list {
        forall i | 0 <= i < |data.items|
          ensures OneConforms(w, def.typ.name, def.typ.itemNonNull, value.items[i], c.selections, at + [Index(i)], data.items[i], all)
        {
          OneConformsMore(w, def.typ.name, def.typ.itemNonNull, value.items[i], c.selections, at + [Index(i)], data.items[i], some, all);
        }
      } else {
        OneConformsMore(w, def.typ.name, def.typ.nonNull, value, c.selections, at, data, some, all);
      }
    }
  }

  lemma {:induction false} OneConformsMore(w: World, typeName: string, nonNull: bool, value: Js,
                                           selections: seq<Selection>, path: Path, data: Data,
                                           some: seq<ResponseError>, all: seq<ResponseError>)
    requires Within(some, all)
    requires OneConforms(w, typeName, nonNull, value, selections, path, data, some)
    ensures OneConforms(w, typeName, nonNull, value, selections, path, data, all)
    decreases data, 3, 1
  {
    if !data.NullData? && typeName !in SCALARS {
      EntriesConformMore(w, typeName, Fields(w.req, typeName, selections).value, value, path, data.entries, some, all);
    }
  }

  // ---------------------------------------------------------------- what execution returns

  lemma {:induction false} AllErrorsIncludes(outcomes: seq<Outcome<Data>>, i: nat)
    requires i < |outcomes|
    ensures Within(ErrorsOf(outcomes[i]), AllErrors(outcomes))
  {
    if i > 0 {
      assert outcomes[1..][i - 1] == outcomes[i];
      AllErrorsIncludes(outcomes[1..], i - 1);
    }
  }

  lemma {:induction false} SelectionConforms(w: World, typeName: string, selections: seq<Selection>, source: Js,
                                             path: Path, fuel: nat)
    ensures var o := ExecuteSelection(w, typeName, selections, source, path, fuel);
            && (o.Completed? ==> Conforms(w, typeName, selections, source, path, o.value, o.errors))
            && (o.Failed? ==> path <= ToResponseError(o.raised, path).path)
    decreases fuel, 0
  {
    hide Fields, EntriesConform;
    if fuel > 0 {
      match Fields(w.req, typeName, selections) {
        case Err(_) =>
        case Ok(fields) =>
          FieldsResultConform(w, typeName, fields, source, path, fuel - 1);
          RecordConforms(w, typeName, selections, fields, source, path,
                         All(w.schedule, path, ExecuteFields(w, typeName, fields, source, path, fuel - 1)));
      }
    }
  }

  lemma RecordConforms(w: World, typeName: string, selections: seq<Selection>, fields: Into, source: Js, path: Path,
                       settled: Outcome<seq<Data>>)
    requires Fields(w.req, typeName, selections) == Ok(fields)
    requires settled.Completed? ==> |settled.value| == |fields|
    requires settled.Completed? ==>
               EntriesConform(w, typeName, fields, source, path, Entries(fields, settled.value), settled.errors)
    ensures var o := AsRecord(fields, settled);
            o.Completed? ==> Conforms(w, typeName, selections, source, path, o.value, o.errors)
  {
  }

  lemma {:induction false} FieldsResultConform(w: World, typeName: string, fields: Into, source: Js, path: Path, fuel: nat)
    ensures var o := All(w.schedule, path, ExecuteFields(w, typeName, fields, source, path, fuel));
            && (o.Completed? ==>
                  EntriesConform(w, typeName, fields, source, path, Entries(fields, o.value), o.errors))
            && (o.Failed? ==> path <= ToResponseError(o.raised, path).path)
    decreases fuel, 4
  {
    var outcomes := ExecuteFields(w, typeName, fields, source, path, fuel);
    var o := All(w.schedule, path, outcomes);
    forall i | 0 <= i < |fields|
      ensures o.Completed? ==> FieldConforms(w, typeName, fields[i], source, path, o.value[i], o.errors)
      ensures outcomes[i].Failed? ==> path <= ToResponseError(outcomes[i].raised, path).path
    {
      FieldResultConforms(w, typeName, fields[i], source, path, fuel);
      if o.Completed? {
        AllErrorsIncludes(outcomes, i);
        FieldConformsMore(w, typeName, fields[i], source, path, o.value[i], outcomes[i].errors, o.errors);
      }
    }
    if o.Completed? {
      EntriesOfConform(w, typeName, fields, source, path, o.value, o.errors);
    }
  }

  lemma {:induction false} EntriesOfConform(w: World, typeName: string, fields: Into, source: Js, path: Path,
                                            values: seq<Data>, errors: seq<ResponseError>)
    requires |values| == |fields|
    requires forall i | 0 <= i < |fields| :: FieldConforms(w, typeName, fields[i], source, path, values[i], errors)
    ensures EntriesConform(w, typeName, fields, source, path, Entries(fields, values), errors)
  {
    if fields != [] {
      assert FieldConforms(w, typeName, fields[0], source, path, values[0], errors);
      EntriesOfConform(w, typeName, fields[1..], source, path, values[1..], errors);
    }
  }

  lemma {:induction false} FieldResultConforms(w: World, typeName: string, c: Collected, source: Js, path: Path, fuel: nat)
    ensures var o := ExecuteField(w, typeName, c, source, path, fuel);
            && (o.Completed? ==> FieldConforms(w, typeName, c, source, path, o.value, o.errors))
            && (o.Failed? ==> path <= ToResponseError(o.raised, path).path)
    decreases fuel, 3
  {
    var name, at := c.node.name, path + [Name(c.key)];
    var o := ExecuteField(w, typeName, c, source, path, fuel);
    if name != "__typename" && typeName in w.req.schema && name in w.req.schema[typeName] {
      var def := w.req.schema[typeName][name];
      var args := ResolveArgs(def, c.node.args, w.req.vars);
      if args.Err? {
        assert o.Completed? ==> o.errors[0] in o.errors;
      } else {
        var resolution := w.resolve(at, typeName, name, args.value, source);
        if resolution.Threw? {
          assert o.Completed? ==> o.errors[0] in o.errors;
        } else {
          ValueResultConforms(w, def.typ, resolution.value, c.selections, at, fuel);
          var inner := Complete(w, def.typ, resolution.value, c.selections, at, fuel);
          if inner.Failed? && o.Completed? {
            assert o.errors[|o.errors| - 1] in o.errors;
          }
        }
      }
    }
  }

  /** A null or failed value knows why: the failure's own path never leaves the field. */
  lemma {:induction false} ValueResultConforms(w: World, typ: TypeRef, value: Js, selections: seq<Selection>,
                                               path: Path, fuel: nat)
    ensures var o := Complete(w, typ, value, selections, path, fuel);
            && (o.Completed? && !o.value.NullData? ==> ValueConforms(w, typ, value, selections, path, o.value, o.errors))
            && (o.Completed? && o.value.NullData? ==> !typ.nonNull && Nullish(value))
            && (o.Failed? ==> path <= ToResponseError(o.raised, path).path)
    decreases fuel, 2
  {
    if !typ.list || Nullish(value) {
      OneResultConforms(w, typ.name, typ.nonNull, value, selections, path, fuel);
    } else if value.JsArr? {
      ItemsResultConform(w, typ, value.items, selections, path, fuel);
    }
  }

  lemma {:induction false} ItemsResultConform(w: World, typ: TypeRef, items: seq<Js>, selections: seq<Selection>,
                                              path: Path, fuel: nat)
    ensures var outcomes := CompleteItems(w, typ, items, selections, path, fuel);
            var o := All(w.schedule, path, outcomes);
            && (o.Completed? ==> forall i | 0 <= i < |items| ::
                  OneConforms(w, typ.name, typ.itemNonNull, items[i], selections, path + [Index(i)], o.value[i], o.errors))
            && (o.Failed? ==> path <= ToResponseError(o.raised, path).path)
    decreases fuel, 1, 1
  {
    var outcomes := CompleteItems(w, typ, items, selections, path, fuel);
    var o := All(w.schedule, path, outcomes);
    forall i | 0 <= i < |items|
      ensures o.Completed? ==>
                OneConforms(w, typ.name, typ.itemNonNull, items[i], selections, path + [Index(i)], o.value[i], o.errors)
      ensures outcomes[i].Failed? ==> path <= ToResponseError(outcomes[i].raised, path).path
    {
      var at := path + [Index(i)];
      OneResultConforms(w, typ.name, typ.itemNonNull, items[i], selections, at, fuel);
      if o.Completed? {
        AllErrorsIncludes(outcomes, i);
        OneConformsMore(w, typ.name, typ.itemNonNull, items[i], selections, at, o.value[i], outcomes[i].errors, o.errors);
      }
    }
  }

  lemma {:induction false} OneResultConforms(w: World, typeName: string, nonNull: bool, value: Js,
                                             selections: seq<Selection>, path: Path, fuel: nat)
    ensures var o := CompleteOne(w, typeName, nonNull, value, selections, path, fuel);
            && (o.Completed? ==> OneConforms(w, typeName, nonNull, value, selections, path, o.value, o.errors))
            && (o.Failed? ==> path <= ToResponseError(o.raised, path).path)
    decreases fuel, 1, 0
  {
    if !Nullish(value) && typeName !in SCALARS {
      SelectionConforms(w, typeName, selections, value, path, fuel);
    }
  }

  // ---------------------------------------------------------------- the theorems

  /** Null propagation: any data that is not null conforms; a null answer comes with an error. */
  lemma ResponseConforms(w: World, selections: seq<Selection>)
    ensures match Respond(w, selections)
            case Some(Response(data, errors)) =>
              if data.NullData? then errors != []
              else Conforms(w, "Query", selections, JsObj(map[]), [], data, errors)
            case None => true
  {
    SelectionConforms(w, "Query", selections, JsObj(map[]), [], Levels(w.req, 1));
  }

  function EntryKeys(entries: seq<Entry>): seq<string> {
    seq(|entries|, i requires 0 <= i < |entries| => entries[i].key)
  }

  function CollectedKeys(fields: Into): seq<string> {
    seq(|fields|, i requires 0 <= i < |fields| => fields[i].key)
  }

  lemma {:induction false} EntriesNeverLonger(w: World, typeName: string, fields: Into, source: Js, path: Path,
                                              entries: seq<Entry>, errors: seq<ResponseError>)
    requires EntriesConform(w, typeName, fields, source, path, entries, errors)
    ensures |entries| <= |fields|
    ensures |entries| == |fields| ==> forall i | 0 <= i < |fields| :: fields[i].key != "__proto__"
    decreases |fields|
  {
    if fields != [] {
      if fields[0].key == "__proto__" {
        EntriesNeverLonger(w, typeName, fields[1..], source, path, entries, errors);
      } else {
        EntriesNeverLonger(w, typeName, fields[1..], source, path, entries[1..], errors);
      }
    }
  }

  lemma {:induction false} EntriesInOrder(w: World, typeName: string, fields: Into, source: Js, path: Path,
                                          entries: seq<Entry>, errors: seq<ResponseError>)
    requires EntriesConform(w, typeName, fields, source, path, entries, errors)
    requires forall i | 0 <= i < |fields| :: fields[i].key != "__proto__"
    ensures EntryKeys(entries) == CollectedKeys(fields)
    decreases |fields|
  {
    if fields != [] {
      EntriesInOrder(w, typeName, fields[1..], source, path, entries[1..], errors);
      assert EntryKeys(entries) == [entries[0].key] + EntryKeys(entries[1..]);
      assert CollectedKeys(fields) == [fields[0].key] + CollectedKeys(fields[1..]);
    }
  }

  /** An object has exactly the collected response keys, unless one of them is `__proto__`. */
  lemma KeysExactUnlessProto(w: World, typeName: string, selections: seq<Selection>, source: Js, path: Path,
                             data: Data, errors: seq<ResponseError>)
    requires Conforms(w, typeName, selections, source, path, data, errors)
    ensures var fields := Fields(w.req, typeName, selections).value;
            EntryKeys(data.entries) == CollectedKeys(fields) <==>
            forall i | 0 <= i < |fields| :: fields[i].key != "__proto__"
  {
    var fields := Fields(w.req, typeName, selections).value;
    EntriesNeverLonger(w, typeName, fields, source, path, data.entries, errors);
    if forall i | 0 <= i < |fields| :: fields[i].key != "__proto__" {
      EntriesInOrder(w, typeName, fields, source, path, data.entries, errors);
    } else {
      assert |EntryKeys(data.entries)| == |data.entries| < |fields| == |CollectedKeys(fields)|;
    }
  }
}
