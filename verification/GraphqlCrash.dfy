/**
 Names that crash the analysis. Indexing a type's fields also finds the members every object
 inherits; such a "definition" has no type, and reading it throws a TypeError instead of one of
 the layer's own errors.
 */
module GraphqlCrash {
  import opened Results
  import opened Settings
  import opened JavaScript
  import opened GraphqlSyntax
  import opened GraphqlCollect
  import opened GraphqlAnalyse
  import opened GraphqlSchema

  /** A name that indexing finds although the type does not define it. */
  predicate Inherits(fields: map<string, FieldDef>, name: string) {
    name !in fields && name in INHERITED && !StartsWith(name, "__")
  }

  /** A field whose check crashes: none of its arguments is reported as unknown first. */
  predicate Crashes(req: Request, typeName: string, c: Collected) {
    typeName in req.schema && Inherits(req.schema[typeName], c.node.name) && AllDeclared(c.node.args, [])
  }

  // ---------------------------------------------------------------- who throws a TypeError

  lemma {:induction false} CoercionNeverCrashes(declared: seq<ArgDef>, given: seq<Arg>, vars: Variables)
    ensures CoerceAll(declared, given, vars) != Err(TypeFailure)
  {
    if declared != [] { CoercionNeverCrashes(declared[1..], given, vars); }
  }

  lemma CheckCrashesIff(req: Request, typeName: string, c: Collected)
    requires typeName in req.schema
    ensures Check(req, typeName, c) == Err(TypeFailure) <==> Crashes(req, typeName, c)
  {
    if c.node.name in req.schema[typeName] {
      CoercionNeverCrashes(req.schema[typeName][c.node.name].args, c.node.args, req.vars);
    }
  }

  lemma {:induction false} IncludedNeverCrashes(directives: seq<Directive>, vars: Variables)
    ensures Included(directives, vars) != Err(TypeFailure)
  {
    if directives != [] { IncludedNeverCrashes(directives[1..], vars); }
  }

  lemma {:induction false} CollectNeverCrashes(doc: Document, typeName: string, selections: seq<Selection>,
                                               vars: Variables, into: Into, visiting: set<string>)
    ensures Collect(doc, typeName, selections, vars, into, visiting) != Err(TypeFailure)
    decreases |doc.fragments.Keys - visiting|, selections
  {
    if selections != [] {
      CollectOneNeverCrashes(doc, typeName, selections[0], vars, into, visiting);
      match CollectOne(doc, typeName, selections[0], vars, into, visiting) {
        case Ok(after) => CollectNeverCrashes(doc, typeName, selections[1..], vars, after, visiting);
        case Err(_) =>
      }
    }
  }

  lemma {:induction false} CollectOneNeverCrashes(doc: Document, typeName: string, selection: Selection,
                                                  vars: Variables, into: Into, visiting: set<string>)
    ensures CollectOne(doc, typeName, selection, vars, into, visiting) != Err(TypeFailure)
    decreases |doc.fragments.Keys - visiting|, selection
  {
    IncludedNeverCrashes(selection.directives, vars);
    match selection
    case Field(_, _, _, _, _) =>
    case Spread(name, _) =>
      if name in doc.fragments && name !in visiting {
        SubsetSmaller(doc.fragments.Keys - (visiting + {name}), doc.fragments.Keys - visiting);
        CollectNeverCrashes(doc, typeName, doc.fragments[name].selections, vars, into, visiting + {name});
      }
    case Inline(_, _, inner) => CollectNeverCrashes(doc, typeName, inner, vars, into, visiting);
  }

  // ---------------------------------------------------------------- where the walk stops

  /** The field the walk refuses, with the type it was selected on. */
  datatype Refusal = Refusal(typeName: string, field: Collected)

  /** The first field whose check fails, if that is what ends the walk. */
  function RefusedIn(req: Request, typeName: string, selections: seq<Selection>, depth: int, pageSize: int): Option<Refusal>
    decreases Levels(req, depth), 3
  {
    if depth > req.maxDepth || typeName !in req.schema then None
    else
      match Fields(req, typeName, selections)
      case Err(_) => None
      case Ok(fields) => RefusedAmong(req, typeName, fields, depth, pageSize, 0)
  }

  function RefusedAmong(req: Request, typeName: string, fields: Into, depth: int, pageSize: int, total: int): Option<Refusal>
    requires depth <= req.maxDepth && typeName in req.schema
    decreases Levels(req, depth), 2, |fields|
  {
    if fields == [] then None
    else if fields[0].node.name == "__typename" then RefusedAmong(req, typeName, fields[1..], depth, pageSize, total + 1)
    else
      match CostOfField(req, typeName, fields[0], depth, pageSize)
      case Err(_) => RefusedAt(req, typeName, fields[0], depth, pageSize)
      case Ok(cost) =>
        if total + cost > req.maxComplexity then None
        else RefusedAmong(req, typeName, fields[1..], depth, pageSize, total + cost)
  }

  function RefusedAt(req: Request, typeName: string, c: Collected, depth: int, pageSize: int): Option<Refusal>
    requires depth <= req.maxDepth && typeName in req.schema
    decreases Levels(req, depth), 1
  {
    match Check(req, typeName, c)
    case Err(_) => Some(Refusal(typeName, c))
    case Ok((def, args)) =>
      if IsLeaf(def) then None
      else RefusedIn(req, def.typ.name, c.selections, depth + 1, ChildPageSize(def, args, pageSize))
  }

  ghost predicate RefusedByCrash(req: Request, refusal: Option<Refusal>) {
    refusal.Some? && Crashes(req, refusal.value.typeName, refusal.value.field)
  }

  lemma {:induction false} WalkCrashesIff(req: Request, typeName: string, selections: seq<Selection>, depth: int, pageSize: int)
    ensures CostOf(req, typeName, selections, depth, pageSize) == Err(TypeFailure) <==>
            RefusedByCrash(req, RefusedIn(req, typeName, selections, depth, pageSize))
    decreases Levels(req, depth), 3
  {
    hide Fields, Crashes;
    if depth <= req.maxDepth && typeName in req.schema {
      match Fields(req, typeName, selections) {
        case Ok(fields) => FieldsCrashIff(req, typeName, fields, depth, pageSize, 0);
        case Err(_) => FieldsNeverCrash(req, typeName, selections);
      }
    }
  }

  lemma FieldsNeverCrash(req: Request, typeName: string, selections: seq<Selection>)
    ensures Fields(req, typeName, selections) != Err(TypeFailure)
  {
    CollectNeverCrashes(req.doc, typeName, selections, req.vars, [], {});
  }

  lemma {:induction false} FieldsCrashIff(req: Request, typeName: string, fields: Into, depth: int, pageSize: int, total: int)
    requires depth <= req.maxDepth && typeName in req.schema
    ensures CostOfFields(req, typeName, fields, depth, pageSize, total) == Err(TypeFailure) <==>
            RefusedByCrash(req, RefusedAmong(req, typeName, fields, depth, pageSize, total))
    decreases Levels(req, depth), 2, |fields|
  {
    hide Crashes, Check;
    if fields == [] {
    } else if fields[0].node.name == "__typename" {
      FieldsCrashIff(req, typeName, fields[1..], depth, pageSize, total + 1);
    } else {
      FieldCrashesIff(req, typeName, fields[0], depth, pageSize);
      var cost := CostOfField(req, typeName, fields[0], depth, pageSize);
      if cost.Ok? { FieldsCrashIff(req, typeName, fields[1..], depth, pageSize, total + cost.value); }
    }
  }

  lemma {:induction false} FieldCrashesIff(req: Request, typeName: string, c: Collected, depth: int, pageSize: int)
    requires depth <= req.maxDepth && typeName in req.schema
    ensures CostOfField(req, typeName, c, depth, pageSize) == Err(TypeFailure) ==>
            RefusedByCrash(req, RefusedAt(req, typeName, c, depth, pageSize))
    ensures CostOfField(req, typeName, c, depth, pageSize).Err? && RefusedByCrash(req, RefusedAt(req, typeName, c, depth, pageSize)) ==>
            CostOfField(req, typeName, c, depth, pageSize) == Err(TypeFailure)
    decreases Levels(req, depth), 1
  {
    CheckCrashesIff(req, typeName, c);
    hide Crashes, Check;
    var checked := Check(req, typeName, c);
    if checked.Err? {
      assert CostOfField(req, typeName, c, depth, pageSize) == Err(checked.error);
      assert RefusedAt(req, typeName, c, depth, pageSize) == Some(Refusal(typeName, c));
    } else if !IsLeaf(checked.value.0) {
      var (def, args) := checked.value;
      var childPage := ChildPageSize(def, args, pageSize);
      WalkCrashesIff(req, def.typ.name, c.selections, depth + 1, childPage);
      assert CostOfChildren(req, def, args, c.selections, depth, pageSize) ==
             CostOf(req, def.typ.name, c.selections, depth + 1, childPage);
      assert RefusedAt(req, typeName, c, depth, pageSize) == RefusedIn(req, def.typ.name, c.selections, depth + 1, childPage);
    } else {
      var (def, args) := checked.value;
      assert CostOfChildren(req, def, args, c.selections, depth, pageSize) == Ok(0);
    }
  }

  /** The analysis ends in a TypeError exactly when the first field it refuses is named like an inherited member. */
  lemma AnalyseCrashesIff(req: Request, selections: seq<Selection>)
    ensures Analyse(req, selections) == Err(TypeFailure) <==>
            RefusedByCrash(req, RefusedIn(req, "Query", selections, 1, DEFAULT_QUERY_LIMIT))
  {
    WalkCrashesIff(req, "Query", selections, 1, DEFAULT_QUERY_LIMIT);
  }

  // ---------------------------------------------------------------- documents that cannot crash

  /** A name that some type of the schema would only inherit. */
  predicate Risky(schema: Schema, name: string) {
    exists t | t in schema :: Inherits(schema[t], name)
  }

  /** No field down to `levels` of nesting has a risky name. */
  ghost predicate PlainTo(schema: Schema, selections: seq<Selection>, levels: nat)
    decreases levels
  {
    levels == 0 ||
    forall i | 0 <= i < |selections| ::
      match selections[i]
      case Field(_, name, _, _, _) => !Risky(schema, name) && PlainTo(schema, selections[i].Subselections(), levels - 1)
      case Spread(_, _) => true
      case Inline(_, _, inner) => PlainTo(schema, inner, levels - 1)
  }

  /** No field of the selections, at any depth, has a risky name. */
  ghost predicate Plain(schema: Schema, selections: seq<Selection>) {
    forall levels: nat :: PlainTo(schema, selections, levels)
  }

  ghost predicate PlainFragments(req: Request) {
    forall f | f in req.doc.fragments :: Plain(req.schema, req.doc.fragments[f].selections)
  }

  ghost predicate PlainInto(schema: Schema, into: Into) {
    forall i | 0 <= i < |into| :: !Risky(schema, into[i].node.name) && Plain(schema, into[i].selections)
  }

  lemma PlainParts(schema: Schema, selections: seq<Selection>)
    requires Plain(schema, selections) && selections != []
    ensures Plain(schema, selections[1..])
    ensures selections[0].Field? ==> !Risky(schema, selections[0].name) && Plain(schema, selections[0].Subselections())
    ensures selections[0].Inline? ==> Plain(schema, selections[0].selections)
  {
    hide Risky;
    var rest := selections[1..];
    assert PlainTo(schema, selections, 1);
    forall levels: nat
      ensures PlainTo(schema, rest, levels)
      ensures selections[0].Field? ==> !Risky(schema, selections[0].name) && PlainTo(schema, selections[0].Subselections(), levels)
      ensures selections[0].Inline? ==> PlainTo(schema, selections[0].selections, levels)
    {
      assert PlainTo(schema, selections, levels) && PlainTo(schema, selections, levels + 1);
      assert forall i | 0 <= i < |rest| :: rest[i] == selections[i + 1];
    }
  }

  lemma PlainAppend(schema: Schema, a: seq<Selection>, b: seq<Selection>)
    requires Plain(schema, a) && Plain(schema, b)
    ensures Plain(schema, a + b)
  {
    hide Risky;
    forall levels: nat ensures PlainTo(schema, a + b, levels) {
      assert PlainTo(schema, a, levels) && PlainTo(schema, b, levels);
      assert forall i | 0 <= i < |a + b| :: (a + b)[i] == if i < |a| then a[i] else b[i - |a|];
    }
  }

  lemma AddFieldPlain(schema: Schema, into: Into, field: FieldNode)
    requires PlainInto(schema, into) && !Risky(schema, field.name) && Plain(schema, field.Subselections())
    ensures AddField(into, field).Ok? ==> PlainInto(schema, AddField(into, field).value)
  {
    hide Risky, Plain;
    var i := IndexOf(into, field.ResponseKey());
    if i < |into| { PlainAppend(schema, into[i].selections, field.Subselections()); }
  }

  lemma {:induction false} CollectPlainFields(req: Request, typeName: string, selections: seq<Selection>, into: Into,
                                              visiting: set<string>)
    requires PlainFragments(req) && Plain(req.schema, selections) && PlainInto(req.schema, into)
    ensures var r := Collect(req.doc, typeName, selections, req.vars, into, visiting);
            r.Ok? ==> PlainInto(req.schema, r.value)
    decreases |req.doc.fragments.Keys - visiting|, selections
  {
    hide Risky, Plain, PlainInto;
    if selections != [] {
      PlainParts(req.schema, selections);
      CollectPlainField(req, typeName, selections[0], into, visiting);
      match CollectOne(req.doc, typeName, selections[0], req.vars, into, visiting) {
        case Ok(after) => CollectPlainFields(req, typeName, selections[1..], after, visiting);
        case Err(_) =>
      }
    }
  }

  lemma {:induction false} CollectPlainField(req: Request, typeName: string, selection: Selection, into: Into,
                                             visiting: set<string>)
    requires PlainFragments(req) && PlainInto(req.schema, into)
    requires selection.Field? ==> !Risky(req.schema, selection.name) && Plain(req.schema, selection.Subselections())
    requires selection.Inline? ==> Plain(req.schema, selection.selections)
    ensures var r := CollectOne(req.doc, typeName, selection, req.vars, into, visiting);
            r.Ok? ==> PlainInto(req.schema, r.value)
    decreases |req.doc.fragments.Keys - visiting|, selection
  {
    hide Risky, Plain, PlainInto, Included, AddField;
    match selection
    case Field(_, _, _, _, _) => AddFieldPlain(req.schema, into, selection);
    case Spread(name, _) =>
      if name in req.doc.fragments && name !in visiting {
        SubsetSmaller(req.doc.fragments.Keys - (visiting + {name}), req.doc.fragments.Keys - visiting);
        CollectPlainFields(req, typeName, req.doc.fragments[name].selections, into, visiting + {name});
      }
    case Inline(_, _, inner) => CollectPlainFields(req, typeName, inner, into, visiting);
  }

  lemma {:induction false} RefusedIsPlain(req: Request, typeName: string, selections: seq<Selection>, depth: int, pageSize: int)
    requires PlainFragments(req) && Plain(req.schema, selections)
    ensures !RefusedByCrash(req, RefusedIn(req, typeName, selections, depth, pageSize))
    decreases Levels(req, depth), 3
  {
    hide Risky, Plain, PlainInto, Crashes, Fields, PlainFragments;
    if depth <= req.maxDepth && typeName in req.schema {
      match Fields(req, typeName, selections) {
        case Ok(fields) =>
          FieldsPlain(req, typeName, selections);
          RefusedAmongPlain(req, typeName, fields, depth, pageSize, 0);
        case Err(_) =>
      }
    }
  }

  lemma FieldsPlain(req: Request, typeName: string, selections: seq<Selection>)
    requires PlainFragments(req) && Plain(req.schema, selections)
    ensures Fields(req, typeName, selections).Ok? ==> PlainInto(req.schema, Fields(req, typeName, selections).value)
  {
    hide Risky, Plain;
    CollectPlainFields(req, typeName, selections, [], {});
  }

  lemma {:induction false} RefusedAmongPlain(req: Request, typeName: string, fields: Into, depth: int, pageSize: int, total: int)
    requires depth <= req.maxDepth && typeName in req.schema
    requires PlainFragments(req) && PlainInto(req.schema, fields)
    ensures !RefusedByCrash(req, RefusedAmong(req, typeName, fields, depth, pageSize, total))
    decreases Levels(req, depth), 2, |fields|
  {
    hide Risky, Plain, Crashes, PlainFragments;
    if fields != [] {
      assert forall i | 0 <= i < |fields[1..]| :: fields[1..][i] == fields[i + 1];
      assert PlainInto(req.schema, fields[1..]);
      if fields[0].node.name == "__typename" {
        RefusedAmongPlain(req, typeName, fields[1..], depth, pageSize, total + 1);
      } else {
        RefusedAtPlain(req, typeName, fields[0], depth, pageSize);
        var cost := CostOfField(req, typeName, fields[0], depth, pageSize);
        if cost.Ok? { RefusedAmongPlain(req, typeName, fields[1..], depth, pageSize, total + cost.value); }
      }
    }
  }

  lemma {:induction false} RefusedAtPlain(req: Request, typeName: string, c: Collected, depth: int, pageSize: int)
    requires depth <= req.maxDepth && typeName in req.schema
    requires PlainFragments(req) && !Risky(req.schema, c.node.name) && Plain(req.schema, c.selections)
    ensures !RefusedByCrash(req, RefusedAt(req, typeName, c, depth, pageSize))
    decreases Levels(req, depth), 1
  {
    hide Plain, PlainFragments;
    match Check(req, typeName, c)
    case Err(_) =>
    case Ok((def, args)) =>
      if !IsLeaf(def) { RefusedIsPlain(req, def.typ.name, c.selections, depth + 1, ChildPageSize(def, args, pageSize)); }
  }

  /**
   A document in which no field, of the operation or of any fragment, is named like an inherited
   member that some type does not define never crashes the analysis.
   */
  lemma PlainNamesNeverCrash(req: Request, selections: seq<Selection>)
    requires PlainFragments(req) && Plain(req.schema, selections)
    ensures Analyse(req, selections) != Err(TypeFailure)
  {
    AnalyseCrashesIff(req, selections);
    RefusedIsPlain(req, "Query", selections, 1, DEFAULT_QUERY_LIMIT);
  }

  lemma InheritedLengths(name: string)
    requires name in INHERITED
    ensures |name| != |"topic"| && |name| != |"count"|
  {
  }

  /** In this schema the names at risk are exactly the inherited ones that do not look like introspection. */
  lemma RiskyNames(name: string)
    ensures Risky(SCHEMA, name) <==> name in INHERITED && !StartsWith(name, "__")
  {
    if name in INHERITED {
      InheritedLengths(name);
      assert name !in TOPIC;
      assert "Topic" in SCHEMA && SCHEMA["Topic"] == TOPIC;
    }
  }

  /** Conversely, each such name alone crashes it, whatever the type it is selected on first. */
  lemma RiskyFieldCrashes(req: Request, selections: seq<Selection>, fields: Into)
    requires req.maxDepth >= 1 && "Query" in req.schema && Fields(req, "Query", selections) == Ok(fields)
    requires fields != [] && Crashes(req, "Query", fields[0])
    ensures Analyse(req, selections) == Err(TypeFailure)
  {
    CheckCrashesIff(req, "Query", fields[0]);
    assert fields[0].node.name != "__typename" by { assert StartsWith("__typename", "__"); }
    assert RefusedAmong(req, "Query", fields, 1, DEFAULT_QUERY_LIMIT, 0) == Some(Refusal("Query", fields[0]));
    AnalyseCrashesIff(req, selections);
  }

  /** The smallest such request: a field named like a member every object inherits. */
  lemma InheritedNameCrashes(maxComplexity: int)
    ensures Analyse(Ask([Leafy("toString")], maxComplexity), [Leafy("toString")]) == Err(TypeFailure)
  {
    var req := Ask([Leafy("toString")], maxComplexity);
    SingleField(req, "Query", Leafy("toString"));
    assert "toString"[0] != "__"[0];
    assert "toString" !in QUERY && SCHEMA["Query"] == QUERY;
    RiskyFieldCrashes(req, [Leafy("toString")], [Collected("toString", Leafy("toString"), [])]);
  }
}
