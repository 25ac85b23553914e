/**
 What the cost number says. It bounds the key/value entries of the response whenever lists
 are no longer than the analysis assumed, and it respects the configured ceiling exactly
 when the root selection does not end in `__typename`.
 */
module GraphqlCost {
  import opened Results
  import opened Settings
  import opened GraphqlSyntax
  import opened GraphqlCollect
  import opened GraphqlAnalyse
  import opened GraphqlExecute
  import opened GraphqlConformance

  /** Key/value entries anywhere in the data. */
  function EntryCount(data: Data): nat
    decreases data, 0
  {
    match data
    case Record(entries) => EntryCountOf(entries)
    case Items(items) => ItemCount(items)
    case _ => 0
  }

  function EntryCountOf(entries: seq<Entry>): nat
    decreases entries, 1
  {
    if entries == [] then 0 else 1 + EntryCount(entries[0].value) + EntryCountOf(entries[1..])
  }

  function ItemCount(items: seq<Data>): nat
    decreases items, 1
  {
    if items == [] then 0 else EntryCount(items[0]) + ItemCount(items[1..])
  }

  // ---------------------------------------------------------------- limits

  /** Every `limit` the selection gives is at least `least`, at every level the analysis visits. */
  ghost predicate LimitsFrom(least: nat, req: Request, typeName: string, selections: seq<Selection>, depth: int)
    decreases Levels(req, depth)
  {
    depth <= req.maxDepth && typeName in req.schema && Fields(req, typeName, selections).Ok? ==>
      var fields := Fields(req, typeName, selections).value;
      forall i | 0 <= i < |fields| :: LimitFrom(least, req, typeName, fields[i], depth)
  }

  ghost predicate LimitFrom(least: nat, req: Request, typeName: string, c: Collected, depth: int)
    requires depth <= req.maxDepth && typeName in req.schema
    decreases Levels(req, depth), 0
  {
    var checked := Check(req, typeName, c);
    c.node.name != "__typename" && checked.Ok? ==>
      && OwnLimit(checked.value.1) >= least
      && (!IsLeaf(checked.value.0) ==> LimitsFrom(least, req, checked.value.0.typ.name, c.selections, depth + 1))
  }

  lemma {:induction false} FewerLimits(least: nat, req: Request, typeName: string, selections: seq<Selection>, depth: int)
    requires LimitsFrom(least, req, typeName, selections, depth)
    ensures LimitsFrom(0, req, typeName, selections, depth)
    decreases Levels(req, depth), 1
  {
    if depth <= req.maxDepth && typeName in req.schema && Fields(req, typeName, selections).Ok? {
      var fields := Fields(req, typeName, selections).value;
      forall i | 0 <= i < |fields| ensures LimitFrom(0, req, typeName, fields[i], depth) {
        FewerLimit(least, req, typeName, fields[i], depth);
      }
    }
  }

  lemma {:induction false} FewerLimit(least: nat, req: Request, typeName: string, c: Collected, depth: int)
    requires depth <= req.maxDepth && typeName in req.schema && LimitFrom(least, req, typeName, c, depth)
    ensures LimitFrom(0, req, typeName, c, depth)
    decreases Levels(req, depth), 0
  {
    var checked := Check(req, typeName, c);
    if c.node.name != "__typename" && checked.Ok? && !IsLeaf(checked.value.0) {
      FewerLimits(least, req, checked.value.0.typ.name, c.selections, depth + 1);
    }
  }

  // ---------------------------------------------------------------- lists as long as assumed

  /** Every list in the data is at most as long as the analysis assumed at that place. */
  ghost predicate ListsWithin(req: Request, typeName: string, selections: seq<Selection>, data: Data, pageSize: int)
    decreases data, 0
  {
    data.Record? && typeName in req.schema && Fields(req, typeName, selections).Ok? ==>
      var fields := Fields(req, typeName, selections).value;
      forall i, j | 0 <= i < |fields| && 0 <= j < |data.entries| && fields[i].key == data.entries[j].key ::
        ListWithin(req, typeName, fields[i], data.entries[j].value, pageSize)
  }

  ghost predicate ListWithin(req: Request, typeName: string, c: Collected, data: Data, pageSize: int)
    requires typeName in req.schema
    decreases data, 1
  {
    var checked := Check(req, typeName, c);
    c.node.name != "__typename" && checked.Ok? ==>
      var (def, args) := checked.value;
      if data.Items? then
        && |data.items| <= Multiplier(def, args, pageSize)
        && forall k | 0 <= k < |data.items| ::
             ListsWithin(req, def.typ.name, c.selections, data.items[k], ChildPageSize(def, args, pageSize))
      else ListsWithin(req, def.typ.name, c.selections, data, ChildPageSize(def, args, pageSize))
  }

  // ---------------------------------------------------------------- the bound

  lemma MultiplierFrom(least: nat, def: FieldDef, args: Args, pageSize: int)
    requires OwnLimit(args) >= least && pageSize >= least && least <= 1
    ensures Multiplier(def, args, pageSize) >= least && ChildPageSize(def, args, pageSize) >= least
    ensures !def.typ.list ==> Multiplier(def, args, pageSize) == 1
  {
  }

  lemma MulMonotone(a: int, b: int, c: int)
    requires 0 <= a <= b && 0 <= c
    ensures 0 <= a * c <= b * c
  {
  }

  lemma {:induction false} CostBoundsSelection(w: World, typeName: string, selections: seq<Selection>, depth: int,
                                               pageSize: int, source: Js, path: Path, data: Data,
                                               errors: seq<ResponseError>)
    requires CostOf(w.req, typeName, selections, depth, pageSize).Ok?
    requires pageSize >= 0 && LimitsFrom(0, w.req, typeName, selections, depth)
    requires Conforms(w, typeName, selections, source, path, data, errors)
    requires ListsWithin(w.req, typeName, selections, data, pageSize)
    ensures EntryCount(data) <= CostOf(w.req, typeName, selections, depth, pageSize).value
    decreases data, 0, 0
  {
    var fields := Fields(w.req, typeName, selections).value;
    CostBoundsEntries(w, typeName, fields, depth, pageSize, 0, source, path, data.entries, errors);
  }

  lemma {:induction false} CostBoundsEntries(w: World, typeName: string, fields: Into, depth: int, pageSize: int,
                                             total: int, source: Js, path: Path, entries: seq<Entry>,
                                             errors: seq<ResponseError>)
    requires depth <= w.req.maxDepth && typeName in w.req.schema && pageSize >= 0
    requires CostOfFields(w.req, typeName, fields, depth, pageSize, total).Ok?
    requires forall i | 0 <= i < |fields| :: LimitFrom(0, w.req, typeName, fields[i], depth)
    requires EntriesConform(w, typeName, fields, source, path, entries, errors)
    requires forall i, j | 0 <= i < |fields| && 0 <= j < |entries| && fields[i].key == entries[j].key ::
               ListWithin(w.req, typeName, fields[i], entries[j].value, pageSize)
    ensures total + EntryCountOf(entries) <= CostOfFields(w.req, typeName, fields, depth, pageSize, total).value
    decreases entries, 2, |fields|
  {
    if fields != [] {
      var c := fields[0];
      var dropped := c.key == "__proto__";
      var cost := if c.node.name == "__typename" then 1 else CostOfField(w.req, typeName, c, depth, pageSize).value;
      assert LimitFrom(0, w.req, typeName, c, depth);
      CostAtLeastOne(w.req, typeName, c, depth, pageSize);
      if !dropped {
        assert ListWithin(w.req, typeName, c, entries[0].value, pageSize);
        CostBoundsField(w, typeName, c, depth, pageSize, source, path, entries[0].value, errors);
      }
      CostBoundsEntries(w, typeName, fields[1..], depth, pageSize, total + cost, source, path,
                        if dropped then entries else entries[1..], errors);
    }
  }

  /** A field costs at least the one entry it answers with. */
  lemma {:induction false} CostAtLeastOne(req: Request, typeName: string, c: Collected, depth: int, pageSize: int)
    requires depth <= req.maxDepth && typeName in req.schema && pageSize >= 0
    requires c.node.name != "__typename" ==> CostOfField(req, typeName, c, depth, pageSize).Ok?
    requires LimitFrom(0, req, typeName, c, depth)
    ensures c.node.name != "__typename" ==> CostOfField(req, typeName, c, depth, pageSize).value >= 1
    decreases Levels(req, depth), 0
  {
    if c.node.name != "__typename" {
      var (def, args) := Check(req, typeName, c).value;
      MultiplierFrom(0, def, args, pageSize);
      if !IsLeaf(def) {
        CostNonNegative(req, def.typ.name, c.selections, depth + 1, ChildPageSize(def, args, pageSize));
      }
      var children := CostOfChildren(req, def, args, c.selections, depth, pageSize).value;
      MulMonotone(0, Multiplier(def, args, pageSize), children);
    }
  }

  lemma {:induction false} CostNonNegative(req: Request, typeName: string, selections: seq<Selection>, depth: int,
                                           pageSize: int)
    requires CostOf(req, typeName, selections, depth, pageSize).Ok?
    requires pageSize >= 0 && LimitsFrom(0, req, typeName, selections, depth)
    ensures CostOf(req, typeName, selections, depth, pageSize).value >= 0
    decreases Levels(req, depth), 2
  {
    CostGrows(req, typeName, Fields(req, typeName, selections).value, depth, pageSize, 0);
  }

  lemma {:induction false} CostGrows(req: Request, typeName: string, fields: Into, depth: int, pageSize: int, total: int)
    requires depth <= req.maxDepth && typeName in req.schema && pageSize >= 0
    requires CostOfFields(req, typeName, fields, depth, pageSize, total).Ok?
    requires forall i | 0 <= i < |fields| :: LimitFrom(0, req, typeName, fields[i], depth)
    ensures CostOfFields(req, typeName, fields, depth, pageSize, total).value >= total
    decreases Levels(req, depth), 1, |fields|
  {
    if fields != [] {
      var c := fields[0];
      assert LimitFrom(0, req, typeName, c, depth);
      CostAtLeastOne(req, typeName, c, depth, pageSize);
      var cost := if c.node.name == "__typename" then 1 else CostOfField(req, typeName, c, depth, pageSize).value;
      CostGrows(req, typeName, fields[1..], depth, pageSize, total + cost);
    }
  }

  lemma {:induction false} CostBoundsField(w: World, typeName: string, c: Collected, depth: int, pageSize: int,
                                           source: Js, path: Path, data: Data, errors: seq<ResponseError>)
    requires depth <= w.req.maxDepth && typeName in w.req.schema && pageSize >= 0
    requires c.node.name != "__typename" ==> CostOfField(w.req, typeName, c, depth, pageSize).Ok?
    requires LimitFrom(0, w.req, typeName, c, depth)
    requires FieldConforms(w, typeName, c, source, path, data, errors)
    requires ListWithin(w.req, typeName, c, data, pageSize)
    ensures 1 + EntryCount(data) <=
            if c.node.name == "__typename" then 1 else CostOfField(w.req, typeName, c, depth, pageSize).value
    decreases data, 1
  {
    CostAtLeastOne(w.req, typeName, c, depth, pageSize);
    if c.node.name != "__typename" && !data.NullData? {
      var (def, args) := Check(w.req, typeName, c).value;
      var at := path + [Name(c.key)];
      var value := w.resolve(at, typeName, c.node.name, args, source).value;
      var children := CostOfChildren(w.req, def, args, c.selections, depth, pageSize).value;
      var times := Multiplier(def, args, pageSize);
      MultiplierFrom(0, def, args, pageSize);
      if def.typ.list {
        forall i | 0 <= i < |data.items| ensures EntryCount(data.items[i]) <= children {
          ItemBound(w, def, args, def.typ.itemNonNull, value.items[i], c.selections, depth, pageSize, at + [Index(i)],
                    data.items[i], errors);
        }
        if !IsLeaf(def) {
          CostNonNegative(w.req, def.typ.name, c.selections, depth + 1, ChildPageSize(def, args, pageSize));
        }
        ItemsBound(data.items, children);
        MulMonotone(|data.items|, times, children);
      } else {
        ItemBound(w, def, args, def.typ.nonNull, value, c.selections, depth, pageSize, at, data, errors);
      }
    }
  }

  lemma {:induction false} ItemsBound(items: seq<Data>, each: int)
    requires forall i | 0 <= i < |items| :: EntryCount(items[i]) <= each
    ensures ItemCount(items) <= |items| * each
  {
    if items != [] {
      ItemsBound(items[1..], each);
      assert |items| * each == each + (|items| - 1) * each;
    }
  }

  lemma {:induction false} ItemBound(w: World, def: FieldDef, args: Args, nonNull: bool, value: Js,
                                     selections: seq<Selection>, depth: int, pageSize: int, path: Path, data: Data,
                                     errors: seq<ResponseError>)
    requires depth <= w.req.maxDepth && pageSize >= 0 && OwnLimit(args) >= 0
    requires CostOfChildren(w.req, def, args, selections, depth, pageSize).Ok?
    requires !IsLeaf(def) ==> LimitsFrom(0, w.req, def.typ.name, selections, depth + 1)
    requires OneConforms(w, def.typ.name, nonNull, value, selections, path, data, errors)
    requires ListsWithin(w.req, def.typ.name, selections, data, ChildPageSize(def, args, pageSize))
    ensures EntryCount(data) <= CostOfChildren(w.req, def, args, selections, depth, pageSize).value
    decreases data, 0, 1
  {
    var childPage := ChildPageSize(def, args, pageSize);
    MultiplierFrom(0, def, args, pageSize);
    if !IsLeaf(def) {
      if data.NullData? {
        CostNonNegative(w.req, def.typ.name, selections, depth + 1, childPage);
      } else {
        CostBoundsSelection(w, def.typ.name, selections, depth + 1, childPage, value, path, data, errors);
      }
    }
  }

  /** The cost returned by `analyse` bounds the key/value entries of the response. */
  lemma CostBoundsResponse(w: World, selections: seq<Selection>)
    requires Analyse(w.req, selections).Ok? && Respond(w, selections).Some?
    requires LimitsFrom(0, w.req, "Query", selections, 1)
    requires ListsWithin(w.req, "Query", selections, Respond(w, selections).value.data, DEFAULT_QUERY_LIMIT)
    ensures EntryCount(Respond(w, selections).value.data) <= Analyse(w.req, selections).value
  {
    var Response(data, errors) := Respond(w, selections).value;
    ResponseConforms(w, selections);
    if data.NullData? {
      CostNonNegative(w.req, "Query", selections, 1, DEFAULT_QUERY_LIMIT);
    } else {
      CostBoundsSelection(w, "Query", selections, 1, DEFAULT_QUERY_LIMIT, JsObj(map[]), [], data, errors);
    }
  }

  // ---------------------------------------------------------------- the ceiling

  /** `__typename` fields after the last field that is checked against the ceiling. */
  function Trailing(fields: Into): nat {
    if fields == [] || fields[|fields| - 1].node.name != "__typename" then 0
    else 1 + Trailing(fields[..|fields| - 1])
  }

  /** When not every field is trailing, dropping the first keeps the trailing ones. */
  lemma {:induction false} TrailingStep(fields: Into)
    requires fields != []
    ensures Trailing(fields) <= |fields|
    ensures Trailing(fields[1..]) == if Trailing(fields) == |fields| then |fields| - 1 else Trailing(fields)
    ensures Trailing(fields) == |fields| ==> fields[0].node.name == "__typename"
    ensures Trailing(fields[1..]) == |fields| - 1 && fields[0].node.name == "__typename" ==> Trailing(fields) == |fields|
  {
    var n := |fields| - 1;
    if n > 0 && fields[n].node.name == "__typename" {
      TrailingStep(fields[..n]);
      assert fields[..n][1..] == fields[1..][..n - 1];
    }
  }

  /** What is accepted may exceed the ceiling, but only by its trailing `__typename` fields. */
  lemma {:induction false} ExcessIsTrailing(req: Request, typeName: string, fields: Into, depth: int, pageSize: int,
                                            total: int)
    requires depth <= req.maxDepth && typeName in req.schema
    requires CostOfFields(req, typeName, fields, depth, pageSize, total).Ok?
    ensures var cost := CostOfFields(req, typeName, fields, depth, pageSize, total).value;
            if Trailing(fields) == |fields| then cost == total + |fields|
            else cost <= req.maxComplexity + Trailing(fields)
    decreases |fields|
  {
    if fields != [] {
      var c := fields[0];
      TrailingStep(fields);
      var cost := if c.node.name == "__typename" then 1 else CostOfField(req, typeName, c, depth, pageSize).value;
      ExcessIsTrailing(req, typeName, fields[1..], depth, pageSize, total + cost);
    }
  }

  function Higher(a: int, b: int): int { if a < b then b else a }

  /**
   The highest running total an accepted walk compares with the ceiling, at the root or in any
   selection below; 0 when it compares none.
   */
  function PeakOf(req: Request, typeName: string, selections: seq<Selection>, depth: int, pageSize: int): int
    requires CostOf(req, typeName, selections, depth, pageSize).Ok?
    decreases Levels(req, depth), 3
  {
    PeakOfFields(req, typeName, Fields(req, typeName, selections).value, depth, pageSize, 0)
  }

  function PeakOfFields(req: Request, typeName: string, fields: Into, depth: int, pageSize: int, total: int): int
    requires depth <= req.maxDepth && typeName in req.schema
    requires CostOfFields(req, typeName, fields, depth, pageSize, total).Ok?
    decreases Levels(req, depth), 2, |fields|
  {
    if fields == [] then 0
    else if fields[0].node.name == "__typename" then PeakOfFields(req, typeName, fields[1..], depth, pageSize, total + 1)
    else
      var after := total + CostOfField(req, typeName, fields[0], depth, pageSize).value;
      Higher(Higher(PeakOfField(req, typeName, fields[0], depth, pageSize), after),
             PeakOfFields(req, typeName, fields[1..], depth, pageSize, after))
  }

  function PeakOfField(req: Request, typeName: string, c: Collected, depth: int, pageSize: int): int
    requires depth <= req.maxDepth && typeName in req.schema
    requires CostOfField(req, typeName, c, depth, pageSize).Ok?
    decreases Levels(req, depth), 1
  {
    var (def, args) := Check(req, typeName, c).value;
    assert CostOfChildren(req, def, args, c.selections, depth, pageSize).Ok?;
    if IsLeaf(def) then 0 else PeakOf(req, def.typ.name, c.selections, depth + 1, ChildPageSize(def, args, pageSize))
  }

  /** The cost under a ceiling that some totals may not pass. */
  function Under(peak: int, max: nat, cost: int): Result<int, RequestError> {
    if peak <= max then Ok(cost) else Err(TooComplex)
  }

  lemma {:induction false} PeakDecides(req: Request, max: nat, typeName: string, selections: seq<Selection>, depth: int,
                                       pageSize: int)
    requires CostOf(req, typeName, selections, depth, pageSize).Ok?
    ensures CostOf(req.(maxComplexity := max), typeName, selections, depth, pageSize) ==
            Under(PeakOf(req, typeName, selections, depth, pageSize), max, CostOf(req, typeName, selections, depth, pageSize).value)
    decreases Levels(req, depth), 3
  {
    assert Fields(req.(maxComplexity := max), typeName, selections) == Fields(req, typeName, selections);
    PeakDecidesFields(req, max, typeName, Fields(req, typeName, selections).value, depth, pageSize, 0);
  }

  lemma {:induction false} PeakDecidesFields(req: Request, max: nat, typeName: string, fields: Into, depth: int,
                                             pageSize: int, total: int)
    requires depth <= req.maxDepth && typeName in req.schema
    requires CostOfFields(req, typeName, fields, depth, pageSize, total).Ok?
    ensures CostOfFields(req.(maxComplexity := max), typeName, fields, depth, pageSize, total) ==
            Under(PeakOfFields(req, typeName, fields, depth, pageSize, total), max,
                  CostOfFields(req, typeName, fields, depth, pageSize, total).value)
    decreases Levels(req, depth), 2, |fields|
  {
    hide CostOfField, PeakOfField;
    if fields != [] {
      var c := fields[0];
      if c.node.name == "__typename" {
        PeakDecidesFields(req, max, typeName, fields[1..], depth, pageSize, total + 1);
      } else {
        var after := total + CostOfField(req, typeName, c, depth, pageSize).value;
        PeakDecidesField(req, max, typeName, c, depth, pageSize);
        PeakDecidesFields(req, max, typeName, fields[1..], depth, pageSize, after);
      }
    }
  }

  lemma {:induction false} PeakDecidesField(req: Request, max: nat, typeName: string, c: Collected, depth: int,
                                            pageSize: int)
    requires depth <= req.maxDepth && typeName in req.schema
    requires CostOfField(req, typeName, c, depth, pageSize).Ok?
    ensures CostOfField(req.(maxComplexity := max), typeName, c, depth, pageSize) ==
            Under(PeakOfField(req, typeName, c, depth, pageSize), max, CostOfField(req, typeName, c, depth, pageSize).value)
    decreases Levels(req, depth), 1
  {
    hide Collect, CollectOne, ResolveArgs, CostOf, PeakOf;
    var lower := req.(maxComplexity := max);
    var (def, args) := Check(req, typeName, c).value;
    assert Check(lower, typeName, c) == Check(req, typeName, c);
    if !IsLeaf(def) {
      PeakDecides(req, max, def.typ.name, c.selections, depth + 1, ChildPageSize(def, args, pageSize));
    }
  }

  /** The root's highest compared total. */
  function Peak(req: Request, selections: seq<Selection>): int
    requires Analyse(req, selections).Ok?
  {
    PeakOf(req, "Query", selections, 1, DEFAULT_QUERY_LIMIT)
  }

  /** Whatever its limits, a request is accepted under exactly the ceilings from its peak up, at the same cost. */
  lemma AcceptedIffPeak(req: Request, selections: seq<Selection>, max: nat)
    requires Analyse(req, selections).Ok?
    ensures Analyse(req.(maxComplexity := max), selections) ==
            if Peak(req, selections) <= max then Analyse(req, selections) else Err(TooComplex)
  {
    PeakDecides(req, max, "Query", selections, 1, DEFAULT_QUERY_LIMIT);
  }

  lemma {:induction false} PeakNonNegative(req: Request, typeName: string, fields: Into, depth: int, pageSize: int, total: int)
    requires depth <= req.maxDepth && typeName in req.schema
    requires CostOfFields(req, typeName, fields, depth, pageSize, total).Ok?
    ensures PeakOfFields(req, typeName, fields, depth, pageSize, total) >= 0
    decreases |fields|
  {
    if fields != [] {
      var cost := if fields[0].node.name == "__typename" then 1 else CostOfField(req, typeName, fields[0], depth, pageSize).value;
      PeakNonNegative(req, typeName, fields[1..], depth, pageSize, total + cost);
    }
  }

  /** And it passes under a ceiling below its cost exactly when it costs more than its peak. */
  lemma EscapesIffAbovePeak(req: Request, selections: seq<Selection>)
    requires Analyse(req, selections).Ok?
    ensures (exists max: nat :: var cost := Analyse(req.(maxComplexity := max), selections); cost.Ok? && cost.value > max) <==>
            Analyse(req, selections).value > Peak(req, selections)
  {
    hide Analyse, Peak;
    forall max: nat
      ensures Analyse(req.(maxComplexity := max), selections) ==
              if Peak(req, selections) <= max then Analyse(req, selections) else Err(TooComplex)
    {
      AcceptedIffPeak(req, selections, max);
    }
    RootPeak(req, selections);
    var peak: nat := Peak(req, selections);
    assert Analyse(req.(maxComplexity := peak), selections) == Analyse(req, selections);
  }

  lemma RootPeak(req: Request, selections: seq<Selection>)
    requires Analyse(req, selections).Ok?
    ensures Peak(req, selections) >= 0
  {
    PeakNonNegative(req, "Query", Fields(req, "Query", selections).value, 1, DEFAULT_QUERY_LIMIT, 0);
  }

  /** What follows costs at least its trailing `__typename` fields. */
  lemma {:induction false} TrailingCost(req: Request, typeName: string, fields: Into, depth: int, pageSize: int, total: int)
    requires depth <= req.maxDepth && typeName in req.schema && pageSize >= 0
    requires CostOfFields(req, typeName, fields, depth, pageSize, total).Ok?
    requires forall i | 0 <= i < |fields| :: LimitFrom(0, req, typeName, fields[i], depth)
    ensures CostOfFields(req, typeName, fields, depth, pageSize, total).value >= total + Trailing(fields)
    decreases |fields|
  {
    if fields != [] {
      TrailingStep(fields);
      assert LimitFrom(0, req, typeName, fields[0], depth);
      CostAtLeastOne(req, typeName, fields[0], depth, pageSize);
      var cost := if fields[0].node.name == "__typename" then 1
                  else CostOfField(req, typeName, fields[0], depth, pageSize).value;
      TrailingCost(req, typeName, fields[1..], depth, pageSize, total + cost);
    }
  }

  /** With limits of at least 1, no total compared anywhere exceeds the cost less its trailing `__typename` fields. */
  lemma {:induction false} PeakBelowCost(req: Request, typeName: string, fields: Into, depth: int, pageSize: int, total: int)
    requires depth <= req.maxDepth && typeName in req.schema && pageSize >= 1 && total >= 0
    requires CostOfFields(req, typeName, fields, depth, pageSize, total).Ok?
    requires forall i | 0 <= i < |fields| :: LimitFrom(1, req, typeName, fields[i], depth)
    ensures PeakOfFields(req, typeName, fields, depth, pageSize, total) <=
            CostOfFields(req, typeName, fields, depth, pageSize, total).value - Trailing(fields)
    ensures Trailing(fields) == |fields| ==> PeakOfFields(req, typeName, fields, depth, pageSize, total) == 0
    decreases Levels(req, depth), 2, |fields|
  {
    hide CostOfField, PeakOfField, LimitFrom;
    if fields != [] {
      var c, rest := fields[0], fields[1..];
      TrailingStep(fields);
      ExcessIsTrailing(req, typeName, fields, depth, pageSize, total);
      forall i | 0 <= i < |rest| ensures LimitFrom(0, req, typeName, rest[i], depth) && LimitFrom(1, req, typeName, rest[i], depth) {
        assert rest[i] == fields[i + 1];
        FewerLimit(1, req, typeName, rest[i], depth);
      }
      FewerLimit(1, req, typeName, c, depth);
      CostAtLeastOne(req, typeName, c, depth, pageSize);
      var cost := if c.node.name == "__typename" then 1 else CostOfField(req, typeName, c, depth, pageSize).value;
      PeakBelowCost(req, typeName, rest, depth, pageSize, total + cost);
      TrailingCost(req, typeName, rest, depth, pageSize, total + cost);
      if c.node.name != "__typename" { PeakBelowFieldCost(req, typeName, c, depth, pageSize); }
    }
  }

  lemma {:induction false} PeakBelowFieldCost(req: Request, typeName: string, c: Collected, depth: int, pageSize: int)
    requires depth <= req.maxDepth && typeName in req.schema && pageSize >= 1
    requires c.node.name != "__typename" && LimitFrom(1, req, typeName, c, depth)
    requires CostOfField(req, typeName, c, depth, pageSize).Ok?
    ensures PeakOfField(req, typeName, c, depth, pageSize) <= CostOfField(req, typeName, c, depth, pageSize).value
    decreases Levels(req, depth), 1
  {
    hide PeakOfFields, CostOfFields, Collect, CollectOne, ResolveArgs;
    var (def, args) := Check(req, typeName, c).value;
    MultiplierFrom(1, def, args, pageSize);
    if !IsLeaf(def) {
      var childPage, name := ChildPageSize(def, args, pageSize), def.typ.name;
      FewerLimits(1, req, name, c.selections, depth + 1);
      CostNonNegative(req, name, c.selections, depth + 1, childPage);
      var children := CostOf(req, name, c.selections, depth + 1, childPage).value;
      MulMonotone(1, Multiplier(def, args, pageSize), children);
      PeakBelowCost(req, name, Fields(req, name, c.selections).value, depth + 1, childPage, 0);
    }
  }

  /**
   The cost of what is accepted stays under every ceiling when the root selection does not end in
   `__typename`: such a field is added to the total but never checked. With limits of at least 1,
   exactly then; with others a total below may be higher still, which `EscapesIffAbovePeak` decides.
   */
  lemma CeilingHoldsIffLastFieldIsTyped(req: Request, selections: seq<Selection>)
    requires Analyse(req, selections).Ok?
    ensures var holds := forall max: nat | Analyse(req.(maxComplexity := max), selections).Ok? ::
                           Analyse(req.(maxComplexity := max), selections).value <= max;
            var typed := Trailing(Fields(req, "Query", selections).value) == 0;
            && (typed ==> holds)
            && (LimitsFrom(1, req, "Query", selections, 1) ==> (holds <==> typed))
  {
    var fields := Fields(req, "Query", selections).value;
    if Trailing(fields) == 0 {
      forall max: nat | Analyse(req.(maxComplexity := max), selections).Ok?
        ensures Analyse(req.(maxComplexity := max), selections).value <= max
      {
        ExcessIsTrailing(req.(maxComplexity := max), "Query", fields, 1, DEFAULT_QUERY_LIMIT, 0);
      }
    } else if LimitsFrom(1, req, "Query", selections, 1) {
      PeakBelowCost(req, "Query", fields, 1, DEFAULT_QUERY_LIMIT, 0);
      EscapesIffAbovePeak(req, selections);
    }
  }
}
