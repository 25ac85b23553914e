/** What argument coercion and the `@skip`/`@include` directives promise. */
module GraphqlArguments {
  import opened Results
  import opened JavaScript
  import opened GraphqlSyntax
  import opened GraphqlCollect

  // ---------------------------------------------------------------- integers

  lemma {:induction false} DecimalDigits(n: nat)
    ensures Digits(Decimal(n)) == n
  {
    var text := Decimal(n);
    if n < 10 {
      assert text[..0] == [];
    } else {
      DecimalDigits(n / 10);
      assert text[..|text| - 1] == Decimal(n / 10);
    }
  }

  lemma {:induction false} NoStop(s: string, i: nat, stops: set<char>)
    requires i <= |s| && forall j | i <= j < |s| :: s[j] !in stops
    ensures FirstOf(s, i, stops) == |s|
    decreases |s| - i
  {
    if i < |s| { NoStop(s, i + 1, stops); }
  }

  lemma PlainNumber(body: string)
    requires body != [] && (forall i | 0 <= i < |body| :: '0' <= body[i] <= '9')
    ensures NumberOf(body) == Digits(body) as real && NumberOf("-" + body) == -(Digits(body) as real)
  {
    NoStop(body, 0, {'e', 'E'});
    NoStop(body, 0, {'.'});
    hide Digits, FirstOf, Pow10;
    assert Magnitude(body) == Digits(body) as real;
    assert ("-" + body)[1..] == body;
  }

  lemma Whole(k: int, r: real)
    requires r == k as real
    ensures IsInteger(JsNum(r))
  {
    assert r.Floor == k;
  }

  /** An integer written in decimal, with or without a minus, is read as that number, which `Int` accepts. */
  lemma IntegersReadBack(n: nat)
    ensures NumberOf(Decimal(n)) == n as real && NumberOf("-" + Decimal(n)) == -(n as real)
    ensures IsInteger(JsNum(NumberOf(Decimal(n)))) && IsInteger(JsNum(NumberOf("-" + Decimal(n))))
  {
    DecimalDigits(n);
    DecimalIsDigits(n);
    PlainNumber(Decimal(n));
    hide NumberOf, Digits, Decimal, IsInteger;
    var minus: int := 0 - n;
    Whole(n, n as real);
    Whole(minus, -(n as real));
  }

  // ---------------------------------------------------------------- arguments

  /** The coerced values of an argument type that are not null. */
  predicate HasType(v: Js, typ: ArgType) {
    match typ
    case StringArg => v.JsStr?
    case IntArg => IsInteger(v)
    case BooleanArg => v.JsBool?
    case OrderArg => v == JsStr(NameText("asc")) || v == JsStr(NameText("desc"))
    case StringListArg => v.JsArr? && StringsOrNulls(v.items)
  }

  /** What an argument becomes: itself, but a value that is no list becomes a list of one where a list is due. */
  function Listed(raw: Js, typ: ArgType): Js {
    if typ == StringListArg && !raw.JsArr? && !raw.JsNull? then JsArr([raw]) else raw
  }

  predicate Acceptable(def: ArgDef, raw: Js) {
    if Nullish(raw) then !def.required else HasType(Listed(raw, def.typ), def.typ)
  }

  /** The raw value of a declared argument: what was given for it, or undefined. */
  function Raw(def: ArgDef, given: seq<Arg>, vars: Variables): Js {
    match Lookup(given, def.name) case None => Undefined case Some(v) => ValueOf(v, vars)
  }

  lemma CoerceArgIff(def: ArgDef, raw: Js)
    requires !raw.Undefined?
    ensures CoerceArg(def, raw).Ok? <==> Acceptable(def, raw)
    ensures CoerceArg(def, raw).Ok? ==> CoerceArg(def, raw).value == Listed(raw, def.typ)
  {
    assert StringsOrNulls([raw]) <==> raw.JsNull? || raw.JsStr? by { assert [raw][0] == raw; }
  }

  /** Coercing what was coerced changes nothing. */
  lemma CoercionStable(def: ArgDef, raw: Js)
    requires CoerceArg(def, raw).Ok? && !raw.Undefined?
    ensures CoerceArg(def, CoerceArg(def, raw).value) == CoerceArg(def, raw)
  {
    CoerceArgIff(def, raw);
    CoerceArgIff(def, Listed(raw, def.typ));
  }

  ghost predicate DistinctNames(declared: seq<ArgDef>) {
    forall i, j | 0 <= i < j < |declared| :: declared[i].name != declared[j].name
  }

  /** `args` holds exactly the declared arguments that have a value, each coerced. */
  ghost predicate Holds(args: map<string, Js>, declared: seq<ArgDef>, given: seq<Arg>, vars: Variables) {
    && (forall i | 0 <= i < |declared| ::
          var d := declared[i];
          var raw := Raw(d, given, vars);
          (d.name in args <==> !raw.Undefined?) && (d.name in args ==> args[d.name] == Listed(raw, d.typ)))
    && (forall name | name in args :: exists i | 0 <= i < |declared| :: declared[i].name == name)
  }

  ghost predicate AllAcceptable(declared: seq<ArgDef>, given: seq<Arg>, vars: Variables) {
    forall i | 0 <= i < |declared| :: Acceptable(declared[i], Raw(declared[i], given, vars))
  }

  lemma HoldsMore(args: map<string, Js>, declared: seq<ArgDef>, given: seq<Arg>, vars: Variables)
    requires declared != [] && DistinctNames(declared) && Holds(args, declared[1..], given, vars)
    ensures var d := declared[0];
            var raw := Raw(d, given, vars);
            Holds(if raw.Undefined? then args else args[d.name := Listed(raw, d.typ)], declared, given, vars)
  {
    hide Raw, Listed;
    var d, rest := declared[0], declared[1..];
    var raw := Raw(d, given, vars);
    var more := if raw.Undefined? then args else args[d.name := Listed(raw, d.typ)];
    forall i | 0 <= i < |rest| ensures rest[i] == declared[i + 1] {}
    assert d.name !in args;
    forall i | 0 <= i < |declared|
      ensures (declared[i].name in more <==> !Raw(declared[i], given, vars).Undefined?)
        && (declared[i].name in more ==> more[declared[i].name] == Listed(Raw(declared[i], given, vars), declared[i].typ))
    {
      if i > 0 { assert declared[i] == rest[i - 1] && declared[i].name != d.name; }
    }
    forall name | name in more ensures exists i | 0 <= i < |declared| :: declared[i].name == name {
      if name == d.name {
        assert declared[0].name == name;
      } else {
        var i :| 0 <= i < |rest| && rest[i].name == name;
        assert declared[i + 1].name == name;
      }
    }
  }

  lemma {:induction false} CoerceAllIff(declared: seq<ArgDef>, given: seq<Arg>, vars: Variables)
    requires DistinctNames(declared)
    ensures CoerceAll(declared, given, vars).Ok? <==> AllAcceptable(declared, given, vars)
    ensures CoerceAll(declared, given, vars).Ok? ==> Holds(CoerceAll(declared, given, vars).value, declared, given, vars)
    decreases |declared|
  {
    hide CoerceArg, Acceptable, Holds, ValueOf;
    if declared == [] {
      assert Holds(map[], declared, given, vars) by { NothingHeld(given, vars); }
    } else {
      var d, rest := declared[0], declared[1..];
      var raw := Raw(d, given, vars);
      assert forall i | 0 <= i < |rest| :: rest[i] == declared[i + 1];
      assert AllAcceptable(declared, given, vars) <==> Acceptable(d, raw) && AllAcceptable(rest, given, vars);
      CoerceAllIff(rest, given, vars);
      if raw.Undefined? { AbsentIff(d); } else { CoerceArgIff(d, raw); }
      if CoerceAll(rest, given, vars).Ok? { HoldsMore(CoerceAll(rest, given, vars).value, declared, given, vars); }
    }
  }

  lemma AbsentIff(def: ArgDef)
    ensures Acceptable(def, Undefined) <==> !def.required
  {
  }

  lemma NothingHeld(given: seq<Arg>, vars: Variables)
    ensures Holds(map[], [], given, vars)
  {
  }

  /**
   Arguments resolve if and only if every one given is declared (or named like an inherited member),
   every required one has a value that is not null, and each has its declared type, a lone value
   standing for a list of one. The result holds exactly the declared arguments with a value.
   */
  lemma ArgumentsResolveIff(def: FieldDef, given: seq<Arg>, vars: Variables)
    requires DistinctNames(def.args)
    ensures ResolveArgs(def, given, vars).Ok? <==> AllDeclared(given, def.args) && AllAcceptable(def.args, given, vars)
    ensures ResolveArgs(def, given, vars).Ok? ==> Holds(ResolveArgs(def, given, vars).value, def.args, given, vars)
  {
    CoerceAllIff(def.args, given, vars);
  }

  /** So a resolver only sees values of the declared types, and every required one. */
  lemma ResolversSeeTypedArguments(def: FieldDef, given: seq<Arg>, vars: Variables, i: nat)
    requires DistinctNames(def.args) && ResolveArgs(def, given, vars).Ok? && i < |def.args|
    ensures var args, d := ResolveArgs(def, given, vars).value, def.args[i];
      && (d.required ==> d.name in args)
      && (d.name in args ==> HasType(args[d.name], d.typ) || (args[d.name] == JsNull && !d.required))
  {
    ArgumentsResolveIff(def, given, vars);
    var d := def.args[i];
    assert Acceptable(d, Raw(d, given, vars));
    hide HasType, Raw, ResolveArgs;
  }

  // ---------------------------------------------------------------- directives

  /** A directive of the two known names with a condition that is a boolean. */
  predicate Understood(d: Directive, vars: Variables) {
    (d.name == "skip" || d.name == "include") && Condition(d, vars).JsBool?
  }

  function Condition(d: Directive, vars: Variables): Js {
    match Lookup(d.args, "if") case None => Undefined case Some(v) => ValueOf(v, vars)
  }

  predicate Excludes(d: Directive, vars: Variables) {
    Understood(d, vars) && Condition(d, vars).b == (d.name == "skip")
  }

  /** The first `k` directives are understood and let the selection stay. */
  ghost predicate Passes(directives: seq<Directive>, vars: Variables, k: nat)
    requires k <= |directives|
  {
    forall i | 0 <= i < k :: Understood(directives[i], vars) && !Excludes(directives[i], vars)
  }

  /**
   A selection stays if and only if all its directives are understood and none excludes it; it goes
   if and only if one does and those before it are understood. Otherwise the query is refused, and
   what follows an excluding directive is never looked at.
   */
  lemma {:induction false} IncludedIff(directives: seq<Directive>, vars: Variables)
    ensures Included(directives, vars) == Ok(true) <==> Passes(directives, vars, |directives|)
    ensures Included(directives, vars) == Ok(false) <==>
            exists k | 0 <= k < |directives| :: Passes(directives, vars, k) && Excludes(directives[k], vars)
    decreases |directives|
  {
    if directives != [] {
      var rest := directives[1..];
      IncludedIff(rest, vars);
      IncludedStep(directives, vars);
      PassesStep(directives, vars, 0);
      forall k: nat | k < |rest|
        ensures Passes(directives, vars, k + 1) <==>
                Understood(directives[0], vars) && !Excludes(directives[0], vars) && Passes(rest, vars, k)
        ensures rest[k] == directives[k + 1]
      {
        PassesStep(directives, vars, k);
      }
      PassesStep(directives, vars, |rest|);
      hide Included, Understood, Excludes, Passes;
      if Included(rest, vars) == Ok(false) {
        var k :| 0 <= k < |rest| && Passes(rest, vars, k) && Excludes(rest[k], vars);
        assert Excludes(directives[k + 1], vars);
      }
      if k :| 0 < k < |directives| && Passes(directives, vars, k) && Excludes(directives[k], vars) {
        assert Passes(rest, vars, k - 1) && Excludes(rest[k - 1], vars);
      }
    }
  }

  lemma PassesStep(directives: seq<Directive>, vars: Variables, k: nat)
    requires directives != [] && k <= |directives[1..]|
    ensures Passes(directives, vars, 0)
    ensures Passes(directives, vars, k + 1) <==>
            Understood(directives[0], vars) && !Excludes(directives[0], vars) && Passes(directives[1..], vars, k)
  {
    hide Understood, Excludes;
    assert forall i | 1 <= i < |directives| :: directives[i] == directives[1..][i - 1];
    assert forall i | 0 <= i < |directives[1..]| :: directives[1..][i] == directives[i + 1];
  }

  lemma IncludedStep(directives: seq<Directive>, vars: Variables)
    requires directives != []
    ensures var d, r := directives[0], Included(directives, vars);
      if !Understood(d, vars) then r.Err? && !Excludes(d, vars)
      else if Excludes(d, vars) then r == Ok(false)
      else r == Included(directives[1..], vars)
  {
  }
}
