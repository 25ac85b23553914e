/**
 The recursive-descent parser over tokens: what each of its methods consumes and returns, as
 functions of the tokens still to read and the nesting counter. The end of the tokens is the
 end of the document.
 */
module GraphqlParser {
  import opened Results
  import opened JavaScript
  import opened GraphqlSyntax

  datatype Punct =
    | Bang | Dollar | Amp | ParenL | ParenR | BracketL | BracketR | BraceL | BraceR | Colon | Equals | At | Pipe | Dots

  datatype Token = Mark(p: Punct) | Word(s: string) | Numeral(lexeme: string) | Quote(text: Text)

  type Tokens = seq<Token>

  datatype SyntaxError = BadSyntax | NestsTooDeep | FragmentTwice | NoOperation

  /** What a parsing method leaves: its value and the tokens after it, or the error it throws. */
  datatype Parsed<+T> = Got(value: T, rest: Tokens) | Refused(error: SyntaxError) {
    predicate IsFailure() { Refused? }

    function PropagateFailure<U>(): Parsed<U>
      requires Refused?
    {
      Refused(error)
    }

    function Extract(): (T, Tokens)
      requires Got?
    {
      (value, rest)
    }
  }

  const MAX_PARSE_NESTING := 64

  predicate IsAt(ts: Tokens, p: Punct) { ts != [] && ts[0] == Mark(p) }
  predicate IsWord(ts: Tokens) { ts != [] && ts[0].Word? }

  function ExpectPunct(ts: Tokens, p: Punct): (r: Parsed<()>)
    ensures r.Got? ==> |r.rest| < |ts|
  {
    if IsAt(ts, p) then Got((), ts[1..]) else Refused(BadSyntax)
  }

  function ExpectName(ts: Tokens): (r: Parsed<string>)
    ensures r.Got? ==> |r.rest| < |ts|
  {
    if IsWord(ts) then Got(ts[0].s, ts[1..]) else Refused(BadSyntax)
  }

  // ---------------------------------------------------------------- values

  function NamedValue(s: string): Value {
    if s == "true" then Boolean(true)
    else if s == "false" then Boolean(false)
    else if s == "null" then Null
    else Enum(s)
  }

  function FieldIndex(fields: seq<Arg>, name: string): (i: nat)
    ensures i <= |fields| && (i < |fields| ==> fields[i].name == name)
    ensures forall j | 0 <= j < i :: fields[j].name != name
  {
    if fields == [] || fields[0].name == name then 0 else 1 + FieldIndex(fields[1..], name)
  }

  /** `fields[name] = value` on a plain object: `__proto__` sets the prototype and no key. */
  function SetField(fields: seq<Arg>, name: string, value: Value): seq<Arg> {
    var i := FieldIndex(fields, name);
    if name == "__proto__" then fields
    else if i < |fields| then fields[i := Arg(name, value)]
    else fields + [Arg(name, value)]
  }

  function ParseValue(ts: Tokens, isConst: bool, nesting: nat): (r: Parsed<Value>)
    ensures r.Got? ==> |r.rest| < |ts|
    decreases |ts|, 0
  {
    if ts == [] then Refused(BadSyntax)
    else
      match ts[0]
      case Mark(Dollar) =>
        if isConst then Refused(BadSyntax)
        else var name :- ExpectName(ts[1..]); Got(Variable(name.0), name.1)
      case Mark(BracketL) =>
        if nesting + 1 > MAX_PARSE_NESTING then Refused(NestsTooDeep)
        else var items :- ParseItems(ts[1..], isConst, nesting + 1); Got(List(items.0), items.1)
      case Mark(BraceL) =>
        if nesting + 1 > MAX_PARSE_NESTING then Refused(NestsTooDeep)
        else var fields :- ParseFields(ts[1..], isConst, nesting + 1, []); Got(Object(fields.0), fields.1)
      case Mark(_) => Refused(BadSyntax)
      case Numeral(lexeme) => Got(Number(lexeme), ts[1..])
      case Quote(text) => Got(String(text), ts[1..])
      case Word(s) => Got(NamedValue(s), ts[1..])
  }

  function ParseItems(ts: Tokens, isConst: bool, nesting: nat): (r: Parsed<seq<Value>>)
    ensures r.Got? ==> |r.rest| < |ts|
    decreases |ts|, 1
  {
    if IsAt(ts, BracketR) then Got([], ts[1..])
    else
      var item :- ParseValue(ts, isConst, nesting);
      var items :- ParseItems(item.1, isConst, nesting);
      Got([item.0] + items.0, items.1)
  }

  /** The rest of an object, whose fields so far are `fields`. */
  function ParseFields(ts: Tokens, isConst: bool, nesting: nat, fields: seq<Arg>): (r: Parsed<seq<Arg>>)
    ensures r.Got? ==> |r.rest| < |ts|
    decreases |ts|, 1
  {
    if IsAt(ts, BraceR) then Got(fields, ts[1..])
    else
      var name :- ExpectName(ts);
      var colon :- ExpectPunct(name.1, Colon);
      var value :- ParseValue(colon.1, isConst, nesting);
      ParseFields(value.1, isConst, nesting, SetField(fields, name.0, value.0))
  }

  // ---------------------------------------------------------------- arguments and directives

  /** `name in args`, where `args` also answers to every inherited name. */
  predicate InRecord(args: set<string>, name: string) { name in args || name in INHERITED }

  /** The rest of an argument list after the arguments named in `given`. */
  function ParseArgs(ts: Tokens, given: set<string>, nesting: nat): (r: Parsed<seq<Arg>>)
    ensures r.Got? ==> |r.rest| < |ts|
    decreases |ts|, 1
  {
    if IsAt(ts, ParenR) then Got([], ts[1..])
    else
      var name :- ExpectName(ts);
      var colon :- ExpectPunct(name.1, Colon);
      if InRecord(given, name.0) then Refused(BadSyntax)
      else
        var value :- ParseValue(colon.1, false, nesting);
        var args :- ParseArgs(value.1, given + {name.0}, nesting);
        Got([Arg(name.0, value.0)] + args.0, args.1)
  }

  function ParseOptArgs(ts: Tokens, nesting: nat): (r: Parsed<seq<Arg>>)
    ensures r.Got? ==> |r.rest| <= |ts|
  {
    if IsAt(ts, ParenL) then ParseArgs(ts[1..], {}, nesting) else Got([], ts)
  }

  function ParseDirectives(ts: Tokens, nesting: nat): (r: Parsed<seq<Directive>>)
    ensures r.Got? ==> |r.rest| <= |ts|
    decreases |ts|
  {
    if !IsAt(ts, At) then Got([], ts)
    else
      var name :- ExpectName(ts[1..]);
      var args :- ParseOptArgs(name.1, nesting);
      var directives :- ParseDirectives(args.1, nesting);
      Got([Directive(name.0, args.0)] + directives.0, directives.1)
  }

  // ---------------------------------------------------------------- selections

  function ParseSelectionSet(ts: Tokens, nesting: nat): (r: Parsed<seq<Selection>>)
    ensures r.Got? ==> |r.rest| < |ts|
    decreases |ts|, 0
  {
    if !IsAt(ts, BraceL) then Refused(BadSyntax)
    else if nesting + 1 > MAX_PARSE_NESTING then Refused(NestsTooDeep)
    else
      var selections :- ParseSelections(ts[1..], nesting + 1);
      if selections.0 == [] then Refused(BadSyntax) else Got(selections.0, selections.1)
  }

  function ParseSelections(ts: Tokens, nesting: nat): (r: Parsed<seq<Selection>>)
    ensures r.Got? ==> |r.rest| < |ts|
    decreases |ts|, 2
  {
    if IsAt(ts, BraceR) then Got([], ts[1..])
    else if ts == [] then Refused(BadSyntax)
    else
      var selection :- ParseSelection(ts, nesting);
      var selections :- ParseSelections(selection.1, nesting);
      Got([selection.0] + selections.0, selections.1)
  }

  function ParseSelection(ts: Tokens, nesting: nat): (r: Parsed<Selection>)
    ensures r.Got? ==> |r.rest| < |ts|
    decreases |ts|, 1
  {
    if IsAt(ts, Dots) then
      if IsWord(ts[1..]) && ts[1].s != "on" then
        var directives :- ParseDirectives(ts[2..], nesting);
        Got(Spread(ts[1].s, directives.0), directives.1)
      else if IsWord(ts[1..]) then
        var condition :- ExpectName(ts[2..]);
        ParseInline(Some(condition.0), condition.1, nesting)
      else ParseInline(None, ts[1..], nesting)
    else
      var first :- ExpectName(ts);
      if IsAt(first.1, Colon) then
        var name :- ExpectName(first.1[1..]);
        ParseField(Some(first.0), name.0, name.1, nesting)
      else ParseField(None, first.0, first.1, nesting)
  }

  function ParseInline(condition: Option<string>, ts: Tokens, nesting: nat): (r: Parsed<Selection>)
    ensures r.Got? ==> |r.rest| < |ts|
    decreases |ts|, 1
  {
    var directives :- ParseDirectives(ts, nesting);
    var selections :- ParseSelectionSet(directives.1, nesting);
    Got(Inline(condition, directives.0, selections.0), selections.1)
  }

  function ParseField(alias: Option<string>, name: string, ts: Tokens, nesting: nat): (r: Parsed<Selection>)
    ensures r.Got? ==> |r.rest| <= |ts|
    decreases |ts|, 1
  {
    var args :- ParseOptArgs(ts, nesting);
    var directives :- ParseDirectives(args.1, nesting);
    if IsAt(directives.1, BraceL) then
      var selections :- ParseSelectionSet(directives.1, nesting);
      Got(Field(alias, name, args.0, directives.0, Some(selections.0)), selections.1)
    else Got(Field(alias, name, args.0, directives.0, None), directives.1)
  }

  // ---------------------------------------------------------------- variables

  /** The printed type, and whether it ends in `!`. */
  function ParseType(ts: Tokens, nesting: nat): (r: Parsed<(string, bool)>)
    ensures r.Got? ==> |r.rest| < |ts|
    decreases |ts|
  {
    if IsAt(ts, BracketL) then
      if nesting + 1 > MAX_PARSE_NESTING then Refused(NestsTooDeep)
      else
        var inner :- ParseType(ts[1..], nesting + 1);
        var close :- ExpectPunct(inner.1, BracketR);
        Got(Banged("[" + inner.0.0 + "]", close.1), AfterBang(close.1))
    else
      var name :- ExpectName(ts);
      Got(Banged(name.0, name.1), AfterBang(name.1))
  }

  function Banged(text: string, ts: Tokens): (string, bool) {
    if IsAt(ts, Bang) then (text + "!", true) else (text, false)
  }

  function AfterBang(ts: Tokens): Tokens { if IsAt(ts, Bang) then ts[1..] else ts }

  function ParseDefault(ts: Tokens): (r: Parsed<Option<Value>>)
    ensures r.Got? ==> |r.rest| <= |ts|
  {
    if !IsAt(ts, Equals) then Got(None, ts)
    else var value :- ParseValue(ts[1..], true, 0); Got(Some(value.0), value.1)
  }

  function ParseVariable(ts: Tokens): (r: Parsed<VariableDefinition>)
    ensures r.Got? ==> |r.rest| < |ts|
  {
    var dollar :- ExpectPunct(ts, Dollar);
    var name :- ExpectName(dollar.1);
    var colon :- ExpectPunct(name.1, Colon);
    var typ :- ParseType(colon.1, 0);
    var default :- ParseDefault(typ.1);
    var directives :- ParseDirectives(default.1, 0);
    Got(VariableDefinition(name.0, typ.0.0, typ.0.1, default.0), directives.1)
  }

  function ParseVariables(ts: Tokens): (r: Parsed<seq<VariableDefinition>>)
    ensures r.Got? ==> |r.rest| < |ts|
    decreases |ts|
  {
    if IsAt(ts, ParenR) then Got([], ts[1..])
    else
      var variable :- ParseVariable(ts);
      var variables :- ParseVariables(variable.1);
      Got([variable.0] + variables.0, variables.1)
  }

  // ---------------------------------------------------------------- documents

  function OperationWord(s: string): Option<OperationKind> {
    if s == "query" then Some(Query)
    else if s == "mutation" then Some(Mutation)
    else if s == "subscription" then Some(Subscription)
    else None
  }

  function OptName(ts: Tokens): (Option<string>, Tokens) {
    if IsWord(ts) then (Some(ts[0].s), ts[1..]) else (None, ts)
  }

  function ParseOptVariables(ts: Tokens): (r: Parsed<seq<VariableDefinition>>)
    ensures r.Got? ==> |r.rest| <= |ts|
  {
    if IsAt(ts, ParenL) then ParseVariables(ts[1..]) else Got([], ts)
  }

  function ParseOperation(kind: OperationKind, ts: Tokens): (r: Parsed<Operation>)
    ensures r.Got? ==> |r.rest| < |ts|
  {
    var name := OptName(ts);
    var variables :- ParseOptVariables(name.1);
    var directives :- ParseDirectives(variables.1, 0);
    var selections :- ParseSelectionSet(directives.1, 0);
    Got(Operation(kind, name.0, variables.0, selections.0), selections.1)
  }

  function ParseFragment(ts: Tokens, known: set<string>): (r: Parsed<Fragment>)
    ensures r.Got? ==> |r.rest| < |ts|
  {
    var name :- ExpectName(ts);
    if name.0 == "on" then Refused(BadSyntax)
    else
      var on :- ExpectName(name.1);
      if on.0 != "on" then Refused(BadSyntax)
      else
        var condition :- ExpectName(on.1);
        var directives :- ParseDirectives(condition.1, 0);
        if name.0 in known then Refused(FragmentTwice)
        else
          var selections :- ParseSelectionSet(directives.1, 0);
          Got(Fragment(name.0, condition.0, selections.0), selections.1)
  }

  /** The rest of a document after the definitions in `doc`. */
  function ParseDefinitions(ts: Tokens, doc: Document): Result<Document, SyntaxError>
    decreases |ts|
  {
    if ts == [] then
      if doc.operations == [] then Err(NoOperation) else Ok(doc)
    else if IsAt(ts, BraceL) then
      match ParseSelectionSet(ts, 0)
      case Refused(e) => Err(e)
      case Got(selections, rest) =>
        ParseDefinitions(rest, doc.(operations := doc.operations + [Operation(Query, None, [], selections)]))
    else if ts[0] == Word("fragment") then
      match ParseFragment(ts[1..], doc.fragments.Keys)
      case Refused(e) => Err(e)
      case Got(fragment, rest) => ParseDefinitions(rest, doc.(fragments := doc.fragments[fragment.name := fragment]))
    else if ts[0].Word? && OperationWord(ts[0].s).Some? then
      match ParseOperation(OperationWord(ts[0].s).value, ts[1..])
      case Refused(e) => Err(e)
      case Got(operation, rest) => ParseDefinitions(rest, doc.(operations := doc.operations + [operation]))
    else Err(BadSyntax)
  }

  function ParseDocument(ts: Tokens): Result<Document, SyntaxError> {
    ParseDefinitions(ts, Document([], map[]))
  }
}
