/** The parser inverts the printer: on every printed document it returns that document, or refuses it exactly when it must. */
module GraphqlRoundTrip {
  import opened Results
  import opened JavaScript
  import opened GraphqlSyntax
  import opened GraphqlParser
  import opened GraphqlPrint

  /** `r` is the wanted value with the printed tail still to read, if the thing fits; else some error. */
  predicate Comes<T(==)>(r: Parsed<T>, fits: bool, value: T, tail: Tokens) {
    if fits then r == Got(value, tail) else r.Refused?
  }

  // ---------------------------------------------------------------- values

  lemma {:induction false} ValueTrip(v: Value, tail: Tokens, isConst: bool, nesting: nat)
    requires ValueWritten(v)
    ensures Comes(ParseValue(PrintValue(v, tail), isConst, nesting), ValueFits(v, isConst, nesting), Stored(v), tail)
    decreases v
  {
    match v
    case List(items) => ItemsTrip(items, tail, isConst, nesting + 1);
    case Object(fields) => FieldsTrip(fields, tail, isConst, nesting + 1, []);
    case Enum(name) => assert NamedValue(name) == v;
    case _ =>
  }

  lemma {:induction false} ValueStarts(v: Value, tail: Tokens)
    ensures PrintValue(v, tail) != []
    ensures forall p | p in {BracketR, BraceR, ParenR} :: !IsAt(PrintValue(v, tail), p)
  {
  }

  lemma {:induction false} ItemsTrip(items: seq<Value>, tail: Tokens, isConst: bool, nesting: nat)
    requires forall i | 0 <= i < |items| :: ValueWritten(items[i])
    ensures Comes(ParseItems(PrintItems(items, [Mark(BracketR)] + tail), isConst, nesting),
                  ItemsFit(items, isConst, nesting), StoredItems(items), tail)
    decreases items
  {
    if items != [] {
      var rest := PrintItems(items[1..], [Mark(BracketR)] + tail);
      ValueTrip(items[0], rest, isConst, nesting);
      ValueStarts(items[0], rest);
      ItemsTrip(items[1..], tail, isConst, nesting);
    }
  }

  lemma {:induction false} FieldsTrip(fields: seq<Arg>, tail: Tokens, isConst: bool, nesting: nat, before: seq<Arg>)
    requires ArgsWritten(fields)
    ensures Comes(ParseFields(PrintArgs(fields, [Mark(BraceR)] + tail), isConst, nesting, before),
                  FieldsFit(fields, isConst, nesting), StoredFields(fields, before), tail)
    decreases fields
  {
    if fields != [] {
      var rest := PrintArgs(fields[1..], [Mark(BraceR)] + tail);
      var ts := PrintArg(fields[0], rest);
      FieldTrip(fields[0], rest, isConst, nesting);
      assert ts[1..][1..] == PrintValue(fields[0].value, rest);
      FieldsTrip(fields[1..], tail, isConst, nesting, SetField(before, fields[0].name, StoredArg(fields[0]).value));
    }
  }

  lemma {:induction false} FieldTrip(field: Arg, tail: Tokens, isConst: bool, nesting: nat)
    requires ArgWritten(field)
    ensures Comes(ParseValue(PrintValue(field.value, tail), isConst, nesting),
                  FieldFits(field, isConst, nesting), StoredArg(field).value, tail)
    decreases field
  {
    ValueTrip(field.value, tail, isConst, nesting);
  }

  // ---------------------------------------------------------------- arguments and directives

  lemma {:induction false} ArgsTrip(args: seq<Arg>, tail: Tokens, given: set<string>, nesting: nat)
    requires ArgsWritten(args)
    ensures Comes(ParseArgs(PrintArgs(args, [Mark(ParenR)] + tail), given, nesting),
                  ArgsFit(args, given, nesting), StoredArgs(args), tail)
    decreases args
  {
    if args != [] {
      var rest := PrintArgs(args[1..], [Mark(ParenR)] + tail);
      var ts := PrintArg(args[0], rest);
      ValueTrip(args[0].value, rest, false, nesting);
      assert ts[1..][1..] == PrintValue(args[0].value, rest);
      ArgsTrip(args[1..], tail, given + {args[0].name}, nesting);
    }
  }

  lemma OptArgsTrip(args: seq<Arg>, tail: Tokens, nesting: nat)
    requires ArgsWritten(args) && !IsAt(tail, ParenL)
    ensures Comes(ParseOptArgs(PrintOptArgs(args, tail), nesting), ArgsFit(args, {}, nesting), StoredArgs(args), tail)
  {
    if args != [] { ArgsTrip(args, tail, {}, nesting); }
  }

  lemma OptArgsStart(args: seq<Arg>, tail: Tokens)
    ensures PrintOptArgs(args, tail) == tail || IsAt(PrintOptArgs(args, tail), ParenL)
  {
  }

  /** What directives and a following tail start with. */
  lemma DirectivesStart(directives: seq<Directive>, tail: Tokens)
    ensures PrintDirectives(directives, tail) == tail || IsAt(PrintDirectives(directives, tail), At)
  {
  }

  /** What may follow a directive: not another, and no argument list. */
  predicate EndsDirectives(tail: Tokens) { !IsAt(tail, At) && !IsAt(tail, ParenL) }

  lemma {:induction false} DirectivesTrip(directives: seq<Directive>, tail: Tokens, nesting: nat)
    requires DirectivesWritten(directives) && EndsDirectives(tail)
    ensures Comes(ParseDirectives(PrintDirectives(directives, tail), nesting),
                  DirectivesFit(directives, nesting), StoredDirectives(directives), tail)
    decreases |directives|
  {
    if directives != [] {
      var rest := PrintDirectives(directives[1..], tail);
      var ts := PrintDirectives(directives, tail);
      DirectivesTrip(directives[1..], tail, nesting);
      OptArgsTrip(directives[0].args, rest, nesting);
      assert ts[1..][1..] == PrintOptArgs(directives[0].args, rest);
    }
  }

  // ---------------------------------------------------------------- selections

  /** What may follow a selection: another one, or the closing brace. */
  predicate EndsSelection(tail: Tokens) { EndsDirectives(tail) && !IsAt(tail, Colon) && !IsAt(tail, BraceL) }

  lemma {:induction false} SetTrip(selections: seq<Written>, tail: Tokens, nesting: nat)
    requires SetWritten(selections)
    ensures Comes(ParseSelectionSet(PrintSet(selections, tail), nesting), SetFits(selections, nesting), Nodes(selections), tail)
    decreases selections, 1
  {
    SelectionsTrip(selections, tail, nesting + 1);
  }

  lemma SelectionStarts(w: Written, tail: Tokens)
    ensures PrintSelection(w, tail) != [] && !IsAt(PrintSelection(w, tail), BraceR)
    ensures EndsSelection(PrintSelection(w, tail))
  {
  }

  lemma {:induction false} SelectionsTrip(selections: seq<Written>, tail: Tokens, nesting: nat)
    requires forall i | 0 <= i < |selections| :: SelectionWritten(selections[i])
    ensures Comes(ParseSelections(PrintSelections(selections, [Mark(BraceR)] + tail), nesting),
                  SelectionsFit(selections, nesting), Nodes(selections), tail)
    decreases selections, 0
  {
    if selections != [] {
      var rest := PrintSelections(selections[1..], [Mark(BraceR)] + tail);
      if selections[1..] != [] { SelectionStarts(selections[1], PrintSelections(selections[2..], [Mark(BraceR)] + tail)); }
      assert EndsSelection(rest) by {
        if selections[1..] != [] { assert selections[1..][1..] == selections[2..]; }
      }
      SelectionStarts(selections[0], rest);
      SelectionTrip(selections[0], rest, nesting);
      SelectionsTrip(selections[1..], tail, nesting);
    }
  }

  lemma {:induction false} SelectionTrip(w: Written, tail: Tokens, nesting: nat)
    requires SelectionWritten(w) && EndsSelection(tail)
    ensures Comes(ParseSelection(PrintSelection(w, tail), nesting), SelectionFits(w, nesting), Node(w), tail)
    decreases w
  {
    match w
    case WrittenField(alias, name, args, directives, children) =>
      FieldSelectionTrip(w, tail, nesting);
    case WrittenSpread(name, directives) =>
      DirectivesTrip(directives, tail, nesting);
      var ts := PrintSelection(w, tail);
      assert ts[2..] == PrintDirectives(directives, tail);
    case WrittenInline(condition, directives, selections) =>
      InlineTrip(w, tail, nesting);
  }

  lemma {:induction false} InlineTrip(w: Written, tail: Tokens, nesting: nat)
    requires w.WrittenInline? && SelectionWritten(w)
    ensures Comes(ParseSelection(PrintSelection(w, tail), nesting), SelectionFits(w, nesting), Node(w), tail)
    decreases w, 0
  {
    hide PrintDirectives, PrintSelections, ParseDirectives, ParseSelectionSet;
    hide DirectivesFit, SelectionsFit, StoredDirectives, Nodes, SetFits;
    var after := PrintSet(w.selections, tail);
    DirectivesStart(w.directives, after);
    var body := PrintDirectives(w.directives, after);
    var ts := PrintSelection(w, tail);
    DirectivesTrip(w.directives, after, nesting);
    SetTrip(w.selections, tail, nesting);
    assert Comes(ParseInline(w.condition, body, nesting), SelectionFits(w, nesting), Node(w), tail);
    if w.condition.Some? {
      assert ts[2..][1..] == body;
    }
  }

  /** A field after its name. */
  function FieldBody(w: Written, tail: Tokens): Tokens
    requires w.WrittenField?
  {
    PrintOptArgs(w.args, PrintDirectives(w.directives, if w.children == [] then tail else PrintSet(w.children, tail)))
  }

  lemma {:induction false} FieldBodyTrip(w: Written, tail: Tokens, nesting: nat)
    requires w.WrittenField? && SelectionWritten(w) && EndsSelection(tail)
    ensures Comes(ParseField(w.alias, w.name, FieldBody(w, tail), nesting), SelectionFits(w, nesting), Node(w), tail)
    ensures !IsAt(FieldBody(w, tail), Colon)
    decreases w, 0
  {
    var afterDirectives := if w.children == [] then tail else PrintSet(w.children, tail);
    var afterArgs := PrintDirectives(w.directives, afterDirectives);
    if w.children != [] { SetTrip(w.children, tail, nesting); }
    hide PrintDirectives, PrintSelections, ParseDirectives, ParseSelectionSet, ParseOptArgs, PrintOptArgs;
    hide DirectivesFit, SelectionsFit, StoredDirectives, StoredArgs, Nodes, ArgsFit, SetFits;
    DirectivesStart(w.directives, afterDirectives);
    OptArgsStart(w.args, afterArgs);
    DirectivesTrip(w.directives, afterDirectives, nesting);
    OptArgsTrip(w.args, afterArgs, nesting);
  }

  lemma {:induction false} FieldSelectionTrip(w: Written, tail: Tokens, nesting: nat)
    requires w.WrittenField? && SelectionWritten(w) && EndsSelection(tail)
    ensures Comes(ParseSelection(PrintSelection(w, tail), nesting), SelectionFits(w, nesting), Node(w), tail)
    decreases w, 1
  {
    FieldBodyTrip(w, tail, nesting);
    var ts, body := PrintSelection(w, tail), FieldBody(w, tail);
    assert ts == PrintAlias(w.alias, [Word(w.name)] + body);
    hide PrintSelection, FieldBody, ParseField, SelectionFits, Node, SelectionWritten;
    if w.alias.Some? {
      assert ts[1..][1..][1..] == body;
    } else {
      assert ts[1..] == body;
    }
  }

  // ---------------------------------------------------------------- variables

  lemma {:induction false} TypeTrip(t: WrittenType, tail: Tokens, nesting: nat)
    requires !IsAt(tail, Bang)
    ensures Comes(ParseType(PrintType(t, tail), nesting), TypeFits(t, nesting), (TypeText(t), t.nonNull), tail)
    decreases t
  {
    match t
    case Named(name, nonNull) =>
      assert PrintType(t, tail)[1..] == PrintBang(nonNull, tail);
      assert name + "" == name;
    case ListOf(item, nonNull) =>
      var inner := [Mark(BracketR)] + PrintBang(nonNull, tail);
      TypeTrip(item, inner, nesting + 1);
      assert PrintType(t, tail)[1..] == PrintType(item, inner);
      assert inner[1..] == PrintBang(nonNull, tail);
      assert "[" + TypeText(item) + "]" + "" == "[" + TypeText(item) + "]";
  }

  lemma DefaultTrip(default: Option<Value>, tail: Tokens)
    requires default.Some? ==> ValueWritten(default.value)
    requires !IsAt(tail, Equals)
    ensures Comes(ParseDefault(PrintDefault(default, tail)), default.Some? ==> ValueFits(default.value, true, 0),
                  match default case None => None case Some(d) => Some(Stored(d)), tail)
  {
    if default.Some? { ValueTrip(default.value, tail, true, 0); }
  }

  lemma DefaultStart(default: Option<Value>, tail: Tokens)
    ensures PrintDefault(default, tail) == tail || IsAt(PrintDefault(default, tail), Equals)
  {
  }

  lemma {:induction false} VariablesTrip(variables: seq<WrittenVariable>, tail: Tokens)
    requires forall i | 0 <= i < |variables| :: VariableWritten(variables[i])
    ensures Comes(ParseVariables(PrintVariables(variables, [Mark(ParenR)] + tail)), VariablesFit(variables), VariableNodes(variables), tail)
    decreases |variables|
  {
    if variables != [] {
      var v := variables[0];
      var rest := PrintVariables(variables[1..], [Mark(ParenR)] + tail);
      VariableTrip(v, rest);
      VariablesTrip(variables[1..], tail);
    }
  }

  lemma VariableTrip(v: WrittenVariable, tail: Tokens)
    requires VariableWritten(v) && EndsDirectives(tail) && !IsAt(tail, Equals) && !IsAt(tail, Bang)
    ensures Comes(
      ParseVariable([Mark(Dollar), Word(v.name), Mark(Colon)]
                    + PrintType(v.typ, PrintDefault(v.default, PrintDirectives(v.directives, tail)))),
      TypeFits(v.typ, 0) && (v.default.Some? ==> ValueFits(v.default.value, true, 0)) && DirectivesFit(v.directives, 0),
      VariableDefinition(v.name, TypeText(v.typ), v.typ.nonNull, match v.default case None => None case Some(d) => Some(Stored(d))),
      tail)
  {
    hide PrintDirectives, PrintType, PrintDefault, ParseDirectives, ParseType, ParseDefault;
    hide DirectivesFit, TypeFits, ValueFits, Stored, TypeText;
    var directives := PrintDirectives(v.directives, tail);
    DirectivesStart(v.directives, tail);
    DefaultStart(v.default, directives);
    var default := PrintDefault(v.default, directives);
    var ts := [Mark(Dollar), Word(v.name), Mark(Colon)] + PrintType(v.typ, default);
    DirectivesTrip(v.directives, tail, 0);
    DefaultTrip(v.default, directives);
    TypeTrip(v.typ, default, 0);
    assert ts[1..][1..][1..] == PrintType(v.typ, default);
  }

  // ---------------------------------------------------------------- documents

  lemma OptVariablesTrip(variables: seq<WrittenVariable>, tail: Tokens)
    requires (forall i | 0 <= i < |variables| :: VariableWritten(variables[i])) && !IsAt(tail, ParenL)
    ensures Comes(ParseOptVariables(PrintOptVariables(variables, tail)), VariablesFit(variables), VariableNodes(variables), tail)
  {
    NoVariables();
    hide PrintVariables, ParseVariables, VariablesFit, VariableNodes, VariableWritten;
    if variables != [] { VariablesTrip(variables, tail); }
  }

  lemma NoVariables()
    ensures VariablesFit([]) && VariableNodes([]) == []
  {
  }

  lemma OperationTrip(d: Definition, tail: Tokens)
    requires d.FullOperation? && DefinitionWritten(d)
    ensures Comes(ParseOperation(d.kind, PrintDefinition(d, tail)[1..]), DefinitionFits(d, {}),
                  Operation(d.kind, d.title, VariableNodes(d.variables), Nodes(d.selections)), tail)
  {
    hide PrintDirectives, PrintVariables, PrintSelections, ParseDirectives, ParseVariables, ParseSelectionSet;
    hide DirectivesFit, VariablesFit, SelectionsFit, StoredDirectives, VariableNodes, Nodes, SetFits;
    var set0 := PrintSet(d.selections, tail);
    var directives := PrintDirectives(d.directives, set0);
    assert !IsAt(directives, ParenL) && !IsWord(directives) by { DirectivesStart(d.directives, set0); }
    var variables := PrintOptVariables(d.variables, directives);
    SetTrip(d.selections, tail, 0);
    DirectivesTrip(d.directives, set0, 0);
    OptVariablesTrip(d.variables, directives);
    assert PrintDefinition(d, tail)[1..] == PrintName(d.title, variables);
    assert OptName(PrintName(d.title, variables)) == (d.title, variables);
  }

  lemma FragmentTrip(d: Definition, tail: Tokens, known: set<string>)
    requires d.FragmentDefinition? && DefinitionWritten(d)
    ensures Comes(ParseFragment(PrintDefinition(d, tail)[1..], known), DefinitionFits(d, known),
                  Fragment(d.name, d.condition, Nodes(d.selections)), tail)
  {
    hide PrintDirectives, PrintSelections, ParseDirectives, ParseSelectionSet;
    hide DirectivesFit, SelectionsFit, StoredDirectives, Nodes, SetFits;
    var set0 := PrintSet(d.selections, tail);
    var directives := PrintDirectives(d.directives, set0);
    SetTrip(d.selections, tail, 0);
    DirectivesTrip(d.directives, set0, 0);
    assert PrintDefinition(d, tail)[1..][1..][1..][1..] == directives;
  }

  /** One definition: the parser goes on after it with its meaning added, or stops at an error. */
  lemma DefinitionTrip(d: Definition, tail: Tokens, doc: Document)
    requires DefinitionWritten(d)
    ensures var ts := PrintDefinition(d, tail);
      && ts != []
      && if DefinitionFits(d, doc.fragments.Keys) then ParseDefinitions(ts, doc) == ParseDefinitions(tail, AddDefinition(d, doc))
         else ParseDefinitions(ts, doc).Err?
  {
    hide PrintDirectives, PrintSelections, ParseSelectionSet, ParseOperation, ParseFragment, Nodes, VariableNodes;
    hide DirectivesFit, VariablesFit, SetFits, DirectivesWritten, SetWritten;
    match d
    case Shorthand(selections) => SetTrip(selections, tail, 0);
    case FullOperation(kind, _, _, _, _) =>
      OperationTrip(d, tail);
      assert OperationWord(KindWord(kind)) == Some(kind);
      assert KindWord(kind) != "fragment";
    case FragmentDefinition(_, _, _, _) =>
      FragmentTrip(d, tail, doc.fragments.Keys);
  }

  lemma {:induction false} DefinitionsTrip(definitions: seq<Definition>, doc: Document)
    requires forall d | d in definitions :: DefinitionWritten(d)
    ensures if DefinitionsFit(definitions, doc) then ParseDefinitions(Print(definitions), doc) == Ok(AddDefinitions(definitions, doc))
            else ParseDefinitions(Print(definitions), doc).Err?
    decreases |definitions|
  {
    hide PrintDefinition, DefinitionWritten, DefinitionFits, AddDefinition;
    if definitions != [] {
      DefinitionTrip(definitions[0], Print(definitions[1..]), doc);
      DefinitionsTrip(definitions[1..], AddDefinition(definitions[0], doc));
    }
  }

  /**
   The parser inverts the printer. Every written document comes back as its own syntax tree exactly
   when it fits: brackets nest at most 64 deep, defaults hold no variable, no argument is repeated or
   named like a member every object inherits, fragment names are distinct and an operation exists.
   Anything else is refused.
   */
  lemma ParserInvertsPrinter(definitions: seq<Definition>)
    requires forall d | d in definitions :: DefinitionWritten(d)
    ensures if DefinitionsFit(definitions, Document([], map[])) then ParseDocument(Print(definitions)) == Ok(DocumentOf(definitions))
            else ParseDocument(Print(definitions)).Err?
  {
    DefinitionsTrip(definitions, Document([], map[]));
  }

  // ---------------------------------------------------------------- arguments that fit

  /** An argument list is accepted exactly when its names are distinct, none is inherited, and its values fit. */
  lemma {:induction false} ArgsFitIff(args: seq<Arg>, given: set<string>, nesting: nat)
    ensures ArgsFit(args, given, nesting) <==>
            && (forall i, j | 0 <= i < j < |args| :: args[i].name != args[j].name)
            && (forall i | 0 <= i < |args| :: !InRecord(given, args[i].name))
            && (forall i | 0 <= i < |args| :: ValueFits(args[i].value, false, nesting))
    decreases |args|
  {
    hide ValueFits;
    if args != [] {
      var rest := args[1..];
      ArgsFitIff(rest, given + {args[0].name}, nesting);
      assert forall i | 1 <= i < |args| :: args[i] == rest[i - 1];
      assert forall i | 0 <= i < |rest| :: rest[i] == args[i + 1];
      assert forall i | 0 <= i < |rest| :: InRecord(given + {args[0].name}, rest[i].name) <==>
        (InRecord(given, rest[i].name) || rest[i].name == args[0].name);
    }
  }

  /** The document `{ f(name: null) }`. */
  function OneArgument(name: string): seq<Definition> {
    [Shorthand([WrittenField(None, "f", [Arg(name, Null)], [], [])])]
  }

  /** So one argument, given once, is refused by its name alone: exactly when every object inherits it. */
  lemma OneArgumentRefusedIff(name: string)
    ensures ParseDocument(Print(OneArgument(name))).Err? <==> name in INHERITED
    ensures ParseDocument(Print(OneArgument("toString"))).Err?
  {
    OneArgumentFits(name);
    OneArgumentFits("toString");
    hide ParseDocument, Print, DefinitionsFit, OneArgument;
    ParserInvertsPrinter(OneArgument(name));
    ParserInvertsPrinter(OneArgument("toString"));
  }

  lemma OneArgumentFits(name: string)
    ensures forall d | d in OneArgument(name) :: DefinitionWritten(d)
    ensures DefinitionsFit(OneArgument(name), Document([], map[])) <==> name !in INHERITED
  {
    var definitions := OneArgument(name);
    var args := [Arg(name, Null)];
    var field := WrittenField(None, "f", args, [], []);
    assert args[1..] == [] && ArgsWritten([]) && ArgWritten(args[0]) && ArgsWritten(args);
    assert SelectionWritten(field) && SetWritten([field]);
    assert DefinitionWritten(definitions[0]);
    assert InRecord({}, name) <==> name in INHERITED;
    assert ArgsFit([], {name}, 1) && ValueFits(Null, false, 1);
    assert ArgsFit(args, {}, 1) <==> name !in INHERITED;
    assert [field][1..] == [] && SelectionsFit([], 1);
    assert SelectionFits(field, 1) <==> name !in INHERITED;
    assert SelectionsFit([field], 1) <==> name !in INHERITED;
    assert definitions[1..] == [];
    assert DefinitionFits(definitions[0], {}) <==> name !in INHERITED;
    assert AddDefinition(definitions[0], Document([], map[])).operations != [];
  }

  // ---------------------------------------------------------------- objects that come back whole

  /** No object in the value repeats a key or has the key `__proto__`. */
  ghost predicate KeysPlain(v: Value)
    decreases v
  {
    match v
    case List(items) => forall i | 0 <= i < |items| :: KeysPlain(items[i])
    case Object(fields) => NamesPlain(fields) && FieldsPlain(fields)
    case _ => true
  }

  ghost predicate NamesPlain(fields: seq<Arg>) {
    && (forall i, j | 0 <= i < j < |fields| :: fields[i].name != fields[j].name)
    && (forall i | 0 <= i < |fields| :: fields[i].name != "__proto__")
  }

  ghost predicate FieldsPlain(fields: seq<Arg>)
    decreases fields
  {
    forall i | 0 <= i < |fields| :: FieldPlain(fields[i])
  }

  ghost predicate FieldPlain(field: Arg)
    decreases field
  {
    KeysPlain(field.value)
  }

  /** A value comes back as it was written exactly when its objects' keys are plain. */
  lemma {:induction false} StoredExactIff(v: Value)
    ensures Stored(v) == v <==> KeysPlain(v)
    decreases v
  {
    match v
    case List(items) => StoredItemsExact(items);
    case Object(fields) =>
      StoredArgsExact(fields);
      StoredObjectExact(fields);
    case _ =>
  }

  /** Of a key written twice the first value is lost, and of `__proto__` the only one. */
  lemma KeysAreLost(v: Value, u: Value)
    ensures Stored(Object([Arg("k", v), Arg("k", u)])) == Object([Arg("k", Stored(u))])
    ensures Stored(Object([Arg("__proto__", v)])) == Object([])
  {
    var twice := [Arg("k", v), Arg("k", u)];
    assert twice[1..] == [Arg("k", u)] && twice[1..][1..] == [];
    var once := SetField([], "k", Stored(v));
    assert once == [Arg("k", Stored(v))];
    assert SetField(once, "k", Stored(u)) == [Arg("k", Stored(u))] by { assert FieldIndex(once, "k") == 0; }
    assert StoredFields(twice, []) == StoredFields(twice[1..], once) == StoredFields([], SetField(once, "k", Stored(u)));
    var proto := [Arg("__proto__", v)];
    assert proto[1..] == [];
    assert StoredFields(proto, []) == StoredFields([], []);
  }

  lemma {:induction false} StoredItemsExact(items: seq<Value>)
    ensures |StoredItems(items)| == |items|
    ensures StoredItems(items) == items <==> forall i | 0 <= i < |items| :: KeysPlain(items[i])
    decreases items
  {
    if items != [] {
      StoredExactIff(items[0]);
      StoredItemsExact(items[1..]);
      assert items == [items[0]] + items[1..];
      assert forall i | 0 <= i < |items[1..]| :: items[1..][i] == items[i + 1];
      HeadAndTail(items, Stored(items[0]), StoredItems(items[1..]));
    }
  }

  lemma HeadAndTail<T>(s: seq<T>, head: T, tail: seq<T>)
    requires s != []
    ensures [head] + tail == s <==> head == s[0] && tail == s[1..]
  {
    assert ([head] + tail)[0] == head && ([head] + tail)[1..] == tail;
    assert s == [s[0]] + s[1..];
  }

  lemma {:induction false} StoredArgsLength(args: seq<Arg>)
    ensures |StoredArgs(args)| == |args|
  {
    if args != [] { StoredArgsLength(args[1..]); }
  }

  lemma {:induction false} StoredArgsExact(args: seq<Arg>)
    ensures StoredArgs(args) == args <==> FieldsPlain(args)
    decreases args
  {
    if args != [] {
      StoredArgExact(args[0]);
      StoredArgsExact(args[1..]);
      assert forall i | 0 <= i < |args[1..]| :: args[1..][i] == args[i + 1];
      HeadAndTail(args, StoredArg(args[0]), StoredArgs(args[1..]));
    }
  }

  lemma {:induction false} StoredArgExact(arg: Arg)
    ensures StoredArg(arg) == arg <==> FieldPlain(arg)
    decreases arg
  {
    StoredExactIff(arg.value);
  }

  predicate Names(fields: seq<Arg>, name: string) { FieldIndex(fields, name) < |fields| }

  /** Assigning the fields to the object `before` would only append. */
  ghost predicate Appends(fields: seq<Arg>, before: seq<Arg>) {
    && (forall i, j | 0 <= i < j < |fields| :: fields[i].name != fields[j].name)
    && (forall i | 0 <= i < |fields| :: fields[i].name != "__proto__" && !Names(before, fields[i].name))
  }

  lemma {:induction false} NamesSnoc(fields: seq<Arg>, last: Arg, name: string)
    ensures Names(fields + [last], name) <==> Names(fields, name) || last.name == name
  {
    if fields != [] {
      NamesSnoc(fields[1..], last, name);
      assert (fields + [last])[1..] == fields[1..] + [last];
    }
  }

  lemma AppendsStep(fields: seq<Arg>, before: seq<Arg>, value: Value)
    requires fields != []
    ensures var first := fields[0];
      Appends(fields, before) <==>
        first.name != "__proto__" && !Names(before, first.name) && Appends(fields[1..], before + [Arg(first.name, value)])
  {
    var rest, after := fields[1..], before + [Arg(fields[0].name, value)];
    hide Names;
    assert forall i | 1 <= i < |fields| :: fields[i] == rest[i - 1];
    forall i | 0 <= i < |rest| ensures rest[i] == fields[i + 1] {}
    forall i | 0 <= i < |rest|
      ensures Names(after, rest[i].name) <==> Names(before, rest[i].name) || rest[i].name == fields[0].name
    {
      NamesSnoc(before, Arg(fields[0].name, value), rest[i].name);
    }
  }

  /** Assigning fields one by one appends them all, or else ends with fewer than were written. */
  lemma {:induction false} StoredFieldsExact(fields: seq<Arg>, before: seq<Arg>)
    ensures if Appends(fields, before) then StoredFields(fields, before) == before + StoredArgs(fields)
            else |StoredFields(fields, before)| < |before| + |fields|
    decreases |fields|
  {
    hide Appends, StoredArg;
    if fields == [] {
      assert before + [] == before;
      assert Appends(fields, before) by { AppendsNothing(before); }
    } else {
      var name, value := fields[0].name, StoredArg(fields[0]).value;
      var after := SetField(before, name, value);
      assert StoredArg(fields[0]) == Arg(name, value) by { ArgOf(fields[0]); }
      AppendsStep(fields, before, value);
      StoredFieldsExact(fields[1..], after);
      StoredArgsLength(fields[1..]);
      assert before + [Arg(name, value)] + StoredArgs(fields[1..]) == before + ([Arg(name, value)] + StoredArgs(fields[1..]));
    }
  }

  lemma AppendsFresh(fields: seq<Arg>)
    ensures Appends(fields, []) <==> NamesPlain(fields)
  {
  }

  lemma StoredObjectExact(fields: seq<Arg>)
    requires StoredArgs(fields) == fields <==> FieldsPlain(fields)
    ensures StoredFields(fields, []) == fields <==> KeysPlain(Object(fields))
  {
    StoredFieldsExact(fields, []);
    AppendsFresh(fields);
    hide Appends, StoredFields, StoredArgs, FieldsPlain, NamesPlain;
    assert [] + StoredArgs(fields) == StoredArgs(fields);
  }

  lemma AppendsNothing(before: seq<Arg>)
    ensures Appends([], before)
  {
  }

  lemma ArgOf(arg: Arg)
    ensures StoredArg(arg) == Arg(arg.name, StoredArg(arg).value)
  {
  }
}
