/**
 The printer that specifies the parser: concrete syntax of documents, its tokens, and what the
 parser should make of it. Every printer takes the tokens that follow.
 */
module GraphqlPrint {
  import opened Results
  import opened GraphqlSyntax
  import opened GraphqlParser

  /** A field without sub-selections has no children; an empty selection set does not exist. */
  datatype Written =
    | WrittenField(alias: Option<string>, name: string, args: seq<Arg>, directives: seq<Directive>, children: seq<Written>)
    | WrittenSpread(name: string, directives: seq<Directive>)
    | WrittenInline(condition: Option<string>, directives: seq<Directive>, selections: seq<Written>)

  datatype WrittenType = Named(name: string, nonNull: bool) | ListOf(item: WrittenType, nonNull: bool)

  datatype WrittenVariable =
    WrittenVariable(name: string, typ: WrittenType, default: Option<Value>, directives: seq<Directive>)

  datatype Definition =
    | Shorthand(selections: seq<Written>)
    | FullOperation(kind: OperationKind, title: Option<string>, variables: seq<WrittenVariable>,
                    directives: seq<Directive>, selections: seq<Written>)
    | FragmentDefinition(name: string, condition: string, directives: seq<Directive>, selections: seq<Written>)

  // ---------------------------------------------------------------- printing

  function PrintValue(v: Value, tail: Tokens): Tokens
    decreases v
  {
    match v
    case Variable(name) => [Mark(Dollar), Word(name)] + tail
    case Number(lexeme) => [Numeral(lexeme)] + tail
    case String(text) => [Quote(text)] + tail
    case Boolean(b) => [Word(if b then "true" else "false")] + tail
    case Null => [Word("null")] + tail
    case Enum(name) => [Word(name)] + tail
    case List(items) => [Mark(BracketL)] + PrintItems(items, [Mark(BracketR)] + tail)
    case Object(fields) => [Mark(BraceL)] + PrintArgs(fields, [Mark(BraceR)] + tail)
  }

  function PrintItems(items: seq<Value>, tail: Tokens): Tokens
    decreases items
  {
    if items == [] then tail else PrintValue(items[0], PrintItems(items[1..], tail))
  }

  function PrintArgs(args: seq<Arg>, tail: Tokens): Tokens
    decreases args
  {
    if args == [] then tail else PrintArg(args[0], PrintArgs(args[1..], tail))
  }

  function PrintArg(arg: Arg, tail: Tokens): Tokens
    decreases arg
  {
    [Word(arg.name), Mark(Colon)] + PrintValue(arg.value, tail)
  }

  function PrintOptArgs(args: seq<Arg>, tail: Tokens): Tokens {
    if args == [] then tail else [Mark(ParenL)] + PrintArgs(args, [Mark(ParenR)] + tail)
  }

  function PrintDirectives(directives: seq<Directive>, tail: Tokens): Tokens {
    if directives == [] then tail
    else [Mark(At), Word(directives[0].name)] + PrintOptArgs(directives[0].args, PrintDirectives(directives[1..], tail))
  }

  function PrintSet(selections: seq<Written>, tail: Tokens): Tokens
    decreases selections, 1
  {
    [Mark(BraceL)] + PrintSelections(selections, [Mark(BraceR)] + tail)
  }

  function PrintSelections(selections: seq<Written>, tail: Tokens): Tokens
    decreases selections, 0
  {
    if selections == [] then tail else PrintSelection(selections[0], PrintSelections(selections[1..], tail))
  }

  function PrintSelection(w: Written, tail: Tokens): Tokens
    decreases w
  {
    match w
    case WrittenField(alias, name, args, directives, children) =>
      PrintAlias(alias, [Word(name)] + PrintOptArgs(args, PrintDirectives(directives,
        if children == [] then tail else PrintSet(children, tail))))
    case WrittenSpread(name, directives) => [Mark(Dots), Word(name)] + PrintDirectives(directives, tail)
    case WrittenInline(condition, directives, selections) =>
      [Mark(Dots)] + PrintCondition(condition, PrintDirectives(directives, PrintSet(selections, tail)))
  }

  function PrintAlias(alias: Option<string>, tail: Tokens): Tokens {
    match alias case None => tail case Some(name) => [Word(name), Mark(Colon)] + tail
  }

  function PrintCondition(condition: Option<string>, tail: Tokens): Tokens {
    match condition case None => tail case Some(name) => [Word("on"), Word(name)] + tail
  }

  function PrintType(t: WrittenType, tail: Tokens): Tokens
    decreases t
  {
    match t
    case Named(name, nonNull) => [Word(name)] + PrintBang(nonNull, tail)
    case ListOf(item, nonNull) => [Mark(BracketL)] + PrintType(item, [Mark(BracketR)] + PrintBang(nonNull, tail))
  }

  function PrintBang(nonNull: bool, tail: Tokens): Tokens { if nonNull then [Mark(Bang)] + tail else tail }

  function PrintDefault(default: Option<Value>, tail: Tokens): Tokens {
    match default case None => tail case Some(v) => [Mark(Equals)] + PrintValue(v, tail)
  }

  function PrintVariables(variables: seq<WrittenVariable>, tail: Tokens): Tokens {
    if variables == [] then tail
    else
      var v := variables[0];
      [Mark(Dollar), Word(v.name), Mark(Colon)]
      + PrintType(v.typ, PrintDefault(v.default, PrintDirectives(v.directives, PrintVariables(variables[1..], tail))))
  }

  function KindWord(kind: OperationKind): string {
    match kind case Query => "query" case Mutation => "mutation" case Subscription => "subscription"
  }

  function PrintDefinition(d: Definition, tail: Tokens): Tokens {
    match d
    case Shorthand(selections) => PrintSet(selections, tail)
    case FullOperation(kind, name, variables, directives, selections) =>
      [Word(KindWord(kind))] + PrintName(name, PrintOptVariables(variables, PrintDirectives(directives, PrintSet(selections, tail))))
    case FragmentDefinition(name, condition, directives, selections) =>
      [Word("fragment"), Word(name), Word("on"), Word(condition)] + PrintDirectives(directives, PrintSet(selections, tail))
  }

  function PrintName(name: Option<string>, tail: Tokens): Tokens {
    match name case None => tail case Some(s) => [Word(s)] + tail
  }

  function PrintOptVariables(variables: seq<WrittenVariable>, tail: Tokens): Tokens {
    if variables == [] then tail else [Mark(ParenL)] + PrintVariables(variables, [Mark(ParenR)] + tail)
  }

  function Print(definitions: seq<Definition>): Tokens {
    if definitions == [] then [] else PrintDefinition(definitions[0], Print(definitions[1..]))
  }

  // ---------------------------------------------------------------- what a printed form means

  /** A value as the parser stores it: fields assigned one after the other to a plain object. */
  function Stored(v: Value): Value
    decreases v
  {
    match v
    case List(items) => List(StoredItems(items))
    case Object(fields) => Object(StoredFields(fields, []))
    case _ => v
  }

  function StoredItems(items: seq<Value>): seq<Value>
    decreases items
  {
    if items == [] then [] else [Stored(items[0])] + StoredItems(items[1..])
  }

  function StoredArg(arg: Arg): Arg
    decreases arg
  {
    Arg(arg.name, Stored(arg.value))
  }

  function StoredFields(fields: seq<Arg>, before: seq<Arg>): seq<Arg>
    decreases fields
  {
    if fields == [] then before
    else StoredFields(fields[1..], SetField(before, fields[0].name, StoredArg(fields[0]).value))
  }

  function StoredArgs(args: seq<Arg>): seq<Arg> {
    if args == [] then [] else [StoredArg(args[0])] + StoredArgs(args[1..])
  }

  function StoredDirectives(directives: seq<Directive>): seq<Directive> {
    if directives == [] then []
    else [Directive(directives[0].name, StoredArgs(directives[0].args))] + StoredDirectives(directives[1..])
  }

  function Node(w: Written): Selection
    decreases w
  {
    match w
    case WrittenField(alias, name, args, directives, children) =>
      Field(alias, name, StoredArgs(args), StoredDirectives(directives),
            if children == [] then None else Some(Nodes(children)))
    case WrittenSpread(name, directives) => Spread(name, StoredDirectives(directives))
    case WrittenInline(condition, directives, selections) =>
      Inline(condition, StoredDirectives(directives), Nodes(selections))
  }

  function Nodes(selections: seq<Written>): seq<Selection>
    decreases selections
  {
    if selections == [] then [] else [Node(selections[0])] + Nodes(selections[1..])
  }

  function TypeText(t: WrittenType): string {
    (match t case Named(name, _) => name case ListOf(item, _) => "[" + TypeText(item) + "]")
    + (if t.nonNull then "!" else "")
  }

  function VariableNodes(variables: seq<WrittenVariable>): seq<VariableDefinition> {
    if variables == [] then []
    else
      var v := variables[0];
      var default := match v.default case None => None case Some(d) => Some(Stored(d));
      [VariableDefinition(v.name, TypeText(v.typ), v.typ.nonNull, default)] + VariableNodes(variables[1..])
  }

  /** The document of some definitions, added to `doc`; directives on definitions leave no trace. */
  function AddDefinitions(definitions: seq<Definition>, doc: Document): Document
    decreases |definitions|
  {
    if definitions == [] then doc else AddDefinitions(definitions[1..], AddDefinition(definitions[0], doc))
  }

  function AddDefinition(d: Definition, doc: Document): Document {
    match d
    case Shorthand(selections) => doc.(operations := doc.operations + [Operation(Query, None, [], Nodes(selections))])
    case FullOperation(kind, name, variables, _, selections) =>
      doc.(operations := doc.operations + [Operation(kind, name, VariableNodes(variables), Nodes(selections))])
    case FragmentDefinition(name, condition, _, selections) =>
      doc.(fragments := doc.fragments[name := Fragment(name, condition, Nodes(selections))])
  }

  function DocumentOf(definitions: seq<Definition>): Document { AddDefinitions(definitions, Document([], map[])) }

  // ---------------------------------------------------------------- syntax that prints as itself

  /** An enum value is not one of the words that mean something else. */
  ghost predicate ValueWritten(v: Value)
    decreases v
  {
    match v
    case Enum(name) => name != "true" && name != "false" && name != "null"
    case List(items) => forall i | 0 <= i < |items| :: ValueWritten(items[i])
    case Object(fields) => ArgsWritten(fields)
    case _ => true
  }

  ghost predicate ArgsWritten(args: seq<Arg>)
    decreases args
  {
    args == [] || (ArgWritten(args[0]) && ArgsWritten(args[1..]))
  }

  ghost predicate ArgWritten(arg: Arg)
    decreases arg
  {
    ValueWritten(arg.value)
  }

  ghost predicate DirectivesWritten(directives: seq<Directive>) {
    forall d | d in directives :: ArgsWritten(d.args)
  }

  ghost predicate SelectionWritten(w: Written)
    decreases w
  {
    match w
    case WrittenField(_, _, args, directives, children) =>
      ArgsWritten(args) && DirectivesWritten(directives) && forall i | 0 <= i < |children| :: SelectionWritten(children[i])
    case WrittenSpread(name, directives) => name != "on" && DirectivesWritten(directives)
    case WrittenInline(_, directives, selections) => DirectivesWritten(directives) && SetWritten(selections)
  }

  ghost predicate SetWritten(selections: seq<Written>)
    decreases selections
  {
    selections != [] && forall i | 0 <= i < |selections| :: SelectionWritten(selections[i])
  }

  ghost predicate VariableWritten(v: WrittenVariable) {
    (v.default.Some? ==> ValueWritten(v.default.value)) && DirectivesWritten(v.directives)
  }

  ghost predicate DefinitionWritten(d: Definition) {
    && SetWritten(d.selections)
    && (!d.Shorthand? ==> DirectivesWritten(d.directives))
    && (d.FullOperation? ==> forall v | v in d.variables :: VariableWritten(v))
    && (d.FragmentDefinition? ==> d.name != "on")
  }

  // ---------------------------------------------------------------- what the parser accepts

  /** Brackets nest within the limit, and no constant refers to a variable. */
  predicate ValueFits(v: Value, isConst: bool, nesting: nat)
    decreases v
  {
    match v
    case Variable(_) => !isConst
    case List(items) => nesting + 1 <= MAX_PARSE_NESTING && ItemsFit(items, isConst, nesting + 1)
    case Object(fields) => nesting + 1 <= MAX_PARSE_NESTING && FieldsFit(fields, isConst, nesting + 1)
    case _ => true
  }

  predicate ItemsFit(items: seq<Value>, isConst: bool, nesting: nat)
    decreases items
  {
    items == [] || (ValueFits(items[0], isConst, nesting) && ItemsFit(items[1..], isConst, nesting))
  }

  predicate FieldsFit(fields: seq<Arg>, isConst: bool, nesting: nat)
    decreases fields
  {
    fields == [] || (FieldFits(fields[0], isConst, nesting) && FieldsFit(fields[1..], isConst, nesting))
  }

  predicate FieldFits(field: Arg, isConst: bool, nesting: nat)
    decreases field
  {
    ValueFits(field.value, isConst, nesting)
  }

  /** No argument is named twice or like a member every object inherits. */
  predicate ArgsFit(args: seq<Arg>, given: set<string>, nesting: nat) {
    args == [] ||
    (!InRecord(given, args[0].name) && ValueFits(args[0].value, false, nesting)
     && ArgsFit(args[1..], given + {args[0].name}, nesting))
  }

  predicate DirectivesFit(directives: seq<Directive>, nesting: nat) {
    directives == [] || (ArgsFit(directives[0].args, {}, nesting) && DirectivesFit(directives[1..], nesting))
  }

  predicate SelectionFits(w: Written, nesting: nat)
    decreases w
  {
    && DirectivesFit(w.directives, nesting)
    && match w
       case WrittenField(_, _, args, _, children) =>
         ArgsFit(args, {}, nesting) && (children == [] || SetFits(children, nesting))
       case WrittenSpread(_, _) => true
       case WrittenInline(_, _, selections) => SetFits(selections, nesting)
  }

  predicate SetFits(selections: seq<Written>, nesting: nat)
    decreases selections, 1
  {
    nesting + 1 <= MAX_PARSE_NESTING && SelectionsFit(selections, nesting + 1)
  }

  predicate SelectionsFit(selections: seq<Written>, nesting: nat)
    decreases selections, 0
  {
    selections == [] || (SelectionFits(selections[0], nesting) && SelectionsFit(selections[1..], nesting))
  }

  predicate TypeFits(t: WrittenType, nesting: nat)
    decreases t
  {
    t.ListOf? ==> nesting + 1 <= MAX_PARSE_NESTING && TypeFits(t.item, nesting + 1)
  }

  predicate VariablesFit(variables: seq<WrittenVariable>) {
    variables == [] ||
    (var v := variables[0];
     TypeFits(v.typ, 0) && (v.default.Some? ==> ValueFits(v.default.value, true, 0)) && DirectivesFit(v.directives, 0)
     && VariablesFit(variables[1..]))
  }

  predicate DefinitionFits(d: Definition, known: set<string>) {
    && SetFits(d.selections, 0)
    && (!d.Shorthand? ==> DirectivesFit(d.directives, 0))
    && (d.FullOperation? ==> VariablesFit(d.variables))
    && (d.FragmentDefinition? ==> d.name !in known)
  }

  /** Every definition fits, no fragment is defined twice, and there is an operation. */
  predicate DefinitionsFit(definitions: seq<Definition>, doc: Document)
    decreases |definitions|
  {
    if definitions == [] then doc.operations != []
    else
      && DefinitionFits(definitions[0], doc.fragments.Keys)
      && DefinitionsFit(definitions[1..], AddDefinition(definitions[0], doc))
  }
}
