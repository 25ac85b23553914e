/**
 The abstract syntax of a GraphQL document, the schema it is checked against and
 the JavaScript values that flow through variables, arguments and resolvers.
 */
module GraphqlSyntax {
  import opened Results

  /** Text whose exact UTF-16 code units matter: the contents of string literals. */
  type CodeUnit = x: int | 0 <= x < 0x1_0000
  type Text = seq<CodeUnit>

  predicate IsAscii(s: string) {
    forall i | 0 <= i < |s| :: s[i] as int < 128
  }

  function CodeOf(c: char): CodeUnit
    requires c as int < 128
  {
    c as int
  }

  function Ascii(s: string): (t: Text)
    requires IsAscii(s)
    ensures |t| == |s| && forall i | 0 <= i < |s| :: t[i] == s[i] as int
  {
    seq(|s|, i requires 0 <= i < |s| => CodeOf(s[i]))
  }

  datatype Value =
    | Variable(name: string)
    | Number(lexeme: string)
    | String(text: Text)
    | Boolean(b: bool)
    | Null
    | Enum(name: string)
    | List(items: seq<Value>)
    | Object(fields: seq<Arg>)

  /** One entry of a JavaScript record, in insertion order. */
  datatype Arg = Arg(name: string, value: Value)

  datatype Directive = Directive(name: string, args: seq<Arg>)

  datatype Selection =
    | Field(alias: Option<string>, name: string, args: seq<Arg>, directives: seq<Directive>,
            children: Option<seq<Selection>>)
    | Spread(name: string, directives: seq<Directive>)
    | Inline(typeCondition: Option<string>, directives: seq<Directive>, selections: seq<Selection>)
  {
    /** The key the field is answered under: its alias, else its name. */
    function ResponseKey(): string
      requires Field?
    {
      if alias.Some? then alias.value else name
    }

    function Subselections(): seq<Selection>
      requires Field?
    {
      if children.Some? then children.value else []
    }
  }

  type FieldNode = s: Selection | s.Field? witness Field(None, "id", [], [], None)

  datatype VariableDefinition =
    VariableDefinition(name: string, typeText: string, nonNull: bool, defaultValue: Option<Value>)

  datatype OperationKind = Query | Mutation | Subscription

  datatype Operation =
    Operation(kind: OperationKind, name: Option<string>, variables: seq<VariableDefinition>,
              selections: seq<Selection>)

  datatype Fragment = Fragment(name: string, typeCondition: string, selections: seq<Selection>)

  /** Fragments are keyed by name; the parser refuses a second definition of a name. */
  datatype Document = Document(operations: seq<Operation>, fragments: map<string, Fragment>)

  // ---------------------------------------------------------------- JavaScript values

  datatype Js =
    | Undefined
    | JsNull
    | JsBool(b: bool)
    | JsNum(r: real)
    | JsStr(text: Text)
    | JsArr(items: seq<Js>)
    | JsObj(fields: map<string, Js>)
    | JsFunction

  predicate Nullish(v: Js) {
    v.Undefined? || v.JsNull?
  }

  // ---------------------------------------------------------------- schema

  datatype TypeRef = TypeRef(name: string, list: bool, nonNull: bool, itemNonNull: bool)

  datatype ArgType = StringArg | IntArg | BooleanArg | StringListArg | OrderArg

  datatype ArgDef = ArgDef(name: string, typ: ArgType, required: bool)

  /** How many items the cost model assumes a list field returns. */
  datatype ListSize = Unsized | Fixed(items: Count) | LimitArgument | ParentPage

  type Count = n: int | n >= 1 witness 1

  datatype FieldDef = FieldDef(typ: TypeRef, args: seq<ArgDef>, size: ListSize, paged: bool)

  /** Object types by name, each a record of field definitions. */
  type Schema = map<string, map<string, FieldDef>>

  const SCALARS: set<string> := {"String", "Int", "Float", "Boolean", "JSON"}

  /** Everything that stops a request with an error of the GraphQL layer, or crashes it. */
  datatype RequestError =
    | UnknownDirective(name: string)
    | DirectiveNeedsCondition(name: string)
    | ConflictingFields(key: string)
    | UnknownFragment(name: string)
    | FragmentCycle(name: string)
    | TooDeep
    | TooComplex
    | UnknownType(name: string)
    | Introspection
    | UnknownField(typeName: string, name: string)
    | UnknownArgument(name: string)
    | MissingArgument(name: string)
    | BadArgument(name: string)
    | LeafWithSelection(name: string)
    | ObjectWithoutSelection(name: string)
    | TypeFailure  // a JavaScript TypeError: not one of the layer's own errors
}
