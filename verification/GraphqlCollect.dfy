/**
 Arguments, directives and field collection: which fields a selection set selects once
 fragments are spread, conditions are applied and equal response keys are merged.
 */
module GraphqlCollect {
  import opened Results
  import opened JavaScript
  import opened GraphqlSyntax

  /** Variable values; looking up any name yields some value, possibly `Undefined`. */
  type Variables = string -> Js

  function Lookup(args: seq<Arg>, name: string): Option<Value> {
    if args == [] then None
    else if args[0].name == name then Some(args[0].value)
    else Lookup(args[1..], name)
  }

  // ---------------------------------------------------------------- values

  /** The digits of a numeric literal as a number; `digits` holds only '0'..'9'. */
  function Digits(digits: string): nat {
    if digits == [] then 0
    else 10 * Digits(digits[..|digits| - 1]) + DigitOf(digits[|digits| - 1])
  }

  function DigitOf(c: char): nat {
    if '0' <= c <= '9' then (c as int) - ('0' as int) else 0
  }

  function Pow10(e: nat): (p: real)
    ensures p > 0.0
  {
    if e == 0 then 1.0 else 10.0 * Pow10(e - 1)
  }

  /** Position of the first character of `s` at or after `i` that is in `stops`, or `|s|`. */
  function FirstOf(s: string, i: nat, stops: set<char>): (j: nat)
    requires i <= |s|
    ensures i <= j <= |s|
    decreases |s| - i
  {
    if i == |s| || s[i] in stops then i else FirstOf(s, i + 1, stops)
  }

  function Mantissa(m: string): real {
    var dot := FirstOf(m, 0, {'.'});
    if dot == |m| then Digits(m) as real
    else Digits(m[..dot]) as real + Digits(m[dot + 1..]) as real / Pow10(|m| - dot - 1)
  }

  function Scaled(size: real, exponent: string): real {
    var digits := if exponent != [] && exponent[0] in {'+', '-'} then exponent[1..] else exponent;
    if exponent != [] && exponent[0] == '-' then size / Pow10(Digits(digits)) else size * Pow10(Digits(digits))
  }

  function Magnitude(body: string): real {
    var e := FirstOf(body, 0, {'e', 'E'});
    if e == |body| then Mantissa(body) else Scaled(Mantissa(body[..e]), body[e + 1..])
  }

  /** `Number(lexeme)` for the int and float lexemes the lexer produces, without rounding. */
  function NumberOf(lexeme: string): real {
    if lexeme != [] && lexeme[0] == '-' then -Magnitude(lexeme[1..]) else Magnitude(lexeme)
  }

  /** The text of a name; names hold only ASCII letters, digits and underscores. */
  function NameText(name: string): Text {
    if IsAscii(name) then Ascii(name) else []
  }

  function ValueOf(v: Value, vars: Variables): Js {
    match v
    case Variable(name) => vars(name)
    case Number(lexeme) => JsNum(NumberOf(lexeme))
    case String(text) => JsStr(text)
    case Boolean(b) => JsBool(b)
    case Null => JsNull
    case Enum(name) => JsStr(NameText(name))
    case List(items) => JsArr(seq(|items|, i requires 0 <= i < |items| => ValueOf(items[i], vars)))
    case Object(fields) => JsObj(ValueOfFields(fields, vars))
  }

  function ValueOfFields(fields: seq<Arg>, vars: Variables): map<string, Js> {
    if fields == [] then map[]
    else map[fields[0].name := ValueOf(fields[0].value, vars)] + ValueOfFields(fields[1..], vars)
  }

  // ---------------------------------------------------------------- arguments

  predicate IsInteger(v: Js) {
    v.JsNum? && v.r == v.r.Floor as real
  }

  predicate StringsOrNulls(items: seq<Js>) {
    forall i | 0 <= i < |items| :: items[i].JsNull? || items[i].JsStr?
  }

  function CoerceArg(def: ArgDef, raw: Js): Result<Js, RequestError> {
    if raw.JsNull? then
      if def.required then Err(BadArgument(def.name)) else Ok(raw)
    else match def.typ
      case StringArg => if raw.JsStr? then Ok(raw) else Err(BadArgument(def.name))
      case IntArg => if IsInteger(raw) then Ok(raw) else Err(BadArgument(def.name))
      case BooleanArg => if raw.JsBool? then Ok(raw) else Err(BadArgument(def.name))
      case OrderArg =>
        if raw == JsStr(NameText("asc")) || raw == JsStr(NameText("desc")) then Ok(raw)
        else Err(BadArgument(def.name))
      case StringListArg =>
        var items := if raw.JsArr? then raw.items else [raw];
        if StringsOrNulls(items) then Ok(JsArr(items))
        else Err(BadArgument(def.name))
  }

  /** Every given argument is declared, or is a name the declaration record inherits. */
  predicate AllDeclared(given: seq<Arg>, declared: seq<ArgDef>) {
    forall i | 0 <= i < |given| ::
      given[i].name in INHERITED || exists j | 0 <= j < |declared| :: declared[j].name == given[i].name
  }

  /** The coerced arguments of a field, keyed by name; absent optional ones have no entry. */
  function ResolveArgs(def: FieldDef, given: seq<Arg>, vars: Variables): Result<map<string, Js>, RequestError> {
    if !AllDeclared(given, def.args) then Err(UnknownArgument(def.typ.name))
    else CoerceAll(def.args, given, vars)
  }

  function CoerceAll(declared: seq<ArgDef>, given: seq<Arg>, vars: Variables): Result<map<string, Js>, RequestError> {
    if declared == [] then Ok(map[])
    else
      var def := declared[0];
      var node := Lookup(given, def.name);
      var raw := if node.Some? then ValueOf(node.value, vars) else Undefined;
      if raw.Undefined? then
        if def.required then Err(MissingArgument(def.name)) else CoerceAll(declared[1..], given, vars)
      else
        var value :- CoerceArg(def, raw);
        var rest :- CoerceAll(declared[1..], given, vars);
        Ok(rest[def.name := value])
  }

  // ---------------------------------------------------------------- @skip and @include

  /** Whether a selection carrying these directives stays. */
  function Included(directives: seq<Directive>, vars: Variables): Result<bool, RequestError> {
    if directives == [] then Ok(true)
    else
      var d := directives[0];
      if d.name != "skip" && d.name != "include" then Err(UnknownDirective(d.name))
      else
        var arg := Lookup(d.args, "if");
        var value := if arg.Some? then ValueOf(arg.value, vars) else Undefined;
        if !value.JsBool? then Err(DirectiveNeedsCondition(d.name))
        else if value.b == (d.name == "skip") then Ok(false)
        else Included(directives[1..], vars)
  }

  // ---------------------------------------------------------------- collected fields

  /** One response key: the first field selecting it and the subselections of all of them. */
  datatype Collected = Collected(key: string, node: FieldNode, selections: seq<Selection>)

  /** An insertion-ordered map from response key to collected field. */
  type Into = seq<Collected>

  function IndexOf(into: Into, key: string): (i: nat)
    ensures i <= |into|
    ensures i < |into| ==> into[i].key == key
    ensures forall j | 0 <= j < i :: into[j].key != key
  {
    if into == [] || into[0].key == key then 0 else 1 + IndexOf(into[1..], key)
  }

  /** Record one selected field: a new key is appended, a known one gains subselections. */
  function AddField(into: Into, field: FieldNode): Result<Into, RequestError> {
    var key := field.ResponseKey();
    var i := IndexOf(into, key);
    if i == |into| then Ok(into + [Collected(key, field, field.Subselections())])
    else if into[i].node.name != field.name then Err(ConflictingFields(key))
    else Ok(into[i := into[i].(selections := into[i].selections + field.Subselections())])
  }

  /**
   Fields of `selections` on type `typeName`, added to `into`. A fragment may not be spread
   while it is being expanded (`visiting`), which is what makes the expansion finite.
   */
  function Collect(doc: Document, typeName: string, selections: seq<Selection>, vars: Variables,
                   into: Into, visiting: set<string>): Result<Into, RequestError>
    decreases |doc.fragments.Keys - visiting|, selections
  {
    if selections == [] then Ok(into)
    else
      var after :- CollectOne(doc, typeName, selections[0], vars, into, visiting);
      Collect(doc, typeName, selections[1..], vars, after, visiting)
  }

  function CollectOne(doc: Document, typeName: string, selection: Selection, vars: Variables,
                      into: Into, visiting: set<string>): Result<Into, RequestError>
    decreases |doc.fragments.Keys - visiting|, selection
  {
    var stays :- Included(selection.directives, vars);
    if !stays then Ok(into)
    else match selection
      case Field(_, _, _, _, _) => AddField(into, selection)
      case Spread(name, _) =>
        if name !in doc.fragments then Err(UnknownFragment(name))
        else if name in visiting then Err(FragmentCycle(name))
        else if doc.fragments[name].typeCondition != typeName then Ok(into)
        else
          assert doc.fragments.Keys - (visiting + {name}) < doc.fragments.Keys - visiting;
          SubsetSmaller(doc.fragments.Keys - (visiting + {name}), doc.fragments.Keys - visiting);
          Collect(doc, typeName, doc.fragments[name].selections, vars, into, visiting + {name})
      case Inline(condition, _, inner) =>
        if condition.Some? && condition.value != typeName then Ok(into)
        else Collect(doc, typeName, inner, vars, into, visiting)
  }

  lemma SubsetSmaller<T>(small: set<T>, big: set<T>)
    requires small < big
    ensures |small| < |big|
  {
    assert |big| == |small| + |big - small| by { assert big == small + (big - small); }
    assert big - small != {};
  }

  // ---------------------------------------------------------------- the collector

  /** `collectFields` as the server runs it: one map and one set, changed as the walk goes. */
  class FieldCollector {
    const doc: Document
    const typeName: string
    const vars: Variables
    var into: Into
    var visiting: set<string>

    constructor (doc: Document, typeName: string, vars: Variables)
      ensures this.doc == doc && this.typeName == typeName && this.vars == vars
      ensures into == [] && visiting == {}
    {
      this.doc, this.typeName, this.vars := doc, typeName, vars;
      into, visiting := [], {};
    }

    method CollectFields(selections: seq<Selection>) returns (failure: Option<RequestError>)
      modifies this
      ensures match Collect(doc, typeName, selections, vars, old(into), old(visiting))
              case Ok(collected) => failure.None? && into == collected && visiting == old(visiting)
              case Err(error) => failure == Some(error)
      decreases |doc.fragments.Keys - visiting|, selections
    {
      ghost var goal := Collect(doc, typeName, selections, vars, into, visiting);
      var i := 0;
      while i < |selections|
        invariant i <= |selections|
        invariant visiting == old(visiting)
        invariant goal == Collect(doc, typeName, selections[i..], vars, into, visiting)
      {
        var selection := selections[i];
        assert selections[i..][0] == selection && selections[i..][1..] == selections[i + 1..];
        i := i + 1;
        match Included(selection.directives, vars) {
          case Err(error) => return Some(error);
          case Ok(stays) => if !stays { continue; }
        }
        match selection {
          case Field(_, _, _, _, _) =>
            match AddField(into, selection) {
              case Err(error) => return Some(error);
              case Ok(updated) => into := updated;
            }
          case Spread(name, _) =>
            if name !in doc.fragments { return Some(UnknownFragment(name)); }
            if name in visiting { return Some(FragmentCycle(name)); }
            if doc.fragments[name].typeCondition != typeName { continue; }
            SubsetSmaller(doc.fragments.Keys - (visiting + {name}), doc.fragments.Keys - visiting);
            visiting := visiting + {name};
            failure := CollectFields(doc.fragments[name].selections);
            if failure.Some? { return; }
            visiting := visiting - {name};
          case Inline(condition, _, inner) =>
            if condition.Some? && condition.value != typeName { continue; }
            failure := CollectFields(inner);
            if failure.Some? { return; }
        }
      }
      failure := None;
    }
  }
}
