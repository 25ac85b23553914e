/**
 The parser object: a position and a nesting counter over tokens that end in an end-of-file token.
 Each method does what the function of its name in GraphqlParser says of the tokens left, reads no
 slot past the end, and on success leaves the nesting counter as it found it.
 */
module GraphqlDescent {
  import opened Results
  import opened GraphqlSyntax
  import opened GraphqlParser
  import GraphqlLexer
  import GraphqlText

  datatype Slot = Tok(token: Token) | Eof

  predicate EndsInEof(slots: seq<Slot>) {
    slots != [] && slots[|slots| - 1] == Eof && forall i | 0 <= i < |slots| - 1 :: slots[i].Tok?
  }

  /** The tokens from a position on, up to the end of the file. */
  function TokensFrom(slots: seq<Slot>, pos: nat): Tokens
    requires EndsInEof(slots) && pos < |slots|
  {
    seq(|slots| - 1 - pos, i requires 0 <= i < |slots| - 1 - pos => slots[pos + i].token)
  }

  /** A loop's value so far, put before what the rest of the loop yields. */
  function More<T>(before: seq<T>, p: Parsed<seq<T>>): Parsed<seq<T>> {
    match p case Got(v, rest) => Got(before + v, rest) case Refused(e) => Refused(e)
  }

  lemma MoreNothing<T>(p: Parsed<seq<T>>)
    ensures More([], p) == p
  {
    if p.Got? { assert [] + p.value == p.value; }
  }

  lemma MoreStep<T>(before: seq<T>, x: T, p: Parsed<seq<T>>)
    ensures More(before, More([x], p)) == More(before + [x], p)
  {
    if p.Got? { assert before + ([x] + p.value) == before + [x] + p.value; }
  }

  // ---------------------------------------------------------------- one turn of each loop

  function ItemsTurn(ts: Tokens, isConst: bool, nesting: nat): Parsed<seq<Value>> {
    var item :- GraphqlParser.ParseValue(ts, isConst, nesting);
    More([item.0], GraphqlParser.ParseItems(item.1, isConst, nesting))
  }

  function FieldsTurn(ts: Tokens, isConst: bool, nesting: nat, fields: seq<Arg>): Parsed<seq<Arg>> {
    var name :- GraphqlParser.ExpectName(ts);
    var colon :- GraphqlParser.ExpectPunct(name.1, Colon);
    var value :- GraphqlParser.ParseValue(colon.1, isConst, nesting);
    GraphqlParser.ParseFields(value.1, isConst, nesting, SetField(fields, name.0, value.0))
  }

  function SelectionsTurn(ts: Tokens, nesting: nat): Parsed<seq<Selection>> {
    var selection :- GraphqlParser.ParseSelection(ts, nesting);
    More([selection.0], GraphqlParser.ParseSelections(selection.1, nesting))
  }

  function DirectivesTurn(ts: Tokens, nesting: nat): Parsed<seq<Directive>>
    requires ts != []
  {
    var name :- GraphqlParser.ExpectName(ts[1..]);
    var args :- GraphqlParser.ParseOptArgs(name.1, nesting);
    More([Directive(name.0, args.0)], GraphqlParser.ParseDirectives(args.1, nesting))
  }

  function ArgsTurn(ts: Tokens, given: set<string>, nesting: nat): Parsed<seq<Arg>> {
    var name :- GraphqlParser.ExpectName(ts);
    var colon :- GraphqlParser.ExpectPunct(name.1, Colon);
    if InRecord(given, name.0) then Refused(BadSyntax)
    else
      var value :- GraphqlParser.ParseValue(colon.1, false, nesting);
      More([Arg(name.0, value.0)], GraphqlParser.ParseArgs(value.1, given + {name.0}, nesting))
  }

  function VariablesTurn(ts: Tokens): Parsed<seq<VariableDefinition>> {
    var variable :- GraphqlParser.ParseVariable(ts);
    More([variable.0], GraphqlParser.ParseVariables(variable.1))
  }

  lemma ItemsLoop(ts: Tokens, isConst: bool, nesting: nat)
    ensures GraphqlParser.ParseItems(ts, isConst, nesting) ==
            if IsAt(ts, BracketR) then Got([], ts[1..]) else ItemsTurn(ts, isConst, nesting)
  {
  }

  lemma FieldsLoop(ts: Tokens, isConst: bool, nesting: nat, fields: seq<Arg>)
    ensures GraphqlParser.ParseFields(ts, isConst, nesting, fields) ==
            if IsAt(ts, BraceR) then Got(fields, ts[1..]) else FieldsTurn(ts, isConst, nesting, fields)
  {
  }

  lemma SelectionsLoop(ts: Tokens, nesting: nat)
    ensures GraphqlParser.ParseSelections(ts, nesting) ==
            if IsAt(ts, BraceR) then Got([], ts[1..])
            else if ts == [] then Refused(BadSyntax)
            else SelectionsTurn(ts, nesting)
  {
  }

  lemma DirectivesLoop(ts: Tokens, nesting: nat)
    ensures GraphqlParser.ParseDirectives(ts, nesting) == if !IsAt(ts, At) then Got([], ts) else DirectivesTurn(ts, nesting)
  {
  }

  lemma ArgsLoop(ts: Tokens, given: set<string>, nesting: nat)
    ensures GraphqlParser.ParseArgs(ts, given, nesting) ==
            if IsAt(ts, ParenR) then Got([], ts[1..]) else ArgsTurn(ts, given, nesting)
  {
  }

  lemma VariablesLoop(ts: Tokens)
    ensures GraphqlParser.ParseVariables(ts) == if IsAt(ts, ParenR) then Got([], ts[1..]) else VariablesTurn(ts)
  {
  }

  class Parser {
    const tokens: seq<Slot>
    var pos: nat
    var nesting: nat

    ghost predicate Valid()
      reads this
    {
      EndsInEof(tokens) && pos < |tokens|
    }

    ghost function Rest(): Tokens
      requires Valid()
      reads this
    {
      TokensFrom(tokens, pos)
    }

    /** The method returned `p`'s value and stands before its tokens at depth `n`, or threw its error. */
    ghost predicate Left<T>(r: Result<T, SyntaxError>, p: Parsed<T>, n: nat)
      reads this
    {
      match p
      case Got(v, rest) => Valid() && r == Ok(v) && Rest() == rest && nesting == n
      case Refused(e) => r == Err(e)
    }

    constructor (ts: Tokens)
      ensures Valid() && Rest() == ts && nesting == 0
    {
      tokens := seq(|ts|, i requires 0 <= i < |ts| => Tok(ts[i])) + [Eof];
      pos, nesting := 0, 0;
    }

    predicate IsPunct(p: Punct)
      requires Valid()
      reads this
      ensures IsPunct(p) == IsAt(Rest(), p)
    {
      tokens[pos] == Tok(Mark(p))
    }

    predicate IsName()
      requires Valid()
      reads this
      ensures IsName() == IsWord(Rest())
    {
      tokens[pos].Tok? && tokens[pos].token.Word?
    }

    method Advance()
      requires Valid() && tokens[pos].Tok?
      modifies this`pos
      ensures Valid() && Rest() == old(Rest())[1..] && |Rest()| < |old(Rest())|
    {
      pos := pos + 1;
    }

    method ExpectPunct(p: Punct) returns (r: Result<(), SyntaxError>)
      requires Valid()
      modifies this`pos
      ensures Left(r, GraphqlParser.ExpectPunct(old(Rest()), p), old(nesting))
    {
      if !IsPunct(p) { return Err(BadSyntax); }
      Advance();
      return Ok(());
    }

    method ExpectName() returns (r: Result<string, SyntaxError>)
      requires Valid()
      modifies this`pos
      ensures Left(r, GraphqlParser.ExpectName(old(Rest())), old(nesting))
    {
      if !IsName() { return Err(BadSyntax); }
      var name := tokens[pos].token.s;
      Advance();
      return Ok(name);
    }

    method Enter() returns (r: Result<(), SyntaxError>)
      modifies this`nesting
      ensures nesting == old(nesting) + 1
      ensures r == if nesting > MAX_PARSE_NESTING then Err(NestsTooDeep) else Ok(())
    {
      nesting := nesting + 1;
      r := if nesting > MAX_PARSE_NESTING then Err(NestsTooDeep) else Ok(());
    }

    method Leave()
      requires nesting > 0
      modifies this`nesting
      ensures nesting == old(nesting) - 1
    {
      nesting := nesting - 1;
    }

    // -------------------------------------------------------------- values

    method ParseValue(isConst: bool) returns (r: Result<Value, SyntaxError>)
      requires Valid()
      modifies this`pos, this`nesting
      ensures Left(r, GraphqlParser.ParseValue(old(Rest()), isConst, old(nesting)), old(nesting))
      decreases |Rest()|, 0
    {
      hide GraphqlParser.ParseItems, GraphqlParser.ParseFields, NamedValue;
      if tokens[pos] == Eof {
        pos := pos + 1;
        return Err(BadSyntax);
      }
      assert Rest()[0] == tokens[pos].token;
      match tokens[pos].token {
        case Mark(Dollar) =>
          if isConst { return Err(BadSyntax); }
          Advance();
          var name :- ExpectName();
          return Ok(Variable(name));
        case Mark(BracketL) =>
          Advance();
          var items :- ParseList(isConst);
          return Ok(List(items));
        case Mark(BraceL) =>
          Advance();
          var fields :- ParseObject(isConst);
          return Ok(Object(fields));
        case Mark(_) => return Err(BadSyntax);
        case Numeral(lexeme) =>
          Advance();
          return Ok(Number(lexeme));
        case Quote(text) =>
          Advance();
          return Ok(String(text));
        case Word(s) =>
          Advance();
          return Ok(NamedValue(s));
      }
    }

    /** After the opening bracket. */
    method ParseList(isConst: bool) returns (r: Result<seq<Value>, SyntaxError>)
      requires Valid()
      modifies this`pos, this`nesting
      ensures Left(r, if old(nesting) + 1 > MAX_PARSE_NESTING then Refused(NestsTooDeep)
                      else GraphqlParser.ParseItems(old(Rest()), isConst, old(nesting) + 1), old(nesting))
      decreases |Rest()|, 1
    {
      var entered :- Enter();
      var items: seq<Value> := [];
      ghost var n := nesting;
      ghost var whole := GraphqlParser.ParseItems(old(Rest()), isConst, n);
      MoreNothing(whole);
      hide GraphqlParser.ParseItems, GraphqlParser.ParseValue;
      while !IsPunct(BracketR)
        invariant Valid() && nesting == n && |Rest()| <= |old(Rest())|
        invariant whole == More(items, GraphqlParser.ParseItems(Rest(), isConst, n))
        decreases |Rest()|
      {
        ItemsLoop(Rest(), isConst, n);
        var item :- ParseValue(isConst);
        MoreStep(items, item, GraphqlParser.ParseItems(Rest(), isConst, n));
        items := items + [item];
      }
      ItemsLoop(Rest(), isConst, n);
      assert items + [] == items;
      Advance();
      Leave();
      return Ok(items);
    }

    /** After the opening brace. */
    method ParseObject(isConst: bool) returns (r: Result<seq<Arg>, SyntaxError>)
      requires Valid()
      modifies this`pos, this`nesting
      ensures Left(r, if old(nesting) + 1 > MAX_PARSE_NESTING then Refused(NestsTooDeep)
                      else GraphqlParser.ParseFields(old(Rest()), isConst, old(nesting) + 1, []), old(nesting))
      decreases |Rest()|, 1
    {
      var entered :- Enter();
      var fields: seq<Arg> := [];
      ghost var n := nesting;
      hide GraphqlParser.ParseFields, GraphqlParser.ParseValue, SetField;
      while !IsPunct(BraceR)
        invariant Valid() && nesting == n && |Rest()| <= |old(Rest())|
        invariant GraphqlParser.ParseFields(old(Rest()), isConst, n, []) == GraphqlParser.ParseFields(Rest(), isConst, n, fields)
        decreases |Rest()|
      {
        FieldsLoop(Rest(), isConst, n, fields);
        var name :- ExpectName();
        var colon :- ExpectPunct(Colon);
        var value :- ParseValue(isConst);
        fields := SetField(fields, name, value);
      }
      FieldsLoop(Rest(), isConst, n, fields);
      Advance();
      Leave();
      return Ok(fields);
    }

    // -------------------------------------------------------------- arguments and directives

    /** After the opening parenthesis; `names` is what `name in args` has to look through. */
    method ParseArguments() returns (r: Result<seq<Arg>, SyntaxError>)
      requires Valid()
      modifies this`pos, this`nesting
      ensures Left(r, GraphqlParser.ParseArgs(old(Rest()), {}, old(nesting)), old(nesting))
    {
      var args: seq<Arg>, names: set<string> := [], {};
      ghost var n, whole := nesting, GraphqlParser.ParseArgs(Rest(), {}, nesting);
      MoreNothing(whole);
      hide GraphqlParser.ParseArgs, GraphqlParser.ParseValue;
      while !IsPunct(ParenR)
        invariant Valid() && nesting == n
        invariant whole == More(args, GraphqlParser.ParseArgs(Rest(), names, n))
        decreases |Rest()|
      {
        ArgsLoop(Rest(), names, n);
        var name :- ExpectName();
        var colon :- ExpectPunct(Colon);
        if InRecord(names, name) { return Err(BadSyntax); }
        var value :- ParseValue(false);
        MoreStep(args, Arg(name, value), GraphqlParser.ParseArgs(Rest(), names + {name}, n));
        args, names := args + [Arg(name, value)], names + {name};
      }
      ArgsLoop(Rest(), names, n);
      assert args + [] == args;
      Advance();
      return Ok(args);
    }

    method ParseOptArguments() returns (r: Result<seq<Arg>, SyntaxError>)
      requires Valid()
      modifies this`pos, this`nesting
      ensures Left(r, GraphqlParser.ParseOptArgs(old(Rest()), old(nesting)), old(nesting))
    {
      if !IsPunct(ParenL) { return Ok([]); }
      Advance();
      r := ParseArguments();
    }

    method ParseDirectives() returns (r: Result<seq<Directive>, SyntaxError>)
      requires Valid()
      modifies this`pos, this`nesting
      ensures Left(r, GraphqlParser.ParseDirectives(old(Rest()), old(nesting)), old(nesting))
    {
      var directives: seq<Directive> := [];
      ghost var n, whole := nesting, GraphqlParser.ParseDirectives(Rest(), nesting);
      MoreNothing(whole);
      hide GraphqlParser.ParseDirectives, GraphqlParser.ParseOptArgs;
      while IsPunct(At)
        invariant Valid() && nesting == n
        invariant whole == More(directives, GraphqlParser.ParseDirectives(Rest(), n))
        decreases |Rest()|
      {
        DirectivesLoop(Rest(), n);
        Advance();
        var name :- ExpectName();
        var args :- ParseOptArguments();
        MoreStep(directives, Directive(name, args), GraphqlParser.ParseDirectives(Rest(), n));
        directives := directives + [Directive(name, args)];
      }
      DirectivesLoop(Rest(), n);
      assert directives + [] == directives;
      return Ok(directives);
    }

    // -------------------------------------------------------------- selections

    method ParseSelectionSet() returns (r: Result<seq<Selection>, SyntaxError>)
      requires Valid()
      modifies this`pos, this`nesting
      ensures Left(r, GraphqlParser.ParseSelectionSet(old(Rest()), old(nesting)), old(nesting))
      decreases |Rest()|, 0
    {
      var open :- ExpectPunct(BraceL);
      var entered :- Enter();
      var selections: seq<Selection> := [];
      ghost var n, whole := nesting, GraphqlParser.ParseSelections(Rest(), nesting);
      ghost var size := |Rest()|;
      assert whole == GraphqlParser.ParseSelections(old(Rest())[1..], old(nesting) + 1);
      MoreNothing(whole);
      SetUnfolded(old(Rest()), old(nesting));
      hide GraphqlParser.ParseSelections, GraphqlParser.ParseSelection, GraphqlParser.ParseSelectionSet;
      while !IsPunct(BraceR)
        invariant Valid() && nesting == n && |Rest()| <= size
        invariant whole == More(selections, GraphqlParser.ParseSelections(Rest(), n))
        decreases |Rest()|
      {
        SelectionsLoop(Rest(), n);
        if tokens[pos] == Eof { return Err(BadSyntax); }
        var selection :- ParseSelection();
        MoreStep(selections, selection, GraphqlParser.ParseSelections(Rest(), n));
        selections := selections + [selection];
      }
      SelectionsLoop(Rest(), n);
      assert selections + [] == selections;
      Advance();
      Leave();
      if selections == [] { return Err(BadSyntax); }
      return Ok(selections);
    }

    method ParseSelection() returns (r: Result<Selection, SyntaxError>)
      requires Valid()
      modifies this`pos, this`nesting
      ensures Left(r, GraphqlParser.ParseSelection(old(Rest()), old(nesting)), old(nesting))
      decreases |Rest()|, 2
    {
      hide GraphqlParser.ParseDirectives, GraphqlParser.ParseInline, GraphqlParser.ParseField;
      if IsPunct(Dots) {
        Advance();
        if IsName() && tokens[pos].token.s != "on" {
          var name := tokens[pos].token.s;
          Advance();
          var directives :- ParseDirectives();
          return Ok(Spread(name, directives));
        }
        var condition := None;
        if IsName() {
          Advance();
          var name :- ExpectName();
          condition := Some(name);
        }
        r := ParseInline(condition);
        return;
      }
      var name :- ExpectName();
      var alias := None;
      if IsPunct(Colon) {
        Advance();
        alias := Some(name);
        name :- ExpectName();
      }
      r := ParseField(alias, name);
    }

    method ParseInline(condition: Option<string>) returns (r: Result<Selection, SyntaxError>)
      requires Valid()
      modifies this`pos, this`nesting
      ensures Left(r, GraphqlParser.ParseInline(condition, old(Rest()), old(nesting)), old(nesting))
      decreases |Rest()|, 1
    {
      hide GraphqlParser.ParseDirectives, GraphqlParser.ParseSelectionSet;
      var directives :- ParseDirectives();
      var selections :- ParseSelectionSet();
      return Ok(Inline(condition, directives, selections));
    }

    method ParseField(alias: Option<string>, name: string) returns (r: Result<Selection, SyntaxError>)
      requires Valid()
      modifies this`pos, this`nesting
      ensures Left(r, GraphqlParser.ParseField(alias, name, old(Rest()), old(nesting)), old(nesting))
      decreases |Rest()|, 1
    {
      hide GraphqlParser.ParseDirectives, GraphqlParser.ParseSelectionSet, GraphqlParser.ParseOptArgs;
      var args :- ParseOptArguments();
      var directives :- ParseDirectives();
      if !IsPunct(BraceL) { return Ok(Field(alias, name, args, directives, None)); }
      var selections :- ParseSelectionSet();
      return Ok(Field(alias, name, args, directives, Some(selections)));
    }

    // -------------------------------------------------------------- variables and definitions

    method ParseType() returns (r: Result<(string, bool), SyntaxError>)
      requires Valid()
      modifies this`pos, this`nesting
      ensures Left(r, GraphqlParser.ParseType(old(Rest()), old(nesting)), old(nesting))
      decreases |Rest()|
    {
      var text: string;
      if IsPunct(BracketL) {
        Advance();
        var entered :- Enter();
        var inner :- ParseType();
        text := "[" + inner.0 + "]";
        Leave();
        var close :- ExpectPunct(BracketR);
      } else {
        text :- ExpectName();
      }
      if IsPunct(Bang) {
        Advance();
        return Ok((text + "!", true));
      }
      return Ok((text, false));
    }

    method ParseVariable() returns (r: Result<VariableDefinition, SyntaxError>)
      requires Valid() && nesting == 0
      modifies this`pos, this`nesting
      ensures Left(r, GraphqlParser.ParseVariable(old(Rest())), 0)
    {
      hide GraphqlParser.ParseDirectives, GraphqlParser.ParseType, GraphqlParser.ParseValue;
      var dollar :- ExpectPunct(Dollar);
      var name :- ExpectName();
      var colon :- ExpectPunct(Colon);
      var typ :- ParseType();
      var default := None;
      if IsPunct(Equals) {
        Advance();
        var value :- ParseValue(true);
        default := Some(value);
      }
      var directives :- ParseDirectives();
      return Ok(VariableDefinition(name, typ.0, typ.1, default));
    }

    /** After the opening parenthesis. */
    method ParseVariableDefinitions() returns (r: Result<seq<VariableDefinition>, SyntaxError>)
      requires Valid() && nesting == 0
      modifies this`pos, this`nesting
      ensures Left(r, GraphqlParser.ParseVariables(old(Rest())), 0)
    {
      var defs: seq<VariableDefinition> := [];
      ghost var whole := GraphqlParser.ParseVariables(Rest());
      MoreNothing(whole);
      hide GraphqlParser.ParseVariables, GraphqlParser.ParseVariable;
      while !IsPunct(ParenR)
        invariant Valid() && nesting == 0
        invariant whole == More(defs, GraphqlParser.ParseVariables(Rest()))
        decreases |Rest()|
      {
        VariablesLoop(Rest());
        var variable :- ParseVariable();
        MoreStep(defs, variable, GraphqlParser.ParseVariables(Rest()));
        defs := defs + [variable];
      }
      VariablesLoop(Rest());
      assert defs + [] == defs;
      Advance();
      return Ok(defs);
    }

    method ParseOperation(kind: OperationKind) returns (r: Result<Operation, SyntaxError>)
      requires Valid() && nesting == 0
      modifies this`pos, this`nesting
      ensures Left(r, GraphqlParser.ParseOperation(kind, old(Rest())), 0)
    {
      hide GraphqlParser.ParseDirectives, GraphqlParser.ParseVariables, GraphqlParser.ParseSelectionSet;
      var name := None;
      if IsName() {
        name := Some(tokens[pos].token.s);
        Advance();
      }
      var variables := [];
      if IsPunct(ParenL) {
        Advance();
        variables :- ParseVariableDefinitions();
      }
      var directives :- ParseDirectives();
      var selections :- ParseSelectionSet();
      return Ok(Operation(kind, name, variables, selections));
    }

    method ParseFragment(known: set<string>) returns (r: Result<Fragment, SyntaxError>)
      requires Valid() && nesting == 0
      modifies this`pos, this`nesting
      ensures Left(r, GraphqlParser.ParseFragment(old(Rest()), known), 0)
    {
      hide GraphqlParser.ParseDirectives, GraphqlParser.ParseSelectionSet;
      var name :- ExpectName();
      if name == "on" { return Err(BadSyntax); }
      var on :- ExpectName();
      if on != "on" { return Err(BadSyntax); }
      var condition :- ExpectName();
      var directives :- ParseDirectives();
      if name in known { return Err(FragmentTwice); }
      var selections :- ParseSelectionSet();
      return Ok(Fragment(name, condition, selections));
    }

    method ParseDocument() returns (r: Result<Document, SyntaxError>)
      requires Valid() && nesting == 0
      modifies this`pos, this`nesting
      ensures r == GraphqlParser.ParseDocument(old(Rest()))
      ensures r.Ok? ==> Valid() && tokens[pos] == Eof && nesting == 0
    {
      var operations: seq<Operation>, fragments: map<string, Fragment> := [], map[];
      hide GraphqlParser.ParseSelectionSet, GraphqlParser.ParseFragment, GraphqlParser.ParseOperation;
      while tokens[pos] != Eof
        invariant Valid() && nesting == 0
        invariant GraphqlParser.ParseDocument(old(Rest())) == ParseDefinitions(Rest(), Document(operations, fragments))
        decreases |Rest()|
      {
        assert Rest() != [] && Rest()[0] == tokens[pos].token;
        if IsPunct(BraceL) {
          var selections :- ParseSelectionSet();
          operations := operations + [Operation(Query, None, [], selections)];
        } else if tokens[pos].token == Word("fragment") {
          Advance();
          var fragment :- ParseFragment(fragments.Keys);
          fragments := fragments[fragment.name := fragment];
        } else if IsName() && OperationWord(tokens[pos].token.s).Some? {
          var kind := OperationWord(tokens[pos].token.s).value;
          Advance();
          var operation :- ParseOperation(kind);
          operations := operations + [operation];
        } else {
          return Err(BadSyntax);
        }
      }
      if operations == [] { return Err(NoOperation); }
      return Ok(Document(operations, fragments));
    }
  }

  lemma SetUnfolded(ts: Tokens, nesting: nat)
    requires IsAt(ts, BraceL) && nesting + 1 <= MAX_PARSE_NESTING
    ensures var inner := GraphqlParser.ParseSelections(ts[1..], nesting + 1);
            GraphqlParser.ParseSelectionSet(ts, nesting) ==
            if inner.Got? && inner.value == [] then Refused(BadSyntax) else inner
  {
  }

  /** `parseDocument`: lexing, then descent over the tokens. */
  method ParseSource(source: Text) returns (r: Result<Document, SyntaxError>)
    ensures r == GraphqlText.ParseSource(source)
  {
    var tokens :- GraphqlLexer.Tokenize(source);
    var parser := new Parser(tokens);
    r := parser.ParseDocument();
  }
}
