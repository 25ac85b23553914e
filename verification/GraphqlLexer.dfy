/** The lexer: what `tokenize` makes of a source text, as a function and as the loop it is. */
module GraphqlLexer {
  import opened Results
  import opened GraphqlSyntax
  import opened GraphqlParser

  // ---------------------------------------------------------------- characters

  const QUOTE: CodeUnit := 34
  const HASH: CodeUnit := 35
  const PLUS: CodeUnit := 43
  const COMMA: CodeUnit := 44
  const MINUS: CodeUnit := 45
  const DOT: CodeUnit := 46
  const BACKSLASH: CodeUnit := 92
  const LOWER_E: CodeUnit := 101
  const UPPER_E: CodeUnit := 69
  const LOWER_U: CodeUnit := 117
  const NEWLINE: CodeUnit := 10
  const RETURN: CodeUnit := 13
  const BYTE_ORDER_MARK: CodeUnit := 0xFEFF

  predicate IsBlank(c: CodeUnit) {
    c == 32 || c == 9 || c == NEWLINE || c == RETURN || c == COMMA || c == BYTE_ORDER_MARK
  }

  predicate EndsLine(c: CodeUnit) { c == NEWLINE || c == RETURN }
  predicate IsDigit(c: CodeUnit) { 48 <= c <= 57 }
  predicate NameStart(c: CodeUnit) { 65 <= c <= 90 || 97 <= c <= 122 || c == 95 }
  predicate NamePart(c: CodeUnit) { NameStart(c) || IsDigit(c) }
  predicate IsHex(c: CodeUnit) { IsDigit(c) || 65 <= c <= 70 || 97 <= c <= 102 }

  /** The punctuators of one character: `!$&()[]{}:=@|`. */
  function PunctOf(c: CodeUnit): Option<Punct> {
    if c == 33 then Some(Bang)
    else if c == 36 then Some(Dollar)
    else if c == 38 then Some(Amp)
    else if c == 40 then Some(ParenL)
    else if c == 41 then Some(ParenR)
    else if c == 91 then Some(BracketL)
    else if c == 93 then Some(BracketR)
    else if c == 123 then Some(BraceL)
    else if c == 125 then Some(BraceR)
    else if c == 58 then Some(Colon)
    else if c == 61 then Some(Equals)
    else if c == 64 then Some(At)
    else if c == 124 then Some(Pipe)
    else None
  }

  function CharOf(c: CodeUnit): char { if c < 128 then c as char else '?' }

  /** ASCII text as a string of the syntax tree. */
  function StringOf(t: Text): string { seq(|t|, i requires 0 <= i < |t| => CharOf(t[i])) }

  function SimpleEscape(c: CodeUnit): Option<CodeUnit> {
    if c == QUOTE || c == BACKSLASH || c == 47 then Some(c)
    else if c == 98 then Some(8)
    else if c == 102 then Some(12)
    else if c == 110 then Some(NEWLINE)
    else if c == 114 then Some(RETURN)
    else if c == 116 then Some(9)
    else None
  }

  function HexDigit(c: CodeUnit): int
    requires IsHex(c)
    ensures 0 <= HexDigit(c) < 16
  {
    if IsDigit(c) then c - 48 else if c <= 70 then c - 55 else c - 87
  }

  predicate FourHex(t: Text) {
    |t| >= 4 && IsHex(t[0]) && IsHex(t[1]) && IsHex(t[2]) && IsHex(t[3])
  }

  function HexValue(t: Text): CodeUnit
    requires FourHex(t)
  {
    ((HexDigit(t[0]) * 16 + HexDigit(t[1])) * 16 + HexDigit(t[2])) * 16 + HexDigit(t[3])
  }

  // ---------------------------------------------------------------- lengths and pieces

  function LineLength(s: Text): (n: nat)
    ensures n <= |s|
  {
    if s == [] || EndsLine(s[0]) then 0 else 1 + LineLength(s[1..])
  }

  function NameLength(s: Text): (n: nat)
    ensures n <= |s|
  {
    if s == [] || !NamePart(s[0]) then 0 else 1 + NameLength(s[1..])
  }

  function DigitsLength(s: Text): (n: nat)
    ensures n <= |s|
  {
    if s == [] || !IsDigit(s[0]) then 0 else 1 + DigitsLength(s[1..])
  }

  /** Where the digits that must start at `i` end. */
  function DigitsEnd(s: Text, i: nat): (end: Option<nat>)
    ensures end.Some? ==> i < end.value <= |s|
  {
    if i <= |s| && DigitsLength(s[i..]) > 0 then Some(i + DigitsLength(s[i..])) else None
  }

  predicate Holds(s: Text, i: nat, c: CodeUnit) { i < |s| && s[i] == c }

  function FractionEnd(s: Text, i: nat): (end: Option<nat>)
    requires i <= |s|
    ensures end.Some? ==> i <= end.value <= |s|
  {
    if Holds(s, i, DOT) then DigitsEnd(s, i + 1) else Some(i)
  }

  function AfterSign(s: Text, i: nat): nat { if Holds(s, i, PLUS) || Holds(s, i, MINUS) then i + 1 else i }

  function ExponentEnd(s: Text, i: nat): (end: Option<nat>)
    requires i <= |s|
    ensures end.Some? ==> i <= end.value <= |s|
  {
    if Holds(s, i, LOWER_E) || Holds(s, i, UPPER_E) then DigitsEnd(s, AfterSign(s, i + 1)) else Some(i)
  }

  /** Where the number that starts at `i` ends; None when it is malformed. */
  function NumberEnd(s: Text, i: nat): (end: Option<nat>)
    requires i < |s|
    ensures end.Some? ==> i < end.value <= |s|
  {
    match DigitsEnd(s, if s[i] == MINUS then i + 1 else i)
    case None => None
    case Some(i) =>
      match FractionEnd(s, i)
      case None => None
      case Some(j) => ExponentEnd(s, j)
  }

  /** The contents of a string literal and the text after it, from inside its opening quote. */
  function ReadString(s: Text, value: Text): (r: Option<(Text, Text)>)
    ensures r.Some? ==> |r.value.1| < |s|
    decreases |s|
  {
    if s == [] || EndsLine(s[0]) then None
    else if s[0] == QUOTE then Some((value, s[1..]))
    else if s[0] == BACKSLASH then
      if |s| < 2 then None
      else if SimpleEscape(s[1]).Some? then ReadString(s[2..], value + [SimpleEscape(s[1]).value])
      else if s[1] == LOWER_U && FourHex(s[2..]) then ReadString(s[6..], value + [HexValue(s[2..])])
      else None
    else ReadString(s[1..], value + [s[0]])
  }

  // ---------------------------------------------------------------- the lexer

  predicate StartsDots(s: Text) { |s| >= 3 && s[0] == DOT && s[1] == DOT && s[2] == DOT }

  /** One step: the token at the start of `s`, or none if something insignificant is there, and the rest. */
  datatype Bite = Bite(token: Option<Token>, rest: Text) | Bad

  function NextBite(s: Text): (b: Bite)
    requires s != []
    ensures b.Bite? ==> |b.rest| < |s|
  {
    var c := s[0];
    if IsBlank(c) then Bite(None, s[1..])
    else if c == HASH then Bite(None, s[1 + LineLength(s[1..])..])
    else if StartsDots(s) then Bite(Some(Mark(Dots)), s[3..])
    else if PunctOf(c).Some? then Bite(Some(Mark(PunctOf(c).value)), s[1..])
    else if NameStart(c) then Bite(Some(Word(StringOf(s[..NameLength(s)]))), s[NameLength(s)..])
    else if c == MINUS || IsDigit(c) then
      match NumberEnd(s, 0)
      case None => Bad
      case Some(n) => Bite(Some(Numeral(StringOf(s[..n]))), s[n..])
    else if c == QUOTE then
      match ReadString(s[1..], [])
      case None => Bad
      case Some((text, rest)) => Bite(Some(Quote(text)), rest)
    else Bad
  }

  function Prepend(tokens: Tokens, r: Result<Tokens, SyntaxError>): Result<Tokens, SyntaxError> {
    match r case Ok(more) => Ok(tokens + more) case Err(e) => Err(e)
  }

  function Taken(b: Bite): Tokens
    requires b.Bite?
  {
    match b.token case None => [] case Some(t) => [t]
  }

  function Lex(s: Text): Result<Tokens, SyntaxError>
    decreases |s|
  {
    if s == [] then Ok([])
    else
      var b := NextBite(s);
      if b.Bad? then Err(BadSyntax) else Prepend(Taken(b), Lex(b.rest))
  }

  // ---------------------------------------------------------------- as a loop

  /** Advances over digits from `i`. */
  method SkipDigits(source: Text, start: nat) returns (i: nat)
    requires start <= |source|
    ensures i == start + DigitsLength(source[start..])
  {
    i := start;
    while i < |source| && IsDigit(source[i])
      invariant start <= i <= |source| && i + DigitsLength(source[i..]) == start + DigitsLength(source[start..])
    {
      assert source[i..][1..] == source[i + 1..];
      i := i + 1;
    }
  }

  method SkipName(source: Text, start: nat) returns (i: nat)
    requires start <= |source|
    ensures i == start + NameLength(source[start..])
  {
    i := start;
    while i < |source| && NamePart(source[i])
      invariant start <= i <= |source| && i + NameLength(source[i..]) == start + NameLength(source[start..])
    {
      assert source[i..][1..] == source[i + 1..];
      i := i + 1;
    }
  }

  method SkipLine(source: Text, start: nat) returns (i: nat)
    requires start <= |source|
    ensures i == start + LineLength(source[start..])
  {
    i := start;
    while i < |source| && !EndsLine(source[i])
      invariant start <= i <= |source| && i + LineLength(source[i..]) == start + LineLength(source[start..])
    {
      assert source[i..][1..] == source[i + 1..];
      i := i + 1;
    }
  }

  /** Digits that must start at `i`. */
  method ScanDigits(source: Text, i: nat) returns (end: Option<nat>)
    requires i <= |source|
    ensures end == DigitsEnd(source, i)
  {
    var after := SkipDigits(source, i);
    return if after == i then None else Some(after);
  }

  method ScanNumber(source: Text, start: nat) returns (end: Option<nat>)
    requires start < |source|
    ensures end == NumberEnd(source, start)
  {
    hide DigitsEnd, IsDigit;
    var i := start;
    if source[i] == MINUS { i := i + 1; }
    end := ScanDigits(source, i);
    if end == None { return; }
    i := end.value;
    if i < |source| && source[i] == DOT {
      end := ScanDigits(source, i + 1);
      if end == None { return; }
      i := end.value;
    }
    if i < |source| && (source[i] == LOWER_E || source[i] == UPPER_E) {
      i := i + 1;
      if i < |source| && (source[i] == PLUS || source[i] == MINUS) { i := i + 1; }
      end := ScanDigits(source, i);
    }
  }

  /** A suffix of a suffix. */
  lemma Tail(source: Text, i: nat, k: nat)
    requires i + k <= |source|
    ensures source[i..][k..] == source[i + k..] && source[i..][..k] == source[i..i + k]
  {
  }

  function Shift(end: Option<nat>, i: nat): Option<nat> {
    match end case None => None case Some(n) => Some(i + n)
  }

  lemma DigitsShift(source: Text, i: nat, k: nat)
    requires i <= |source|
    ensures DigitsEnd(source, i + k) == Shift(DigitsEnd(source[i..], k), i)
  {
    if i + k <= |source| { Tail(source, i, k); }
  }

  lemma FractionShift(source: Text, i: nat, j: nat)
    requires i + j <= |source|
    ensures FractionEnd(source, i + j) == Shift(FractionEnd(source[i..], j), i)
  {
    hide DigitsEnd;
    DigitsShift(source, i, j + 1);
  }

  lemma ExponentShift(source: Text, i: nat, j: nat)
    requires i + j <= |source|
    ensures ExponentEnd(source, i + j) == Shift(ExponentEnd(source[i..], j), i)
  {
    hide DigitsEnd;
    DigitsShift(source, i, j + 1);
    DigitsShift(source, i, j + 2);
  }

  /** A number reads the same wherever it stands in the source. */
  lemma NumberShift(source: Text, i: nat)
    requires i < |source|
    ensures NumberEnd(source, i) == Shift(NumberEnd(source[i..], 0), i)
  {
    hide DigitsEnd, FractionEnd, ExponentEnd;
    var s := source[i..];
    var first := if s[0] == MINUS then 1 else 0;
    DigitsShift(source, i, first);
    if DigitsEnd(s, first).Some? {
      var j := DigitsEnd(s, first).value;
      FractionShift(source, i, j);
      if FractionEnd(s, j).Some? { ExponentShift(source, i, FractionEnd(s, j).value); }
    }
  }

  /** From inside the opening quote at `start`. */
  method ScanString(source: Text, start: nat) returns (r: Option<(Text, nat)>)
    requires start <= |source|
    ensures match ReadString(source[start..], [])
      case None => r == None
      case Some((text, rest)) => r.Some? && r.value.0 == text && start < r.value.1 <= |source| && source[r.value.1..] == rest
  {
    var i, value: Text := start, [];
    while i < |source|
      invariant start <= i <= |source|
      invariant ReadString(source[start..], []) == ReadString(source[i..], value)
    {
      var c := source[i];
      ghost var s := source[i..];
      assert s[1..] == source[i + 1..];
      if c == QUOTE { return Some((value, i + 1)); }
      if EndsLine(c) { return None; }
      if c == BACKSLASH {
        if i + 1 >= |source| { return None; }
        assert s[1] == source[i + 1] && s[2..] == source[i + 2..];
        var simple := SimpleEscape(source[i + 1]);
        if simple.Some? {
          value, i := value + [simple.value], i + 2;
          continue;
        }
        if source[i + 1] == LOWER_U && FourHex(source[i + 2..]) {
          assert s[6..] == source[i + 6..];
          value, i := value + [HexValue(source[i + 2..])], i + 6;
          continue;
        }
        return None;
      }
      value, i := value + [c], i + 1;
    }
    return None;
  }

  lemma LexStep(source: Text, i: nat, tokens: Tokens, b: Bite)
    requires i < |source| && b == NextBite(source[i..]) && Lex(source) == Prepend(tokens, Lex(source[i..]))
    ensures b.Bad? ==> Lex(source) == Err(BadSyntax)
    ensures b.Bite? ==> Lex(source) == Prepend(tokens + Taken(b), Lex(b.rest))
  {
    hide NextBite, Taken;
    if b.Bite? && Lex(b.rest).Ok? {
      assert (tokens + Taken(b)) + Lex(b.rest).value == tokens + (Taken(b) + Lex(b.rest).value);
    }
  }

  /** A name, a number or a string at `i`. */
  method LongTokenAt(source: Text, i: nat) returns (ok: bool, tokens: Tokens, next: nat)
    requires i < |source| && !IsBlank(source[i]) && source[i] != HASH && !StartsDots(source[i..]) && PunctOf(source[i]).None?
    ensures ok <==> NextBite(source[i..]).Bite?
    ensures ok ==> i < next <= |source| && tokens == Taken(NextBite(source[i..])) && source[next..] == NextBite(source[i..]).rest
  {
    hide IsBlank, NameStart, NamePart, IsDigit, NumberEnd, ReadString, LineLength, NameLength, PunctOf, StringOf, StartsDots;
    var ch := source[i];
    if NameStart(ch) {
      next := SkipName(source, i);
      Tail(source, i, next - i);
      NameNonEmpty(source[i..]);
      return true, [Word(StringOf(source[i..next]))], next;
    }
    if ch == MINUS || IsDigit(ch) {
      var end := ScanNumber(source, i);
      NumberShift(source, i);
      if end == None { return false, [], i; }
      Tail(source, i, end.value - i);
      return true, [Numeral(StringOf(source[i..end.value]))], end.value;
    }
    if ch == QUOTE {
      Tail(source, i, 1);
      var text := ScanString(source, i + 1);
      if text == None { return false, [], i; }
      return true, [Quote(text.value.0)], text.value.1;
    }
    return false, [], i;
  }

  /** The token at `i`, if any, and where the next one may start. */
  method TokenAt(source: Text, i: nat) returns (ok: bool, tokens: Tokens, next: nat)
    requires i < |source|
    ensures ok <==> NextBite(source[i..]).Bite?
    ensures ok ==> i < next <= |source| && tokens == Taken(NextBite(source[i..])) && source[next..] == NextBite(source[i..]).rest
  {
    hide IsBlank, NameStart, IsDigit, NumberEnd, ReadString, LineLength, NameLength, PunctOf, StringOf;
    var ch := source[i];
    Tail(source, i, 1);
    if IsBlank(ch) { return true, [], i + 1; }
    if ch == HASH {
      next := SkipLine(source, i + 1);
      Tail(source, i, next - i);
      return true, [], next;
    }
    if i + 2 < |source| && ch == DOT && source[i + 1] == DOT && source[i + 2] == DOT {
      Tail(source, i, 3);
      return true, [Mark(Dots)], i + 3;
    }
    if PunctOf(ch).Some? { return true, [Mark(PunctOf(ch).value)], i + 1; }
    ok, tokens, next := LongTokenAt(source, i);
  }

  lemma NameNonEmpty(s: Text)
    requires s != [] && NameStart(s[0])
    ensures NameLength(s) > 0
  {
  }

  method Tokenize(source: Text) returns (r: Result<Tokens, SyntaxError>)
    ensures r == Lex(source)
  {
    var tokens: Tokens, i := [], 0;
    hide NextBite, Taken;
    assert source[0..] == source && (Lex(source).Ok? ==> [] + Lex(source).value == Lex(source).value);
    while i < |source|
      invariant 0 <= i <= |source|
      invariant Lex(source) == Prepend(tokens, Lex(source[i..]))
    {
      var ok, more, next := TokenAt(source, i);
      LexStep(source, i, tokens, NextBite(source[i..]));
      if !ok { return Err(BadSyntax); }
      tokens, i := tokens + more, next;
    }
    assert source[i..] == [] && tokens + [] == tokens;
    return Ok(tokens);
  }
}
