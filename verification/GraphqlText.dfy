/** Source texts of token lists, in every spelling the grammar allows, and their way back through the lexer. */
module GraphqlText {
  import opened Results
  import opened GraphqlSyntax
  import opened GraphqlParser
  import opened GraphqlLexer
  import opened GraphqlPrint
  import opened GraphqlRoundTrip

  // ---------------------------------------------------------------- spellings

  /** One unit of a string literal: as itself, as a short escape, or in four hexadecimal digits. */
  datatype Piece = Raw(c: CodeUnit) | Short(c: CodeUnit) | Hex(digits: Text)

  datatype Exponent = Exponent(marker: CodeUnit, sign: Option<CodeUnit>, digits: Text)

  datatype Lexeme =
    | Punctuator(p: Punct)
    | NameText(t: Text)
    | NumberText(negative: bool, whole: Text, fraction: Option<Text>, exponent: Option<Exponent>)
    | StringText(pieces: seq<Piece>)

  /** What may stand between tokens: a blank or comma, or a comment with the line break that ends it. */
  datatype Gap = Blank(c: CodeUnit) | Comment(text: Text, end: CodeUnit)

  datatype Item = Item(lexeme: Lexeme, gaps: seq<Gap>)

  function PunctText(p: Punct): Text {
    match p
    case Bang => [33]
    case Dollar => [36]
    case Amp => [38]
    case ParenL => [40]
    case ParenR => [41]
    case BracketL => [91]
    case BracketR => [93]
    case BraceL => [123]
    case BraceR => [125]
    case Colon => [58]
    case Equals => [61]
    case At => [64]
    case Pipe => [124]
    case Dots => [DOT, DOT, DOT]
  }

  function PieceText(p: Piece): Text {
    match p
    case Raw(c) => [c]
    case Short(c) => [BACKSLASH, c]
    case Hex(digits) => [BACKSLASH, LOWER_U] + digits
  }

  predicate PieceOk(p: Piece) {
    match p
    case Raw(c) => c != QUOTE && c != BACKSLASH && !EndsLine(c)
    case Short(c) => SimpleEscape(c).Some?
    case Hex(digits) => |digits| == 4 && FourHex(digits)
  }

  function PieceValue(p: Piece): CodeUnit
    requires PieceOk(p)
  {
    match p
    case Raw(c) => c
    case Short(c) => SimpleEscape(c).value
    case Hex(digits) => HexValue(digits)
  }

  predicate AllDigits(t: Text) { t != [] && forall i | 0 <= i < |t| :: IsDigit(t[i]) }

  predicate IsName(t: Text) { t != [] && NameStart(t[0]) && forall i | 0 <= i < |t| :: NamePart(t[i]) }

  predicate ExponentOk(e: Exponent) {
    && (e.marker == LOWER_E || e.marker == UPPER_E)
    && (e.sign.Some? ==> e.sign.value == PLUS || e.sign.value == MINUS)
    && AllDigits(e.digits)
  }

  predicate LexemeOk(l: Lexeme) {
    match l
    case Punctuator(_) => true
    case NameText(t) => IsName(t)
    case NumberText(_, whole, fraction, exponent) =>
      AllDigits(whole) && (fraction.Some? ==> AllDigits(fraction.value)) && (exponent.Some? ==> ExponentOk(exponent.value))
    case StringText(pieces) => forall i | 0 <= i < |pieces| :: PieceOk(pieces[i])
  }

  predicate GapOk(g: Gap) {
    match g
    case Blank(c) => IsBlank(c)
    case Comment(text, end) => EndsLine(end) && forall i | 0 <= i < |text| :: !EndsLine(text[i])
  }

  // ---------------------------------------------------------------- writing

  function WritePieces(pieces: seq<Piece>, tail: Text): Text {
    if pieces == [] then tail else PieceText(pieces[0]) + WritePieces(pieces[1..], tail)
  }

  function WriteExponent(e: Option<Exponent>, tail: Text): Text {
    match e
    case None => tail
    case Some(Exponent(marker, sign, digits)) =>
      [marker] + (SignText(sign) + (digits + tail))
  }

  function WriteFraction(fraction: Option<Text>, tail: Text): Text {
    match fraction case None => tail case Some(digits) => [DOT] + (digits + tail)
  }

  function WriteNumber(l: Lexeme, tail: Text): Text
    requires l.NumberText?
  {
    NumberSign(l) + (l.whole + WriteFraction(l.fraction, WriteExponent(l.exponent, tail)))
  }

  function WriteLexeme(l: Lexeme, tail: Text): Text {
    match l
    case Punctuator(p) => PunctText(p) + tail
    case NameText(t) => t + tail
    case NumberText(_, _, _, _) => WriteNumber(l, tail)
    case StringText(pieces) => [QUOTE] + WritePieces(pieces, [QUOTE] + tail)
  }

  function WriteGaps(gaps: seq<Gap>, tail: Text): Text {
    if gaps == [] then tail
    else
      match gaps[0]
      case Blank(c) => [c] + WriteGaps(gaps[1..], tail)
      case Comment(text, end) => [HASH] + (text + ([end] + WriteGaps(gaps[1..], tail)))
  }

  function Write(items: seq<Item>): Text {
    if items == [] then [] else WriteLexeme(items[0].lexeme, WriteGaps(items[0].gaps, Write(items[1..])))
  }

  predicate EndsNumber(tail: Text) {
    tail == [] || (!IsDigit(tail[0]) && tail[0] != DOT && tail[0] != LOWER_E && tail[0] != UPPER_E)
  }

  /** The text of a lexeme does not run on into what follows. */
  predicate Separate(l: Lexeme, tail: Text) {
    match l
    case NameText(_) => tail == [] || !NamePart(tail[0])
    case NumberText(_, _, _, _) => EndsNumber(tail)
    case _ => true
  }

  predicate ItemsOk(items: seq<Item>) {
    items == [] ||
    (var rest := WriteGaps(items[0].gaps, Write(items[1..]));
     LexemeOk(items[0].lexeme) && Separate(items[0].lexeme, rest)
     && (forall i | 0 <= i < |items[0].gaps| :: GapOk(items[0].gaps[i]))
     && ItemsOk(items[1..]))
  }

  function PiecesValue(pieces: seq<Piece>): Text
    requires forall i | 0 <= i < |pieces| :: PieceOk(pieces[i])
  {
    if pieces == [] then [] else [PieceValue(pieces[0])] + PiecesValue(pieces[1..])
  }

  function TokenOf(l: Lexeme): Token
    requires LexemeOk(l)
  {
    match l
    case Punctuator(p) => Mark(p)
    case NameText(t) => Word(StringOf(t))
    case NumberText(_, _, _, _) => Numeral(StringOf(WriteNumber(l, [])))
    case StringText(pieces) => Quote(PiecesValue(pieces))
  }

  function TokensOf(items: seq<Item>): Tokens
    requires ItemsOk(items)
  {
    if items == [] then [] else [TokenOf(items[0].lexeme)] + TokensOf(items[1..])
  }

  // ---------------------------------------------------------------- one token at a time

  lemma {:induction false} NameReads(t: Text, tail: Text)
    requires forall i | 0 <= i < |t| :: NamePart(t[i])
    requires tail == [] || !NamePart(tail[0])
    ensures NameLength(t + tail) == |t|
  {
    if t == [] {
      assert t + tail == tail;
    } else {
      assert (t + tail)[1..] == t[1..] + tail;
      NameReads(t[1..], tail);
    }
  }

  lemma {:induction false} DigitsRead(t: Text, tail: Text)
    requires forall i | 0 <= i < |t| :: IsDigit(t[i])
    requires tail == [] || !IsDigit(tail[0])
    ensures DigitsLength(t + tail) == |t|
  {
    if t == [] {
      assert t + tail == tail;
    } else {
      assert (t + tail)[1..] == t[1..] + tail;
      DigitsRead(t[1..], tail);
    }
  }

  lemma {:induction false} LineReads(t: Text, tail: Text)
    requires forall i | 0 <= i < |t| :: !EndsLine(t[i])
    requires tail != [] && EndsLine(tail[0])
    ensures LineLength(t + tail) == |t|
  {
    if t == [] {
      assert t + tail == tail;
    } else {
      assert (t + tail)[1..] == t[1..] + tail;
      LineReads(t[1..], tail);
    }
  }

  /** From position `i` on, `s` reads `tail`. */
  predicate TailAt(s: Text, i: nat, tail: Text) { i <= |s| && s[i..] == tail }

  lemma TailHead(s: Text, i: nat, head: Text, tail: Text)
    requires TailAt(s, i, head + tail)
    ensures TailAt(s, i + |head|, tail)
    ensures head != [] ==> i < |s| && s[i] == head[0]
    ensures head == [] && tail != [] ==> i < |s| && s[i] == tail[0]
    ensures head == [] && tail == [] ==> i == |s|
  {
    assert s[i..][|head|..] == s[i + |head|..] == tail;
    if head != [] {
      assert s[i] == s[i..][0] == head[0];
    } else {
      assert head + tail == tail;
      if tail != [] { assert s[i] == s[i..][0]; }
    }
  }

  /** Digits standing at position `i` of `s`, followed by something else. */
  lemma DigitsAt(s: Text, i: nat, digits: Text, tail: Text)
    requires TailAt(s, i, digits + tail) && AllDigits(digits) && (tail == [] || !IsDigit(tail[0]))
    ensures DigitsEnd(s, i) == Some(i + |digits|) && TailAt(s, i + |digits|, tail)
  {
    DigitsRead(digits, tail);
    TailHead(s, i, digits, tail);
  }

  lemma NothingAt(s: Text, i: nat, tail: Text)
    requires TailAt(s, i, tail)
    ensures if tail == [] then i == |s| else i < |s| && s[i] == tail[0]
  {
    assert [] + tail == tail;
    TailHead(s, i, [], tail);
  }

  lemma FractionAt(s: Text, i: nat, fraction: Option<Text>, tail: Text)
    requires TailAt(s, i, WriteFraction(fraction, tail)) && (fraction.Some? ==> AllDigits(fraction.value))
    requires tail == [] || (!IsDigit(tail[0]) && tail[0] != DOT)
    ensures i <= |s| && FractionEnd(s, i).Some? && TailAt(s, FractionEnd(s, i).value, tail)
  {
    hide TailAt, DigitsEnd, AllDigits;
    match fraction
    case None => NothingAt(s, i, tail);
    case Some(digits) =>
      TailHead(s, i, [DOT], digits + tail);
      DigitsAt(s, i + 1, digits, tail);
  }

  function SignText(sign: Option<CodeUnit>): Text {
    if sign.Some? then [sign.value] else []
  }

  lemma SignAt(s: Text, i: nat, sign: Option<CodeUnit>, more: Text)
    requires TailAt(s, i, SignText(sign) + more) && more != [] && IsDigit(more[0])
    requires sign.Some? ==> sign.value == PLUS || sign.value == MINUS
    ensures TailAt(s, AfterSign(s, i), more)
  {
    hide TailAt;
    TailHead(s, i, SignText(sign), more);
  }

  lemma ExponentAt(s: Text, i: nat, exponent: Option<Exponent>, tail: Text)
    requires TailAt(s, i, WriteExponent(exponent, tail)) && (exponent.Some? ==> ExponentOk(exponent.value))
    requires EndsNumber(tail)
    ensures i <= |s| && ExponentEnd(s, i).Some? && TailAt(s, ExponentEnd(s, i).value, tail)
  {
    hide TailAt, DigitsEnd, AfterSign, SignText;
    match exponent
    case None => NothingAt(s, i, tail);
    case Some(Exponent(marker, sign, digits)) =>
      var more := digits + tail;
      assert more[0] == digits[0];
      TailHead(s, i, [marker], SignText(sign) + more);
      SignAt(s, i + 1, sign, more);
      DigitsAt(s, AfterSign(s, i + 1), digits, tail);
  }

  lemma ExponentStarts(exponent: Option<Exponent>, tail: Text)
    requires (exponent.Some? ==> ExponentOk(exponent.value)) && EndsNumber(tail)
    ensures var t := WriteExponent(exponent, tail); t == [] || (!IsDigit(t[0]) && t[0] != DOT)
  {
  }

  lemma FractionStarts(fraction: Option<Text>, tail: Text)
    requires tail == [] || !IsDigit(tail[0])
    ensures var t := WriteFraction(fraction, tail); t == [] || !IsDigit(t[0])
  {
  }

  /** The number at the start of `s` is all of it but `tail`. */
  predicate NumberThen(s: Text, tail: Text) {
    s != [] && (s[0] == MINUS || IsDigit(s[0])) && NumberEnd(s, 0).Some? && TailAt(s, NumberEnd(s, 0).value, tail)
  }

  lemma NumberThenFrom(s: Text, first: nat, i: nat, j: nat, tail: Text)
    requires s != [] && first == (if s[0] == MINUS then 1 else 0) && first < |s| && IsDigit(s[first])
    requires i <= |s| && j <= |s| && DigitsEnd(s, first) == Some(i) && FractionEnd(s, i) == Some(j)
    requires ExponentEnd(s, j).Some? && TailAt(s, ExponentEnd(s, j).value, tail)
    ensures NumberThen(s, tail)
  {
    hide DigitsEnd, FractionEnd, ExponentEnd, TailAt, IsDigit;
  }

  function NumberSign(l: Lexeme): Text
    requires l.NumberText?
  {
    if l.negative then [MINUS] else []
  }

  lemma NumberStarts(l: Lexeme, tail: Text)
    requires l.NumberText?
    ensures TailAt(WriteNumber(l, tail), 0, NumberSign(l) + (l.whole + WriteFraction(l.fraction, WriteExponent(l.exponent, tail))))
  {
    hide WriteFraction, WriteExponent;
    assert WriteNumber(l, tail)[0..] == WriteNumber(l, tail);
  }

  /** The sign and the whole part, from the start of `s`. */
  lemma WholeAt(s: Text, l: Lexeme, fraction: Text)
    requires l.NumberText? && AllDigits(l.whole) && (fraction == [] || !IsDigit(fraction[0]))
    requires TailAt(s, 0, NumberSign(l) + (l.whole + fraction))
    ensures var first := |NumberSign(l)|;
      && first < |s| && IsDigit(s[first]) && first == (if s[0] == MINUS then 1 else 0)
      && DigitsEnd(s, first) == Some(first + |l.whole|) && TailAt(s, first + |l.whole|, fraction)
  {
    var first := |NumberSign(l)|;
    assert (l.whole + fraction)[0] == l.whole[0] && IsDigit(l.whole[0]);
    hide TailAt, DigitsEnd;
    TailHead(s, 0, NumberSign(l), l.whole + fraction);
    TailHead(s, first, l.whole, fraction);
    DigitsAt(s, first, l.whole, fraction);
  }

  /** The parts of a number, one after the other, from the start of `s`. */
  lemma NumberParts(s: Text, l: Lexeme, fraction: Text, exponent: Text, tail: Text)
    requires l.NumberText? && LexemeOk(l) && EndsNumber(tail)
    requires fraction == WriteFraction(l.fraction, exponent) && exponent == WriteExponent(l.exponent, tail)
    requires TailAt(s, 0, NumberSign(l) + (l.whole + fraction))
    ensures NumberThen(s, tail)
  {
    hide WriteExponent, WriteFraction, FractionEnd, ExponentEnd, DigitsEnd, TailAt, EndsNumber, NumberThen, AllDigits, IsDigit, NumberSign;
    var first := |NumberSign(l)|;
    var i := first + |l.whole|;
    ExponentStarts(l.exponent, tail);
    FractionStarts(l.fraction, exponent);
    WholeAt(s, l, fraction);
    FractionAt(s, i, l.fraction, exponent);
    ExponentAt(s, FractionEnd(s, i).value, l.exponent, tail);
    NumberThenFrom(s, first, i, FractionEnd(s, i).value, tail);
  }

  lemma NumberReads(l: Lexeme, tail: Text)
    requires l.NumberText? && LexemeOk(l) && EndsNumber(tail)
    ensures NumberThen(WriteNumber(l, tail), tail)
  {
    hide WriteNumber, WriteFraction, WriteExponent, NumberThen, TailAt, EndsNumber, LexemeOk;
    NumberStarts(l, tail);
    var exponent := WriteExponent(l.exponent, tail);
    NumberParts(WriteNumber(l, tail), l, WriteFraction(l.fraction, exponent), exponent, tail);
  }

  lemma ExponentPrefix(e: Option<Exponent>, tail: Text)
    ensures WriteExponent(e, tail) == WriteExponent(e, []) + tail
  {
    match e
    case None => assert [] + tail == tail;
    case Some(Exponent(marker, sign, digits)) =>
      var signText := SignText(sign);
      assert digits + [] == digits;
      assert [marker] + (signText + (digits + tail)) == [marker] + (signText + digits) + tail;
  }

  lemma FractionPrefix(fraction: Option<Text>, more: Text, tail: Text)
    ensures WriteFraction(fraction, more + tail) == WriteFraction(fraction, more) + tail
  {
    if fraction.Some? {
      assert [DOT] + (fraction.value + (more + tail)) == [DOT] + (fraction.value + more) + tail;
    }
  }

  lemma NumberPrefix(l: Lexeme, tail: Text)
    requires l.NumberText?
    ensures WriteNumber(l, tail) == WriteNumber(l, []) + tail
  {
    var exponent := WriteExponent(l.exponent, []);
    var sign := NumberSign(l);
    ExponentPrefix(l.exponent, tail);
    FractionPrefix(l.fraction, exponent, tail);
    hide WriteExponent, WriteFraction;
    assert sign + (l.whole + (WriteFraction(l.fraction, exponent) + tail))
        == sign + (l.whole + WriteFraction(l.fraction, exponent)) + tail;
  }

  lemma PieceReads(p: Piece, tail: Text, value: Text)
    requires PieceOk(p)
    ensures ReadString(PieceText(p) + tail, value) == ReadString(tail, value + [PieceValue(p)])
  {
    var s := PieceText(p) + tail;
    match p
    case Raw(c) => assert s[1..] == tail;
    case Short(c) => assert s[2..] == tail;
    case Hex(digits) =>
      assert s[2..] == digits + tail && s[6..] == tail;
      assert s[2..][0] == digits[0] && s[2..][1] == digits[1] && s[2..][2] == digits[2] && s[2..][3] == digits[3];
  }

  lemma StringEnds(tail: Text, value: Text)
    ensures ReadString([QUOTE] + tail, value) == Some((value, tail))
  {
    assert ([QUOTE] + tail)[1..] == tail;
  }

  lemma {:induction false} PiecesRead(pieces: seq<Piece>, tail: Text, value: Text)
    requires forall i | 0 <= i < |pieces| :: PieceOk(pieces[i])
    ensures ReadString(WritePieces(pieces, [QUOTE] + tail), value) == Some((value + PiecesValue(pieces), tail))
    decreases |pieces|
  {
    hide ReadString, PieceText, PieceOk, PieceValue;
    if pieces == [] {
      StringEnds(tail, value);
      assert value + [] == value;
    } else {
      PieceReads(pieces[0], WritePieces(pieces[1..], [QUOTE] + tail), value);
      PiecesRead(pieces[1..], tail, value + [PieceValue(pieces[0])]);
      assert value + [PieceValue(pieces[0])] + PiecesValue(pieces[1..]) == value + PiecesValue(pieces);
    }
  }

  lemma PunctReads(p: Punct, tail: Text)
    ensures PunctText(p) + tail != [] && NextBite(PunctText(p) + tail) == Bite(Some(Mark(p)), tail)
  {
    var s := PunctText(p) + tail;
    if p == Dots {
      assert s[3..] == tail;
    } else {
      assert s[0] == PunctText(p)[0] && s[1..] == tail;
      assert PunctOf(s[0]) == Some(p);
    }
  }

  lemma NameBite(t: Text, tail: Text)
    requires IsName(t) && (tail == [] || !NamePart(tail[0]))
    ensures NextBite(t + tail) == Bite(Some(Word(StringOf(t))), tail)
  {
    var s := t + tail;
    NameReads(t, tail);
    hide StringOf, NameLength, NumberEnd, ReadString;
    assert s[0] == t[0] && s[..|t|] == t && s[|t|..] == tail;
  }

  lemma NumeralBite(s: Text, tail: Text)
    requires NumberThen(s, tail)
    ensures NextBite(s) == Bite(Some(Numeral(StringOf(s[..NumberEnd(s, 0).value]))), tail)
  {
    hide NumberEnd, StringOf, ReadString, NameLength, LineLength;
  }

  lemma PrefixBefore(a: Text, tail: Text, n: nat)
    requires TailAt(a + tail, n, tail)
    ensures (a + tail)[..n] == a
  {
    assert |a + tail| - n == |tail|;
  }

  lemma NumberThenTail(s: Text, tail: Text)
    requires NumberThen(s, tail)
    ensures s != [] && NumberEnd(s, 0).Some? && TailAt(s, NumberEnd(s, 0).value, tail)
  {
  }

  lemma NumberBite(l: Lexeme, tail: Text)
    requires l.NumberText? && LexemeOk(l) && EndsNumber(tail)
    ensures WriteNumber(l, tail) != [] && NextBite(WriteNumber(l, tail)) == Bite(Some(TokenOf(l)), tail)
  {
    assert TokenOf(l) == Numeral(StringOf(WriteNumber(l, [])));
    hide WriteNumber, StringOf, NextBite, LexemeOk, EndsNumber, TokenOf, NumberThen, IsDigit;
    NumberReads(l, tail);
    NumberPrefix(l, tail);
    NumeralBite(WriteNumber(l, tail), tail);
    assert TailAt(WriteNumber(l, tail), NumberEnd(WriteNumber(l, tail), 0).value, tail) by { NumberThenTail(WriteNumber(l, tail), tail); }
    PrefixBefore(WriteNumber(l, []), tail, NumberEnd(WriteNumber(l, tail), 0).value);
  }

  lemma QuoteBite(body: Text, text: Text, tail: Text)
    requires ReadString(body, []) == Some((text, tail))
    ensures NextBite([QUOTE] + body) == Bite(Some(Quote(text)), tail)
  {
    hide ReadString, NumberEnd, NameLength, LineLength, StringOf;
    assert ([QUOTE] + body)[0] == QUOTE && ([QUOTE] + body)[1..] == body;
  }

  lemma StringBite(pieces: seq<Piece>, tail: Text)
    requires forall i | 0 <= i < |pieces| :: PieceOk(pieces[i])
    ensures NextBite([QUOTE] + WritePieces(pieces, [QUOTE] + tail)) == Bite(Some(Quote(PiecesValue(pieces))), tail)
  {
    hide WritePieces, PiecesValue, ReadString, NextBite, PieceOk;
    PiecesRead(pieces, tail, []);
    assert [] + PiecesValue(pieces) == PiecesValue(pieces);
    QuoteBite(WritePieces(pieces, [QUOTE] + tail), PiecesValue(pieces), tail);
  }

  lemma LexemeReads(l: Lexeme, tail: Text)
    requires LexemeOk(l) && Separate(l, tail)
    ensures WriteLexeme(l, tail) != [] && NextBite(WriteLexeme(l, tail)) == Bite(Some(TokenOf(l)), tail)
  {
    hide NextBite, WritePieces, PiecesValue, WriteNumber, StringOf, PunctText;
    match l
    case Punctuator(p) => PunctReads(p, tail);
    case NameText(t) => NameBite(t, tail);
    case NumberText(_, _, _, _) => NumberBite(l, tail);
    case StringText(pieces) => StringBite(pieces, tail);
  }

  // ---------------------------------------------------------------- the whole text

  lemma {:induction false} GapsRead(gaps: seq<Gap>, tail: Text)
    requires forall i | 0 <= i < |gaps| :: GapOk(gaps[i])
    ensures Lex(WriteGaps(gaps, tail)) == Lex(tail)
    decreases |gaps|
  {
    if gaps != [] {
      var s, rest := WriteGaps(gaps, tail), WriteGaps(gaps[1..], tail);
      GapsRead(gaps[1..], tail);
      NothingPrepended(Lex(rest));
      match gaps[0]
      case Blank(c) =>
        assert s[1..] == rest;
      case Comment(text, end) =>
        LineReads(text, [end] + rest);
        assert s[1..] == text + ([end] + rest);
        assert s[1 + |text|..] == s[1..][|text|..] == [end] + rest;
        assert NextBite(s) == Bite(None, [end] + rest);
        NothingPrepended(Lex([end] + rest));
        assert ([end] + rest)[1..] == rest;
        assert Lex([end] + rest) == Lex(rest);
    }
  }

  lemma NothingPrepended(r: Result<Tokens, SyntaxError>)
    ensures Prepend([], r) == r
  {
    if r.Ok? { assert [] + r.value == r.value; }
  }

  /** However the tokens are spelled and spaced, the lexer gives them back. */
  lemma {:induction false} LexerInvertsWriting(items: seq<Item>)
    requires ItemsOk(items)
    ensures Lex(Write(items)) == Ok(TokensOf(items))
    decreases |items|
  {
    if items != [] {
      var after := WriteGaps(items[0].gaps, Write(items[1..]));
      LexerInvertsWriting(items[1..]);
      GapsRead(items[0].gaps, Write(items[1..]));
      LexemeReads(items[0].lexeme, after);
      hide WriteLexeme, NextBite, WriteGaps, TokenOf, Separate, LexemeOk;
    }
  }

  /** `parseDocument` */
  function ParseSource(source: Text): Result<Document, SyntaxError> {
    match Lex(source)
    case Err(e) => Err(e)
    case Ok(tokens) => ParseDocument(tokens)
  }

  /**
   Parsing inverts printing on text: for every written document, in any spelling of its tokens and
   with any blanks, commas and comments between them, the parser returns the document exactly when it
   fits, and an error otherwise.
   */
  lemma ParsingInvertsPrinting(definitions: seq<Definition>, leading: seq<Gap>, items: seq<Item>)
    requires forall d | d in definitions :: DefinitionWritten(d)
    requires ItemsOk(items) && TokensOf(items) == Print(definitions)
    requires forall i | 0 <= i < |leading| :: GapOk(leading[i])
    ensures if DefinitionsFit(definitions, Document([], map[]))
            then ParseSource(WriteGaps(leading, Write(items))) == Ok(DocumentOf(definitions))
            else ParseSource(WriteGaps(leading, Write(items))).Err?
  {
    GapsRead(leading, Write(items));
    LexerInvertsWriting(items);
    ParserInvertsPrinter(definitions);
  }

  // ---------------------------------------------------------------- every token list has a text

  /** Some spelling stands for the token. */
  ghost predicate Spellable(t: Token) {
    exists l :: LexemeOk(l) && TokenOf(l) == t
  }

  lemma {:induction false} TokensHaveText(tokens: Tokens) returns (items: seq<Item>)
    requires forall i | 0 <= i < |tokens| :: Spellable(tokens[i])
    ensures ItemsOk(items) && TokensOf(items) == tokens
    decreases |tokens|
  {
    items := [];
    if tokens != [] {
      var rest := TokensHaveText(tokens[1..]);
      var l :| LexemeOk(l) && TokenOf(l) == tokens[0];
      items := [Item(l, [Blank(32)])] + rest;
      assert items[1..] == rest && tokens == [tokens[0]] + tokens[1..];
      assert items[0].gaps[1..] == [];
    }
  }

  /** The spelling of a string literal that escapes only what must be. */
  function PiecesOf(text: Text): (pieces: seq<Piece>)
    ensures forall i | 0 <= i < |pieces| :: PieceOk(pieces[i])
    ensures PiecesValue(pieces) == text
  {
    if text == [] then []
    else
      var c := text[0];
      var p := if c == QUOTE || c == BACKSLASH then Short(c)
               else if c == NEWLINE then Short(110)
               else if c == RETURN then Short(114)
               else Raw(c);
      [p] + PiecesOf(text[1..])
  }

  lemma NamesAndTextsSpellable(t: Text, text: Text, p: Punct)
    requires IsName(t)
    ensures Spellable(Word(StringOf(t))) && Spellable(Quote(text)) && Spellable(Mark(p))
  {
    assert LexemeOk(NameText(t)) && TokenOf(NameText(t)) == Word(StringOf(t));
    assert LexemeOk(StringText(PiecesOf(text))) && TokenOf(StringText(PiecesOf(text))) == Quote(text);
    assert LexemeOk(Punctuator(p)) && TokenOf(Punctuator(p)) == Mark(p);
  }
}
