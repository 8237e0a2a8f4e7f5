/** The scanner as a pure function of the text and a start offset.

    `Lex` is the reference definition of one advance of the scanner: skip
    white space, classify the current character, consume the longest token of
    that class, and report the token or a positional parse error. Its pieces
    follow the scanner's branches one by one; each `do … while` loop of the
    scanner is a `Span` over a character class. */
module Lexer {
  import opened Results
  import opened Chars
  import opened Tokens

  /** The configuration the scanner reads: whether alias look-up is case
      sensitive, and the first character of the culture's decimal separator
      when a number-parse culture is configured. */
  datatype ParsingConfig = ParsingConfig(isCaseSensitive: bool, numberDecimalSeparator: Option<char>)

  const DefaultNumberDecimalSeparator: char := '.'

  function DecimalSeparator(config: ParsingConfig): char {
    match config.numberDecimalSeparator
    case Some(c) => c
    case None => DefaultNumberDecimalSeparator
  }

  /** Characters that a backslash escapes inside a string literal. */
  const EscapeCharacters: seq<char> := ['\\', 'a', 'b', 'f', 'n', 'r', 't', 'v']

  /** The scanner's cursor move: one step forward, but never past the end. */
  function Advance(text: string, i: nat): (j: nat)
    requires i <= |text|
    ensures j <= |text|
    ensures i < |text| ==> j == i + 1
    ensures i == |text| ==> j == i
  {
    if i < |text| then i + 1 else i
  }

  /** A scanned token before alias substitution: its kind and its end offset. */
  datatype Scanned = Scanned(id: TokenId, end: nat)

  /** One advance: the token found and the offset where scanning resumes. */
  datatype Lexed = Lexed(token: Token, next: nat)

  /** The operator that starts with `c` when `n` is the following character:
      its kind and length, the two-character form winning when it applies. */
  function Operator(c: char, n: char): (r: Option<(TokenId, nat)>)
    ensures r.Some? ==> c != '\0' && (r.value.1 == 1 || (r.value.1 == 2 && n != '\0'))
    ensures r.Some? ==> r.value.0 != Identifier
  {
    match c
    case '!' => Some(if n == '=' then (ExclamationEqual, 2) else (Exclamation, 1))
    case '%' => Some((Percent, 1))
    case '&' => Some(if n == '&' then (DoubleAmpersand, 2) else (Ampersand, 1))
    case '(' => Some((OpenParen, 1))
    case ')' => Some((CloseParen, 1))
    case '{' => Some((OpenCurlyParen, 1))
    case '}' => Some((CloseCurlyParen, 1))
    case '*' => Some((Asterisk, 1))
    case '+' => Some((Plus, 1))
    case ',' => Some((Comma, 1))
    case '-' => Some((Minus, 1))
    case '.' => Some((Dot, 1))
    case '/' => Some((Slash, 1))
    case ':' => Some((Colon, 1))
    case '<' => Some(
      if n == '=' then (LessThanEqual, 2)
      else if n == '>' then (LessGreater, 2)
      else if n == '<' then (DoubleLessThan, 2)
      else (LessThan, 1))
    case '=' => Some(
      if n == '=' then (DoubleEqual, 2)
      else if n == '>' then (Lambda, 2)
      else (Equal, 1))
    case '>' => Some(
      if n == '=' then (GreaterThanEqual, 2)
      else if n == '>' then (DoubleGreaterThan, 2)
      else (GreaterThan, 1))
    case '?' => Some(
      if n == '?' then (NullCoalescing, 2)
      else if n == '.' then (NullPropagation, 2)
      else (Question, 1))
    case '[' => Some((OpenBracket, 1))
    case ']' => Some((CloseBracket, 1))
    case '|' => Some(if n == '|' then (DoubleBar, 2) else (Bar, 1))
    case _ => None
  }

  /** True when the backslash at `i` swallows the character after it: an
      escape character, or a double quote. */
  predicate EscapesNext(text: string, i: nat)
    requires i < |text|
  {
    text[i] == '\\' && (CharAt(text, i + 1) in EscapeCharacters || CharAt(text, i + 1) == '"')
  }

  /** One step through the body of a string literal. */
  function StringStep(text: string, i: nat): (j: nat)
    requires i < |text|
    ensures i < j <= |text|
  {
    if EscapesNext(text, i) then i + 2 else i + 1
  }

  /** Where the body of a string literal opened by `quote` stops, scanning
      from `i`: the first delimiter the steps land on, or the end of text. */
  function StringEnd(text: string, quote: char, i: nat): (j: nat)
    requires i <= |text|
    ensures i <= j <= |text|
    ensures j < |text| ==> text[j] == quote
    decreases |text| - i
  {
    if i == |text| || text[i] == quote then i else StringEnd(text, quote, StringStep(text, i))
  }

  /** The qualifier check: a letter or digit may not follow. */
  function ValidateExpression(text: string, i: nat): (r: Result<Scanned, ParseError>)
    requires i <= |text|
    ensures r.Success? ==> r.value == Scanned(IntegerLiteral, i)
    ensures r.Failure? ==> r.error == ParseError(ExpressionExpected, i)
  {
    if IsLetterOrDigit(CharAt(text, i)) then Failure(ParseError(ExpressionExpected, i))
    else Success(Scanned(IntegerLiteral, i))
  }

  /** The optional type suffixes, each at most once and in this order. */
  function Suffixes(text: string, i: nat): (j: nat)
    requires i <= |text|
    ensures i <= j <= |text|
  {
    var i1 := if CharAt(text, i) == 'F' || CharAt(text, i) == 'f' then i + 1 else i;
    var i2 := if CharAt(text, i1) == 'D' || CharAt(text, i1) == 'd' then i1 + 1 else i1;
    if CharAt(text, i2) == 'M' || CharAt(text, i2) == 'm' then i2 + 1 else i2
  }

  /** The fractional part, when the current character is the separator. */
  function Fraction(config: ParsingConfig, text: string, i: nat): (r: Result<Scanned, ParseError>)
    requires i <= |text|
    ensures r.Success? ==> i <= r.value.end <= |text|
    ensures r.Failure? ==> i <= r.error.pos <= |text|
    ensures r.Success? ==> r.value.id == IntegerLiteral || r.value.id == RealLiteral
  {
    if CharAt(text, i) == DecimalSeparator(config) then
      var a := Advance(text, i);
      if !IsDigit(CharAt(text, a)) then Failure(ParseError(DigitExpected, a))
      else Success(Scanned(RealLiteral, Span(text, a + 1, Digit)))
    else Success(Scanned(IntegerLiteral, i))
  }

  /** The exponent part, when the current character is `E` or `e`. */
  function Exponent(text: string, id: TokenId, i: nat): (r: Result<Scanned, ParseError>)
    requires i <= |text|
    ensures r.Success? ==> i <= r.value.end <= |text|
    ensures r.Failure? ==> i <= r.error.pos <= |text|
    ensures r.Success? && (id == IntegerLiteral || id == RealLiteral) ==>
      r.value.id == IntegerLiteral || r.value.id == RealLiteral
  {
    if IsExponentMarker(CharAt(text, i)) then
      var a := Advance(text, i);
      var s := if IsSign(CharAt(text, a)) then Advance(text, a) else a;
      if !IsDigit(CharAt(text, s)) then Failure(ParseError(DigitExpected, s))
      else Success(Scanned(RealLiteral, Span(text, s + 1, Digit)))
    else Success(Scanned(id, i))
  }

  /** The real-literal tail of a decimal integer: separator, exponent and
      suffixes. */
  function RealTail(config: ParsingConfig, text: string, i: nat): (r: Result<Scanned, ParseError>)
    requires i <= |text|
    ensures r.Success? ==> i <= r.value.end <= |text|
    ensures r.Failure? ==> i <= r.error.pos <= |text|
    ensures r.Success? ==> r.value.id == IntegerLiteral || r.value.id == RealLiteral
  {
    var f :- Fraction(config, text, i);
    var e :- Exponent(text, f.id, f.end);
    Success(Scanned(e.id, Suffixes(text, e.end)))
  }

  /** The integer qualifiers `U`, `L` and `UL` that may follow a decimal or
      hexadecimal integer; `isHex` ends the literal when none is present. */
  function Qualifier(config: ParsingConfig, text: string, i: nat, isHex: bool): (r: Result<Scanned, ParseError>)
    requires i <= |text|
    ensures r.Success? ==> i <= r.value.end <= |text|
    ensures r.Failure? ==> i <= r.error.pos <= |text|
    ensures r.Success? ==> r.value.id == IntegerLiteral || r.value.id == RealLiteral
  {
    var c := CharAt(text, i);
    if c == 'U' || c == 'L' then
      if CharAt(text, i + 1) == 'L' then
        if c == 'U' then ValidateExpression(text, i + 2)
        else Failure(ParseError(InvalidIntegerQualifier(text[i..i + 2]), i + 1))
      else ValidateExpression(text, i + 1)
    else if isHex then Success(Scanned(IntegerLiteral, i))
    else RealTail(config, text, i)
  }

  /** A numeric literal starting with the digit at `start`. */
  function Number(config: ParsingConfig, text: string, start: nat): (r: Result<Scanned, ParseError>)
    requires start < |text| && IsDigit(text[start])
    ensures r.Success? ==> start < r.value.end <= |text|
    ensures r.Failure? ==> start < r.error.pos <= |text|
    ensures r.Success? ==> r.value.id == IntegerLiteral || r.value.id == RealLiteral
  {
    var p := Span(text, start + 1, Digit);
    var c := CharAt(text, p);
    if IsBinaryMarker(c) then
      if !IsZeroOrOne(CharAt(text, p + 1)) then Failure(ParseError(BinaryCharExpected, p + 1))
      else Success(Scanned(IntegerLiteral, Span(text, p + 2, Bit)))
    else if IsHexMarker(c) then
      if !IsHexChar(CharAt(text, p + 1)) then Failure(ParseError(HexCharExpected, p + 1))
      else Qualifier(config, text, Span(text, p + 2, Hex), true)
    else Qualifier(config, text, p, false)
  }

  predicate IsIdentifierStart(c: char) {
    IsLetter(c) || c == '@' || c == '_' || c == '$' || c == '^' || c == '~'
  }

  predicate IsQuote(c: char) {
    c == '"' || c == '\''
  }

  /** Classification of the token that starts at `start`, white space
      already skipped. */
  function Scan(config: ParsingConfig, text: string, start: nat): (r: Result<Scanned, ParseError>)
    requires start <= |text|
    ensures r.Success? ==> start <= r.value.end <= |text|
    ensures r.Failure? ==> start <= r.error.pos <= |text|
  {
    var c := CharAt(text, start);
    var op := Operator(c, CharAt(text, start + 1));
    if op.Some? then Success(Scanned(op.value.0, start + op.value.1))
    else if IsQuote(c) then
      var e := StringEnd(text, c, start + 1);
      if e == |text| then Failure(ParseError(UnterminatedStringLiteral, |text|))
      else Success(Scanned(StringLiteral, e + 1))
    else if IsIdentifierStart(c) then Success(Scanned(Identifier, Span(text, start + 1, IdentifierTail)))
    else if IsDigit(c) then Number(config, text, start)
    else if start == |text| then Success(Scanned(End, start))
    else Failure(ParseError(InvalidCharacter(c), start))
  }

  /** One advance of the scanner from offset `pos`. */
  function Lex(config: ParsingConfig, text: string, pos: nat): (r: Result<Lexed, ParseError>)
    requires pos <= |text|
    ensures r.Success? ==> pos <= r.value.token.pos <= r.value.next <= |text|
    ensures r.Success? ==> r.value.token.text == text[r.value.token.pos..r.value.next]
    ensures r.Failure? ==> pos <= r.error.pos <= |text|
  {
    var start := Span(text, pos, Space);
    var s :- Scan(config, text, start);
    var slice := text[start..s.end];
    Success(Lexed(Token(GetAliasedTokenId(config.isCaseSensitive, s.id, slice), s.id, slice, start), s.end))
  }
}
