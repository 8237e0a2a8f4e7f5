/** The scanner object: a cursor over an immutable text, advanced one token at
    a time. The state is the text, the cursor offset, the current character and
    the current token; `NextToken` mirrors the scanner's imperative code and is
    proved to compute exactly what the reference definition `Lexer.Lex` does. */
module Tokenizer {
  import opened Results
  import opened Chars
  import opened Tokens
  import opened Lexer

  /** The token a fresh scanner holds before its first advance. */
  const DefaultToken: Token := Token(Unknown, Unknown, "", 0)

  datatype TextParser = TextParser(
    config: ParsingConfig,
    text: string,
    textPos: nat,
    ch: char,
    currentToken: Token)
  {
    /** The cursor stays within the text and `ch` is the character under
        it, the NUL sentinel at the end. */
    predicate Valid() {
      textPos <= |text| && ch == CharAt(text, textPos)
    }
  }

  /** Moves the cursor to `pos`, reloading the current character. */
  function SetTextPos(p: TextParser, pos: nat): (r: TextParser)
    requires pos <= |p.text|
    ensures r.Valid()
    ensures r.textPos == pos && r.config == p.config && r.text == p.text
    ensures r.currentToken == p.currentToken
  {
    p.(textPos := pos, ch := CharAt(p.text, pos))
  }

  /** One character forward; at the end the cursor stays put and the current
      character stays the sentinel. */
  function NextChar(p: TextParser): (r: TextParser)
    requires p.Valid()
    ensures r.Valid()
    ensures r == SetTextPos(p, Advance(p.text, p.textPos))
    ensures p.textPos == |p.text| ==> r == p && r.ch == '\0'
  {
    var pos := if p.textPos < |p.text| then p.textPos + 1 else p.textPos;
    p.(textPos := pos, ch := if pos < |p.text| then p.text[pos] else '\0')
  }

  /** The character after the current one, or the sentinel. */
  function PeekNextChar(p: TextParser): (c: char)
    requires p.Valid()
    ensures c == CharAt(p.text, p.textPos + 1)
  {
    if p.textPos + 1 < |p.text| then p.text[p.textPos + 1] else '\0'
  }

  /** The reference advance: the scanner state after the next token. */
  function Next(p: TextParser): (r: Result<TextParser, ParseError>)
    requires p.Valid()
  {
    var l :- Lex(p.config, p.text, p.textPos);
    Success(SetTextPos(p, l.next).(currentToken := l.token))
  }

  /** The state of a scanner just built over `text`: positioned at offset 0
      and advanced once. */
  function Construct(config: ParsingConfig, text: string): Result<TextParser, ParseError> {
    Next(SetTextPos(TextParser(config, text, 0, '\0', DefaultToken), 0))
  }

  function ValidateDigit(p: TextParser): (r: Outcome<ParseError>)
    ensures r.Fail? <==> !IsDigit(p.ch)
    ensures r.Fail? ==> r.error == ParseError(DigitExpected, p.textPos)
  {
    if !IsDigit(p.ch) then Fail(ParseError(DigitExpected, p.textPos)) else Pass
  }

  function ValidateHexChar(p: TextParser): (r: Outcome<ParseError>)
    ensures r.Fail? <==> !IsHexChar(p.ch)
    ensures r.Fail? ==> r.error == ParseError(HexCharExpected, p.textPos)
  {
    if !IsHexChar(p.ch) then Fail(ParseError(HexCharExpected, p.textPos)) else Pass
  }

  function ValidateBinaryChar(p: TextParser): (r: Outcome<ParseError>)
    ensures r.Fail? <==> !IsZeroOrOne(p.ch)
    ensures r.Fail? ==> r.error == ParseError(BinaryCharExpected, p.textPos)
  {
    if !IsZeroOrOne(p.ch) then Fail(ParseError(BinaryCharExpected, p.textPos)) else Pass
  }

  function ValidateExpressionAt(p: TextParser): (r: Outcome<ParseError>)
    ensures r.Fail? <==> IsLetterOrDigit(p.ch)
    ensures r.Fail? ==> r.error == ParseError(ExpressionExpected, p.textPos)
  {
    if IsLetterOrDigit(p.ch) then Fail(ParseError(ExpressionExpected, p.textPos)) else Pass
  }

  /** `do NextChar(); while (cls(ch));` — the scanner's run loop. */
  method SkipRun(p: TextParser, cls: CharClass) returns (r: TextParser)
    requires p.Valid() && p.textPos < |p.text|
    ensures r == SetTextPos(p, Span(p.text, p.textPos + 1, cls))
  {
    r := NextChar(p);
    while InClass(cls, r.ch)
      invariant r.Valid() && r.config == p.config && r.text == p.text
      invariant r.currentToken == p.currentToken
      invariant p.textPos < r.textPos
      invariant Span(r.text, r.textPos, cls) == Span(p.text, p.textPos + 1, cls)
      decreases |r.text| - r.textPos
    {
      SentinelInNoClass(cls);
      r := NextChar(r);
    }
  }

  /** One step through a string body: a backslash also skips the escape
      character or double quote after it. */
  method StringBodyStep(s: TextParser) returns (r: TextParser)
    requires s.Valid() && s.textPos < |s.text|
    ensures r == SetTextPos(s, StringStep(s.text, s.textPos))
  {
    r := s;
    var nextChar := PeekNextChar(r);
    if r.ch == '\\' {
      if nextChar in EscapeCharacters {
        r := NextChar(r);
      }
      if nextChar == '"' {
        r := NextChar(r);
      }
    }
    r := NextChar(r);
  }

  /** The string-literal branch, from the opening delimiter. The
      `quoteIsBalanced` flag of the scanner is kept; it can only be set at the
      moment the loop meets the closing delimiter. */
  method ScanString(p: TextParser) returns (r: Result<TextParser, ParseError>)
    requires p.Valid() && IsQuote(p.ch)
    ensures var e := StringEnd(p.text, p.ch, p.textPos + 1);
      if e == |p.text| then r == Failure(ParseError(UnterminatedStringLiteral, |p.text|))
      else r == Success(SetTextPos(p, e + 1))
  {
    var quoteIsBalanced := false;
    var quote := p.ch;
    var s := NextChar(p);
    while s.textPos < |s.text| && s.ch != quote
      invariant s.Valid() && s.config == p.config && s.text == p.text
      invariant s.currentToken == p.currentToken
      invariant p.textPos < s.textPos
      invariant StringEnd(s.text, quote, s.textPos) == StringEnd(p.text, quote, p.textPos + 1)
      invariant quoteIsBalanced ==> s.textPos < |s.text| && s.ch == quote
      decreases |s.text| - s.textPos
    {
      s := StringBodyStep(s);
      if s.ch == quote {
        quoteIsBalanced := !quoteIsBalanced;
      }
    }
    if s.textPos == |s.text| && !quoteIsBalanced {
      return Failure(ParseError(UnterminatedStringLiteral, s.textPos));
    }
    s := NextChar(s);
    r := Success(s);
  }

  /** A reference scan result as a scanner state: the cursor moved to the
      token's end, paired with the token's kind. */
  function AsState(p: TextParser, res: Result<Scanned, ParseError>): Result<(TextParser, TokenId), ParseError>
    requires p.Valid()
    requires res.Success? ==> res.value.end <= |p.text|
  {
    match res
    case Success(sc) => Success((SetTextPos(p, sc.end), sc.id))
    case Failure(e) => Failure(e)
  }

  /** The optional `F`, `D` and `M` suffixes. */
  method ScanSuffixes(p: TextParser) returns (r: TextParser)
    requires p.Valid()
    ensures r == SetTextPos(p, Suffixes(p.text, p.textPos))
  {
    r := p;
    if r.ch == 'F' || r.ch == 'f' {
      r := NextChar(r);
    }
    if r.ch == 'D' || r.ch == 'd' {
      r := NextChar(r);
    }
    if r.ch == 'M' || r.ch == 'm' {
      r := NextChar(r);
    }
  }

  /** The decimal-separator branch of a numeric literal. */
  method ScanFraction(p: TextParser) returns (r: Result<(TextParser, TokenId), ParseError>)
    requires p.Valid()
    ensures r == AsState(p, Fraction(p.config, p.text, p.textPos))
  {
    var tokenId := IntegerLiteral;
    var s := p;
    if s.ch == DecimalSeparator(s.config) {
      tokenId := RealLiteral;
      s := NextChar(s);
      var v := ValidateDigit(s);
      if v.Fail? {
        return Failure(v.error);
      }
      s := SkipRun(s, Digit);
    }
    r := Success((s, tokenId));
  }

  /** The exponent branch of a numeric literal. */
  method ScanExponent(p: TextParser, id: TokenId) returns (r: Result<(TextParser, TokenId), ParseError>)
    requires p.Valid()
    ensures r == AsState(p, Exponent(p.text, id, p.textPos))
  {
    var tokenId := id;
    var s := p;
    if IsExponentMarker(s.ch) {
      tokenId := RealLiteral;
      s := NextChar(s);
      if IsSign(s.ch) {
        s := NextChar(s);
      }
      var v := ValidateDigit(s);
      if v.Fail? {
        return Failure(v.error);
      }
      s := SkipRun(s, Digit);
    }
    r := Success((s, tokenId));
  }

  /** Integer qualifiers, or else (for a decimal integer) the real-literal
      tail. */
  method ScanQualifier(p: TextParser, isHexInteger: bool) returns (r: Result<(TextParser, TokenId), ParseError>)
    requires p.Valid()
    ensures r == AsState(p, Qualifier(p.config, p.text, p.textPos, isHexInteger))
  {
    var s := p;
    if s.ch == 'U' || s.ch == 'L' {
      s := NextChar(s);
      if s.ch == 'L' {
        if s.text[s.textPos - 1] == 'U' {
          s := NextChar(s);
        } else {
          return Failure(ParseError(InvalidIntegerQualifier(s.text[s.textPos - 1..s.textPos + 1]), s.textPos));
        }
      }
      var v := ValidateExpressionAt(s);
      if v.Fail? {
        return Failure(v.error);
      }
      return Success((s, IntegerLiteral));
    }

    if isHexInteger {
      return Success((s, IntegerLiteral));
    }

    var f := ScanFraction(s);
    if f.Failure? {
      return Failure(f.error);
    }
    var e := ScanExponent(f.value.0, f.value.1);
    if e.Failure? {
      return Failure(e.error);
    }
    s := ScanSuffixes(e.value.0);
    r := Success((s, e.value.1));
  }

  /** The binary branch of a numeric literal, from the `B` or `b` marker; a
      binary literal ends with its last bit. */
  method ScanBinary(p: TextParser) returns (r: Result<(TextParser, TokenId), ParseError>)
    requires p.Valid() && IsBinaryMarker(p.ch)
    ensures !IsZeroOrOne(CharAt(p.text, p.textPos + 1)) ==>
      r == Failure(ParseError(BinaryCharExpected, p.textPos + 1))
    ensures IsZeroOrOne(CharAt(p.text, p.textPos + 1)) ==>
      r == Success((SetTextPos(p, Span(p.text, p.textPos + 2, Bit)), IntegerLiteral))
  {
    var s := NextChar(p);
    var v := ValidateBinaryChar(s);
    if v.Fail? {
      return Failure(v.error);
    }
    s := SkipRun(s, Bit);
    r := Success((s, IntegerLiteral));
  }

  /** The hexadecimal branch of a numeric literal, from the `X` or `x`
      marker, up to the last hexadecimal digit. */
  method ScanHex(p: TextParser) returns (r: Result<TextParser, ParseError>)
    requires p.Valid() && IsHexMarker(p.ch)
    ensures !IsHexChar(CharAt(p.text, p.textPos + 1)) ==>
      r == Failure(ParseError(HexCharExpected, p.textPos + 1))
    ensures IsHexChar(CharAt(p.text, p.textPos + 1)) ==>
      r == Success(SetTextPos(p, Span(p.text, p.textPos + 2, Hex)))
  {
    var s := NextChar(p);
    var v := ValidateHexChar(s);
    if v.Fail? {
      return Failure(v.error);
    }
    s := SkipRun(s, Hex);
    r := Success(s);
  }

  /** The numeric-literal branch, from its first digit. */
  method ScanNumber(p: TextParser) returns (r: Result<(TextParser, TokenId), ParseError>)
    requires p.Valid() && p.textPos < |p.text| && IsDigit(p.ch)
    ensures r == AsState(p, Number(p.config, p.text, p.textPos))
  {
    var s := SkipRun(p, Digit);
    if IsBinaryMarker(s.ch) {
      r := ScanBinary(s);
      return;
    }

    var isHexInteger := false;
    if IsHexMarker(s.ch) {
      var h := ScanHex(s);
      if h.Failure? {
        return Failure(h.error);
      }
      s := h.value;
      isHexInteger := true;
    }

    r := ScanQualifier(s, isHexInteger);
  }

  /** The operator branches of the scanner's switch. */
  method ScanOperator(p: TextParser) returns (r: Option<(TextParser, TokenId)>)
    requires p.Valid()
    ensures var op := Operator(p.ch, CharAt(p.text, p.textPos + 1));
      if op.Some? then r == Some((SetTextPos(p, p.textPos + op.value.1), op.value.0)) else r == None
  {
    var s := p;
    var tokenId: TokenId;
    match s.ch {
    case '!' =>
      s := NextChar(s);
      if s.ch == '=' {
        s := NextChar(s);
        tokenId := ExclamationEqual;
      } else {
        tokenId := Exclamation;
      }
    case '%' =>
      s := NextChar(s);
      tokenId := Percent;
    case '&' =>
      s := NextChar(s);
      if s.ch == '&' {
        s := NextChar(s);
        tokenId := DoubleAmpersand;
      } else {
        tokenId := Ampersand;
      }
    case '(' =>
      s := NextChar(s);
      tokenId := OpenParen;
    case ')' =>
      s := NextChar(s);
      tokenId := CloseParen;
    case '{' =>
      s := NextChar(s);
      tokenId := OpenCurlyParen;
    case '}' =>
      s := NextChar(s);
      tokenId := CloseCurlyParen;
    case '*' =>
      s := NextChar(s);
      tokenId := Asterisk;
    case '+' =>
      s := NextChar(s);
      tokenId := Plus;
    case ',' =>
      s := NextChar(s);
      tokenId := Comma;
    case '-' =>
      s := NextChar(s);
      tokenId := Minus;
    case '.' =>
      s := NextChar(s);
      tokenId := Dot;
    case '/' =>
      s := NextChar(s);
      tokenId := Slash;
    case ':' =>
      s := NextChar(s);
      tokenId := Colon;
    case '<' =>
      s := NextChar(s);
      if s.ch == '=' {
        s := NextChar(s);
        tokenId := LessThanEqual;
      } else if s.ch == '>' {
        s := NextChar(s);
        tokenId := LessGreater;
      } else if s.ch == '<' {
        s := NextChar(s);
        tokenId := DoubleLessThan;
      } else {
        tokenId := LessThan;
      }
    case '=' =>
      s := NextChar(s);
      if s.ch == '=' {
        s := NextChar(s);
        tokenId := DoubleEqual;
      } else if s.ch == '>' {
        s := NextChar(s);
        tokenId := Lambda;
      } else {
        tokenId := Equal;
      }
    case '>' =>
      s := NextChar(s);
      if s.ch == '=' {
        s := NextChar(s);
        tokenId := GreaterThanEqual;
      } else if s.ch == '>' {
        s := NextChar(s);
        tokenId := DoubleGreaterThan;
      } else {
        tokenId := GreaterThan;
      }
    case '?' =>
      s := NextChar(s);
      if s.ch == '?' {
        s := NextChar(s);
        tokenId := NullCoalescing;
      } else if s.ch == '.' {
        s := NextChar(s);
        tokenId := NullPropagation;
      } else {
        tokenId := Question;
      }
    case '[' =>
      s := NextChar(s);
      tokenId := OpenBracket;
    case ']' =>
      s := NextChar(s);
      tokenId := CloseBracket;
    case '|' =>
      s := NextChar(s);
      if s.ch == '|' {
        s := NextChar(s);
        tokenId := DoubleBar;
      } else {
        tokenId := Bar;
      }
    case _ =>
      return None;
    }
    r := Some((s, tokenId));
  }

  /** The scanner's switch on the current character, white space already
      skipped. */
  method ScanToken(p: TextParser) returns (r: Result<(TextParser, TokenId), ParseError>)
    requires p.Valid()
    ensures r == AsState(p, Scan(p.config, p.text, p.textPos))
  {
    var op := ScanOperator(p);
    if op.Some? {
      return Success(op.value);
    }
    if p.ch == '"' || p.ch == '\'' {
      var str := ScanString(p);
      if str.Failure? {
        return Failure(str.error);
      }
      return Success((str.value, StringLiteral));
    }
    if IsLetter(p.ch) || p.ch == '@' || p.ch == '_' || p.ch == '$' || p.ch == '^' || p.ch == '~' {
      var s := SkipRun(p, IdentifierTail);
      return Success((s, Identifier));
    }
    if IsDigit(p.ch) {
      r := ScanNumber(p);
      return;
    }
    if p.textPos == |p.text| {
      return Success((p, End));
    }
    return Failure(ParseError(InvalidCharacter(p.ch), p.textPos));
  }

  /** Advances to the next token: skips white space, classifies the current
      character and records the token's kind, alias-resolved kind, text and
      start offset. */
  method NextToken(p: TextParser) returns (r: Result<TextParser, ParseError>)
    requires p.Valid()
    ensures r == Next(p)
  {
    var s := p;
    while IsWhiteSpace(s.ch)
      invariant s.Valid() && s.config == p.config && s.text == p.text
      invariant s.currentToken == p.currentToken
      invariant p.textPos <= s.textPos
      invariant Span(s.text, s.textPos, Space) == Span(p.text, p.textPos, Space)
      decreases |s.text| - s.textPos
    {
      s := NextChar(s);
    }
    var tokenPos := s.textPos;

    var scanned := ScanToken(s);
    if scanned.Failure? {
      return Failure(scanned.error);
    }
    var tokenId;
    s, tokenId := scanned.value.0, scanned.value.1;

    var text := s.text[tokenPos..s.textPos];
    var token := Token(GetAliasedTokenId(s.config.isCaseSensitive, tokenId, text), tokenId, text, tokenPos);
    r := Success(s.(currentToken := token));
  }

  /** Builds a scanner over `text` and scans its first token. */
  method New(config: ParsingConfig, text: string) returns (r: Result<TextParser, ParseError>)
    ensures r == Construct(config, text)
  {
    var p := SetTextPos(TextParser(config, text, 0, '\0', DefaultToken), 0);
    r := NextToken(p);
  }

  /** A second scanner over the same text, positioned at this one's offset. Its
      current token is the one its own construction scanned. */
  function Clone(p: TextParser): (r: Result<TextParser, ParseError>)
    requires p.Valid()
    ensures r.Success? <==> Construct(p.config, p.text).Success?
    ensures r.Success? ==>
      r.value.Valid() && r.value.config == p.config && r.value.text == p.text && r.value.textPos == p.textPos
  {
    var c :- Construct(p.config, p.text);
    Success(SetTextPos(c, p.textPos))
  }

  /** The current token is an identifier spelled `id`, ignoring case. */
  predicate TokenIsIdentifier(p: TextParser, id: string) {
    p.currentToken.id == Identifier && EqualsIgnoreCase(id, p.currentToken.text)
  }

  /** Fails with a syntax error at the current token unless it has kind
      `tokenId`. */
  function ValidateToken(p: TextParser, tokenId: TokenId): (r: Outcome<ParseError>)
    ensures r.Pass? <==> p.currentToken.id == tokenId
    ensures r.Fail? ==> r.error == ParseError(SyntaxError, p.currentToken.pos)
  {
    if p.currentToken.id != tokenId then Fail(ParseError(SyntaxError, p.currentToken.pos)) else Pass
  }

  /** The current token, when it is an identifier named in `ids` or its kind
      is one of `tokenIds`; `None` stands for the `false` answer. */
  method TryGetToken(p: TextParser, ids: seq<string>, tokenIds: seq<TokenId>) returns (r: Option<Token>)
    ensures r.Some? <==>
      (exists i :: 0 <= i < |ids| && TokenIsIdentifier(p, ids[i])) || p.currentToken.id in tokenIds
    ensures r.Some? ==> r.value == p.currentToken
  {
    var i := 0;
    while i < |ids|
      invariant 0 <= i <= |ids|
      invariant forall k :: 0 <= k < i ==> !TokenIsIdentifier(p, ids[k])
    {
      if TokenIsIdentifier(p, ids[i]) {
        return Some(p.currentToken);
      }
      i := i + 1;
    }
    var j := 0;
    while j < |tokenIds|
      invariant 0 <= j <= |tokenIds|
      invariant p.currentToken.id !in tokenIds[..j]
    {
      if tokenIds[j] == p.currentToken.id {
        return Some(p.currentToken);
      }
      j := j + 1;
    }
    assert tokenIds[..j] == tokenIds;
    return None;
  }
}
