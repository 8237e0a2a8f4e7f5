/** What one advance of the scanner guarantees, stated independently of how
    `Lexer.Lex` computes it. */
module LexerProperties {
  import opened Results
  import opened Chars
  import opened Tokens
  import opened Lexer
  import opened Tokenizer

  // ---------------------------------------------------------------------------
  // White space and the end of the text

  /** White space before a token is skipped: everything between the start
      offset and the token is white space, and the token does not start with
      white space. */
  lemma TokenStartsAfterWhiteSpace(config: ParsingConfig, text: string, pos: nat)
    requires pos <= |text| && Lex(config, text, pos).Success?
    ensures var t := Lex(config, text, pos).value.token;
      (forall k :: pos <= k < t.pos ==> IsWhiteSpace(text[k]))
      && !IsWhiteSpace(CharAt(text, t.pos))
  {
  }

  /** An empty or all-white-space remainder yields the `End` token, with empty
      text, at the length of the text. */
  lemma BlankTextYieldsEnd(config: ParsingConfig, text: string, pos: nat)
    requires pos <= |text|
    requires forall k :: pos <= k < |text| ==> IsWhiteSpace(text[k])
    ensures Lex(config, text, pos) == Success(Lexed(Token(End, End, "", |text|), |text|))
  {
    SpanUnique(text, pos, |text|, Space);
  }

  /** A scanner built over blank text holds the `End` token at its length. */
  lemma ConstructOnBlankText(config: ParsingConfig, text: string)
    requires forall k :: 0 <= k < |text| ==> IsWhiteSpace(text[k])
    ensures Construct(config, text).Success?
    ensures Construct(config, text).value.currentToken == Token(End, End, "", |text|)
    ensures Construct(config, text).value.textPos == |text|
  {
    BlankTextYieldsEnd(config, text, 0);
  }

  /** `End` is reported exactly when the token starts at the end of the text;
      every other token consumes at least one character. */
  lemma EndExactlyAtEndOfText(config: ParsingConfig, text: string, pos: nat)
    requires pos <= |text| && Lex(config, text, pos).Success?
    ensures var l := Lex(config, text, pos).value;
      (l.token.originalId == End <==> l.token.pos == |text|)
      && (l.token.originalId == End ==> l.token.id == End && l.next == |text| && l.token.text == "")
      && (l.token.originalId != End ==> l.token.pos < l.next)
  {
    var start := Span(text, pos, Space);
    var c := CharAt(text, start);
    var op := Operator(c, CharAt(text, start + 1));
    if op.None? && !IsQuote(c) && !IsIdentifierStart(c) && !IsDigit(c) {
      assert start == |text|;
    }
  }

  /** The scanner never rewinds and never leaves the text; after an advance
      that is not `End`, the cursor has moved. */
  lemma NextTokenProgresses(p: TextParser)
    requires p.Valid() && Next(p).Success?
    ensures var q := Next(p).value;
      q.Valid() && q.config == p.config && q.text == p.text
      && p.textPos <= q.currentToken.pos <= q.textPos
      && q.currentToken.text == p.text[q.currentToken.pos..q.textPos]
      && (q.currentToken.originalId != End ==> p.textPos < q.textPos)
  {
    EndExactlyAtEndOfText(p.config, p.text, p.textPos);
  }

  // ---------------------------------------------------------------------------
  // Operators

  /** The two-character operators, keyed by their two characters. */
  const TwoCharOperators: map<(char, char), TokenId> := map[
    ('!', '=') := ExclamationEqual,
    ('&', '&') := DoubleAmpersand,
    ('<', '=') := LessThanEqual,
    ('<', '>') := LessGreater,
    ('<', '<') := DoubleLessThan,
    ('=', '=') := DoubleEqual,
    ('=', '>') := Lambda,
    ('>', '=') := GreaterThanEqual,
    ('>', '>') := DoubleGreaterThan,
    ('?', '?') := NullCoalescing,
    ('?', '.') := NullPropagation,
    ('|', '|') := DoubleBar
  ]

  /** The one-character operators. */
  const OneCharOperators: map<char, TokenId> := map[
    '!' := Exclamation,
    '%' := Percent,
    '&' := Ampersand,
    '(' := OpenParen,
    ')' := CloseParen,
    '{' := OpenCurlyParen,
    '}' := CloseCurlyParen,
    '*' := Asterisk,
    '+' := Plus,
    ',' := Comma,
    '-' := Minus,
    '.' := Dot,
    '/' := Slash,
    ':' := Colon,
    '<' := LessThan,
    '=' := Equal,
    '>' := GreaterThan,
    '?' := Question,
    '[' := OpenBracket,
    ']' := CloseBracket,
    '|' := Bar
  ]

  /** Operator recognition is longest-match over the two tables: a
      two-character operator wins over its one-character prefix. */
  lemma OperatorIsLongestMatch(c: char, n: char)
    ensures Operator(c, n) ==
      if (c, n) in TwoCharOperators then Some((TwoCharOperators[(c, n)], 2))
      else if c in OneCharOperators then Some((OneCharOperators[c], 1))
      else None
  {
    if (c, n) in TwoCharOperators {
      TwoCharOperatorMatch(c, n);
    } else if c in {'!', '&', '<', '=', '>', '?', '|'} {
      PrefixOperatorMatch(c, n);
    } else if c in {'%', '(', ')', '{', '}', '*', '+'} {
      BracketOperatorMatch(c, n);
    } else if c in {',', '-', '.', '/', ':', '[', ']'} {
      PunctuationOperatorMatch(c, n);
    } else {
      NoOperatorMatch(c, n);
    }
  }

  // The cases of the longest match, each small enough to check on its own.

  lemma TwoCharOperatorMatch(c: char, n: char)
    requires (c, n) in TwoCharOperators
    ensures Operator(c, n) == Some((TwoCharOperators[(c, n)], 2))
  {
  }

  /** A character that starts a two-character operator, not followed by the
      second character of any of them, is the one-character operator. */
  lemma PrefixOperatorMatch(c: char, n: char)
    requires (c, n) !in TwoCharOperators && c in {'!', '&', '<', '=', '>', '?', '|'}
    ensures c in OneCharOperators && Operator(c, n) == Some((OneCharOperators[c], 1))
  {
    if c == '!' {
      assert n != '=' by { assert ('!', '=') in TwoCharOperators; }
    } else if c == '&' {
      assert n != '&' by { assert ('&', '&') in TwoCharOperators; }
    } else if c == '<' {
      assert n != '=' && n != '>' && n != '<' by {
        assert ('<', '=') in TwoCharOperators && ('<', '>') in TwoCharOperators && ('<', '<') in TwoCharOperators;
      }
    } else if c == '=' {
      assert n != '=' && n != '>' by { assert ('=', '=') in TwoCharOperators && ('=', '>') in TwoCharOperators; }
    } else if c == '>' {
      assert n != '=' && n != '>' by { assert ('>', '=') in TwoCharOperators && ('>', '>') in TwoCharOperators; }
    } else if c == '?' {
      assert n != '?' && n != '.' by { assert ('?', '?') in TwoCharOperators && ('?', '.') in TwoCharOperators; }
    } else {
      assert n != '|' by { assert ('|', '|') in TwoCharOperators; }
    }
  }

  lemma BracketOperatorMatch(c: char, n: char)
    requires c in {'%', '(', ')', '{', '}', '*', '+'}
    ensures c in OneCharOperators && Operator(c, n) == Some((OneCharOperators[c], 1))
  {
  }

  lemma PunctuationOperatorMatch(c: char, n: char)
    requires c in {',', '-', '.', '/', ':', '[', ']'}
    ensures c in OneCharOperators && Operator(c, n) == Some((OneCharOperators[c], 1))
  {
  }

  lemma NoOperatorMatch(c: char, n: char)
    requires c !in OneCharOperators
    ensures Operator(c, n) == None
  {
    assert c !in {'!', '%', '&', '(', ')', '{', '}', '*', '+', ',', '-', '.', '/', ':', '<', '=', '>', '?', '[', ']', '|'};
  }

  /** At a non-blank operator character the token is the longest operator
      spelled there; operators are never subject to alias substitution. */
  lemma LexOperator(config: ParsingConfig, text: string, start: nat)
    requires start < |text| && text[start] in OneCharOperators
    ensures var n := CharAt(text, start + 1);
      (text[start], n) in TwoCharOperators ==>
        var id := TwoCharOperators[(text[start], n)];
        Lex(config, text, start) == Success(Lexed(Token(id, id, text[start..start + 2], start), start + 2))
    ensures var n := CharAt(text, start + 1);
      (text[start], n) !in TwoCharOperators ==>
        var id := OneCharOperators[text[start]];
        Lex(config, text, start) == Success(Lexed(Token(id, id, text[start..start + 1], start), start + 1))
  {
    var c, n := text[start], CharAt(text, start + 1);
    assert !IsWhiteSpace(c);
    SpanUnique(text, start, start, Space);
    OperatorIsLongestMatch(c, n);
    var op := Operator(c, n).value;
    assert Scan(config, text, start) == Success(Scanned(op.0, start + op.1));
  }

  // ---------------------------------------------------------------------------
  // Aliases

  /** The kind differs from the scanned kind only for an identifier whose text
      is a key of the alias table, and then it is that key's operator. */
  lemma AliasOnlyForIdentifiers(config: ParsingConfig, text: string, pos: nat)
    requires pos <= |text| && Lex(config, text, pos).Success?
    ensures var t := Lex(config, text, pos).value.token;
      (t.id != t.originalId ==> t.originalId == Identifier)
      && (t.originalId == Identifier ==>
            match LookupAlias(config.isCaseSensitive, t.text)
            case Some(op) => t.id == op
            case None => t.id == Identifier)
      && (t.originalId != Identifier ==> t.id == t.originalId)
  {
  }

  lemma ToUpperIdempotent(s: string)
    ensures ToUpper(ToUpper(s)) == ToUpper(s)
  {
  }

  /** Ignoring case, a key matches a text exactly when it matches the text's
      upper-case form. */
  lemma KeyMatchesUpperCase(key: string, s: string)
    ensures KeyMatches(false, key, s) <==> KeyMatches(false, key, ToUpper(s))
  {
    ToUpperIdempotent(s);
  }

  lemma {:induction false} FindAliasFromIgnoresCase(table: seq<(string, TokenId)>, s: string, i: nat)
    requires i <= |table|
    ensures FindAliasFrom(table, false, s, i) == FindAliasFrom(table, false, ToUpper(s), i)
    decreases |table| - i
  {
    if i < |table| {
      KeyMatchesUpperCase(table[i].0, s);
      FindAliasFromIgnoresCase(table, s, i + 1);
    }
  }

  /** Without case sensitivity, the alias look-up does not depend on the case
      of the identifier. */
  lemma AliasLookupIgnoresCase(s: string)
    ensures LookupAlias(false, s) == LookupAlias(false, ToUpper(s))
  {
    FindAliasFromIgnoresCase(OperatorAliases, s, 0);
  }

  /** By default, `EQ` is an alias of `Equal`: the comparer ignores case. */
  lemma UpperCaseEqAliasesIgnoringCase()
    ensures LookupAlias(false, "EQ") == Some(Equal)
  {
    assert ToUpper("eq") == ToUpper("EQ");
  }

  /** Under a case-sensitive configuration, `EQ` is no alias: only `eq` is. */
  lemma UpperCaseEqIsNoAliasWhenCaseSensitive()
    ensures LookupAlias(true, "EQ") == None
  {
    forall k | 0 <= k < |OperatorAliases|
      ensures OperatorAliases[k].0 != "EQ"
    {
      AliasKeyStartsLowerOrLong(k);
      assert "EQ"[0] == 'E';
    }
  }

  // ---------------------------------------------------------------------------
  // String literals

  /** A string token starts and ends with the same delimiter. */
  lemma StringTokenIsDelimited(config: ParsingConfig, text: string, pos: nat)
    requires pos <= |text| && Lex(config, text, pos).Success?
    requires Lex(config, text, pos).value.token.originalId == StringLiteral
    ensures var t := Lex(config, text, pos).value.token;
      |t.text| >= 2 && IsQuote(t.text[0]) && t.text[|t.text| - 1] == t.text[0]
  {
  }

  /** Every delimiter strictly inside a string body was swallowed by a
      backslash: only a double quote can be, so a single-quoted string
      contains no single quote. */
  lemma {:induction false} InnerQuotesAreEscaped(text: string, quote: char, i: nat)
    requires i <= |text| && IsQuote(quote)
    ensures forall k :: i <= k < StringEnd(text, quote, i) && text[k] == quote ==>
      i < k && text[k - 1] == '\\' && quote == '"'
    decreases |text| - i
  {
    if i < |text| && text[i] != quote {
      InnerQuotesAreEscaped(text, quote, StringStep(text, i));
    }
  }

  /** Without backslashes, a string body ends at the first delimiter, or runs
      to the end of the text. */
  lemma {:induction false} StringWithoutBackslashEndsAtFirstQuote(text: string, quote: char, i: nat)
    requires i <= |text|
    requires forall k :: i <= k < |text| ==> text[k] != '\\'
    ensures forall k :: i <= k < StringEnd(text, quote, i) ==> text[k] != quote
    decreases |text| - i
  {
    if i < |text| && text[i] != quote {
      StringWithoutBackslashEndsAtFirstQuote(text, quote, i + 1);
    }
  }

  /** A string literal that is not closed is reported at the end of the text. */
  lemma UnterminatedStringAtEnd(config: ParsingConfig, text: string, start: nat)
    requires start < |text| && IsQuote(text[start])
    requires forall k :: start < k < |text| ==> text[k] != '\\' && text[k] != text[start]
    ensures Lex(config, text, start) == Failure(ParseError(UnterminatedStringLiteral, |text|))
  {
    SpanUnique(text, start, start, Space);
    StringWithoutBackslashEndsAtFirstQuote(text, text[start], start + 1);
  }

  /** A doubled delimiter is not an escaped delimiter: it closes the literal. */
  lemma DoubledQuoteClosesLiteral(config: ParsingConfig)
    ensures Lex(config, "'it''s'", 0) == Success(Lexed(Token(StringLiteral, StringLiteral, "'it'", 0), 4))
  {
    var text := "'it''s'";
    SpanUnique(text, 0, 0, Space);
    assert StringEnd(text, '\'', 1) == 3 by {
      assert StringEnd(text, '\'', 3) == 3;
      assert StringEnd(text, '\'', 2) == StringEnd(text, '\'', 3);
    }
    assert text[0..4] == "'it'";
  }

  /** Without backslashes, the body walk stops exactly at the first delimiter. */
  lemma {:induction false} StringEndAtFirstQuote(text: string, quote: char, i: nat, k: nat)
    requires i <= k < |text| && text[k] == quote
    requires forall j :: i <= j < k ==> text[j] != '\\' && text[j] != quote
    ensures StringEnd(text, quote, i) == k
    decreases k - i
  {
    if i < k {
      StringEndAtFirstQuote(text, quote, i + 1, k);
    }
  }

  /** In general: whatever follows a doubled delimiter, the first of the two
      closes the literal, so the token ends right after it. */
  lemma DoubledQuoteClosesLiteralAt(config: ParsingConfig, text: string, start: nat, k: nat)
    requires start < k && k + 1 < |text| && IsQuote(text[start])
    requires text[k] == text[start] && text[k + 1] == text[start]
    requires forall j :: start < j < k ==> text[j] != '\\' && text[j] != text[start]
    ensures Scan(config, text, start) == Success(Scanned(StringLiteral, k + 1))
  {
    StringEndAtFirstQuote(text, text[start], start + 1, k);
  }

  // ---------------------------------------------------------------------------
  // Identifiers

  /** An identifier is a start character followed by the longest run of
      letters, digits and underscores; its kind is then subject to alias
      substitution. */
  lemma IdentifierToken(config: ParsingConfig, text: string, start: nat)
    requires start < |text| && IsIdentifierStart(text[start])
    ensures Lex(config, text, start).Success?
    ensures var l := Lex(config, text, start).value;
      l.token.originalId == Identifier && l.token.pos == start
      && (forall k :: start < k < l.next ==> IsLetterOrDigit(text[k]) || text[k] == '_')
      && !(IsLetterOrDigit(CharAt(text, l.next)) || CharAt(text, l.next) == '_')
  {
    SpanUnique(text, start, start, Space);
    ScanIdentifier(config, text, start);
  }

  /** At an identifier start, the scan runs over the identifier's tail. */
  lemma ScanIdentifier(config: ParsingConfig, text: string, start: nat)
    requires start < |text| && IsIdentifierStart(text[start])
    ensures Scan(config, text, start) == Success(Scanned(Identifier, Span(text, start + 1, IdentifierTail)))
  {
    var c := text[start];
    assert Operator(c, CharAt(text, start + 1)).None? && !IsQuote(c);
  }

  // ---------------------------------------------------------------------------
  // Numbers. `p` below is the end of the leading run of decimal digits.

  /** The digits of a numeric literal start at `start` and stop at `p`. */
  predicate DigitRun(text: string, start: nat, p: nat) {
    start < p <= |text|
    && (forall k :: start <= k < p ==> IsDigit(text[k]))
    && !IsDigit(CharAt(text, p))
  }

  lemma LexNumber(config: ParsingConfig, text: string, start: nat, p: nat)
    requires DigitRun(text, start, p)
    ensures Span(text, start + 1, Digit) == p
    ensures var r := Number(config, text, start);
      Lex(config, text, start) ==
        if r.Success? then Success(Lexed(Token(r.value.id, r.value.id, text[start..r.value.end], start), r.value.end))
        else Failure(r.error)
  {
    SpanUnique(text, start, start, Space);
    SpanUnique(text, start + 1, p, Digit);
    var c := text[start];
    assert Operator(c, CharAt(text, start + 1)).None? && !IsQuote(c) && !IsIdentifierStart(c);
    assert Scan(config, text, start) == Number(config, text, start);
  }

  // What `Number` gives once the leading digits are known to end at `p`.

  lemma NumberBinaryPrefix(config: ParsingConfig, text: string, start: nat, p: nat)
    requires start < |text| && IsDigit(text[start]) && Span(text, start + 1, Digit) == p
    requires p < |text| && IsBinaryMarker(text[p])
    ensures !IsZeroOrOne(CharAt(text, p + 1)) ==>
      Number(config, text, start) == Failure(ParseError(BinaryCharExpected, p + 1))
    ensures p + 1 < |text| && IsZeroOrOne(text[p + 1]) ==>
      Number(config, text, start) == Success(Scanned(IntegerLiteral, Span(text, p + 2, Bit)))
  {
  }

  lemma NumberHexPrefix(config: ParsingConfig, text: string, start: nat, p: nat)
    requires start < |text| && IsDigit(text[start]) && Span(text, start + 1, Digit) == p
    requires p < |text| && IsHexMarker(text[p])
    ensures !IsHexChar(CharAt(text, p + 1)) ==>
      Number(config, text, start) == Failure(ParseError(HexCharExpected, p + 1))
    ensures p + 1 < |text| && IsHexChar(text[p + 1]) ==>
      Number(config, text, start) == Qualifier(config, text, Span(text, p + 2, Hex), true)
  {
  }

  lemma NumberDecimal(config: ParsingConfig, text: string, start: nat, p: nat)
    requires start < |text| && IsDigit(text[start]) && Span(text, start + 1, Digit) == p
    requires !IsBinaryMarker(CharAt(text, p)) && !IsHexMarker(CharAt(text, p))
    ensures Number(config, text, start) == Qualifier(config, text, p, false)
  {
  }

  lemma NumberQualified(config: ParsingConfig, text: string, start: nat, p: nat, q: nat)
    requires start < |text| && IsDigit(text[start]) && Span(text, start + 1, Digit) == p && p < |text|
    requires (text[p] == 'U' && CharAt(text, p + 1) == 'L' && q == p + 2)
          || ((text[p] == 'U' || text[p] == 'L') && CharAt(text, p + 1) != 'L' && q == p + 1)
    ensures q <= |text| && Number(config, text, start) == ValidateExpression(text, q)
  {
  }

  /** A binary prefix must be followed by a binary digit. */
  lemma BinaryDigitExpected(config: ParsingConfig, text: string, start: nat, p: nat)
    requires DigitRun(text, start, p) && p < |text| && IsBinaryMarker(text[p])
    requires !IsZeroOrOne(CharAt(text, p + 1))
    ensures Lex(config, text, start) == Failure(ParseError(BinaryCharExpected, p + 1))
  {
    LexNumber(config, text, start, p);
    NumberBinaryPrefix(config, text, start, p);
  }

  /** A hexadecimal prefix must be followed by a hexadecimal digit. */
  lemma HexDigitExpected(config: ParsingConfig, text: string, start: nat, p: nat)
    requires DigitRun(text, start, p) && p < |text| && IsHexMarker(text[p])
    requires !IsHexChar(CharAt(text, p + 1))
    ensures Lex(config, text, start) == Failure(ParseError(HexCharExpected, p + 1))
  {
    LexNumber(config, text, start, p);
    NumberHexPrefix(config, text, start, p);
  }

  /** A binary literal ends right after its run of bits: no qualifier,
      fraction or suffix is read after it. */
  lemma BinaryLiteral(config: ParsingConfig, text: string, start: nat, p: nat)
    requires DigitRun(text, start, p) && p + 1 < |text| && IsBinaryMarker(text[p]) && IsZeroOrOne(text[p + 1])
    ensures var q := Span(text, p + 2, Bit);
      Lex(config, text, start) == Success(Lexed(Token(IntegerLiteral, IntegerLiteral, text[start..q], start), q))
  {
    LexNumber(config, text, start, p);
    NumberBinaryPrefix(config, text, start, p);
  }

  /** A hexadecimal literal is an integer that ends after its hexadecimal
      digits unless a `U` or `L` qualifier follows; no fraction, exponent or
      suffix is read after it. */
  lemma HexLiteral(config: ParsingConfig, text: string, start: nat, p: nat)
    requires DigitRun(text, start, p) && p + 1 < |text| && IsHexMarker(text[p]) && IsHexChar(text[p + 1])
    ensures var h := Span(text, p + 2, Hex);
      CharAt(text, h) != 'U' && CharAt(text, h) != 'L' ==>
        Lex(config, text, start) == Success(Lexed(Token(IntegerLiteral, IntegerLiteral, text[start..h], start), h))
  {
    LexNumber(config, text, start, p);
    NumberHexPrefix(config, text, start, p);
  }

  /** `LL` is not a qualifier; the error points at its second letter. */
  lemma DoubleLongQualifierRejected(config: ParsingConfig, text: string, start: nat, p: nat)
    requires DigitRun(text, start, p) && p + 1 < |text| && text[p] == 'L' && text[p + 1] == 'L'
    ensures Lex(config, text, start) == Failure(ParseError(InvalidIntegerQualifier("LL"), p + 1))
  {
    LexNumber(config, text, start, p);
    assert text[p..p + 2] == "LL";
  }

  /** A qualifier ends the literal: a letter or digit right after it is an
      error at that character. */
  lemma QualifierMustEndLiteral(config: ParsingConfig, text: string, start: nat, p: nat, q: nat)
    requires DigitRun(text, start, p) && p < |text|
    requires (text[p] == 'U' && CharAt(text, p + 1) == 'L' && q == p + 2)
          || ((text[p] == 'U' || text[p] == 'L') && CharAt(text, p + 1) != 'L' && q == p + 1)
    ensures IsLetterOrDigit(CharAt(text, q)) ==>
      Lex(config, text, start) == Failure(ParseError(ExpressionExpected, q))
    ensures !IsLetterOrDigit(CharAt(text, q)) ==>
      Lex(config, text, start) == Success(Lexed(Token(IntegerLiteral, IntegerLiteral, text[start..q], start), q))
  {
    LexNumber(config, text, start, p);
    NumberQualified(config, text, start, p, q);
  }

  /** A decimal separator must be followed by a digit. */
  lemma FractionDigitExpected(config: ParsingConfig, text: string, start: nat, p: nat)
    requires DigitRun(text, start, p) && p < |text| && text[p] == DecimalSeparator(config)
    requires text[p] !in {'B', 'b', 'X', 'x', 'U', 'L'}
    requires !IsDigit(CharAt(text, p + 1))
    ensures Lex(config, text, start) == Failure(ParseError(DigitExpected, p + 1))
  {
    LexNumber(config, text, start, p);
  }

  /** An exponent marker must be followed by a digit, after an optional
      sign; the error points where the digit was expected. */
  lemma ExponentDigitExpected(config: ParsingConfig, text: string, start: nat, p: nat, s: nat)
    requires DigitRun(text, start, p) && p < |text| && IsExponentMarker(text[p])
    requires text[p] != DecimalSeparator(config)
    requires s == if IsSign(CharAt(text, p + 1)) then p + 2 else p + 1
    requires !IsDigit(CharAt(text, s))
    ensures Lex(config, text, start) == Failure(ParseError(DigitExpected, s))
  {
    LexNumber(config, text, start, p);
    NumberDecimal(config, text, start, p);
    RealTailExponentFailure(config, text, p, s);
  }

  lemma RealTailExponentFailure(config: ParsingConfig, text: string, p: nat, s: nat)
    requires p < |text| && IsExponentMarker(text[p]) && text[p] != DecimalSeparator(config)
    requires s == if IsSign(CharAt(text, p + 1)) then p + 2 else p + 1
    requires !IsDigit(CharAt(text, s))
    ensures Qualifier(config, text, p, false) == Failure(ParseError(DigitExpected, s))
  {
    assert Fraction(config, text, p) == Success(Scanned(IntegerLiteral, p));
  }

  /** The position of a suffix letter in the order `F`, `D`, `M`. */
  function SuffixRank(c: char): nat {
    if c == 'F' || c == 'f' then 0 else if c == 'D' || c == 'd' then 1 else 2
  }

  /** The suffixes `F`, `D` and `M` are each optional, in this order, in
      either case; nothing else is consumed. */
  lemma SuffixesInOrder(text: string, i: nat)
    requires i <= |text|
    ensures var j := Suffixes(text, i);
      j <= i + 3
      && forall k :: i <= k < j ==> text[k] in {'F', 'f', 'D', 'd', 'M', 'm'}
    ensures var j := Suffixes(text, i);
      forall k, k' :: i <= k < k' < j ==> SuffixRank(text[k]) < SuffixRank(text[k'])
  {
  }

  /** Suffixes after a plain digit run are consumed but do not make the
      literal real: it stays an integer literal that includes them. */
  lemma IntegerSuffixesConsumed(config: ParsingConfig, text: string, start: nat, p: nat)
    requires DigitRun(text, start, p)
    requires var c := CharAt(text, p);
      c != DecimalSeparator(config) && !IsExponentMarker(c) && c !in {'B', 'b', 'X', 'x', 'U', 'L'}
    ensures var q := Suffixes(text, p);
      Lex(config, text, start) == Success(Lexed(Token(IntegerLiteral, IntegerLiteral, text[start..q], start), q))
  {
    LexNumber(config, text, start, p);
    NumberDecimal(config, text, start, p);
  }

  /** With the default separator, `1FDM` is one integer literal. */
  lemma AllSuffixesOnInteger(config: ParsingConfig)
    requires DecimalSeparator(config) == '.'
    ensures Lex(config, "1FDM", 0) == Success(Lexed(Token(IntegerLiteral, IntegerLiteral, "1FDM", 0), 4))
  {
    var text := "1FDM";
    SpanUnique(text, 1, 1, Digit);
    IntegerSuffixesConsumed(config, text, 0, 1);
    assert text[0..4] == text;
  }

  /** Digits alone, followed by nothing that continues a number, form an
      integer literal. */
  lemma PlainIntegerLiteral(config: ParsingConfig, text: string, start: nat, p: nat)
    requires DigitRun(text, start, p)
    requires var c := CharAt(text, p);
      !IsLetter(c) && c != DecimalSeparator(config)
    ensures Lex(config, text, start) == Success(Lexed(Token(IntegerLiteral, IntegerLiteral, text[start..p], start), p))
  {
    LexNumber(config, text, start, p);
  }

  /** A real literal always shows why it is real: its text holds the decimal
      separator or an exponent marker after the leading digits. */
  lemma RealLiteralHasFractionOrExponent(config: ParsingConfig, text: string, start: nat, p: nat)
    requires DigitRun(text, start, p)
    ensures Lex(config, text, start).Success? && Lex(config, text, start).value.token.originalId == RealLiteral ==>
      exists k :: p <= k < Lex(config, text, start).value.next
        && (text[k] == DecimalSeparator(config) || text[k] == 'E' || text[k] == 'e')
  {
    LexNumber(config, text, start, p);
    if Lex(config, text, start).Success? && Lex(config, text, start).value.token.originalId == RealLiteral {
      var c := CharAt(text, p);
      assert c != 'B' && c != 'b' && c != 'X' && c != 'x' && c != 'U' && c != 'L';
      var f := Fraction(config, text, p).value;
      var e := Exponent(text, f.id, f.end).value;
      if f.id == RealLiteral {
        assert p < f.end && text[p] == DecimalSeparator(config);
      } else {
        assert f.end == p && e.id == RealLiteral;
        assert text[p] == 'E' || text[p] == 'e';
      }
    }
  }

  /** A number is real exactly when its leading digits are followed by the
      decimal separator or an exponent marker, unless that character opens a
      binary or hexadecimal literal or a qualifier. */
  lemma RealLiteralExactly(config: ParsingConfig, text: string, start: nat, p: nat)
    requires DigitRun(text, start, p)
    ensures var c := CharAt(text, p);
      var isReal := c !in {'B', 'b', 'X', 'x', 'U', 'L'} && (c == DecimalSeparator(config) || IsExponentMarker(c));
      Lex(config, text, start).Success? ==> (Lex(config, text, start).value.token.originalId == RealLiteral <==> isReal)
  {
    LexNumber(config, text, start, p);
    var c := CharAt(text, p);
    if IsBinaryMarker(c) {
      NumberBinaryPrefix(config, text, start, p);
    } else if IsHexMarker(c) {
      NumberHexPrefix(config, text, start, p);
    } else {
      NumberDecimal(config, text, start, p);
      QualifierRealExactly(config, text, p);
    }
  }

  lemma QualifierRealExactly(config: ParsingConfig, text: string, p: nat)
    requires p <= |text|
    ensures var c := CharAt(text, p);
      var isReal := c != 'U' && c != 'L' && (c == DecimalSeparator(config) || IsExponentMarker(c));
      Qualifier(config, text, p, false).Success? ==> (Qualifier(config, text, p, false).value.id == RealLiteral <==> isReal)
  {
  }

  /** A number, once scanned, is an integer or a real literal, and its kind
      is never replaced by an alias. */
  lemma NumberKinds(config: ParsingConfig, text: string, start: nat, p: nat)
    requires DigitRun(text, start, p)
    ensures Lex(config, text, start).Success? ==>
      var t := Lex(config, text, start).value.token;
      (t.id == IntegerLiteral || t.id == RealLiteral) && t.id == t.originalId
  {
    LexNumber(config, text, start, p);
  }

  // ---------------------------------------------------------------------------
  // Invalid characters and clones

  /** A character that starts no token is an error at its own offset. */
  lemma InvalidCharacterReported(config: ParsingConfig, text: string, start: nat)
    requires start < |text|
    requires var c := text[start];
      !IsWhiteSpace(c) && c !in OneCharOperators && !IsQuote(c) && !IsIdentifierStart(c) && !IsDigit(c)
    ensures Lex(config, text, start) == Failure(ParseError(InvalidCharacter(text[start]), start))
  {
    SpanUnique(text, start, start, Space);
    OperatorIsLongestMatch(text[start], CharAt(text, start + 1));
  }

  /** A clone of a scanner resumes exactly where the original is: its next
      advance gives the same state as the original's. Its own current token is
      the first token of the text. */
  lemma CloneAdvancesLikeOriginal(p: TextParser)
    requires p.Valid() && Construct(p.config, p.text).Success?
    ensures Clone(p).Success?
    ensures var c := Clone(p).value;
      c.Valid() && c.textPos == p.textPos && c.ch == p.ch
      && c.currentToken == Construct(p.config, p.text).value.currentToken
      && Next(c) == Next(p)
  {
  }
}
