/** The scanner's vocabulary: token kinds, tokens, positional parse errors and
    the table of textual operator aliases. */
module Tokens {
  import opened Results
  import opened Chars

  datatype TokenId =
    | Unknown
    | End
    | Identifier
    | StringLiteral
    | IntegerLiteral
    | RealLiteral
    | Exclamation
    | Percent
    | Ampersand
    | OpenParen
    | CloseParen
    | OpenCurlyParen
    | CloseCurlyParen
    | Asterisk
    | Plus
    | Comma
    | Minus
    | Dot
    | Slash
    | Colon
    | LessThan
    | Equal
    | GreaterThan
    | Question
    | OpenBracket
    | CloseBracket
    | Bar
    | ExclamationEqual
    | DoubleAmpersand
    | LessThanEqual
    | LessGreater
    | DoubleEqual
    | GreaterThanEqual
    | DoubleBar
    | Lambda
    | NullCoalescing
    | NullPropagation
    | DoubleLessThan
    | DoubleGreaterThan

  /** One scanned token: `id` is the kind after alias substitution,
      `originalId` the kind the scanner classified, `text` the exact source
      slice and `pos` the offset where the token starts. */
  datatype Token = Token(id: TokenId, originalId: TokenId, text: string, pos: nat)

  /** What a parse error reports; the formatted message is not modelled. */
  datatype ErrorKind =
    | UnterminatedStringLiteral
    | InvalidCharacter(c: char)
    | InvalidIntegerQualifier(qualifier: string)
    | ExpressionExpected
    | DigitExpected
    | HexCharExpected
    | BinaryCharExpected
    | SyntaxError

  datatype ParseError = ParseError(kind: ErrorKind, pos: nat)

  /** The predefined operator aliases, in declaration order. */
  const OperatorAliases: seq<(string, TokenId)> := [
    ("eq", Equal),
    ("equal", Equal),
    ("ne", ExclamationEqual),
    ("notequal", ExclamationEqual),
    ("neq", ExclamationEqual),
    ("lt", LessThan),
    ("LessThan", LessThan),
    ("le", LessThanEqual),
    ("LessThanEqual", LessThanEqual),
    ("gt", GreaterThan),
    ("GreaterThan", GreaterThan),
    ("ge", GreaterThanEqual),
    ("GreaterThanEqual", GreaterThanEqual),
    ("and", DoubleAmpersand),
    ("AndAlso", DoubleAmpersand),
    ("or", DoubleBar),
    ("OrElse", DoubleBar),
    ("not", Exclamation),
    ("mod", Percent)
  ]

  /** Key comparison of the alias dictionary: ordinal, or ordinal ignoring
      case unless the configuration is case sensitive. */
  predicate KeyMatches(caseSensitive: bool, key: string, s: string) {
    if caseSensitive then key == s else EqualsIgnoreCase(key, s)
  }

  /** Each key's length and first two characters, in table order: enough to
      tell any two keys apart, ignoring case. */
  const AliasKeySignatures: seq<(int, char, char)> := [
    (2, 'e', 'q'), (5, 'e', 'q'), (2, 'n', 'e'), (8, 'n', 'o'), (3, 'n', 'e'),
    (2, 'l', 't'), (8, 'L', 'e'), (2, 'l', 'e'), (13, 'L', 'e'), (2, 'g', 't'),
    (11, 'G', 'r'), (2, 'g', 'e'), (16, 'G', 'r'), (3, 'a', 'n'), (7, 'A', 'n'),
    (2, 'o', 'r'), (6, 'O', 'r'), (3, 'n', 'o'), (3, 'm', 'o')
  ]

  lemma AliasKeySignature(k: nat)
    requires k < |OperatorAliases|
    ensures |OperatorAliases[k].0| >= 2
    ensures AliasKeySignatures[k] == (|OperatorAliases[k].0|, OperatorAliases[k].0[0], OperatorAliases[k].0[1])
  {
  }

  lemma AliasKeySignaturesDistinct(i: nat, j: nat)
    requires i < j < |AliasKeySignatures|
    ensures var (a, b) := (AliasKeySignatures[i], AliasKeySignatures[j]);
      a.0 != b.0 || ToUpperChar(a.1) != ToUpperChar(b.1) || ToUpperChar(a.2) != ToUpperChar(b.2)
  {
  }

  /** Every key of two letters is written in lower case. */
  lemma AliasKeyStartsLowerOrLong(k: nat)
    requires k < |OperatorAliases|
    ensures |OperatorAliases[k].0| >= 2
    ensures |OperatorAliases[k].0| == 2 ==> 'a' <= OperatorAliases[k].0[0] <= 'z'
  {
    AliasKeySignature(k);
  }

  /** No two keys of the alias table coincide under either comparer, so
      building the dictionary never meets a duplicate key. */
  lemma AliasKeysDistinct(caseSensitive: bool)
    ensures forall i, j :: 0 <= i < j < |OperatorAliases| ==>
      !KeyMatches(caseSensitive, OperatorAliases[i].0, OperatorAliases[j].0)
  {
    forall i, j | 0 <= i < j < |OperatorAliases|
      ensures !EqualsIgnoreCase(OperatorAliases[i].0, OperatorAliases[j].0)
    {
      AliasKeySignature(i);
      AliasKeySignature(j);
      AliasKeySignaturesDistinct(i, j);
      var a, b := OperatorAliases[i].0, OperatorAliases[j].0;
      assert ToUpper(a)[0] == ToUpperChar(a[0]) && ToUpper(a)[1] == ToUpperChar(a[1]);
      assert ToUpper(b)[0] == ToUpperChar(b[0]) && ToUpper(b)[1] == ToUpperChar(b[1]);
    }
  }

  /** The first entry of `table`, from index `i` on, whose key matches `s`. */
  function FindAliasFrom(table: seq<(string, TokenId)>, caseSensitive: bool, s: string, i: nat): (r: Option<TokenId>)
    requires i <= |table|
    ensures r.Some? <==>
      exists k :: i <= k < |table| && KeyMatches(caseSensitive, table[k].0, s)
    ensures r.Some? ==>
      exists k :: i <= k < |table| && KeyMatches(caseSensitive, table[k].0, s)
        && table[k].1 == r.value
    decreases |table| - i
  {
    if i == |table| then None
    else if KeyMatches(caseSensitive, table[i].0, s) then Some(table[i].1)
    else FindAliasFrom(table, caseSensitive, s, i + 1)
  }

  /** Dictionary look-up of an identifier's text in the alias table. */
  function LookupAlias(caseSensitive: bool, s: string): (r: Option<TokenId>)
    ensures r.Some? <==>
      exists k :: 0 <= k < |OperatorAliases| && KeyMatches(caseSensitive, OperatorAliases[k].0, s)
    ensures r.Some? ==>
      exists k :: 0 <= k < |OperatorAliases| && KeyMatches(caseSensitive, OperatorAliases[k].0, s)
        && OperatorAliases[k].1 == r.value
  {
    FindAliasFrom(OperatorAliases, caseSensitive, s, 0)
  }

  /** Only identifiers are subject to alias substitution. */
  function GetAliasedTokenId(caseSensitive: bool, id: TokenId, text: string): (r: TokenId)
    ensures r != id ==> id == Identifier && LookupAlias(caseSensitive, text) == Some(r)
    ensures id == Identifier && LookupAlias(caseSensitive, text).Some? ==>
      r == LookupAlias(caseSensitive, text).value
  {
    if id == Identifier && LookupAlias(caseSensitive, text).Some? then LookupAlias(caseSensitive, text).value
    else id
  }
}
