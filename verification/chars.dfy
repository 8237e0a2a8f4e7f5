/** Character classification used by the scanner.

    The scanner asks the host platform whether a character is white space, a
    letter or a digit. Those tests are Unicode-aware on the platform; here they
    are their ASCII restrictions, and ordinal case-insensitive comparison is
    ASCII upper-casing. */
module Chars {

  /** The character at `i`, or the NUL sentinel once `i` reaches the end.
      This is how the scanner reads its current and look-ahead character. */
  function CharAt(text: string, i: nat): (c: char)
    ensures i < |text| ==> c == text[i]
    ensures i >= |text| ==> c == '\0'
  {
    if i < |text| then text[i] else '\0'
  }

  predicate IsWhiteSpace(c: char) {
    c == ' ' || '\t' <= c <= '\r'
  }

  predicate IsLetter(c: char) {
    'a' <= c <= 'z' || 'A' <= c <= 'Z'
  }

  predicate IsDigit(c: char) {
    '0' <= c <= '9'
  }

  predicate IsLetterOrDigit(c: char) {
    IsLetter(c) || IsDigit(c)
  }

  /** The prefix letter of a binary literal, either case. */
  predicate IsBinaryMarker(c: char) {
    c == 'B' || c == 'b'
  }

  /** The prefix letter of a hexadecimal literal, either case. */
  predicate IsHexMarker(c: char) {
    c == 'X' || c == 'x'
  }

  /** The exponent marker of a real literal, either case. */
  predicate IsExponentMarker(c: char) {
    c == 'E' || c == 'e'
  }

  /** The sign an exponent may carry. */
  predicate IsSign(c: char) {
    c == '+' || c == '-'
  }

  predicate IsZeroOrOne(c: char) {
    c == '0' || c == '1'
  }

  /** `x | 0x20` on a seven-bit value, in arithmetic: bit 0x20 is added
      unless it is already set. */
  function SetBit20(x: int): (r: int)
    requires 0 <= x <= 0x7F
    ensures 0x20 <= r <= 0x7F && r % 0x40 >= 0x20
    ensures r == x || r == x + 0x20
  {
    if (x / 0x20) % 2 == 0 then x + 0x20 else x
  }

  /** The arithmetic form is the scanner's bitwise or. */
  lemma SetBit20IsBitwiseOr(b: bv8)
    requires b <= 0x7F
    ensures SetBit20(b as int) == (b | 0x20) as int
  {
  }

  /** A hexadecimal digit, written the way the scanner tests it: a digit, or an
      ASCII character that lands in 'a'..'f' once bit 0x20 is set. */
  predicate IsHexChar(c: char) {
    if IsDigit(c) then true
    else if c as int <= 0x7F then 'a' as int <= SetBit20(c as int) <= 'f' as int
    else false
  }

  /** Setting bit 0x20 accepts exactly the six letters in either case. */
  lemma HexCharIsDigitOrLetterAToF(c: char)
    ensures IsHexChar(c) <==> IsDigit(c) || 'a' <= c <= 'f' || 'A' <= c <= 'F'
  {
  }

  /** The character classes that the scanner's `do … while` loops run over. */
  datatype CharClass = Space | Digit | Bit | Hex | IdentifierTail

  predicate InClass(cls: CharClass, c: char) {
    match cls
    case Space => IsWhiteSpace(c)
    case Digit => IsDigit(c)
    case Bit => IsZeroOrOne(c)
    case Hex => IsHexChar(c)
    case IdentifierTail => IsLetterOrDigit(c) || c == '_'
  }

  /** No class contains the end-of-text sentinel, so a run always stops at the
      end of the text. */
  lemma SentinelInNoClass(cls: CharClass)
    ensures !InClass(cls, '\0')
  {
  }

  /** The end of the maximal run of `cls` characters that starts at `i`. */
  function Span(text: string, i: nat, cls: CharClass): (j: nat)
    requires i <= |text|
    ensures i <= j <= |text|
    ensures forall k :: i <= k < j ==> InClass(cls, text[k])
    ensures !InClass(cls, CharAt(text, j))
    decreases |text| - i
  {
    if i < |text| && InClass(cls, text[i]) then Span(text, i + 1, cls) else i
  }

  /** A run is determined by where it stops: any `j` with only class members
      before it and a non-member at it is the span's end. */
  lemma SpanUnique(text: string, i: nat, j: nat, cls: CharClass)
    requires i <= j <= |text|
    requires forall k :: i <= k < j ==> InClass(cls, text[k])
    requires !InClass(cls, CharAt(text, j))
    ensures Span(text, i, cls) == j
  {
  }

  function ToUpperChar(c: char): char {
    if 'a' <= c <= 'z' then (c as int - 32) as char else c
  }

  function ToUpper(s: string): (r: string)
    ensures |r| == |s|
    ensures forall i :: 0 <= i < |s| ==> r[i] == ToUpperChar(s[i])
  {
    seq(|s|, i requires 0 <= i < |s| => ToUpperChar(s[i]))
  }

  /** Ordinal case-insensitive string equality. */
  predicate EqualsIgnoreCase(a: string, b: string) {
    ToUpper(a) == ToUpper(b)
  }
}
