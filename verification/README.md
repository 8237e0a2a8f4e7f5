# System.Linq.Dynamic.Core — a Dafny model of its core

This project models five self-contained parts of System.Linq.Dynamic.Core, the
library that parses string expressions such as `"Age >= 18 and Name == \"x\""`
into LINQ expression trees, and proves properties of them:

- **The tokenizer** (`TextParser`). A cursor over the expression text that
  produces one token per `NextToken` call. A token has a kind, the kind before
  alias substitution, its text and its start offset. The scanner recognises
  greedy one- and two-character operators, quoted string literals with
  backslash escapes, identifiers with an operator-alias lookup (`eq`, `and`,
  `mod`, …), and a numeric-literal automaton. That automaton handles binary
  and hex prefixes, the `U`/`L`/`UL` qualifiers, a configurable decimal
  separator, exponents and `F`/`D`/`M` suffixes. Every error carries its
  offset.
  - `Lexer` holds a functional reference definition, `Lex`.
  - `Tokenizer` holds the scanner object and its imperative `NextToken`
    method. The method mirrors the C# control flow (`NextChar`, do-while
    loops, the quote-balance flag) and is proved equal to `Lex`.
  - `LexerProperties` states the tokenizer's promises about `Lex`.
- **Type compatibility and nullable helpers** (`TypeHelper`):
  - `IsCompatibleWith`, the table of implicit numeric widenings with nullable
    stripping, enum-as-`Int64` ranking and reference assignability;
  - the numeric-kind predicates, the nullable wrappers and `GetTypeName`.
  `TypeHelperProperties` compares the table with section 10.2.3 of the C#
  language specification ("Implicit numeric conversions") and proves the
  general shape of the relation, including transitivity over value types.
- **Expression promotion** (`ExpressionPromoter.Promote`). Given an expression,
  a target type and the `exact`/`convertExpression` flags, it returns one of:
  the expression itself, a re-typed constant, one or two `Convert` nodes, or
  "no conversion".
- **The three-slot tagged value** `AnyOf<T1, T2, T3>`. It has three
  constructors, checked reads that fail on the wrong slot, tag flags,
  structural equality and `ToString`.
- **The custom type provider** (`DefaultDynamicLinqCustomTypeProvider`). It
  memoises the custom type set and the extension-method dictionary behind a
  cache flag, and groups extension methods by the type of their first
  parameter.

Modules:

| module | file |
|---|---|
| `Results` | `Option`, `Result` and `Outcome` (`results.dfy`) |
| `Chars` | ASCII character classes, `CharAt`, runs of a class, upper-casing (`chars.dfy`) |
| `Tokens` | token kinds, tokens, errors, the alias table (`tokens.dfy`) |
| `Lexer`, `Tokenizer`, `LexerProperties` | the tokenizer (`lexer.dfy`, `tokenizer.dfy`, `lexer_properties.dfy`) |
| `TypeHelper`, `TypeHelperProperties` | types and compatibility (`type_helper.dfy`, `type_helper_properties.dfy`) |
| `ExpressionPromoter`, `ExpressionPromoterProperties` | promotion (`expression_promoter.dfy`, `expression_promoter_properties.dfy`) |
| `AnyOfTypes`, `AnyOfProperties` | the tagged value (`any_of.dfy`, `any_of_properties.dfy`) |
| `CustomTypeProviders`, `CustomTypeProviderProperties` | the provider (`custom_type_provider.dfy`, `custom_type_provider_properties.dfy`) |

Modelling choices:

- **Text and characters.** Text is `seq<char>`, and `'\0'` is the sentinel
  for "past the end", as in the C# code.
- **Character classes.** `char.IsWhiteSpace`, `IsLetter`, `IsDigit` and
  `IsLetterOrDigit` are ASCII approximations.
- **Case-insensitive comparison.** `OrdinalIgnoreCase` is ASCII upper-casing.
- **Decimal separator.** The parse culture reduces to an optional
  decimal-separator character, `.` by default.
- **Types.** A `Type` is a built-in `TypeCode`, an enum (name, underlying
  integral code, and its members' names and values in the runtime's order),
  `Nullable<T>`, a user struct, a class, or a generic parameter.
- **Reference assignability.** This is an arbitrary relation (`Hierarchy`)
  and a parameter.
- **Collaborators of `Promote`.** The number parser is a function parameter.
  The value of a constant is an opaque display string, or null, or an enum
  value (the enum and a number).
- **The provider.** Its state is an immutable record threaded through each
  call. Reflection discovery is an `Environment` parameter: the types marked
  with the dynamic-type attribute, plus the methods of all types. A `HashSet`
  is a duplicate-free sequence in insertion order.

Behaviour of the code worth noting:

- **No doubled-quote merge.** The tokenizer does not merge doubled quotes: in
  `'it''s'` the first token is `'it'` (`LexerProperties.DoubledQuoteClosesLiteral`,
  and in general `LexerProperties.DoubledQuoteClosesLiteralAt`).
- **Backslash escapes.** A backslash escapes only the characters
  `\ a b f n r t v` and `"`. So `\'` inside a single-quoted string does not
  escape the quote, and the quote ends the string
  (`LexerProperties.InnerQuotesAreEscaped`).
- **Aliases.**
  - The alias `eq` maps to `Equal`, the token of `=`.
  - The alias table includes the keys `LessThan`, `LessThanEqual`,
    `GreaterThan`, `GreaterThanEqual`, `AndAlso` and `OrElse`.
- **Suffixes.** An integer followed only by `F`, `D` or `M` stays an
  `IntegerLiteral`: the suffix is consumed but does not make the literal real
  (`LexerProperties.IntegerSuffixesConsumed`).
- **`char` widening.** The widening table has no row for `char`, although
  section 10.2.3 of the C# specification allows `char` to widen to `ushort`,
  `int`, `uint`, `long`, `ulong`, `float`, `double` and `decimal`
  (`TypeHelperProperties.CharWidensToNothing`).
- **Integer constants aimed at an enum.** The number parse is overwritten by
  `Enum.IsDefined` applied to the text. For a string, that checks member
  names. So `"1"` aimed at an enum is never a member. The constant is then
  converted when its type widens to `long` (an `int`, `uint` or `long`
  constant), and a `ulong` constant gets no conversion at all
  (`ExpressionPromoterProperties.UlongConstantNotConvertedToEnum`).
- **`Clone`.** A clone's current token is the first token of the text: of
  the original's state, only the offset is copied.

## Model

| member | source | states |
|---|---|---|
| Tokens.LookupAlias | src/System.Linq.Dynamic.Core/Tokenizer/TextParser.cs:40-61 | an alias is found exactly when some key of the table matches the text under the configured comparison, and then it is that key's token kind |
| Tokens.GetAliasedTokenId | src/System.Linq.Dynamic.Core/Tokenizer/TextParser.cs:568-571 | the kind is replaced only for an identifier whose text is an alias key, and then by that key's kind |
| Tokens.AliasKeysDistinct | src/System.Linq.Dynamic.Core/Tokenizer/TextParser.cs:40-61 | no two keys of the alias table are equal even ignoring case, so the dictionary can be built under either comparer |
| Chars.HexCharIsDigitOrLetterAToF | src/System.Linq.Dynamic.Core/Tokenizer/TextParser.cs:578-592 | a hex character is a decimal digit or a letter `a`–`f` in either case |
| Chars.SetBit20IsBitwiseOr | src/System.Linq.Dynamic.Core/Tokenizer/TextParser.cs:585-588 | the arithmetic fold the model uses for a seven-bit character is the scanner's bitwise or with `0x20` |
| Chars.Span | src/System.Linq.Dynamic.Core/Tokenizer/TextParser.cs:98-101 | the end of a run of one character class is the first offset whose character, or the end sentinel, is outside the class |
| Tokenizer.SetTextPos | src/System.Linq.Dynamic.Core/Tokenizer/TextParser.cs:516-520 | moving the cursor keeps the state valid: the current character is the one at the new offset, or `'\0'` at the end |
| Tokenizer.NextChar | src/System.Linq.Dynamic.Core/Tokenizer/TextParser.cs:522-529 | the cursor advances by one inside the text and never moves past its end, where the current character stays `'\0'` |
| Tokenizer.PeekNextChar | src/System.Linq.Dynamic.Core/Tokenizer/TextParser.cs:88-91 | the character after the current one, `'\0'` when there is none |
| Tokenizer.ValidateDigit | src/System.Linq.Dynamic.Core/Tokenizer/TextParser.cs:539-545 | fails exactly when the current character is not a digit, with a digit-expected error at the cursor |
| Tokenizer.ValidateExpressionAt | src/System.Linq.Dynamic.Core/Tokenizer/TextParser.cs:531-537 | fails exactly when the current character is a letter or digit, with an expression-expected error at the cursor |
| Tokenizer.ValidateBinaryChar | src/System.Linq.Dynamic.Core/Tokenizer/TextParser.cs:555-561 | fails exactly when the current character is not `0` or `1`, with a binary-digit-expected error at the cursor |
| Tokenizer.ValidateHexChar | src/System.Linq.Dynamic.Core/Tokenizer/TextParser.cs:547-553 | fails exactly when the current character is not a hex digit, with a hex-digit-expected error at the cursor |
| Tokenizer.SkipRun | src/System.Linq.Dynamic.Core/Tokenizer/TextParser.cs:337-345 | the do-while character loop stops at the end of the run of its class that starts after the current character |
| Tokenizer.StringBodyStep | src/System.Linq.Dynamic.Core/Tokenizer/TextParser.cs:303-318 | one turn of the string loop skips the next character when it is escaped by a backslash, then moves one more |
| Tokenizer.ScanString | src/System.Linq.Dynamic.Core/Tokenizer/TextParser.cs:294-334 | the quote-balance loop ends right after the first closing delimiter not consumed by an escape, or reports an unterminated literal at the end of the text |
| Tokenizer.ScanSuffixes | src/System.Linq.Dynamic.Core/Tokenizer/TextParser.cs:436-449 | the optional `F`, `D`, `M` suffixes are consumed in that order |
| Tokenizer.ScanFraction | src/System.Linq.Dynamic.Core/Tokenizer/TextParser.cs:409-418 | a decimal separator must be followed by a digit and makes the literal real |
| Tokenizer.ScanExponent | src/System.Linq.Dynamic.Core/Tokenizer/TextParser.cs:420-434 | an `E`/`e` with an optional sign must be followed by a digit and makes the literal real |
| Tokenizer.ScanQualifier | src/System.Linq.Dynamic.Core/Tokenizer/TextParser.cs:386-407 | `U`, `L` or `UL` ends the literal; `LL` is an invalid qualifier; a letter or digit after a qualifier is an error |
| Tokenizer.ScanBinary | src/System.Linq.Dynamic.Core/Tokenizer/TextParser.cs:355-371 | after `B`/`b` at least one binary digit is required and the run of them ends the literal |
| Tokenizer.ScanHex | src/System.Linq.Dynamic.Core/Tokenizer/TextParser.cs:373-384 | after `X`/`x` at least one hex digit is required, then the run of them is consumed |
| Tokenizer.ScanNumber | src/System.Linq.Dynamic.Core/Tokenizer/TextParser.cs:347-452 | the imperative number automaton computes exactly the reference scan of a numeric literal |
| Tokenizer.ScanOperator | src/System.Linq.Dynamic.Core/Tokenizer/TextParser.cs:108-292 | the operator switch consumes one or two characters exactly as the reference operator table says |
| Tokenizer.ScanToken | src/System.Linq.Dynamic.Core/Tokenizer/TextParser.cs:106-460 | the classification of the character at the cursor computes exactly the reference scan, errors included |
| Tokenizer.NextToken | src/System.Linq.Dynamic.Core/Tokenizer/TextParser.cs:96-467 | the imperative scanner step equals the reference lexer: same token, same cursor, same error |
| Lexer.Lex | src/System.Linq.Dynamic.Core/Tokenizer/TextParser.cs:96-467 | the token lies between the start offset and the end of the scan and its text is exactly the slice it covers; what each kind of token is, is stated by the `LexerProperties` lemmas, and `Tokenizer.NextToken` is proved equal to it |
| Tokenizer.New | src/System.Linq.Dynamic.Core/Tokenizer/TextParser.cs:36-70 | a new scanner is positioned at offset 0 and holds the first token of the text |
| Tokenizer.ValidateToken | src/System.Linq.Dynamic.Core/Tokenizer/TextParser.cs:474-480 | passes exactly when the current token has the asked kind; otherwise a syntax error at the token's offset |
| Tokenizer.TryGetToken | src/System.Linq.Dynamic.Core/Tokenizer/TextParser.cs:497-514 | answers the current token exactly when it is an identifier named in the list (ignoring case) or its kind is listed |
| LexerProperties.TokenStartsAfterWhiteSpace | src/System.Linq.Dynamic.Core/Tokenizer/TextParser.cs:98-104 | everything before the token's start is white space and the token does not start with white space |
| LexerProperties.BlankTextYieldsEnd | src/System.Linq.Dynamic.Core/Tokenizer/TextParser.cs:454-458 | a blank remainder yields `End` with empty text at the length of the text |
| LexerProperties.ConstructOnBlankText | src/System.Linq.Dynamic.Core/Tokenizer/TextParser.cs:36-70 | a scanner built over blank text holds `End` at the text's length |
| LexerProperties.EndExactlyAtEndOfText | src/System.Linq.Dynamic.Core/Tokenizer/TextParser.cs:454-458 | `End` is reported exactly when the token starts at the end of the text; every other token consumes a character |
| LexerProperties.NextTokenProgresses | src/System.Linq.Dynamic.Core/Tokenizer/TextParser.cs:463-466 | the cursor stays within the text and never rewinds, the token text is the slice from its start to the cursor |
| LexerProperties.OperatorIsLongestMatch | src/System.Linq.Dynamic.Core/Tokenizer/TextParser.cs:108-292 | the operator recogniser agrees with an independent table of one- and two-character operators, preferring two characters |
| LexerProperties.PrefixOperatorMatch | src/System.Linq.Dynamic.Core/Tokenizer/TextParser.cs:108-292 | a character that starts a two-character operator, followed by none of the second characters, is the one-character operator alone |
| LexerProperties.LexOperator | src/System.Linq.Dynamic.Core/Tokenizer/TextParser.cs:108-292 | at an operator character the token is the longest operator spelled there, with no alias substitution |
| LexerProperties.AliasOnlyForIdentifiers | src/System.Linq.Dynamic.Core/Tokenizer/TextParser.cs:466 | the kind differs from the scanned kind only for an identifier that is an alias key, and then it is that alias |
| LexerProperties.AliasLookupIgnoresCase | src/System.Linq.Dynamic.Core/Tokenizer/TextParser.cs:40 | without case sensitivity the alias of a text and of its upper-case form are the same |
| LexerProperties.UpperCaseEqAliasesIgnoringCase | src/System.Linq.Dynamic.Core/Tokenizer/TextParser.cs:40-42 | `EQ` aliases to `Equal` under the case-insensitive comparer |
| LexerProperties.UpperCaseEqIsNoAliasWhenCaseSensitive | src/System.Linq.Dynamic.Core/Tokenizer/TextParser.cs:40-42 | `EQ` is no alias under the ordinal comparer |
| LexerProperties.StringTokenIsDelimited | src/System.Linq.Dynamic.Core/Tokenizer/TextParser.cs:294-334 | a string token starts and ends with the same quote character |
| LexerProperties.InnerQuotesAreEscaped | src/System.Linq.Dynamic.Core/Tokenizer/TextParser.cs:301-331 | a delimiter inside a string body was consumed by a backslash, which only happens for `"` |
| LexerProperties.StringWithoutBackslashEndsAtFirstQuote | src/System.Linq.Dynamic.Core/Tokenizer/TextParser.cs:301-331 | without backslashes a string body ends at the first delimiter |
| LexerProperties.UnterminatedStringAtEnd | src/System.Linq.Dynamic.Core/Tokenizer/TextParser.cs:326-329 | a string whose body holds no backslash and no delimiter up to the end of the text is an unterminated-literal error at the end of the text |
| LexerProperties.DoubledQuoteClosesLiteral | src/System.Linq.Dynamic.Core/Tokenizer/TextParser.cs:301-331 | in `'it''s'` the first token is `'it'`, ending at offset 4: the doubled delimiter is not merged |
| LexerProperties.StringEndAtFirstQuote | src/System.Linq.Dynamic.Core/Tokenizer/TextParser.cs:301-331 | with no backslash before it, the body of a string ends exactly at the first delimiter |
| LexerProperties.DoubledQuoteClosesLiteralAt | src/System.Linq.Dynamic.Core/Tokenizer/TextParser.cs:301-331 | for any text, the first of a doubled delimiter after a body free of backslashes and delimiters closes the string token right after it |
| LexerProperties.IdentifierToken | src/System.Linq.Dynamic.Core/Tokenizer/TextParser.cs:337-345 | an identifier is its start character and the longest run of letters, digits and underscores after it |
| LexerProperties.LexNumber | src/System.Linq.Dynamic.Core/Tokenizer/TextParser.cs:347-354 | at a digit the token is what the number automaton scans, starting after the leading digit run |
| LexerProperties.BinaryDigitExpected | src/System.Linq.Dynamic.Core/Tokenizer/TextParser.cs:356-359 | `B`/`b` not followed by `0`/`1` is an error at the character after it |
| LexerProperties.HexDigitExpected | src/System.Linq.Dynamic.Core/Tokenizer/TextParser.cs:374-377 | `X`/`x` not followed by a hex digit is an error at the character after it |
| LexerProperties.BinaryLiteral | src/System.Linq.Dynamic.Core/Tokenizer/TextParser.cs:356-371 | `B`/`b` followed by a bit gives an integer literal that ends right after the run of bits, with no qualifier, fraction or suffix read |
| LexerProperties.HexLiteral | src/System.Linq.Dynamic.Core/Tokenizer/TextParser.cs:373-407 | `X`/`x` followed by a hex digit gives an integer literal that ends after the hex digits when no `U`/`L` follows, with no fraction, exponent or suffix read |
| LexerProperties.DoubleLongQualifierRejected | src/System.Linq.Dynamic.Core/Tokenizer/TextParser.cs:386-398 | `LL` is an invalid integer qualifier reported at its second letter |
| LexerProperties.QualifierMustEndLiteral | src/System.Linq.Dynamic.Core/Tokenizer/TextParser.cs:386-402 | after `U`, `L` or `UL` the literal ends: an integer token, or an expression-expected error at a following letter or digit |
| LexerProperties.FractionDigitExpected | src/System.Linq.Dynamic.Core/Tokenizer/TextParser.cs:409-413 | a decimal separator not followed by a digit is an error at the character after it |
| LexerProperties.ExponentDigitExpected | src/System.Linq.Dynamic.Core/Tokenizer/TextParser.cs:420-429 | an exponent marker after the digits needs a digit after its optional sign; otherwise a digit-expected error where the digit was missing |
| LexerProperties.SuffixesInOrder | src/System.Linq.Dynamic.Core/Tokenizer/TextParser.cs:436-449 | the suffix scan consumes at most three characters, each one of `F`, `D`, `M` in either case, and in that order |
| LexerProperties.IntegerSuffixesConsumed | src/System.Linq.Dynamic.Core/Tokenizer/TextParser.cs:436-449 | after a plain digit run the `F`, `D`, `M` suffixes are consumed into the token, which stays an integer literal |
| LexerProperties.AllSuffixesOnInteger | src/System.Linq.Dynamic.Core/Tokenizer/TextParser.cs:436-449 | with the default separator, `1FDM` is one integer literal of four characters |
| LexerProperties.PlainIntegerLiteral | src/System.Linq.Dynamic.Core/Tokenizer/TextParser.cs:347-354 | a digit run followed by no letter and no separator is an integer literal of exactly those digits |
| LexerProperties.RealLiteralHasFractionOrExponent | src/System.Linq.Dynamic.Core/Tokenizer/TextParser.cs:409-434 | a real literal's text holds the decimal separator or an exponent marker after its leading digits |
| LexerProperties.RealLiteralExactly | src/System.Linq.Dynamic.Core/Tokenizer/TextParser.cs:409-422 | a scanned number is real exactly when its digits are followed by the decimal separator or an exponent marker that does not open a binary, hex or qualified literal |
| LexerProperties.NumberKinds | src/System.Linq.Dynamic.Core/Tokenizer/TextParser.cs:347-452 | a scanned number is an integer or real literal and never subject to alias substitution |
| LexerProperties.InvalidCharacterReported | src/System.Linq.Dynamic.Core/Tokenizer/TextParser.cs:460 | a character that starts no token is an invalid-character error at its own offset |
| LexerProperties.CloneAdvancesLikeOriginal | src/System.Linq.Dynamic.Core/Tokenizer/TextParser.cs:76-82 | a clone sits at the original's offset, advances exactly as the original does, and holds the text's first token |
| Tokenizer.Clone | src/System.Linq.Dynamic.Core/Tokenizer/TextParser.cs:76-82 | a clone exists exactly when a parser over the same text can be constructed, and it is a valid parser over the same text and configuration at the original's offset |
| Tokenizer.TokenIsIdentifier | src/System.Linq.Dynamic.Core/Tokenizer/TextParser.cs:486-489 | holds exactly for an identifier token whose text equals the id ignoring case; `Tokenizer.TryGetToken` states what it decides |
| TypeHelper.GetNonNullableType | src/System.Linq.Dynamic.Core/Parser/TypeHelper.cs:452-455 | the result is never nullable, and a type that is not nullable is returned as it is |
| TypeHelper.IsCompatibleWith | src/System.Linq.Dynamic.Core/Parser/TypeHelper.cs:68-215 | its meaning is stated by `NumericCompatibilityMatchesLanguage`, `CompatibleIsReflexive`, `ReferenceTargetIsAssignability`, the nullable lemmas and `CompatibleTransitiveOnValueTypes` in `TypeHelperProperties` |
| TypeHelper.IsEnumType | src/System.Linq.Dynamic.Core/Parser/TypeHelper.cs:333-336 | an enum under at most one nullable wrapper (`TypeHelperProperties.EnumTypeThroughNullable`) |
| TypeHelper.IsNumericType | src/System.Linq.Dynamic.Core/Parser/TypeHelper.cs:338-341 | exactly the numeric built-in types, nullable or not, and never an enum (`TypeHelperProperties.NumericKindsPartitionNumericCodes`) |
| TypeHelper.IsSignedIntegralType | src/System.Linq.Dynamic.Core/Parser/TypeHelper.cs:371-374 | exactly `sbyte`, `short`, `int` and `long`, nullable or not (`TypeHelperProperties.NumericKindsPartitionNumericCodes`) |
| TypeHelper.IsUnsignedIntegralType | src/System.Linq.Dynamic.Core/Parser/TypeHelper.cs:376-379 | exactly `byte`, `ushort`, `uint` and `ulong`, nullable or not (`TypeHelperProperties.NumericKindsPartitionNumericCodes`) |
| TypeHelper.IsNullableType | src/System.Linq.Dynamic.Core/Parser/TypeHelper.cs:343-346 | a `Nullable<T>`; stripping undoes wrapping (`TypeHelperProperties.NullableRoundTrip`) |
| TypeHelper.TypeCanBeNull | src/System.Linq.Dynamic.Core/Parser/TypeHelper.cs:348-351 | a reference or nullable type, exactly the types that wrapping leaves unchanged (`TypeHelperProperties.CanBeNullIffNullableFixed`) |
| TypeHelper.GetNullableType | src/System.Linq.Dynamic.Core/Parser/TypeHelper.cs:446-450 | keeps a type well formed, and agrees with `ToNullableType` (`TypeHelperProperties.GetNullableTypeAgreesWithToNullableType`) |
| TypeHelper.GetTypeName | src/System.Linq.Dynamic.Core/Parser/TypeHelper.cs:428-444 | ends in `?` exactly for a nullable type, after the underlying name (`TypeHelperProperties.TypeNameMarksNullable`) |
| TypeHelper.ToNullableType | src/System.Linq.Dynamic.Core/Parser/TypeHelper.cs:353-369 | the result can always hold null |
| TypeHelper.GetNumericTypeKind | src/System.Linq.Dynamic.Core/Parser/TypeHelper.cs:381-426 | the kind is one of 0..3 and non-zero only for a built-in type under at most one nullable wrapper |
| TypeHelper.TryParseEnum | src/System.Linq.Dynamic.Core/Parser/TypeHelper.cs:503-513 | succeeds exactly for an enum type that defines the name as written, and yields the value of the first member in the runtime's order whose name equals the text ignoring case |
| TypeHelper.FirstMatchIgnoringCase | src/System.Linq.Dynamic.Core/Parser/TypeHelper.cs:507 | finds the first member from a position on whose name equals the text ignoring case, or reports that none does |
| TypeHelper.EnumValueName | src/System.Linq.Dynamic.Core/Parser/ExpressionPromoter.cs:55 | an enum value has a name exactly when some member has that value, and the name is that member's |
| TypeHelperProperties.NumericCompatibilityMatchesLanguage | src/System.Linq.Dynamic.Core/Parser/TypeHelper.cs:91-197 | between numeric types other than `char`, compatibility is exactly identity or an implicit numeric conversion of the C# specification |
| TypeHelperProperties.WidensMatchesLanguage | src/System.Linq.Dynamic.Core/Parser/TypeHelper.cs:91-197 | every row of the widening table lists exactly the language's implicit numeric conversions from its type |
| TypeHelperProperties.CharWidensToNothing | src/System.Linq.Dynamic.Core/Parser/TypeHelper.cs:199-215 | `char` is compatible with no other value type, although the language lets it widen to `int` |
| TypeHelperProperties.CompatibleIsReflexive | src/System.Linq.Dynamic.Core/Parser/TypeHelper.cs:71-74 | every type is compatible with itself |
| TypeHelperProperties.ReferenceTargetIsAssignability | src/System.Linq.Dynamic.Core/Parser/TypeHelper.cs:76-79 | for a reference target, compatibility is assignability |
| TypeHelperProperties.ReferenceSourceNeverValueTarget | src/System.Linq.Dynamic.Core/Parser/TypeHelper.cs:76-215 | a reference source is compatible with no value-type target |
| TypeHelperProperties.NullableSourceNeedsNullableTarget | src/System.Linq.Dynamic.Core/Parser/TypeHelper.cs:81-87 | a nullable source is never compatible with a non-nullable value target |
| TypeHelperProperties.NullableTargetJudgedOnUnderlying | src/System.Linq.Dynamic.Core/Parser/TypeHelper.cs:81-87 | a nullable target, and a nullable pair, are judged on the underlying types |
| TypeHelperProperties.SingleWidensOnlyToDouble | src/System.Linq.Dynamic.Core/Parser/TypeHelper.cs:188-197 | `float` is compatible only with itself and `double` |
| TypeHelperProperties.OtherValueTypesOnlySelf | src/System.Linq.Dynamic.Core/Parser/TypeHelper.cs:199-215 | `double`, `decimal`, `bool`, `DateTime` and user structs are compatible only with themselves, nullable or not |
| TypeHelperProperties.EnumsRankAsInt64 | src/System.Linq.Dynamic.Core/Parser/TypeHelper.cs:89-90 | an enum is judged as `long` on either side |
| TypeHelperProperties.SignedNeverToUnsigned | src/System.Linq.Dynamic.Core/Parser/TypeHelper.cs:91-197 | no signed integral type is compatible with an unsigned one |
| TypeHelperProperties.WidensTransitive | src/System.Linq.Dynamic.Core/Parser/TypeHelper.cs:91-197 | the widening table is transitive |
| TypeHelperProperties.CompatibleTransitiveOnValueTypes | src/System.Linq.Dynamic.Core/Parser/TypeHelper.cs:68-215 | compatibility is transitive over value types |
| TypeHelperProperties.NumericKindIgnoresNullable | src/System.Linq.Dynamic.Core/Parser/TypeHelper.cs:381-426 | adding or removing the nullable wrapper does not change the numeric kind |
| TypeHelperProperties.NumericKindsPartitionNumericCodes | src/System.Linq.Dynamic.Core/Parser/TypeHelper.cs:333-426 | numeric, signed and unsigned are exactly the expected built-in types under an optional nullable wrapper, and enums are not numeric |
| TypeHelperProperties.NullableRoundTrip | src/System.Linq.Dynamic.Core/Parser/TypeHelper.cs:353-369 | stripping the wrapper undoes wrapping a value type, and wrapping undoes stripping a nullable type |
| TypeHelperProperties.ToNullableTypeIdempotent | src/System.Linq.Dynamic.Core/Parser/TypeHelper.cs:353-369 | wrapping twice is wrapping once |
| TypeHelperProperties.CanBeNullIffNullableFixed | src/System.Linq.Dynamic.Core/Parser/TypeHelper.cs:348-369 | a type can hold null exactly when wrapping leaves it unchanged |
| TypeHelperProperties.GetNullableTypeAgreesWithToNullableType | src/System.Linq.Dynamic.Core/Parser/TypeHelper.cs:446-450 | the two wrapping helpers agree |
| TypeHelperProperties.EnumTypeThroughNullable | src/System.Linq.Dynamic.Core/Parser/TypeHelper.cs:333-336 | being an enum is unaffected by the nullable wrapper |
| TypeHelperProperties.TypeNameMarksNullable | src/System.Linq.Dynamic.Core/Parser/TypeHelper.cs:428-444 | the type name ends in `?` exactly for a nullable type, whose name is the underlying name plus `?` |
| TypeHelperProperties.ParseEnumOnlyDefinedNames | src/System.Linq.Dynamic.Core/Parser/TypeHelper.cs:503-513 | enum parsing succeeds exactly for defined names and fails for a nullable enum or no type |
| TypeHelperProperties.ParsedEnumValueComesFirst | src/System.Linq.Dynamic.Core/Parser/TypeHelper.cs:503-513 | the parsed value is no later in the runtime's order than the value of any member whose name equals the text ignoring case |
| TypeHelperProperties.UniqueNameParsesToItsValue | src/System.Linq.Dynamic.Core/Parser/TypeHelper.cs:503-513 | a name that no other member matches ignoring case parses to its own member's value |
| TypeHelperProperties.CaseVariantNameParsesToFirstMatch | src/System.Linq.Dynamic.Core/Parser/TypeHelper.cs:503-513 | in `enum E { a = 0, A = 1 }` the defined name `A` parses to 0, the value of the earlier case-insensitive match |
| ExpressionPromoter.Reparse | src/System.Linq.Dynamic.Core/Parser/ExpressionPromoter.cs:63-89 | a re-parse yields an enum value only for an enum target that defines the text as a member name, and the value is of that enum |
| ExpressionPromoter.ConstantRewrite | src/System.Linq.Dynamic.Core/Parser/ExpressionPromoter.cs:42-121 | a rewritten constant is a constant of exactly the target type |
| ExpressionPromoter.Promote | src/System.Linq.Dynamic.Core/Parser/ExpressionPromoter.cs:25-139 | a promotion is the source itself or an expression of the target type, and "no conversion" only when the types are incompatible |
| ExpressionPromoterProperties.PromoteKeepsMatchingType | src/System.Linq.Dynamic.Core/Parser/ExpressionPromoter.cs:27-40 | an expression whose return type is the target, or a generic-parameter target, is returned unchanged |
| ExpressionPromoterProperties.PromoteNullConstant | src/System.Linq.Dynamic.Core/Parser/ExpressionPromoter.cs:44-49 | a null constant becomes a null of the target exactly when the target can hold null |
| ExpressionPromoterProperties.PromoteIntegerConstantToEnum | src/System.Linq.Dynamic.Core/Parser/ExpressionPromoter.cs:66-77 | an integer constant aimed at an enum becomes that enum's parsed value only when its text names a member; otherwise it is converted if compatible, and not promoted at all if not |
| ExpressionPromoterProperties.UlongConstantNotConvertedToEnum | src/System.Linq.Dynamic.Core/Parser/ExpressionPromoter.cs:123-138 | a `ulong` constant whose text names no member gets no conversion to an enum, since enums rank as `long` |
| ExpressionPromoterProperties.PromoteIntegerConstantReparsed | src/System.Linq.Dynamic.Core/Parser/ExpressionPromoter.cs:66-77 | an integer constant aimed at a non-enum is re-parsed against the non-nullable target and typed as the target |
| ExpressionPromoterProperties.PromoteDoubleConstant | src/System.Linq.Dynamic.Core/Parser/ExpressionPromoter.cs:79-84 | a double constant is re-parsed only for a `double` or `decimal` target |
| ExpressionPromoterProperties.PromoteStringConstant | src/System.Linq.Dynamic.Core/Parser/ExpressionPromoter.cs:86-88 | a string constant becomes an enum value exactly when its text is a member name of the target enum, and is otherwise left to the compatibility test |
| ExpressionPromoterProperties.PromoteFailsExactlyWhenIncompatible | src/System.Linq.Dynamic.Core/Parser/ExpressionPromoter.cs:123-138 | for a non-constant, "no conversion" is answered exactly when the types are incompatible |
| ExpressionPromoterProperties.PromoteEnumToDecimal | src/System.Linq.Dynamic.Core/Parser/ExpressionPromoter.cs:125-128 | an enum reaches `decimal` through a conversion to its underlying type |
| ExpressionPromoterProperties.PromoteConversionNode | src/System.Linq.Dynamic.Core/Parser/ExpressionPromoter.cs:130-135 | a compatible expression is wrapped exactly for a value target, an exact match, or a value source under `convertExpression` |
| ExpressionPromoterProperties.PromoteLambda | src/System.Linq.Dynamic.Core/Parser/ExpressionPromoter.cs:27-31 | a lambda is judged on its return type and, being a delegate, wrapped only for a value target or an exact match |
| ExpressionPromoterProperties.PromoteIsStable | src/System.Linq.Dynamic.Core/Parser/ExpressionPromoter.cs:25-139 | promoting a promoted expression again to the same type changes nothing |
| AnyOfTypes.Default | src/System.Linq.Dynamic.Core/AnyOfTypes/AnyOf_3.g.cs:22-33 | the default value is undefined, holds no value and counts no types |
| AnyOfTypes.FromFirst | src/System.Linq.Dynamic.Core/AnyOfTypes/AnyOf_3.g.cs:42-51 | the first constructor tags the first slot, stores the value there and as the current value, and leaves the others at their defaults |
| AnyOfTypes.FromSecond | src/System.Linq.Dynamic.Core/AnyOfTypes/AnyOf_3.g.cs:66-75 | the second constructor does the same for the second slot |
| AnyOfTypes.FromThird | src/System.Linq.Dynamic.Core/AnyOfTypes/AnyOf_3.g.cs:90-99 | the third constructor does the same for the third slot |
| AnyOfTypes.Validate | src/System.Linq.Dynamic.Core/AnyOfTypes/AnyOf_3.g.cs:110-116 | passes exactly when the asked slot is the current one, else fails naming both |
| AnyOfTypes.GetFirst | src/System.Linq.Dynamic.Core/AnyOfTypes/AnyOf_3.g.cs:53-60 | the first slot is readable exactly while it is current |
| AnyOfTypes.GetSecond | src/System.Linq.Dynamic.Core/AnyOfTypes/AnyOf_3.g.cs:77-84 | the second slot is readable exactly while it is current |
| AnyOfTypes.GetThird | src/System.Linq.Dynamic.Core/AnyOfTypes/AnyOf_3.g.cs:101-108 | the third slot is readable exactly while it is current |
| AnyOfTypes.IsUndefined | src/System.Linq.Dynamic.Core/AnyOfTypes/AnyOf_3.g.cs:33 | exactly one of the four flags holds, and not this one once constructed (`AnyOfProperties.ExactlyOneFlag`) |
| AnyOfTypes.IsFirst | src/System.Linq.Dynamic.Core/AnyOfTypes/AnyOf_3.g.cs:34 | holds exactly for a value tagged with the first slot, which a reachable value is readable through and no other (`AnyOfProperties.ExactlyOneFlag`, `ReadableExactlyThroughTag`) |
| AnyOfTypes.IsSecond | src/System.Linq.Dynamic.Core/AnyOfTypes/AnyOf_3.g.cs:35 | holds exactly for a value tagged with the second slot, which a reachable value is readable through and no other (`AnyOfProperties.ExactlyOneFlag`, `ReadableExactlyThroughTag`) |
| AnyOfTypes.IsThird | src/System.Linq.Dynamic.Core/AnyOfTypes/AnyOf_3.g.cs:36 | holds exactly for a value tagged with the third slot, which a reachable value is readable through and no other (`AnyOfProperties.ExactlyOneFlag`, `ReadableExactlyThroughTag`) |
| AnyOfTypes.Equals | src/System.Linq.Dynamic.Core/AnyOfTypes/AnyOf_3.g.cs:159-167 | field-wise equality; on constructed values, same slot and equal values (`AnyOfProperties.EqualityIsStructural`, `ConstructedEquality`) |
| AnyOfTypes.OpEquality | src/System.Linq.Dynamic.Core/AnyOfTypes/AnyOf_3.g.cs:169-172 | agrees with `Equals` (`AnyOfProperties.EqualityIsStructural`) |
| AnyOfTypes.OpInequality | src/System.Linq.Dynamic.Core/AnyOfTypes/AnyOf_3.g.cs:174-177 | is the negation of `Equals` (`AnyOfProperties.EqualityIsStructural`) |
| AnyOfTypes.ToString | src/System.Linq.Dynamic.Core/AnyOfTypes/AnyOf_3.g.cs:184-187 | a held value is shown through the value's own text; null exactly for an undefined value (`AnyOfProperties.ToStringNullIffUndefined`) |
| AnyOfProperties.ReadBackWhatWasStored | src/System.Linq.Dynamic.Core/AnyOfTypes/AnyOf_3.g.cs:38-108 | a value built in a slot reads back unchanged from that slot |
| AnyOfProperties.OtherSlotsFail | src/System.Linq.Dynamic.Core/AnyOfTypes/AnyOf_3.g.cs:110-116 | for every value and every slot, reading a slot that is not the current one fails, naming the asked and the held slot |
| AnyOfProperties.ReadableExactlyThroughTag | src/System.Linq.Dynamic.Core/AnyOfTypes/AnyOf_3.g.cs:53-116 | a reachable value is readable through exactly its tagged slot, which holds a value; only the default is undefined |
| AnyOfProperties.ExactlyOneFlag | src/System.Linq.Dynamic.Core/AnyOfTypes/AnyOf_3.g.cs:33-36 | exactly one tag flag holds, and not the undefined one for a constructed value |
| AnyOfProperties.EqualityIsStructural | src/System.Linq.Dynamic.Core/AnyOfTypes/AnyOf_3.g.cs:159-177 | `Equals` is field-wise equality, `==` agrees with it and `!=` negates it |
| AnyOfProperties.ConstructedEquality | src/System.Linq.Dynamic.Core/AnyOfTypes/AnyOf_3.g.cs:159-167 | reachable values are equal exactly when they hold the same slot and equal current values |
| AnyOfProperties.ToStringNullIffUndefined | src/System.Linq.Dynamic.Core/AnyOfTypes/AnyOf_3.g.cs:184-187 | for every value the text is null exactly when it is undefined, and a reachable defined value shows its held value |
| AnyOfProperties.ConstructorsInjectiveAndDistinct | src/System.Linq.Dynamic.Core/AnyOfTypes/AnyOf_3.g.cs:159-167 | each constructor is injective, values from different slots are never equal, and none equals the default |
| CustomTypeProviders.Union | src/System.Linq.Dynamic.Core/CustomTypeProviders/DefaultDynamicLinqCustomTypeProvider.cs:104-109 | the union holds each type of either side exactly once |
| CustomTypeProviders.PairsOfType | src/System.Linq.Dynamic.Core/CustomTypeProviders/DefaultDynamicLinqCustomTypeProvider.cs:117-124 | the pairs of one type are exactly its static extension methods keyed by their first parameter's type |
| CustomTypeProviders.CollectPairs | src/System.Linq.Dynamic.Core/CustomTypeProviders/DefaultDynamicLinqCustomTypeProvider.cs:115-124 | the nested loops collect exactly the reference list of key-method pairs |
| CustomTypeProviders.GroupByKey | src/System.Linq.Dynamic.Core/CustomTypeProviders/DefaultDynamicLinqCustomTypeProvider.cs:127 | the grouping loop builds exactly the reference grouping of the pairs |
| CustomTypeProviders.CollectExtensionMethods | src/System.Linq.Dynamic.Core/CustomTypeProviders/DefaultDynamicLinqCustomTypeProvider.cs:111-128 | the loops compute exactly the reference extension-method dictionary |
| CustomTypeProviders.NewProvider | src/System.Linq.Dynamic.Core/CustomTypeProviders/DefaultDynamicLinqCustomTypeProvider.cs:48-52 | a new provider has both caches empty and the given additional types and caching flag |
| CustomTypeProviders.GetExtensionMethodsInternal | src/System.Linq.Dynamic.Core/CustomTypeProviders/DefaultDynamicLinqCustomTypeProvider.cs:111-128 | keeps the provider consistent and leaves the method cache and the configuration alone; the dictionary is built over `GetCustomTypes` (`CustomTypeProviderProperties.FirstExtensionMethodsCall`) |
| CustomTypeProviders.GetCustomTypesInternal | src/System.Linq.Dynamic.Core/CustomTypeProviders/DefaultDynamicLinqCustomTypeProvider.cs:104-109 | the custom types are the marked and additional types, each once |
| CustomTypeProviders.GetCustomTypes | src/System.Linq.Dynamic.Core/CustomTypeProviders/DefaultDynamicLinqCustomTypeProvider.cs:55-68 | the call keeps the provider consistent, returns no duplicates and touches neither the flag nor the method cache |
| CustomTypeProviders.GetExtensionMethods | src/System.Linq.Dynamic.Core/CustomTypeProviders/DefaultDynamicLinqCustomTypeProvider.cs:71-84 | the call keeps the provider consistent and its configuration unchanged |
| CustomTypeProviderProperties.CustomTypesComputedOnce | src/System.Linq.Dynamic.Core/CustomTypeProviders/DefaultDynamicLinqCustomTypeProvider.cs:57-65 | with caching, the first call computes and stores the type set and later calls return it whatever the environment |
| CustomTypeProviderProperties.CustomTypesRecomputedWithoutCache | src/System.Linq.Dynamic.Core/CustomTypeProviders/DefaultDynamicLinqCustomTypeProvider.cs:67 | without caching, both calls recompute from the current environment and store nothing |
| CustomTypeProviderProperties.CustomTypesAreUnion | src/System.Linq.Dynamic.Core/CustomTypeProviders/DefaultDynamicLinqCustomTypeProvider.cs:104-109 | the type set is duplicate-free and holds exactly the marked and additional types |
| CustomTypeProviderProperties.ExtensionMethodsComputedOnce | src/System.Linq.Dynamic.Core/CustomTypeProviders/DefaultDynamicLinqCustomTypeProvider.cs:73-81 | with caching, the dictionary is computed once and returned unchanged afterwards |
| CustomTypeProviderProperties.ExtensionMethodsShareTypeCache | src/System.Linq.Dynamic.Core/CustomTypeProviders/DefaultDynamicLinqCustomTypeProvider.cs:113 | the dictionary is built over the cached type set, and a first call fills the type cache too |
| CustomTypeProviderProperties.FirstExtensionMethodsCall | src/System.Linq.Dynamic.Core/CustomTypeProviders/DefaultDynamicLinqCustomTypeProvider.cs:71-84 | the first cached call with both caches empty returns the dictionary over the freshly computed type set and caches both |
| CustomTypeProviderProperties.EveryExtensionMethodListed | src/System.Linq.Dynamic.Core/CustomTypeProviders/DefaultDynamicLinqCustomTypeProvider.cs:117-124 | every static extension method of a custom type is listed under its first parameter's type |
| CustomTypeProviderProperties.ExtensionMethodKeysExact | src/System.Linq.Dynamic.Core/CustomTypeProviders/DefaultDynamicLinqCustomTypeProvider.cs:127 | the keys are exactly the occurring first-parameter types, each list is non-empty and holds only methods of its key |
| CustomTypeProviderProperties.NewProviderConsistent | src/System.Linq.Dynamic.Core/CustomTypeProviders/DefaultDynamicLinqCustomTypeProvider.cs:48-52 | a new provider starts with empty caches and stays consistent through either call |

## Left out

- Unicode character classification and parse cultures: the character classes are ASCII, and the culture is reduced to one decimal-separator character.
- Exception messages and resource strings: an error is a kind, its offending text where the message uses it, and an offset.
- `TextParser` keywords: `IKeywordsHelper` is an interface with no behaviour.
- The `UAP10_0 || NETSTANDARD` branches of `IsCompatibleWith` and `Promote` are platform variants; only the primary branch is modelled.
- `TypeCode.Empty` and `TypeCode.DBNull` are not modelled: no expression type in the model has them.
- Reflection walks of `TypeHelper` (`TryFindGenericType`, `GetSelfAndBaseTypes`, `GetUnderlyingType`, `IsClass`, `IsStruct`, …): reference assignability is an abstract relation instead.
- `NumberParser.ParseNumber`, `ConstantExpressionHelper.TryGetText` and `ToString` of constant values are not part of this model: the parser is a function parameter and a constant carries its text.
- TypeHelper.TryParseEnum: names are compared ignoring case for ASCII letters only, where the runtime folds case over all of Unicode; and the runtime's member order is taken as given (`InValueOrder`), not computed from reflection.
- ExpressionPromoter.ValueText: for an enum without `[Flags]` (the model has no such attribute), a value that no member has prints as its digits at run time but has no text in the model; among members sharing a value, the model prints the first in the given order.
- Tokenizer.NextToken: after a parse error the scanner's offset, current character and token are not modelled; the source has already advanced over the characters it consumed, and the model returns only the error.
- Assembly discovery and `ResolveType`/`ResolveTypeBySimpleName`: reflection over loaded assemblies is replaced by the `Environment` parameter.
- Access to an extension method without parameters throws in the source; the model takes the first parameter's type as given.
- CustomTypeProviders.GetCustomTypes: the source returns its cached `HashSet` (and `GetExtensionMethods` its cached `Dictionary`) by reference, so a caller that mutates the result changes what later calls return; the model returns values, and mutation by callers is not modelled.
- Thread races on the provider caches: the code has no synchronisation, and the model is single-threaded.
- `AnyOf.GetHashCode`, `CurrentValueType` and the `DebuggerDisplay` attribute: they rely on hash-code helpers and runtime types outside this model.
- `AnyOfTypes.ToString`: the text of a held value comes from a function parameter standing for the value's own `ToString`.
