/** Properties of the type helpers: the compatibility predicate against the
    implicit numeric conversions of the C# language specification, its
    treatment of nullable, enum and reference types, and the round trips of
    the nullable helpers. */
module TypeHelperProperties {
  import opened Results
  import opened Chars
  import opened TypeHelper

  // ---------------------------------------------------------------------------
  // Reference definition: section 10.2.3 of the C# language specification,
  // "Implicit numeric conversions".

  const NumericCodes: set<TypeCode> :=
    {SByte, Byte, Int16, UInt16, Int32, UInt32, Int64, UInt64, Char, Single, Double, Decimal}

  /** The implicit numeric conversions: the types each numeric type converts
      to implicitly. */
  function ImplicitNumericConversions(from: TypeCode): set<TypeCode> {
    match from
    case SByte => {Int16, Int32, Int64, Single, Double, Decimal}
    case Byte => {Int16, UInt16, Int32, UInt32, Int64, UInt64, Single, Double, Decimal}
    case Int16 => {Int32, Int64, Single, Double, Decimal}
    case UInt16 => {Int32, UInt32, Int64, UInt64, Single, Double, Decimal}
    case Int32 => {Int64, Single, Double, Decimal}
    case UInt32 => {Int64, UInt64, Single, Double, Decimal}
    case Int64 => {Single, Double, Decimal}
    case UInt64 => {Single, Double, Decimal}
    case Char => {UInt16, Int32, UInt32, Int64, UInt64, Single, Double, Decimal}
    case Single => {Double}
    case _ => {}
  }

  /** Between builtin numeric types other than `char`, compatibility is
      exactly identity or an implicit numeric conversion of the language. */
  lemma NumericCompatibilityMatchesLanguage(h: Hierarchy, a: TypeCode, b: TypeCode)
    requires a in NumericCodes && b in NumericCodes && a != Char
    ensures IsCompatibleWith(h, Builtin(a), Builtin(b)) <==> a == b || b in ImplicitNumericConversions(a)
  {
    if HasWideningRow(a) {
      WidensMatchesLanguage(a, b);
    } else {
      assert a == Double || a == Decimal;
    }
  }

  lemma WidensMatchesLanguage(a: TypeCode, b: TypeCode)
    requires HasWideningRow(a)
    ensures Widens(a, b) <==> a == b || b in ImplicitNumericConversions(a)
  {
    match a
    case SByte =>
    case Byte =>
    case Int16 =>
    case UInt16 =>
    case Int32 =>
    case UInt32 =>
    case Int64 =>
    case UInt64 =>
    case Single =>
  }

  /** The one departure from the language: `char` widens to nothing but
      itself, although the language converts it implicitly to `ushort`,
      `int`, `uint`, `long`, `ulong`, `float`, `double` and `decimal`. */
  lemma CharWidensToNothing(h: Hierarchy, t: Type)
    requires IsValueType(t) && !IsNullableType(t)
    ensures IsCompatibleWith(h, Builtin(Char), t) <==> t == Builtin(Char)
    ensures Int32 in ImplicitNumericConversions(Char) && !IsCompatibleWith(h, Builtin(Char), Builtin(Int32))
  {
  }

  // ---------------------------------------------------------------------------
  // General shape of the predicate

  lemma CompatibleIsReflexive(h: Hierarchy, t: Type)
    ensures IsCompatibleWith(h, t, t)
  {
  }

  /** For a reference target (a class, `object`, `string`, a generic
      parameter) the answer is reference assignability. */
  lemma ReferenceTargetIsAssignability(h: Hierarchy, source: Type, target: Type)
    requires !IsValueType(target)
    ensures IsCompatibleWith(h, source, target) <==> IsAssignableFrom(h, target, source)
  {
  }

  /** A reference-type source is never compatible with a value-type target. */
  lemma ReferenceSourceNeverValueTarget(h: Hierarchy, source: Type, target: Type)
    requires WellFormed(target) && !IsValueType(source) && IsValueType(target)
    ensures !IsCompatibleWith(h, source, target)
  {
  }

  /** A nullable source never fits a non-nullable value target. */
  lemma NullableSourceNeedsNullableTarget(h: Hierarchy, source: Type, target: Type)
    requires IsNullableType(source) && IsValueType(target) && !IsNullableType(target)
    ensures !IsCompatibleWith(h, source, target)
  {
  }

  /** Lifting: with a nullable target, a source is judged on its underlying
      type, whether the source itself is nullable or not. */
  lemma NullableTargetJudgedOnUnderlying(h: Hierarchy, s: Type, t: Type)
    requires WellFormed(s) && !IsNullableType(s) && IsValueType(t) && !IsNullableType(t)
    ensures IsCompatibleWith(h, s, Nullable(t)) <==> IsCompatibleWith(h, s, t)
    ensures IsValueType(s) ==> (IsCompatibleWith(h, Nullable(s), Nullable(t)) <==> IsCompatibleWith(h, s, t))
  {
  }

  /** `float` widens only to `float` and `double`. */
  lemma SingleWidensOnlyToDouble(h: Hierarchy, t: Type)
    requires IsValueType(t) && !IsNullableType(t)
    ensures IsCompatibleWith(h, Builtin(Single), t) <==> t == Builtin(Single) || t == Builtin(Double)
  {
  }

  /** `double`, `decimal`, `bool`, `DateTime` and every other struct are
      compatible with themselves only, once nullability is set aside. */
  lemma OtherValueTypesOnlySelf(h: Hierarchy, s: Type, t: Type)
    requires s in {Builtin(Double), Builtin(Decimal), Builtin(Boolean), Builtin(DateTime)} || s.Struct?
    requires IsValueType(t)
    ensures IsCompatibleWith(h, s, t) <==> GetNonNullableType(t) == s
  {
  }

  /** Every enum ranks as `long`: it fits any enum, `long`, `float`, `double`
      and `decimal`, and it is fitted by any enum and by every integral type
      except `ulong`. */
  lemma EnumsRankAsInt64(h: Hierarchy, e: Type, t: Type)
    requires e.Enum? && IsValueType(t) && !IsNullableType(t)
    ensures IsCompatibleWith(h, e, t) <==>
      t.Enum? || t in {Builtin(Int64), Builtin(Single), Builtin(Double), Builtin(Decimal)}
    ensures IsCompatibleWith(h, t, e) <==>
      t.Enum? || t in {Builtin(SByte), Builtin(Byte), Builtin(Int16), Builtin(UInt16),
                       Builtin(Int32), Builtin(UInt32), Builtin(Int64)}
  {
  }

  /** Signed integers never widen to unsigned ones. */
  lemma SignedNeverToUnsigned(h: Hierarchy, s: Type, t: Type)
    requires IsSignedIntegralType(s) && IsUnsignedIntegralType(t)
    ensures !IsCompatibleWith(h, s, t)
  {
  }

  /** The widening table is transitive. */
  lemma WidensTransitive(a: TypeCode, b: TypeCode, c: TypeCode)
    requires Widens(a, b) && Widens(b, c)
    ensures Widens(a, c)
  {
  }

  /** Compatibility between two non-nullable value types through the ranking
      codes, as used by the transitivity proof. */
  predicate RankedCompatible(st: Type, tt: Type) {
    if HasWideningRow(RankCode(st)) then Widens(RankCode(st), RankCode(tt)) else st == tt
  }

  lemma RankedCompatibleTransitive(a: Type, b: Type, c: Type)
    requires RankedCompatible(a, b) && RankedCompatible(b, c)
    ensures RankedCompatible(a, c)
  {
    if HasWideningRow(RankCode(a)) {
      if HasWideningRow(RankCode(b)) {
        WidensTransitive(RankCode(a), RankCode(b), RankCode(c));
      } else {
        assert b == c;
      }
    }
  }

  lemma ValueCompatibleUnfolds(h: Hierarchy, s: Type, t: Type)
    requires WellFormed(s) && WellFormed(t) && IsValueType(s) && IsValueType(t)
    ensures IsCompatibleWith(h, s, t) <==>
      (!IsNullableType(s) || IsNullableType(t))
      && RankedCompatible(GetNonNullableType(s), GetNonNullableType(t))
  {
    var st, tt := GetNonNullableType(s), GetNonNullableType(t);
    if s == t {
      assert RankCode(st) == RankCode(tt);
      if HasWideningRow(RankCode(st)) {
        assert Widens(RankCode(st), RankCode(st));
      }
    }
  }

  /** Among well-formed value types compatibility is transitive: a chain of
      implicit conversions can be taken in one step. */
  lemma {:induction false} CompatibleTransitiveOnValueTypes(h: Hierarchy, a: Type, b: Type, c: Type)
    requires WellFormed(a) && WellFormed(b) && WellFormed(c)
    requires IsValueType(a) && IsValueType(b) && IsValueType(c)
    requires IsCompatibleWith(h, a, b) && IsCompatibleWith(h, b, c)
    ensures IsCompatibleWith(h, a, c)
  {
    ValueCompatibleUnfolds(h, a, b);
    ValueCompatibleUnfolds(h, b, c);
    ValueCompatibleUnfolds(h, a, c);
    RankedCompatibleTransitive(GetNonNullableType(a), GetNonNullableType(b), GetNonNullableType(c));
  }

  // ---------------------------------------------------------------------------
  // Numeric kinds

  /** The numeric kind ignores nullability. */
  lemma NumericKindIgnoresNullable(t: Type)
    requires WellFormed(t)
    ensures GetNumericTypeKind(ToNullableType(t)) == GetNumericTypeKind(t)
    ensures GetNumericTypeKind(GetNonNullableType(t)) == GetNumericTypeKind(t)
  {
  }

  /** The kinds partition the builtin numeric types as the language groups
      them, and nothing else is numeric. */
  lemma NumericKindsPartitionNumericCodes(t: Type)
    ensures IsNumericType(t) <==> GetNonNullableType(t).Builtin? && GetNonNullableType(t).code in NumericCodes
    ensures IsSignedIntegralType(t) <==> GetNonNullableType(t) in {Builtin(SByte), Builtin(Int16), Builtin(Int32), Builtin(Int64)}
    ensures IsUnsignedIntegralType(t) <==> GetNonNullableType(t) in {Builtin(Byte), Builtin(UInt16), Builtin(UInt32), Builtin(UInt64)}
    ensures IsEnumType(t) ==> !IsNumericType(t)
  {
  }

  // ---------------------------------------------------------------------------
  // Nullable helpers

  /** `GetNonNullableType` strips exactly one `Nullable` wrapper, and
      `ToNullableType` puts it back on a value type. */
  lemma NullableRoundTrip(t: Type)
    requires WellFormed(t)
    ensures IsValueType(t) && !IsNullableType(t) ==>
      ToNullableType(t) == Nullable(t) && GetNonNullableType(ToNullableType(t)) == t
    ensures IsNullableType(t) ==> ToNullableType(GetNonNullableType(t)) == t
  {
  }

  lemma ToNullableTypeIdempotent(t: Type)
    ensures ToNullableType(ToNullableType(t)) == ToNullableType(t)
  {
  }

  /** A type can hold null exactly when `ToNullableType` leaves it alone. */
  lemma CanBeNullIffNullableFixed(t: Type)
    ensures TypeCanBeNull(t) <==> ToNullableType(t) == t
  {
  }

  /** The two nullable-making helpers agree on every well-formed type. */
  lemma GetNullableTypeAgreesWithToNullableType(t: Type)
    requires WellFormed(t)
    ensures GetNullableType(t) == ToNullableType(t)
  {
  }

  /** Enum-ness is judged through one nullable wrapper. */
  lemma EnumTypeThroughNullable(t: Type)
    requires WellFormed(t)
    ensures IsEnumType(ToNullableType(t)) <==> IsEnumType(t)
  {
  }

  /** The display name ends in `?` exactly for nullable types, and it is the
      underlying type's name with that mark appended. */
  lemma TypeNameMarksNullable(t: Type)
    requires WellFormed(t)
    ensures var n := GetTypeName(Some(t)); n[|n| - 1] == '?' <==> IsNullableType(t)
    ensures IsNullableType(t) ==> GetTypeName(Some(t)) == GetTypeName(Some(t.arg)) + "?"
  {
    var n := Name(GetNonNullableType(t));
    assert ValidName(n);
    if !IsNullableType(t) {
      assert n[|n| - 1] in n;
    }
  }

  /** An enum name parses exactly when it names a member of that enum type. */
  lemma ParseEnumOnlyDefinedNames(text: string, t: Type)
    requires t.Enum?
    ensures TryParseEnum(text, Some(t)).Some? <==> IsDefinedName(t.members, text)
    ensures TryParseEnum(text, Some(Nullable(t))) == None
    ensures TryParseEnum(text, None) == None
  {
  }
  /** With the members in the runtime's order, the parsed value comes first
      in that order among the values of all members whose names equal the
      text ignoring case. */
  lemma {:induction false} ParsedEnumValueComesFirst(text: string, t: Type, j: nat)
    requires t.Enum? && InValueOrder(t.members) && IsDefinedName(t.members, text)
    requires j < |t.members| && EqualsIgnoreCase(t.members[j].name, text)
    ensures UnsignedOrderKey(TryParseEnum(text, Some(t)).value.value) <= UnsignedOrderKey(t.members[j].value)
  {
    var r := TryParseEnum(text, Some(t)).value;
    var k :| 0 <= k < |t.members| && t.members[k].value == r.value
      && EqualsIgnoreCase(t.members[k].name, text)
      && forall i :: 0 <= i < k ==> !EqualsIgnoreCase(t.members[i].name, text);
    assert k <= j;
    if k < j {
      assert UnsignedOrderKey(t.members[k].value) <= UnsignedOrderKey(t.members[j].value);
    }
  }

  /** A name that no other member matches even ignoring case parses to its
      own member's value. */
  lemma {:induction false} UniqueNameParsesToItsValue(text: string, t: Type, i: nat)
    requires t.Enum? && i < |t.members| && t.members[i].name == text
    requires forall j :: 0 <= j < |t.members| && j != i ==> !EqualsIgnoreCase(t.members[j].name, text)
    ensures TryParseEnum(text, Some(t)) == Some(EnumValue(t, t.members[i].value))
  {
    assert IsDefinedName(t.members, text);
    var r := TryParseEnum(text, Some(t)).value;
    var k :| 0 <= k < |t.members| && t.members[k].value == r.value
      && EqualsIgnoreCase(t.members[k].name, text);
    assert k == i;
  }

  /** In `enum E { a = 0, A = 1 }` the text `A` names a member exactly, yet
      it parses to 0: the case-insensitive match `a` comes first. */
  lemma CaseVariantNameParsesToFirstMatch()
    ensures var e := Enum("E", Int32, [EnumMember("a", 0), EnumMember("A", 1)]);
      InValueOrder(e.members) && TryParseEnum("A", Some(e)) == Some(EnumValue(e, 0))
  {
    var e := Enum("E", Int32, [EnumMember("a", 0), EnumMember("A", 1)]);
    assert e.members[1].name == "A";
    assert ToUpper("a") == "A" && ToUpper("A") == "A" by {
      assert ToUpper("a")[0] == 'A';
      assert ToUpper("A")[0] == 'A';
    }
    assert FirstMatchIgnoringCase(e.members, "A", 0) == Some(0);
  }

}
