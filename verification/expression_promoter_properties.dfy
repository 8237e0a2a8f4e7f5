/** Properties of expression promotion: when the source is returned as it is,
    how constants are re-typed, when a conversion node is added, and that a
    promoted expression needs no further promotion. */
module ExpressionPromoterProperties {
  import opened Results
  import opened TypeHelper
  import opened ExpressionPromoter

  /** Nothing to do when the judged type already is the target, or when the
      target is a generic parameter. */
  lemma PromoteKeepsMatchingType(h: Hierarchy, parse: NumberParser, e: Expr, targetType: Type, exact: bool, convert: bool)
    requires ReturnType(e) == targetType || targetType.GenericParameter?
    ensures Promote(h, parse, e, targetType, exact, convert) == Some(e)
  {
  }

  /** A null constant is re-typed exactly when the target can hold null;
      otherwise it fares as any expression of its type. */
  lemma PromoteNullConstant(h: Hierarchy, parse: NumberParser, t: Type, literal: Option<string>,
                            targetType: Type, exact: bool, convert: bool)
    requires t != targetType && !targetType.GenericParameter?
    ensures var r := Promote(h, parse, Constant(Null, t, literal), targetType, exact, convert);
      (TypeCanBeNull(targetType) ==> r == Some(Constant(Null, targetType, None)))
      && (!TypeCanBeNull(targetType) ==> (r.None? <==> !IsCompatibleWith(h, t, targetType)))
  {
  }

  /** The preconditions shared by the constant lemmas below: a non-null
      constant whose text is `text`, and a target that calls for work. */
  predicate PlainConstant(e: Expr, text: string, targetType: Type) {
    e.Constant? && !e.value.Null? && ConstantText(e) == Some(text)
    && e.ty != targetType && !targetType.GenericParameter?
  }

  predicate IntegerCoded(t: Type) {
    GetTypeCode(t) in {Int32, UInt32, Int64, UInt64}
  }

  /** An integer constant aimed at an enum (or a nullable enum) becomes a
      value of that enum only when its text is a member name; a number is
      not accepted as a member, and the constant is then converted when its
      type is compatible with the target, and not at all otherwise. */
  lemma PromoteIntegerConstantToEnum(h: Hierarchy, parse: NumberParser, e: Expr, text: string,
                                     targetType: Type, exact: bool, convert: bool)
    requires PlainConstant(e, text, targetType) && IntegerCoded(e.ty)
    requires GetNonNullableType(targetType).Enum?
    ensures var target := GetNonNullableType(targetType);
      Promote(h, parse, e, targetType, exact, convert) ==
        if IsDefinedName(target.members, text) then Some(Constant(Member(TryParseEnum(text, Some(target)).value), targetType, None))
        else if IsCompatibleWith(h, e.ty, targetType) then Some(Convert(e, targetType))
        else None
  {
    assert IsValueType(targetType);
  }

  /** A `ulong` constant whose text names no member is not converted to an
      enum: enums rank as `long`, and `ulong` does not widen to `long`. */
  lemma UlongConstantNotConvertedToEnum(h: Hierarchy, parse: NumberParser, e: Expr, text: string,
                                        targetType: Type, exact: bool, convert: bool)
    requires PlainConstant(e, text, targetType) && e.ty == Builtin(UInt64)
    requires targetType.Enum? && !IsDefinedName(targetType.members, text)
    ensures Promote(h, parse, e, targetType, exact, convert) == None
  {
  }

  /** An integer constant aimed at a non-enum type is re-parsed as a number
      of the non-nullable target, and a successful parse becomes a constant
      of the target itself. */
  lemma PromoteIntegerConstantReparsed(h: Hierarchy, parse: NumberParser, e: Expr, text: string,
                                       targetType: Type, exact: bool, convert: bool)
    requires PlainConstant(e, text, targetType) && IntegerCoded(e.ty)
    requires !GetNonNullableType(targetType).Enum?
    requires parse(text, GetNonNullableType(targetType)).Some?
    ensures Promote(h, parse, e, targetType, exact, convert) ==
      Some(Constant(Boxed(Some(parse(text, GetNonNullableType(targetType)).value.display)), targetType, None))
  {
  }

  /** A double constant is re-parsed only against `double` or `decimal`
      (nullable or not); for any other target it is never re-typed. */
  lemma PromoteDoubleConstant(h: Hierarchy, parse: NumberParser, e: Expr, text: string,
                              targetType: Type, exact: bool, convert: bool)
    requires PlainConstant(e, text, targetType) && GetTypeCode(e.ty) == Double
    ensures var target := GetNonNullableType(targetType);
      var r := Promote(h, parse, e, targetType, exact, convert);
      (target in {Builtin(Double), Builtin(Decimal)} && parse(text, target).Some? ==>
         r == Some(Constant(Boxed(Some(parse(text, target).value.display)), targetType, None)))
      && (target !in {Builtin(Double), Builtin(Decimal)} ==>
         r.Some? ==> r.value == e || r.value.Convert?)
  {
  }

  /** A string constant is re-typed only as the member of an enum it names. */
  lemma PromoteStringConstant(h: Hierarchy, parse: NumberParser, e: Expr, text: string,
                              targetType: Type, exact: bool, convert: bool)
    requires PlainConstant(e, text, targetType) && GetTypeCode(e.ty) == String
    ensures var target := GetNonNullableType(targetType);
      var r := Promote(h, parse, e, targetType, exact, convert);
      (target.Enum? && IsDefinedName(target.members, text) ==>
         r == Some(Constant(Member(TryParseEnum(text, Some(target)).value), targetType, None)))
      && (!(target.Enum? && IsDefinedName(target.members, text)) ==>
         r.Some? ==> r.value == e || r.value.Convert?)
  {
  }

  /** Apart from constants, the answer is "no conversion" exactly when the
      judged type is incompatible with the target. */
  lemma PromoteFailsExactlyWhenIncompatible(h: Hierarchy, parse: NumberParser, e: Expr, targetType: Type,
                                            exact: bool, convert: bool)
    requires !e.Constant? && ReturnType(e) != targetType && !targetType.GenericParameter?
    ensures Promote(h, parse, e, targetType, exact, convert).None? <==> !IsCompatibleWith(h, ReturnType(e), targetType)
  {
  }

  /** An enum reaches `decimal` through its underlying integral type. */
  lemma PromoteEnumToDecimal(h: Hierarchy, parse: NumberParser, e: Expr, exact: bool, convert: bool)
    requires !e.Constant? && TypeOf(e).Enum?
    ensures Promote(h, parse, e, Builtin(Decimal), exact, convert) ==
      Some(Convert(Convert(e, Builtin(TypeOf(e).underlying)), Builtin(Decimal)))
  {
  }

  /** A compatible expression gets a conversion node exactly when the target
      is a value type, an exact match is asked for, or a value-typed source
      is to be converted; otherwise it is used as it is. */
  lemma PromoteConversionNode(h: Hierarchy, parse: NumberParser, e: Expr, targetType: Type, exact: bool, convert: bool)
    requires !e.Constant? && ReturnType(e) != targetType && !targetType.GenericParameter?
    requires IsCompatibleWith(h, ReturnType(e), targetType)
    requires !(targetType == Builtin(Decimal) && IsEnumType(TypeOf(e)))
    ensures Promote(h, parse, e, targetType, exact, convert) ==
      if IsValueType(targetType) || exact || (IsValueType(TypeOf(e)) && convert) then Some(Convert(e, targetType))
      else Some(e)
  {
  }

  /** A lambda is judged on its return type; being of a delegate class, it is
      wrapped in a conversion only for a value-type target or an exact match. */
  lemma PromoteLambda(h: Hierarchy, parse: NumberParser, rt: Type, d: string, targetType: Type, exact: bool, convert: bool)
    requires rt != targetType && !targetType.GenericParameter? && targetType != Builtin(Decimal)
    ensures var e := Lambda(rt, d);
      Promote(h, parse, e, targetType, exact, convert) ==
        if !IsCompatibleWith(h, rt, targetType) then None
        else if IsValueType(targetType) || exact then Some(Convert(e, targetType))
        else Some(e)
  {
  }

  /** Promotion is stable: a promoted expression, promoted again to the same
      type under the same flags, stays as it is. */
  lemma PromoteIsStable(h: Hierarchy, parse: NumberParser, e: Expr, targetType: Type, exact: bool, convert: bool)
    requires Promote(h, parse, e, targetType, exact, convert).Some?
    ensures var x := Promote(h, parse, e, targetType, exact, convert).value;
      Promote(h, parse, x, targetType, exact, convert) == Some(x)
  {
    var x := Promote(h, parse, e, targetType, exact, convert).value;
    if x != e {
      assert !x.Lambda?;
    }
  }
}
