/** Promotion of an expression to a target type: keep it, re-type a constant,
    wrap it in a conversion, or report that no implicit conversion exists.

    Expressions are reduced to what the decision reads: constants (with the
    literal text the parser recorded for them, when it did), lambdas (whose
    return type is judged, and whose own type is a delegate class), conversion
    nodes, and every other node as an opaque node of some type. The number
    parser is a parameter. */
module ExpressionPromoter {
  import opened Results
  import opened TypeHelper

  /** A constant's value: `null`, a boxed object (with the text its
      `ToString` gives, which may be null), or an enum value. */
  datatype Value = Null | Boxed(display: Option<string>) | Member(member: EnumValue)

  datatype Expr =
    | Constant(value: Value, ty: Type, literal: Option<string>)
    | Lambda(returnType: Type, delegateName: string)
    | Node(id: nat, ty: Type)
    | Convert(operand: Expr, ty: Type)

  /** A parsed number, known by its text. */
  datatype Number = Number(display: string)

  /** The number parser: the number `text` denotes in type `target`, if any. */
  type NumberParser = (string, Type) -> Option<Number>

  function NumberValue(n: Option<Number>): (v: Value)
    ensures v.Null? <==> n.None?
    ensures !v.Member?
  {
    if n.Some? then Boxed(Some(n.value.display)) else Null
  }

  function TypeOf(e: Expr): Type {
    match e
    case Constant(_, t, _) => t
    case Lambda(_, d) => Class(d)
    case Node(_, t) => t
    case Convert(_, t) => t
  }

  /** The type judged for compatibility: a lambda's return type, otherwise
      the expression's own type. */
  function ReturnType(e: Expr): Type {
    if e.Lambda? then e.returnType else TypeOf(e)
  }

  function ValueText(v: Value): Option<string> {
    match v
    case Null => None
    case Boxed(d) => d
    case Member(m) => if m.enumType.Enum? then EnumValueName(m.enumType.members, m.value) else None
  }

  /** The text of a constant: the literal the parser recorded, or else the
      value's own text. */
  function ConstantText(e: Expr): Option<string>
    requires e.Constant?
  {
    if e.literal.Some? then e.literal else ValueText(e.value)
  }

  function EnumResult(r: Option<EnumValue>): (v: Value)
    ensures v.Null? <==> r.None?
  {
    if r.Some? then Member(r.value) else Null
  }

  /** The value a non-null constant with type `ceType` and text `text` takes
      when re-read as the non-nullable form of `targetType`, or `Null`. Integer
      constants are re-parsed as numbers, but against an enum only a member
      name counts; double constants are re-parsed only for `double` and
      `decimal`; string constants only as member names. */
  function Reparse(ceType: Type, text: string, targetType: Type, parse: NumberParser): (v: Value)
    ensures v.Member? ==> var target := GetNonNullableType(targetType);
      target.Enum? && IsDefinedName(target.members, text) && v.member.enumType == target
  {
    var target := GetNonNullableType(targetType);
    match GetTypeCode(ceType)
    case Int32 | UInt32 | Int64 | UInt64 =>
      var number := NumberValue(parse(text, target));
      if target.Enum? then EnumResult(TryParseEnum(text, Some(target))) else number
    case Double =>
      if target == Builtin(Decimal) || target == Builtin(Double) then NumberValue(parse(text, target)) else Null
    case String => EnumResult(TryParseEnum(text, Some(target)))
    case _ => Null
  }

  /** The new constant a constant expression becomes, if any. */
  function ConstantRewrite(e: Expr, targetType: Type, parse: NumberParser): (r: Option<Expr>)
    ensures r.Some? ==> e.Constant? && r.value.Constant? && r.value.ty == targetType && r.value.literal.None?
  {
    if !e.Constant? then None
    else if e.value.Null? then
      if !IsValueType(targetType) || IsNullableType(targetType) then Some(Constant(Null, targetType, None)) else None
    else
      match ConstantText(e)
      case None => None
      case Some(text) =>
        var v := Reparse(e.ty, text, targetType, parse);
        if v != Null then Some(Constant(v, targetType, None)) else None
  }

  /** Promotion of `e` to `targetType`. `None` means that no implicit conversion
      exists; otherwise the result is `e` itself or an expression of type
      `targetType`. */
  function Promote(h: Hierarchy, parse: NumberParser, e: Expr, targetType: Type, exact: bool, convertExpression: bool)
    : (r: Option<Expr>)
    ensures r.Some? ==> r.value == e || TypeOf(r.value) == targetType
    ensures r.None? ==> !IsCompatibleWith(h, ReturnType(e), targetType)
  {
    var returnType := ReturnType(e);
    if returnType == targetType || targetType.GenericParameter? then Some(e)
    else
      var rewritten := ConstantRewrite(e, targetType, parse);
      if rewritten.Some? then rewritten
      else if IsCompatibleWith(h, returnType, targetType) then
        var sourceType := TypeOf(e);
        if targetType == Builtin(Decimal) && IsEnumType(sourceType) then
          match sourceType
          case Enum(_, u, _) => Some(Convert(Convert(e, Builtin(u)), targetType))
          case _ => assert false; None
        else if IsValueType(targetType) || exact || (IsValueType(sourceType) && convertExpression) then
          Some(Convert(e, targetType))
        else Some(e)
      else None
  }
}
