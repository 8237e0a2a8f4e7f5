/** Runtime types as the expression parser sees them, and the type helpers it
    uses to decide implicit conversions: nullable wrapping and unwrapping,
    numeric kinds, enum detection, display names and the compatibility
    predicate that encodes the implicit numeric conversions of C#. */
module TypeHelper {
  import opened Results
  import opened Chars

  /** The runtime type codes of the builtin types. */
  datatype TypeCode =
    | Object
    | Boolean
    | Char
    | SByte
    | Byte
    | Int16
    | UInt16
    | Int32
    | UInt32
    | Int64
    | UInt64
    | Single
    | Double
    | Decimal
    | DateTime
    | String

  /** A runtime type. `Builtin` covers the types with their own type code
      (`Builtin(Object)` is `object` itself); an enum records its underlying
      integral code and its members, in the order the runtime keeps them
      (`InValueOrder`); `Struct` and `Class` are the other value and
      reference types; a generic parameter is none of these. */
  datatype Type =
    | Builtin(code: TypeCode)
    | Enum(name: string, underlying: TypeCode, members: seq<EnumMember>)
    | Nullable(arg: Type)
    | Struct(name: string)
    | Class(name: string)
    | GenericParameter(name: string)

  /** A named constant of an enum type. */
  datatype EnumMember = EnumMember(name: string, value: int)

  predicate IsIntegralCode(c: TypeCode) {
    c in {SByte, Byte, Int16, UInt16, Int32, UInt32, Int64, UInt64}
  }

  predicate IsValueType(t: Type) {
    match t
    case Builtin(c) => c != Object && c != String
    case Enum(_, _, _) => true
    case Nullable(_) => true
    case Struct(_) => true
    case Class(_) => false
    case GenericParameter(_) => false
  }

  /** A simple type name as the runtime reports it. */
  predicate ValidName(n: string) {
    |n| > 0 && '?' !in n
  }

  /** The types the runtime can actually construct: enums over integral codes,
      `Nullable` only around a value type that is not itself nullable, and
      names that do not contain the nullable marker. */
  predicate WellFormed(t: Type) {
    match t
    case Builtin(_) => true
    case Enum(n, u, _) => ValidName(n) && IsIntegralCode(u)
    case Nullable(a) => IsValueType(a) && !a.Nullable? && WellFormed(a)
    case Struct(n) => ValidName(n)
    case Class(n) => ValidName(n)
    case GenericParameter(n) => ValidName(n)
  }

  /** The runtime's type code: an enum reports its underlying code; nullable
      types, other structs, classes and generic parameters report `Object`. */
  function GetTypeCode(t: Type): (c: TypeCode)
    ensures t.Builtin? ==> c == t.code
    ensures !t.Builtin? && !t.Enum? ==> c == Object
  {
    match t
    case Builtin(c) => c
    case Enum(_, u, _) => u
    case _ => Object
  }

  /** Reference assignability, which depends on the class hierarchy, is an
      abstract relation: `(target, source)` pairs beyond identity. */
  datatype Hierarchy = Hierarchy(assignments: set<(Type, Type)>)

  predicate IsAssignableFrom(h: Hierarchy, target: Type, source: Type) {
    target == source || (target, source) in h.assignments
  }

  predicate IsNullableType(t: Type) {
    t.Nullable?
  }

  function GetNonNullableType(t: Type): (r: Type)
    ensures WellFormed(t) ==> WellFormed(r) && !IsNullableType(r)
    ensures !IsNullableType(t) ==> r == t
  {
    if IsNullableType(t) then t.arg else t
  }

  predicate TypeCanBeNull(t: Type) {
    !IsValueType(t) || IsNullableType(t)
  }

  function ToNullableType(t: Type): (r: Type)
    ensures WellFormed(t) ==> WellFormed(r)
    ensures TypeCanBeNull(r)
  {
    if IsNullableType(t) then t
    else if !IsValueType(t) then t
    else Nullable(t)
  }

  function GetNullableType(t: Type): (r: Type)
    ensures WellFormed(t) ==> WellFormed(r)
  {
    var u := if IsNullableType(t) then t.arg else t;
    if IsValueType(u) then Nullable(u) else u
  }

  predicate IsEnumType(t: Type) {
    GetNonNullableType(t).Enum?
  }

  /** 0 for enums and non-numeric types, 1 for `char` and the floating and
      decimal types, 2 for signed and 3 for unsigned integers; a nullable
      type has the kind of its underlying type. */
  function GetNumericTypeKind(t: Type): (k: int)
    ensures 0 <= k <= 3
    ensures k != 0 ==> GetNonNullableType(t).Builtin?
  {
    var u := GetNonNullableType(t);
    if u.Enum? then 0
    else
      match GetTypeCode(u)
      case Char => 1
      case Single => 1
      case Double => 1
      case Decimal => 1
      case SByte => 2
      case Int16 => 2
      case Int32 => 2
      case Int64 => 2
      case Byte => 3
      case UInt16 => 3
      case UInt32 => 3
      case UInt64 => 3
      case _ => 0
  }

  predicate IsNumericType(t: Type) {
    GetNumericTypeKind(t) != 0
  }

  predicate IsSignedIntegralType(t: Type) {
    GetNumericTypeKind(t) == 2
  }

  predicate IsUnsignedIntegralType(t: Type) {
    GetNumericTypeKind(t) == 3
  }

  function CodeName(c: TypeCode): string {
    match c
    case Object => "Object"
    case Boolean => "Boolean"
    case Char => "Char"
    case SByte => "SByte"
    case Byte => "Byte"
    case Int16 => "Int16"
    case UInt16 => "UInt16"
    case Int32 => "Int32"
    case UInt32 => "UInt32"
    case Int64 => "Int64"
    case UInt64 => "UInt64"
    case Single => "Single"
    case Double => "Double"
    case Decimal => "Decimal"
    case DateTime => "DateTime"
    case String => "String"
  }

  /** The runtime's simple name of a type (the generic `Nullable` type is
      named `Nullable` followed by a backquote and its arity). */
  function Name(t: Type): (n: string)
    ensures WellFormed(t) && !t.Nullable? ==> ValidName(n)
  {
    match t
    case Builtin(c) => CodeName(c)
    case Enum(n, _, _) => n
    case Nullable(_) => "Nullable`1"
    case Struct(n) => n
    case Class(n) => n
    case GenericParameter(n) => n
  }

  /** The name shown in error messages: "null" for no type, otherwise the
      name of the underlying type, marked with `?` when it was nullable. */
  function GetTypeName(t: Option<Type>): (r: string)
  {
    match t
    case None => "null"
    case Some(ty) =>
      var baseType := GetNonNullableType(ty);
      var name := Name(baseType);
      if ty != baseType then name + "?" else name
  }

  /** The runtime sorts an enum's members by value read as an unsigned
      64-bit number: a negative value is sign-extended, so it comes after
      every non-negative one. */
  function UnsignedOrderKey(v: int): (k: int)
    ensures v >= 0 ==> k == v
    ensures v < 0 ==> k > 0x7FFF_FFFF_FFFF_FFFF + v
  {
    if v < 0 then v + 0x1_0000_0000_0000_0000 else v
  }

  /** The members are listed in the runtime's order. */
  predicate InValueOrder(members: seq<EnumMember>) {
    forall i, j :: 0 <= i < j < |members| ==>
      UnsignedOrderKey(members[i].value) <= UnsignedOrderKey(members[j].value)
  }

  /** `Enum.IsDefined` for a name: some member has exactly this name. */
  predicate IsDefinedName(members: seq<EnumMember>, text: string) {
    exists i :: 0 <= i < |members| && members[i].name == text
  }

  /** The first member from `i` on whose name equals `text` ignoring case. */
  function FirstMatchIgnoringCase(members: seq<EnumMember>, text: string, i: nat): (k: Option<nat>)
    requires i <= |members|
    ensures k.Some? ==> i <= k.value < |members| && EqualsIgnoreCase(members[k.value].name, text)
    ensures k.Some? ==> forall j :: i <= j < k.value ==> !EqualsIgnoreCase(members[j].name, text)
    ensures k.None? ==> forall j :: i <= j < |members| ==> !EqualsIgnoreCase(members[j].name, text)
    decreases |members| - i
  {
    if i == |members| then None
    else if EqualsIgnoreCase(members[i].name, text) then Some(i)
    else FirstMatchIgnoringCase(members, text, i + 1)
  }

  /** A parsed enum value: its type and its number. */
  datatype EnumValue = EnumValue(enumType: Type, value: int)

  /** The text must name a member exactly, as `IsDefined` checks; the value
      is then that of the first member, in the runtime's order, whose name
      equals the text ignoring case, which is what `Parse` with `ignoreCase`
      returns. */
  function TryParseEnum(text: string, t: Option<Type>): (r: Option<EnumValue>)
    ensures r.Some? <==> t.Some? && t.value.Enum? && IsDefinedName(t.value.members, text)
    ensures r.Some? ==> r.value.enumType == t.value
    ensures r.Some? ==>
      exists k :: 0 <= k < |t.value.members|
        && t.value.members[k].value == r.value.value
        && EqualsIgnoreCase(t.value.members[k].name, text)
        && forall j :: 0 <= j < k ==> !EqualsIgnoreCase(t.value.members[j].name, text)
  {
    if t.Some? && t.value.Enum? && IsDefinedName(t.value.members, text) then
      var k := FirstMatchIgnoringCase(t.value.members, text, 0);
      if k.Some? then Some(EnumValue(t.value, t.value.members[k.value].value)) else None
    else None
  }

  /** The name the runtime prints for an enum value: the name of the first
      member, in the runtime's order, that has the value; none when no
      member has it. */
  function EnumValueName(members: seq<EnumMember>, v: int): (r: Option<string>)
    ensures r.Some? <==> exists i :: 0 <= i < |members| && members[i].value == v
    ensures r.Some? ==> exists i :: 0 <= i < |members| && members[i].value == v && members[i].name == r.value
  {
    if |members| == 0 then None
    else if members[0].value == v then Some(members[0].name)
    else
      var r := EnumValueName(members[1..], v);
      assert forall i :: 1 <= i < |members| ==> members[1..][i - 1] == members[i];
      r
  }

  /** The rows of the widening table: the source codes it lists. */
  predicate HasWideningRow(c: TypeCode) {
    c in {SByte, Byte, Int16, UInt16, Int32, UInt32, Int64, UInt64, Single}
  }

  /** The widening table, one row per source code, each row including the
      code itself. */
  predicate Widens(sc: TypeCode, tc: TypeCode) {
    match sc
    case SByte => tc in {SByte, Int16, Int32, Int64, Single, Double, Decimal}
    case Byte => tc in {Byte, Int16, UInt16, Int32, UInt32, Int64, UInt64, Single, Double, Decimal}
    case Int16 => tc in {Int16, Int32, Int64, Single, Double, Decimal}
    case UInt16 => tc in {UInt16, Int32, UInt32, Int64, UInt64, Single, Double, Decimal}
    case Int32 => tc in {Int32, Int64, Single, Double, Decimal}
    case UInt32 => tc in {UInt32, Int64, UInt64, Single, Double, Decimal}
    case Int64 => tc in {Int64, Single, Double, Decimal}
    case UInt64 => tc in {UInt64, Single, Double, Decimal}
    case Single => tc in {Single, Double}
    case _ => false
  }

  /** The code a non-nullable type is ranked by: every enum ranks as `Int64`. */
  function RankCode(t: Type): TypeCode {
    if t.Enum? then Int64 else GetTypeCode(t)
  }

  /** Whether a value of type `source` may be used where `target` is expected
      without an explicit conversion. */
  predicate IsCompatibleWith(h: Hierarchy, source: Type, target: Type) {
    if source == target then true
    else if !IsValueType(target) then IsAssignableFrom(h, target, source)
    else
      var st := GetNonNullableType(source);
      var tt := GetNonNullableType(target);
      if st != source && tt == target then false
      else
        var sc := RankCode(st);
        if HasWideningRow(sc) then Widens(sc, RankCode(tt))
        else st == tt
  }
}
