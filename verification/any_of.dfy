/** A value of one of three types, tagged with which one it holds.

    The record keeps the fields of the generated struct: the number of types
    (3, or 0 in the default value), the tag, the held value as an object, and
    the three typed slots. A slot that was never written holds the type's
    default value, written `None` here. */
module AnyOfTypes {
  import opened Results

  datatype AnyOfType = Undefined | First | Second | Third

  /** The held value, boxed as an object. */
  datatype Boxed<T1, T2, T3> = BoxFirst(v1: T1) | BoxSecond(v2: T2) | BoxThird(v3: T3)

  datatype AnyOf<T1, T2, T3> = AnyOf(
    numberOfTypes: nat,
    currentValue: Option<Boxed<T1, T2, T3>>,
    currentType: AnyOfType,
    first: Option<T1>,
    second: Option<T2>,
    third: Option<T3>)

  /** The error of reading a slot other than the current one. */
  datatype InvalidOperation = InvalidOperation(desired: AnyOfType, current: AnyOfType)

  /** The default value of the struct: every field at its default. */
  function Default<T1, T2, T3>(): (a: AnyOf<T1, T2, T3>)
    ensures IsUndefined(a) && a.numberOfTypes == 0 && a.currentValue.None?
  {
    AnyOf(0, None, Undefined, None, None, None)
  }

  function FromFirst<T1, T2, T3>(value: T1): (a: AnyOf<T1, T2, T3>)
    ensures a.currentType == First && a.numberOfTypes == 3
    ensures a.first == Some(value) && a.currentValue == Some(BoxFirst(value))
    ensures a.second.None? && a.third.None?
  {
    AnyOf(3, Some(BoxFirst(value)), First, Some(value), None, None)
  }

  function FromSecond<T1, T2, T3>(value: T2): (a: AnyOf<T1, T2, T3>)
    ensures a.currentType == Second && a.numberOfTypes == 3
    ensures a.second == Some(value) && a.currentValue == Some(BoxSecond(value))
    ensures a.first.None? && a.third.None?
  {
    AnyOf(3, Some(BoxSecond(value)), Second, None, Some(value), None)
  }

  function FromThird<T1, T2, T3>(value: T3): (a: AnyOf<T1, T2, T3>)
    ensures a.currentType == Third && a.numberOfTypes == 3
    ensures a.third == Some(value) && a.currentValue == Some(BoxThird(value))
    ensures a.first.None? && a.second.None?
  {
    AnyOf(3, Some(BoxThird(value)), Third, None, None, Some(value))
  }

  /** The values a program can hold: the default or a constructed one. */
  predicate Reachable<T1(==), T2(==), T3(==)>(a: AnyOf<T1, T2, T3>) {
    a == Default()
    || (a.currentType == First && a.first.Some? && a == FromFirst(a.first.value))
    || (a.currentType == Second && a.second.Some? && a == FromSecond(a.second.value))
    || (a.currentType == Third && a.third.Some? && a == FromThird(a.third.value))
  }

  predicate IsUndefined<T1, T2, T3>(a: AnyOf<T1, T2, T3>) { a.currentType == Undefined }
  predicate IsFirst<T1, T2, T3>(a: AnyOf<T1, T2, T3>) { a.currentType == First }
  predicate IsSecond<T1, T2, T3>(a: AnyOf<T1, T2, T3>) { a.currentType == Second }
  predicate IsThird<T1, T2, T3>(a: AnyOf<T1, T2, T3>) { a.currentType == Third }

  /** The check every typed read makes first. */
  function Validate<T1, T2, T3>(a: AnyOf<T1, T2, T3>, desired: AnyOfType): (r: Outcome<InvalidOperation>)
    ensures r.Pass? <==> a.currentType == desired
    ensures r.Fail? ==> r.error == InvalidOperation(desired, a.currentType)
  {
    if desired != a.currentType then Fail(InvalidOperation(desired, a.currentType)) else Pass
  }

  /** The first slot, readable only while it is the current one. */
  function GetFirst<T1, T2, T3>(a: AnyOf<T1, T2, T3>): (r: Result<Option<T1>, InvalidOperation>)
    ensures r.Success? <==> IsFirst(a)
    ensures r.Success? ==> r.value == a.first
    ensures r.Failure? ==> r.error == InvalidOperation(First, a.currentType)
  {
    match Validate(a, First)
    case Fail(e) => Failure(e)
    case Pass => Success(a.first)
  }

  function GetSecond<T1, T2, T3>(a: AnyOf<T1, T2, T3>): (r: Result<Option<T2>, InvalidOperation>)
    ensures r.Success? <==> IsSecond(a)
    ensures r.Success? ==> r.value == a.second
    ensures r.Failure? ==> r.error == InvalidOperation(Second, a.currentType)
  {
    match Validate(a, Second)
    case Fail(e) => Failure(e)
    case Pass => Success(a.second)
  }

  function GetThird<T1, T2, T3>(a: AnyOf<T1, T2, T3>): (r: Result<Option<T3>, InvalidOperation>)
    ensures r.Success? <==> IsThird(a)
    ensures r.Success? ==> r.value == a.third
    ensures r.Failure? ==> r.error == InvalidOperation(Third, a.currentType)
  {
    match Validate(a, Third)
    case Fail(e) => Failure(e)
    case Pass => Success(a.third)
  }

  /** Field-by-field equality, the values compared by their own equality. */
  predicate Equals<T1(==), T2(==), T3(==)>(a: AnyOf<T1, T2, T3>, b: AnyOf<T1, T2, T3>) {
    a.currentType == b.currentType
    && a.numberOfTypes == b.numberOfTypes
    && a.currentValue == b.currentValue
    && a.first == b.first
    && a.second == b.second
    && a.third == b.third
  }

  /** The `==` operator, through the default equality comparer. */
  predicate OpEquality<T1(==), T2(==), T3(==)>(a: AnyOf<T1, T2, T3>, b: AnyOf<T1, T2, T3>) {
    Equals(a, b)
  }

  predicate OpInequality<T1(==), T2(==), T3(==)>(a: AnyOf<T1, T2, T3>, b: AnyOf<T1, T2, T3>) {
    !OpEquality(a, b)
  }

  /** The text of the held value, or null (`None`) when undefined. `show`
      stands for the interpolation `$"{value}"`, which turns a held null into
      the empty string; the `""` branch is for a tagged record with no held
      value, which no constructor makes. */
  function ToString<T1, T2, T3>(a: AnyOf<T1, T2, T3>, show: Boxed<T1, T2, T3> -> string): (r: Option<string>)
    ensures r.Some? && a.currentValue.Some? ==> r.value == show(a.currentValue.value)
  {
    if IsUndefined(a) then None
    else Some(if a.currentValue.Some? then show(a.currentValue.value) else "")
  }
}
