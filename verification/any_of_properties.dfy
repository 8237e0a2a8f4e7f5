/** Properties of the three-way tagged value: what each constructor reads
    back, which reads fail, the tag flags, equality and text. */
module AnyOfProperties {
  import opened Results
  import opened AnyOfTypes

  /** A value read back from the slot it was built in is the value itself. */
  lemma ReadBackWhatWasStored<T1, T2, T3>(x: T1, y: T2, z: T3)
    ensures GetFirst(FromFirst<T1, T2, T3>(x)) == Success(Some(x))
    ensures GetSecond(FromSecond<T1, T2, T3>(y)) == Success(Some(y))
    ensures GetThird(FromThird<T1, T2, T3>(z)) == Success(Some(z))
  {
  }

  /** Reading any slot other than the current one fails, naming the slot
      asked for and the one held. */
  lemma OtherSlotsFail<T1, T2, T3>(a: AnyOf<T1, T2, T3>)
    ensures a.currentType != First ==> GetFirst(a) == Failure(InvalidOperation(First, a.currentType))
    ensures a.currentType != Second ==> GetSecond(a) == Failure(InvalidOperation(Second, a.currentType))
    ensures a.currentType != Third ==> GetThird(a) == Failure(InvalidOperation(Third, a.currentType))
  {
  }

  /** A reachable value is readable through exactly the slot its tag names,
      and the slot holds a written value; the default value is readable
      through none. */
  lemma ReadableExactlyThroughTag<T1, T2, T3>(a: AnyOf<T1, T2, T3>)
    requires Reachable(a)
    ensures GetFirst(a).Success? <==> a.currentType == First
    ensures GetSecond(a).Success? <==> a.currentType == Second
    ensures GetThird(a).Success? <==> a.currentType == Third
    ensures GetFirst(a).Success? ==> GetFirst(a).value.Some?
    ensures GetSecond(a).Success? ==> GetSecond(a).value.Some?
    ensures GetThird(a).Success? ==> GetThird(a).value.Some?
    ensures IsUndefined(a) <==> a == Default()
  {
  }

  /** Exactly one tag flag holds for any value; for a constructed value it is
      not the undefined one. */
  lemma ExactlyOneFlag<T1, T2, T3>(a: AnyOf<T1, T2, T3>)
    ensures (if IsUndefined(a) then 1 else 0) + (if IsFirst(a) then 1 else 0)
          + (if IsSecond(a) then 1 else 0) + (if IsThird(a) then 1 else 0) == 1
    ensures Reachable(a) && a.numberOfTypes == 3 ==> !IsUndefined(a)
  {
  }

  /** `Equals` is structural equality, `==` agrees with it and `!=` is its
      negation. */
  lemma EqualityIsStructural<T1, T2, T3>(a: AnyOf<T1, T2, T3>, b: AnyOf<T1, T2, T3>)
    ensures Equals(a, b) <==> a == b
    ensures OpEquality(a, b) <==> Equals(a, b)
    ensures OpInequality(a, b) <==> !Equals(a, b)
  {
  }

  /** Two reachable values are equal exactly when they carry the same tag
      and the same held value. */
  lemma ConstructedEquality<T1, T2, T3>(a: AnyOf<T1, T2, T3>, b: AnyOf<T1, T2, T3>)
    requires Reachable(a) && Reachable(b)
    ensures Equals(a, b) <==> a.currentType == b.currentType && a.currentValue == b.currentValue
  {
  }

  /** Each constructor keeps its value apart: values built in one slot are
      equal exactly when built from equal values, values built in different
      slots never are, and no built value equals the default. */
  lemma ConstructorsInjectiveAndDistinct<T1, T2, T3>(x: T1, x': T1, y: T2, y': T2, z: T3, z': T3)
    ensures Equals(FromFirst<T1, T2, T3>(x), FromFirst<T1, T2, T3>(x')) <==> x == x'
    ensures Equals(FromSecond<T1, T2, T3>(y), FromSecond<T1, T2, T3>(y')) <==> y == y'
    ensures Equals(FromThird<T1, T2, T3>(z), FromThird<T1, T2, T3>(z')) <==> z == z'
    ensures !Equals(FromFirst<T1, T2, T3>(x), FromSecond<T1, T2, T3>(y))
    ensures !Equals(FromFirst<T1, T2, T3>(x), FromThird<T1, T2, T3>(z))
    ensures !Equals(FromSecond<T1, T2, T3>(y), FromThird<T1, T2, T3>(z))
    ensures !Equals(FromFirst<T1, T2, T3>(x), Default())
    ensures !Equals(FromSecond<T1, T2, T3>(y), Default())
    ensures !Equals(FromThird<T1, T2, T3>(z), Default())
  {
  }

  /** The text is null exactly for an undefined value; any other reachable
      value shows the value it holds. */
  lemma ToStringNullIffUndefined<T1, T2, T3>(a: AnyOf<T1, T2, T3>, show: Boxed<T1, T2, T3> -> string)
    ensures ToString(a, show).None? <==> IsUndefined(a)
    ensures Reachable(a) && !IsUndefined(a) ==> ToString(a, show) == Some(show(a.currentValue.value))
  {
  }
}
