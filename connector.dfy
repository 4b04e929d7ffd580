/** What a connector decides about access to result fields: whether an
    invalid access traps (assert) or throws, and whether a NULL result may be
    read as the kind's trivial value. */
module Connector {

  /** `connector_assert_result_validity_t<Db>` and
      `connector_null_result_is_trivial_value_t<Db>`. */
  datatype Policy = Policy(assertResultValidity: bool, nullResultIsTrivialValue: bool)

  /** How an accessor ends: it returns, throws `sqlpp::exception` with a
      message, or stops the program in a failed `assert`. */
  datatype Outcome<+T> = Returned(value: T) | Thrown(message: string) | AssertionFailed

  /** The check in front of `is_null()` on a result entry: returns `isNull`
      exactly when the row is valid. */
  function GuardIsNull(p: Policy, isValid: bool, isNull: bool): (o: Outcome<bool>)
    ensures o.Returned? <==> isValid
    ensures o.Returned? ==> o.value == isNull
    ensures !isValid && p.assertResultValidity ==> o.AssertionFailed?
    ensures !isValid && !p.assertResultValidity ==> o == Thrown("accessing is_null in non-existing row")
  {
    if p.assertResultValidity then
      if isValid then Returned(isNull) else AssertionFailed
    else if !isValid then
      Thrown("accessing is_null in non-existing row")
    else
      Returned(isNull)
  }

  /** Whether reading the value of a field must be refused as a NULL access:
      the field is null, and neither the entry nor the connector lets NULL be
      read as the trivial value. */
  predicate NullValue(p: Policy, isNull: bool, nullIsTrivial: bool)
  {
    isNull && !nullIsTrivial && !p.nullResultIsTrivialValue
  }

  /** The checks in front of `value()` on a result entry: `v` is returned
      exactly when the row is valid and the field is not a refused NULL; an
      invalid row is reported before a NULL field. */
  function GuardValue<T>(p: Policy, isValid: bool, isNull: bool, nullIsTrivial: bool, v: T): (o: Outcome<T>)
    ensures o.Returned? <==> isValid && !NullValue(p, isNull, nullIsTrivial)
    ensures o.Returned? ==> o.value == v
    ensures !o.Returned? && p.assertResultValidity ==> o.AssertionFailed?
    ensures !isValid && !p.assertResultValidity ==> o == Thrown("accessing value in non-existing row")
    ensures isValid && NullValue(p, isNull, nullIsTrivial) && !p.assertResultValidity ==>
      o == Thrown("accessing value of NULL field")
  {
    var nullValue := NullValue(p, isNull, nullIsTrivial);
    if p.assertResultValidity then
      if !isValid || nullValue then AssertionFailed else Returned(v)
    else if !isValid then
      Thrown("accessing value in non-existing row")
    else if nullValue then
      Thrown("accessing value of NULL field")
    else
      Returned(v)
  }

  /** The two policies refuse exactly the same accesses; they differ only in
      how the refusal is reported. */
  lemma PoliciesRefuseAlike<T>(p: Policy, isValid: bool, isNull: bool, nullIsTrivial: bool, v: T)
    ensures
      var q := Policy(!p.assertResultValidity, p.nullResultIsTrivialValue);
      GuardValue(p, isValid, isNull, nullIsTrivial, v).Returned?
        == GuardValue(q, isValid, isNull, nullIsTrivial, v).Returned?
    ensures
      var q := Policy(!p.assertResultValidity, p.nullResultIsTrivialValue);
      GuardIsNull(p, isValid, isNull).Returned? == GuardIsNull(q, isValid, isNull).Returned?
  {
  }
}
