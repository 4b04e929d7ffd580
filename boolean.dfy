/** The boolean value kind (include/sqlpp11/boolean.h): its prepared-statement
    parameter, its result-field entry and its operand check for `and`/`or`. */
module Boolean {
  import opened Wrappers
  import opened Operands
  import opened Connector

  /** `boolean::_parameter_t`: a value together with an is-null flag, so that
      an explicit `false` and "not set" are told apart. */
  class Parameter {
    var value: bool
    var isNull: bool

    /** A parameter that was never set: null, with value `false`. */
    constructor ()
      ensures isNull && !value
    {
      value, isNull := false, true;
    }

    /** A parameter constructed from a value is not null. */
    constructor FromValue(v: bool)
      ensures !isNull && value == v
    {
      value, isNull := v, false;
    }

    /** `operator=(value)`: stores the value and clears is-null. */
    method Assign(v: bool)
      modifies this
      ensures value == v && !isNull
    {
      value := v;
      isNull := false;
    }

    /** `operator=(nullptr)`: sets is-null and resets the value to `false`. */
    method AssignNull()
      modifies this
      ensures isNull && !value
    {
      value := false;
      isNull := true;
    }
  }

  /** An unset parameter and one set to `false` hold the same value but bind
      different is-null flags. */
  method FalseIsNotUnset() returns (unset: Parameter, explicit: Parameter)
    ensures unset.value == explicit.value == false
    ensures unset.isNull && !explicit.isNull
  {
    unset := new Parameter();
    explicit := new Parameter.FromValue(false);
  }

  /** `boolean::_result_entry_t<Db, NullIsTrivial>`: one field of a result row. */
  class ResultEntry {
    const nullIsTrivial: bool
    var isValid: bool
    var isNull: bool
    var value: bool

    /** A fresh entry is invalid, null and `false`. */
    constructor (nullIsTrivial: bool)
      ensures this.nullIsTrivial == nullIsTrivial
      ensures !isValid && isNull && !value
    {
      this.nullIsTrivial := nullIsTrivial;
      isValid, isNull, value := false, true, false;
    }

    /** `_validate`: marks the row valid and touches nothing else. */
    method Validate()
      modifies this
      ensures isValid
      ensures isNull == old(isNull) && value == old(value)
    {
      isValid := true;
    }

    /** `_invalidate`: back to invalid, null and `false`. */
    method Invalidate()
      modifies this
      ensures !isValid && isNull && !value
    {
      isValid := false;
      isNull := true;
      value := false;
    }

    /** What the connector writes through the pointers handed out by `_bind`
        when it fetches a row. */
    method Bind(v: bool, fieldIsNull: bool)
      modifies this
      ensures value == v && isNull == fieldIsNull
      ensures isValid == old(isValid)
    {
      value, isNull := v, fieldIsNull;
    }

    /** `is_null()`: the null flag, available only on a valid row. */
    function IsNull(p: Policy): (o: Outcome<bool>)
      reads this
      ensures o.Returned? <==> isValid
      ensures o.Returned? ==> o.value == isNull
    {
      GuardIsNull(p, isValid, isNull)
    }

    /** `value()`: the stored value, available only on a valid row and, for a
        null field, only when NULL may be read as `false`. */
    function Value(p: Policy): (o: Outcome<bool>)
      reads this
      ensures o.Returned? <==> isValid && (!isNull || nullIsTrivial || p.nullResultIsTrivialValue)
      ensures o.Returned? ==> o.value == value
      ensures !isValid && !p.assertResultValidity ==> o == Thrown("accessing value in non-existing row")
      ensures isValid && isNull && !nullIsTrivial && !p.nullResultIsTrivialValue && !p.assertResultValidity ==>
        o == Thrown("accessing value of NULL field")
      ensures !o.Returned? && p.assertResultValidity ==> o.AssertionFailed?
    {
      GuardValue(p, isValid, isNull, nullIsTrivial, value)
    }
  }

  /** A field read after its row was invalidated never yields a stale or zeroed
      value: it throws with a message or traps, according to the policy. */
  method ReadAfterInvalidate(e: ResultEntry, p: Policy) returns (o: Outcome<bool>)
    modifies e
    ensures !o.Returned?
    ensures p.assertResultValidity ==> o.AssertionFailed?
    ensures !p.assertResultValidity ==> o == Thrown("accessing value in non-existing row")
  {
    e.Invalidate();
    o := e.Value(p);
  }

  /** On a valid row whose field came back NULL, `value()` is refused unless
      NULL may be read as the trivial value; when it is allowed, the answer is
      whatever value the entry holds, which the fetch does not reset. */
  method ReadNullField(e: ResultEntry, p: Policy) returns (o: Outcome<bool>)
    requires e.isValid && e.isNull
    ensures o.Returned? <==> e.nullIsTrivial || p.nullResultIsTrivialValue
    ensures o.Returned? ==> o.value == e.value
    ensures !o.Returned? && p.assertResultValidity ==> o.AssertionFailed?
    ensures !o.Returned? && !p.assertResultValidity ==> o == Thrown("accessing value of NULL field")
  {
    o := e.Value(p);
  }

  /** `_is_valid_operand`: an expression of boolean kind. */
  predicate IsValidOperand(o: Operand)
  {
    o.isExpression && o.kind == BooleanKind
  }

  /** `operator and`: accepted only with a boolean expression on the right. */
  function And(base: Operand, rhs: Operand): (r: Result<Node, string>)
    requires IsValidOperand(base)
    ensures r.Success? <==> IsValidOperand(rhs)
    ensures r.Success? ==> r.value == LogicalAnd(base, rhs) && rhs.kind == base.kind
    ensures r.Failure? ==> r.error == "invalid rhs operand"
  {
    if IsValidOperand(rhs) then Success(LogicalAnd(base, rhs)) else Failure("invalid rhs operand")
  }

  /** `operator or`: accepted only with a boolean expression on the right. */
  function Or(base: Operand, rhs: Operand): (r: Result<Node, string>)
    requires IsValidOperand(base)
    ensures r.Success? <==> IsValidOperand(rhs)
    ensures r.Success? ==> r.value == LogicalOr(base, rhs) && rhs.kind == base.kind
    ensures r.Failure? ==> r.error == "invalid rhs operand"
  {
    if IsValidOperand(rhs) then Success(LogicalOr(base, rhs)) else Failure("invalid rhs operand")
  }

  /** `operator not`: always accepted on a boolean expression. */
  function Not(base: Operand): Node
    requires IsValidOperand(base)
  {
    LogicalNot(base)
  }
}
