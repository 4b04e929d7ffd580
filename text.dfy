/** The text value kind (include/sqlpp11/text.h): its prepared-statement
    parameter, its result-field entry and its operand check for `+`, `like`
    and `+=`. */
module Text {
  import opened Wrappers
  import opened Operands
  import opened Connector

  /** The value type `text::_parameter_t` declares, as written: `integral`. */
  function ParameterValueTypeAsWritten(): ValueKind
  {
    IntegralKind
  }

  /** As written, a text parameter's declared value type names another kind
      than the one the parameter belongs to. */
  lemma ParameterValueTypeMismatch()
    ensures ParameterValueTypeAsWritten() != TextKind
  {
  }

  /** The value type of a text parameter: text, the kind it belongs to, as
      the boolean parameter names its own kind. */
  function ParameterValueType(): (k: ValueKind)
    ensures k == TextKind
  {
    TextKind
  }

  /** `text::_parameter_t`: a string together with an is-null flag. */
  class Parameter {
    var value: string
    var isNull: bool

    /** A parameter that was never set: null, with value "". */
    constructor ()
      ensures isNull && value == ""
    {
      value, isNull := "", true;
    }

    /** A parameter constructed from a string holds it and is not null. */
    constructor FromValue(v: string)
      ensures !isNull && value == v
    {
      value, isNull := v, false;
    }

    /** `operator=(value)`: stores the string and clears is-null. */
    method Assign(v: string)
      modifies this
      ensures value == v && !isNull
    {
      value := v;
      isNull := false;
    }

    /** `operator=(nullptr)`: back to "" and null. */
    method AssignNull()
      modifies this
      ensures isNull && value == ""
    {
      value := "";
      isNull := true;
    }
  }

  /** `text::_result_entry_t<Db, NullIsTrivial>`: one field of a result row.
      The data pointer and length are the optional characters they point at. */
  class ResultEntry {
    const nullIsTrivial: bool
    var isValid: bool
    var data: Option<string>

    /** A fresh entry is invalid and has no data. */
    constructor (nullIsTrivial: bool)
      ensures this.nullIsTrivial == nullIsTrivial
      ensures !isValid && data == None
    {
      this.nullIsTrivial := nullIsTrivial;
      isValid, data := false, None;
    }

    /** `_validate`: marks the row valid and touches nothing else. */
    method Validate()
      modifies this
      ensures isValid && data == old(data)
    {
      isValid := true;
    }

    /** `_invalidate`: back to the state of a fresh entry. */
    method Invalidate()
      modifies this
      ensures !isValid && data == None
    {
      isValid := false;
      data := None;
    }

    /** What the connector writes through the pointer and length handed out by
        `_bind` when it fetches a row: no pointer for NULL, otherwise `len`
        characters. */
    method Bind(d: Option<string>)
      modifies this
      ensures data == d && isValid == old(isValid)
    {
      data := d;
    }

    /** `is_null()`: true exactly when there is no data, available only on a
        valid row. */
    function IsNull(p: Policy): (o: Outcome<bool>)
      reads this
      ensures o.Returned? <==> isValid
      ensures o.Returned? ==> (o.value <==> data == None)
    {
      GuardIsNull(p, isValid, data == None)
    }

    /** `value()`: the characters of the field, or "" for a NULL field that may
        be read as trivial. */
    function Value(p: Policy): (o: Outcome<string>)
      reads this
      ensures o.Returned? <==> isValid && (data != None || nullIsTrivial || p.nullResultIsTrivialValue)
      ensures o.Returned? && data != None ==> o.value == data.value
      ensures o.Returned? && data == None ==> o.value == ""
      ensures !isValid && !p.assertResultValidity ==> o == Thrown("accessing value in non-existing row")
      ensures isValid && data == None && !nullIsTrivial && !p.nullResultIsTrivialValue && !p.assertResultValidity ==>
        o == Thrown("accessing value of NULL field")
      ensures !o.Returned? && p.assertResultValidity ==> o.AssertionFailed?
    {
      GuardValue(p, isValid, data == None, nullIsTrivial, if data.Some? then data.value else "")
    }

    /** `operator==`: compares `value()` with `rhs`, failing as `value()` does. */
    function Equals(rhs: string, p: Policy): (o: Outcome<bool>)
      reads this
      ensures o.Returned? <==> Value(p).Returned?
      ensures o.Returned? ==> (o.value <==> Value(p).value == rhs)
      ensures o.Thrown? <==> Value(p).Thrown?
      ensures o.Thrown? ==> o.message == Value(p).message
    {
      match Value(p)
      case Returned(v) => Returned(v == rhs)
      case Thrown(m) => Thrown(m)
      case AssertionFailed => AssertionFailed
    }

    /** `operator!=`: the negation of `operator==`. */
    function NotEquals(rhs: string, p: Policy): (o: Outcome<bool>)
      reads this
      ensures o.Returned? <==> Value(p).Returned?
      ensures o.Returned? ==> (o.value <==> Value(p).value != rhs)
      ensures o.Thrown? <==> Value(p).Thrown?
      ensures o.Thrown? ==> o.message == Value(p).message
    {
      match Equals(rhs, p)
      case Returned(b) => Returned(!b)
      case Thrown(m) => Thrown(m)
      case AssertionFailed => AssertionFailed
    }
  }

  /** A field fetched with data reads back exactly those characters, and no
      longer does once the row is invalidated. */
  method FetchThenInvalidate(e: ResultEntry, p: Policy, d: string) returns (before: Outcome<string>, after: Outcome<string>)
    modifies e
    ensures before == Returned(d)
    ensures !after.Returned?
    ensures !p.assertResultValidity ==> after == Thrown("accessing value in non-existing row")
  {
    e.Bind(Some(d));
    e.Validate();
    before := e.Value(p);
    e.Invalidate();
    after := e.Value(p);
  }

  /** `_is_valid_operand`: an expression of text kind. */
  predicate IsValidOperand(o: Operand)
  {
    o.isExpression && o.kind == TextKind
  }

  /** `operator+` (concatenation): accepted only with a text expression on the right. */
  function Plus(base: Operand, rhs: Operand): (r: Result<Node, string>)
    requires IsValidOperand(base)
    ensures r.Success? <==> IsValidOperand(rhs)
    ensures r.Success? ==> r.value == Concat(base, rhs) && rhs.kind == base.kind
    ensures r.Failure? ==> r.error == "invalid rhs operand"
  {
    if IsValidOperand(rhs) then Success(Concat(base, rhs)) else Failure("invalid rhs operand")
  }

  /** `like`: accepted only with a text expression as the pattern. */
  function LikePattern(base: Operand, pattern: Operand): (r: Result<Node, string>)
    requires IsValidOperand(base)
    ensures r.Success? <==> IsValidOperand(pattern)
    ensures r.Success? ==> r.value == Like(base, pattern) && pattern.kind == base.kind
    ensures r.Failure? ==> r.error == "invalid argument for like()"
  {
    if IsValidOperand(pattern) then Success(Like(base, pattern)) else Failure("invalid argument for like()")
  }

  /** Column `operator+=`: accepted only with a text expression on the right. */
  function PlusAssign(column: Operand, rhs: Operand): (r: Result<Node, string>)
    requires IsValidOperand(column)
    ensures r.Success? <==> IsValidOperand(rhs)
    ensures r.Success? ==> r.value == AppendAssign(column, rhs) && rhs.kind == column.kind
    ensures r.Failure? ==> r.error == "invalid rhs assignment operand"
  {
    if IsValidOperand(rhs) then Success(AppendAssign(column, rhs)) else Failure("invalid rhs assignment operand")
  }
}
