/** Assignments `column = value` used by insert and update statements
    (include/sqlpp11/assignment.h), with the rule that decides when the right
    side is written as NULL. */
module Assignment {
  import opened Wrappers

  /** A column as an assignment sees it: the text `simple_column` serializes
      to, whether its kind can be null, and whether its kind treats the trivial
      value as NULL. */
  datatype Column = Column(name: string, canBeNull: bool, trivialValueIsNull: bool)

  /** A right-hand value: its own serialization, the result of its
      `_is_trivial()` member when its type has one, and whether it is the
      `null_t` marker. */
  datatype Value = Value(text: string, trivialMember: Option<bool>, isNullMarker: bool)

  /** `is_trivial`: false for a type without an `_is_trivial` member, and the
      member's answer otherwise. */
  function IsTrivial(v: Value): (r: bool)
    ensures v.trivialMember == None ==> !r
    ensures v.trivialMember.Some? ==> r == v.trivialMember.value
  {
    match v.trivialMember
    case None => false
    case Some(t) => t
  }

  datatype Assign = Assign(column: Column, rhs: Value)

  /** Constructing `assignment_t`: refused for the null marker on a column
      that cannot be null. */
  function MakeAssignment(column: Column, rhs: Value): (r: Result<Assign, string>)
    ensures r.Success? <==> column.canBeNull || !rhs.isNullMarker
    ensures r.Success? ==> r.value == Assign(column, rhs)
    ensures r.Failure? ==> r.error == "column must not be null"
  {
    if !column.canBeNull && rhs.isNullMarker then Failure("column must not be null")
    else Success(Assign(column, rhs))
  }

  /** The right side is written as NULL when the column treats trivial values
      as NULL and the value is trivial, or when it is the null marker. */
  predicate WritesNull(a: Assign)
  {
    (a.column.trivialValueIsNull && IsTrivial(a.rhs)) || a.rhs.isNullMarker
  }

  /** The serializer of `assignment_t`. */
  function AssignmentText(a: Assign): string
  {
    if WritesNull(a) then a.column.name + "=NULL"
    else a.column.name + "=" + a.rhs.text
  }

  /** The position of the first `c` in `s`, if any. */
  function IndexOf(s: string, c: char): (r: Option<nat>)
    ensures r.Some? ==> r.value < |s| && s[r.value] == c && c !in s[..r.value]
    ensures r.None? ==> c !in s
  {
    if s == [] then None
    else if s[0] == c then Some(0)
    else match IndexOf(s[1..], c)
      case None => None
      case Some(i) => Some(i + 1)
  }

  /** Reads an assignment back: the text before the first '=' and the text after it. */
  function SplitAssignment(s: string): Option<(string, string)>
  {
    match IndexOf(s, '=')
    case None => None
    case Some(i) => Some((s[..i], s[i + 1..]))
  }

  lemma {:induction false} IndexAfterName(name: string, rest: string)
    requires '=' !in name
    ensures IndexOf(name + "=" + rest, '=') == Some(|name|)
  {
    if name != [] {
      assert (name + "=" + rest)[1..] == name[1..] + "=" + rest;
      IndexAfterName(name[1..], rest);
    }
  }

  /** Every assignment text starts with the column's name and a single '=',
      followed by NULL exactly in the cases of `WritesNull`, and by the value's
      own text otherwise. */
  lemma AssignmentRoundTrip(a: Assign)
    requires '=' !in a.column.name
    ensures SplitAssignment(AssignmentText(a))
      == Some((a.column.name, if WritesNull(a) then "NULL" else a.rhs.text))
  {
    var rest := if WritesNull(a) then "NULL" else a.rhs.text;
    var text := AssignmentText(a);
    assert text == a.column.name + "=" + rest;
    IndexAfterName(a.column.name, rest);
    assert text[..|a.column.name|] == a.column.name;
    assert text[|a.column.name| + 1..] == rest;
  }

  /** The documented cases: a trivial value into a trivial-is-null column is
      NULL, the null marker is NULL, a value of a type without `_is_trivial` is
      always written out, and a non-trivial value is always written out. */
  lemma AssignmentCases(column: Column, v: Value)
    ensures column.trivialValueIsNull && IsTrivial(v) ==> AssignmentText(Assign(column, v)) == column.name + "=NULL"
    ensures v.isNullMarker ==> AssignmentText(Assign(column, v)) == column.name + "=NULL"
    ensures !v.isNullMarker && v.trivialMember == None ==>
      AssignmentText(Assign(column, v)) == column.name + "=" + v.text
    ensures !v.isNullMarker && v.trivialMember == Some(false) ==>
      AssignmentText(Assign(column, v)) == column.name + "=" + v.text
    ensures !column.trivialValueIsNull && !v.isNullMarker ==>
      AssignmentText(Assign(column, v)) == column.name + "=" + v.text
  {
  }

  /** `tvin_t<T>` (trivial value is null): the wrapped value's text and the
      answer of its `_is_trivial()` member. */
  datatype Tvin = Tvin(text: string, trivial: bool)

  datatype TvinAssign = TvinAssign(column: Column, rhs: Tvin)

  /** Constructing an assignment of a `tvin_t`: refused unless the column can be null. */
  function MakeTvinAssignment(column: Column, rhs: Tvin): (r: Result<TvinAssign, string>)
    ensures r.Success? <==> column.canBeNull
    ensures r.Success? ==> r.value == TvinAssign(column, rhs)
    ensures r.Failure? ==> r.error == "column cannot be null"
  {
    if column.canBeNull then Success(TvinAssign(column, rhs)) else Failure("column cannot be null")
  }

  /** The serializer of an assignment of a `tvin_t`. */
  function TvinAssignmentText(a: TvinAssign): string
  {
    a.column.name + (if a.rhs.trivial then "=NULL" else "=" + a.rhs.text)
  }

  /** The column name comes first, then NULL exactly when the wrapped value is trivial. */
  lemma TvinRoundTrip(a: TvinAssign)
    requires '=' !in a.column.name
    ensures SplitAssignment(TvinAssignmentText(a))
      == Some((a.column.name, if a.rhs.trivial then "NULL" else a.rhs.text))
  {
    var rest := if a.rhs.trivial then "NULL" else a.rhs.text;
    var text := TvinAssignmentText(a);
    assert text == a.column.name + "=" + rest;
    IndexAfterName(a.column.name, rest);
    assert text[..|a.column.name|] == a.column.name;
    assert text[|a.column.name| + 1..] == rest;
  }

  /** On a column that treats trivial values as NULL, wrapping a value in
      `tvin_t` changes nothing: both serializers write the same text. */
  lemma TvinAgreesWithPlain(a: TvinAssign)
    requires a.column.trivialValueIsNull
    ensures TvinAssignmentText(a)
      == AssignmentText(Assign(a.column, Value(a.rhs.text, Some(a.rhs.trivial), false)))
  {
  }
}
