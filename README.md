# sqlpp11 select builder, FROM and assignment serialization, boolean and text fields

This project is a Dafny model of the core of sqlpp11, a C++ library that builds
type-safe SQL statements. It covers five headers.

- `select.h`: the `select_t` statement. It has nine clause slots: flags,
  expression list, from, where, group by, having, order by, limit and offset.
  Seven setters each fill one slot. `serialize` writes the statement, and `run`
  hands the text to the database. The model is pure. `Statement` holds each
  optional slot as an `Option`, where `None` stands for the library's `noop`
  placeholder. Each setter is a function whose `requires` is the setter's
  compile-time assertions. `Apply` makes the same check as a decision that
  returns the library's diagnostic text, so that chains of setter calls can be
  reasoned about (`ApplyAll`). Each slot's type is the clause kind of that slot,
  which is what the assertions at select.h:83-91 demand.
- `from.h`: the static `from_t` clause, a pure keyword plus a join of its tables.
  It also covers the run-time extensible `dynamic_from_t`, a class whose `Add`
  appends to its dynamic list. Its `Serialize` method keeps the source's loop
  with the `first` flag and is proved equal to the specification function
  `DynamicFromText`.
- `assignment.h`: `is_trivial`, the two construction checks, and the two
  serializers. They choose between `col=NULL` and `col=<value>`. For a column name without `=`,
  both serializers are proved to read back by splitting at the first `=`.
- `boolean.h` and `text.h`: the prepared-statement parameter and the
  result-field entry of each kind, as classes whose methods update their fields.
  The field accessors `is_null()` and `value()` return an `Outcome`: the value,
  a thrown `sqlpp::exception` with its message, or a failed `assert`. Which of
  the last two happens is chosen by the connector's `Policy`
  (module `Connector`, shared by both kinds). The operand checks of `and`, `or`,
  `+`, `like` and `+=` return the static assertion's message on failure.

Clauses whose serializers live in headers outside this model are represented
by the text they produce. Those clauses are the flag list, the expression list,
where, group by, having, order by, limit, offset and a table or join.

## Model

| member | source | states |
|---|---|---|
| Select.NewSelect | include/sqlpp11/select.h:386-393 | `select(...)` holds the given flags and expressions, every optional slot is empty, and the statement is well formed |
| Select.SetFrom | include/sqlpp11/select.h:167-183 | callable only while the from slot is empty; the result holds the tables in the from slot and equals the receiver in every other slot |
| Select.SetWhere | include/sqlpp11/select.h:198-214 | needs a from clause and an empty where slot; fills the where slot only |
| Select.SetGroupBy | include/sqlpp11/select.h:216-232 | needs a from clause and an empty group-by slot; fills that slot only |
| Select.SetHaving | include/sqlpp11/select.h:234-250 | needs a group by and an empty having slot; fills that slot only |
| Select.SetOrderBy | include/sqlpp11/select.h:252-268 | needs a from clause and an empty order-by slot; fills that slot only |
| Select.SetLimit | include/sqlpp11/select.h:270-285 | needs a from clause and an empty limit slot; fills that slot only |
| Select.SetOffset | include/sqlpp11/select.h:287-302 | needs a limit and an empty offset slot; fills that slot only |
| Select.SlotCall | include/sqlpp11/select.h:359-367 | a slot's content is present exactly when the slot is filled, and it belongs to that slot |
| Select.SameSlotsSameStatement | include/sqlpp11/select.h:359-367 | a statement is determined by its flags, its expressions and its seven slot contents |
| Select.Apply | include/sqlpp11/select.h:166-302 | a setter call compiles iff its prerequisite slot is filled and its own slot is empty; on success, its slot holds the argument and every other slot, the flags and the expressions are unchanged |
| Select.ApplyDiagnostic | include/sqlpp11/select.h:170-290 | a setter that does not compile reports its missing prerequisite when there is one, and otherwise reports that its own slot is already filled, with the library's message for that setter |
| Select.MissingPrerequisiteMessage | include/sqlpp11/select.h:201-289 | no contract of its own: the texts of the prerequisite assertions, one per setter; `ApplyDiagnostic` states when they are reported |
| Select.RepeatedSetterMessage | include/sqlpp11/select.h:171-290 | no contract of its own: the texts of the assertions against a second call, one per setter; `ApplyDiagnostic` states when they are reported |
| Select.ApplyAllEffect | include/sqlpp11/select.h:166-302 | a chain of setters that compiles sets no slot twice; each call found its slot empty and left its argument there; every slot not named by a call is as before |
| Select.CallOrderIrrelevant | include/sqlpp11/select.h:166-302 | two compiling chains of the same calls in any order build the same statement |
| Select.RepeatedSetterRejected | include/sqlpp11/select.h:171-290 | a chain that calls one setter twice does not compile |
| Select.MissingPrerequisiteRejected | include/sqlpp11/select.h:201-289 | a setter whose prerequisite is neither in the statement nor set earlier in the chain makes the chain fail |
| Select.ApplyKeepsWellFormed | include/sqlpp11/select.h:166-302 | every compiling setter keeps each filled slot's prerequisite filled |
| Select.ApplyAllKeepsWellFormed | include/sqlpp11/select.h:166-302 | statements built by compiling chains from a well-formed statement are well formed |
| Select.NoFromNoClauses | include/sqlpp11/select.h:112-115 | a well-formed statement without a from clause (so, by select.h:112-114, without a value type) has no optional clause at all |
| Select.Serialize | include/sqlpp11/select.h:320-335 | no contract of its own: "SELECT " and then the nine slots' texts; its meaning is fixed by `SerializeAround`, `SetterInsertsClause` and `AbsentClausesWriteNothing` |
| Select.SerializeAround | include/sqlpp11/select.h:320-335 | the output is "SELECT ", the flags and the expressions, then each slot's text in the fixed order from, where, group by, having, order by, limit, offset; every slot's text sits between the text of the slots before it and of those after it |
| Select.SetterInsertsClause | include/sqlpp11/select.h:320-335 | a compiling setter inserts its clause's text at its slot's fixed place and leaves the text before and after that place as it was |
| Select.AbsentClausesWriteNothing | include/sqlpp11/select.h:320-335 | absent clauses contribute no text: a fresh statement serializes to "SELECT " plus flags plus expressions |
| Select.Run | include/sqlpp11/select.h:347-357 | `run` needs a from clause, and the query it hands over is the serialized statement with the from clause's text at its place |
| Select.WhereExample | include/sqlpp11/select.h:320-335 | `select(a,b).from(t).where(a=5)` compiles and reads `SELECT a,b FROM t WHERE a=5` |
| Select.RejectionExamples | include/sqlpp11/select.h:201-290 | a second `where` and an `offset` without a `limit` are refused with the library's messages |
| From.FromText | include/sqlpp11/from.h:50-55 | no contract of its own: the keyword and the tables joined by ','; its meaning is fixed by `FromTextShape` and `FromCommaCount` |
| From.DynamicFromText | include/sqlpp11/from.h:72-86 | no contract of its own: the specification `DynamicFrom.Serialize` is proved against; its meaning is fixed by `DynamicFromSuppressed`, `DynamicFromAfterStatics`, `DynamicFromFirstDynamic`, `DynamicFromCommaCount` and `DynamicFromWithoutAdditions` |
| From.FromTextShape | include/sqlpp11/from.h:50-55 | `from_t` writes " FROM ", its first table, then each later table after a ',' |
| From.FromCommaCount | include/sqlpp11/from.h:50-55 | N tables whose texts hold no ',' are separated by exactly N-1 commas |
| From.DynamicFromSuppressed | include/sqlpp11/from.h:72-76 | the dynamic clause writes nothing iff it has neither static nor dynamic tables, and otherwise starts with the keyword " FROM " |
| From.DynamicFromAfterStatics | include/sqlpp11/from.h:76-85 | with static tables, the output is the static clause's output followed by every dynamic table after a ',' |
| From.DynamicFromFirstDynamic | include/sqlpp11/from.h:76-85 | without static tables, the first dynamic table gets no leading ',' and every later one gets one |
| From.DynamicFromCommaCount | include/sqlpp11/from.h:76-85 | N >= 1 tables in total, none holding a ',', give exactly N-1 commas |
| From.DynamicFromWithoutAdditions | include/sqlpp11/from.h:72-86 | a dynamic clause without additions writes exactly what the static clause with the same tables writes |
| From.SerializeStep | include/sqlpp11/from.h:79-85 | one turn of the loop extends the output by one table, with a ',' before it unless nothing has been written yet |
| From.DynamicFrom.constructor | include/sqlpp11/from.h:88-89 | a new dynamic clause holds its static tables and no dynamic table |
| From.DynamicFrom.Add | include/sqlpp11/from.h:66-70 | `add` appends the table at the end of the dynamic list and leaves the static tables untouched |
| From.DynamicFrom.Serialize | include/sqlpp11/from.h:72-86 | the loop with its `first` flag writes exactly `DynamicFromText` of the static and dynamic tables |
| From.AddAllThenSerialize | include/sqlpp11/from.h:66-86 | any sequence of tables added one by one is appended to the dynamic list, the static tables stay as they were, and the output shows the static tables followed by the added ones in the order they were added |
| Assignment.IsTrivial | include/sqlpp11/assignment.h:39-61 | false for a value type without an `_is_trivial` member; otherwise that member's answer |
| Assignment.MakeAssignment | include/sqlpp11/assignment.h:72 | an assignment is constructed iff the column can be null or the value is not the null marker; otherwise "column must not be null" |
| Assignment.AssignmentText | include/sqlpp11/assignment.h:94-110 | no contract of its own: its meaning is fixed by `AssignmentCases` and `AssignmentRoundTrip` |
| Assignment.AssignmentCases | include/sqlpp11/assignment.h:96-108 | NULL is written for a trivial value on a trivial-is-null column and for the null marker; a value without `_is_trivial`, a non-trivial value, or any non-marker value on a column that does not treat trivial as null is written out |
| Assignment.AssignmentRoundTrip | include/sqlpp11/assignment.h:94-110 | for a column name without '=': the text is the column name, a single '=', then NULL exactly when the rule above says so and the value's text otherwise; splitting at the first '=' gives both parts back |
| Assignment.MakeTvinAssignment | include/sqlpp11/assignment.h:122 | a `tvin_t` assignment is constructed iff the column can be null; otherwise "column cannot be null" |
| Assignment.TvinAssignmentText | include/sqlpp11/assignment.h:144-157 | no contract of its own: its meaning is fixed by `TvinRoundTrip` and `TvinAgreesWithPlain` |
| Assignment.TvinRoundTrip | include/sqlpp11/assignment.h:144-157 | for a column name without '=': the text is the column name, a single '=', then NULL exactly when the wrapped value is trivial and the value's text otherwise; splitting at the first '=' gives both parts back |
| Assignment.TvinAgreesWithPlain | include/sqlpp11/assignment.h:144-157 | on a column that treats trivial values as NULL, the `tvin_t` serializer and the plain one write the same text |
| Connector.GuardIsNull | include/sqlpp11/boolean.h:120-127 | `is_null` answers iff the row is valid; otherwise it fails the assert or throws "accessing is_null in non-existing row", according to the policy |
| Connector.GuardValue | include/sqlpp11/boolean.h:129-145 | `value` answers iff the row is valid and the field is not a refused NULL; an invalid row is reported as "accessing value in non-existing row" before a NULL field is reported as "accessing value of NULL field"; under the assert policy every refusal is a failed assert |
| Connector.PoliciesRefuseAlike | include/sqlpp11/boolean.h:129-145 | the assert policy and the throw policy refuse exactly the same accesses |
| Boolean.Parameter.constructor | include/sqlpp11/boolean.h:52-55 | a default parameter is null with value false |
| Boolean.Parameter.FromValue | include/sqlpp11/boolean.h:57-60 | a parameter built from a value holds it and is not null |
| Boolean.Parameter.Assign | include/sqlpp11/boolean.h:62-67 | assigning a value stores it and clears is-null |
| Boolean.Parameter.AssignNull | include/sqlpp11/boolean.h:69-74 | assigning nullptr sets is-null and resets the value to false |
| Boolean.FalseIsNotUnset | include/sqlpp11/boolean.h:52-60 | an unset parameter and one set to false hold the same value but differ in is-null |
| Boolean.ResultEntry.constructor | include/sqlpp11/boolean.h:102-106 | a fresh entry is invalid, null and false |
| Boolean.ResultEntry.Validate | include/sqlpp11/boolean.h:108-111 | `_validate` sets validity and nothing else |
| Boolean.ResultEntry.Invalidate | include/sqlpp11/boolean.h:113-118 | `_invalidate` resets the entry to invalid, null and false |
| Boolean.ResultEntry.Bind | include/sqlpp11/boolean.h:149-153 | a fetch writes the value and the null flag through the bound pointers and leaves validity alone |
| Boolean.ResultEntry.IsNull | include/sqlpp11/boolean.h:120-127 | answers the null flag iff the row is valid |
| Boolean.ResultEntry.Value | include/sqlpp11/boolean.h:129-145 | answers the stored value iff the row is valid and the field is non-null or NULL may be read as trivial; under the throw policy an invalid row throws "accessing value in non-existing row" and a refused NULL field throws "accessing value of NULL field"; under the assert policy every refusal is a failed assert |
| Boolean.ReadAfterInvalidate | include/sqlpp11/boolean.h:113-145 | after `_invalidate`, `value` never answers: it fails the assert or throws "accessing value in non-existing row" |
| Boolean.ReadNullField | include/sqlpp11/boolean.h:129-145 | on a valid row whose field is NULL, `value` answers iff the entry or the connector lets NULL be read as trivial, and then answers the value the entry holds; otherwise it fails the assert or throws "accessing value of NULL field", according to the policy |
| Boolean.IsValidOperand | include/sqlpp11/boolean.h:161-168 | no contract of its own: an expression of boolean kind; `And` and `Or` accept exactly these right sides |
| Boolean.And | include/sqlpp11/boolean.h:173-180 | `and` compiles iff the right side is a boolean expression; otherwise "invalid rhs operand" |
| Boolean.Or | include/sqlpp11/boolean.h:182-189 | `or` compiles iff the right side is a boolean expression; otherwise "invalid rhs operand" |
| Boolean.Not | include/sqlpp11/boolean.h:191-194 | no contract beyond its precondition: `not` builds the negation of any boolean expression, with no check of its own |
| Text.ParameterValueTypeAsWritten | include/sqlpp11/text.h:49 | no contract of its own: the value type the text parameter declares, `integral` |
| Text.ParameterValueTypeMismatch | include/sqlpp11/text.h:49 | as written, the text parameter's declared value type is not the text kind |
| Text.ParameterValueType | include/sqlpp11/text.h:49 | corrected: the text parameter's value type is the text kind, as boolean.h:50 names boolean for the boolean parameter |
| Text.Parameter.constructor | include/sqlpp11/text.h:51-54 | a default parameter is null with value "" |
| Text.Parameter.FromValue | include/sqlpp11/text.h:56-59 | a parameter built from a string holds it and is not null |
| Text.Parameter.Assign | include/sqlpp11/text.h:61-66 | assigning a string stores it and clears is-null |
| Text.Parameter.AssignNull | include/sqlpp11/text.h:68-73 | assigning nullptr resets the parameter to "" and null |
| Text.ResultEntry.constructor | include/sqlpp11/text.h:101-105 | a fresh entry is invalid and has no data |
| Text.ResultEntry.Validate | include/sqlpp11/text.h:107-110 | `_validate` sets validity and keeps the data |
| Text.ResultEntry.Invalidate | include/sqlpp11/text.h:112-117 | `_invalidate` restores the fresh state: invalid, no data |
| Text.ResultEntry.Bind | include/sqlpp11/text.h:154-158 | a fetch writes the data pointer and length, as optional characters, and leaves validity alone |
| Text.ResultEntry.IsNull | include/sqlpp11/text.h:122-129 | answers iff the row is valid, and then answers true exactly when there is no data |
| Text.ResultEntry.Value | include/sqlpp11/text.h:131-150 | answers iff the row is valid and there is data or NULL may be read as trivial; the answer is the data's characters, or "" for NULL; under the throw policy an invalid row throws "accessing value in non-existing row" and a refused NULL field throws "accessing value of NULL field"; under the assert policy every refusal is a failed assert |
| Text.ResultEntry.Equals | include/sqlpp11/text.h:119 | `==` answers iff `value()` does, with whether it equals the argument, and otherwise fails as `value()` fails |
| Text.ResultEntry.NotEquals | include/sqlpp11/text.h:120 | `!=` answers iff `value()` does, with whether it differs from the argument, and otherwise fails as `value()` fails |
| Text.FetchThenInvalidate | include/sqlpp11/text.h:107-150 | a fetched field reads back exactly its characters, and after `_invalidate` no longer answers |
| Text.Plus | include/sqlpp11/text.h:178-185 | `+` compiles iff the right side is a text expression; otherwise "invalid rhs operand" |
| Text.LikePattern | include/sqlpp11/text.h:187-194 | `like` compiles iff the pattern is a text expression; otherwise "invalid argument for like()" |
| Text.IsValidOperand | include/sqlpp11/text.h:166-173 | no contract of its own: an expression of text kind; `Plus`, `LikePattern` and `PlusAssign` accept exactly these right sides |
| Text.PlusAssign | include/sqlpp11/text.h:200-207 | column `+=` compiles iff the right side is a text expression; otherwise "invalid rhs assignment operand" |

## Left out

- `run`'s I/O is not modelled: the `std::ostringstream` and the call to `db.select` (select.h:354-356). `Select.Run` gives only the precondition and the query text.
- The serializers of the flag list, the expression list, where, group by, having, order by, limit and offset, of tables and joins, `noop` and string escaping are not part of this model. `serialize_tuple` (from.h:54, 77) is not part of it either: it is assumed to write its elements joined by the separator, and nothing for an empty tuple, which is what `Strings.Join` writes in its place. Each clause is represented by the text it produces, and `noop` by the empty string. The `std::size_t` count of `limit` and `offset` is carried only as its text.
- The expression-list assertions at select.h:84, 170 and 349 are not modelled as checks. The partial specialisation at select.h:66 only admits a `select_expression_list_t`, so they always hold. `Statement.exprs` is therefore not optional.
- Select.Run: states only the from-clause check of select.h:350; the expression-list check of select.h:349 always holds, for the reason above.
- Pseudo-table aliasing (`as`, `_pseudo_table_t`) and the result-row types (`_result_row_t`, `make_field_t`, `_name_t`) are not modelled. They are type-level plumbing with no behaviour of their own.
- `add_from` and `dynamic_select` are commented out in select.h (185-196 and 394-403), so they are not modelled.
- The `has_static_from` argument of `dynamic_from_t::serialize` is never read, so `From.DynamicFrom.Serialize` does not take it.
- The connector binding callbacks `_bind`, `_bind_*_parameter` and `_bind_*_result` call into a database client. Fetching a row is modelled as the `Bind` method, which writes what the connector writes through the bound pointers.
- A failed `assert` is modelled as the `AssertionFailed` outcome. A build with `NDEBUG`, where the assert is skipped and the stale value is returned, is not modelled.
- Boolean.ResultEntry.Invalidate: the `signed char` storage of the boolean value (boolean.h:95, 158) is modelled as `bool`, and `_value = 0` as `false`.
- The text result's raw pointer and length are modelled as an `Option<string>` holding the `_len` characters, or `None` for a null pointer. Pointer lifetime and aliasing with the connector's buffers are not modelled.
- The parameters' `is_null()` and `value()` accessors, and their conversion operators, are not separate members. They return the `isNull` and `value` fields as they are.
- `operator<<` on result entries (boolean.h:203-207, text.h:211-215) writes `value()` to a stream and is not modelled.
- Boolean.Not: carries only the precondition that its receiver is a boolean expression, because `operator not` has no check of its own.
- The text parameter's declared value type (text.h:49) is read by no line of these headers, so `Text.Parameter` does not carry it; only the Findings pair models it.
- The node types built by the operators (`logical_and_t`, `concat_t`, `like_t` and the others) come from headers outside this model. They are represented by `Operands.Node`, with the operands' expression-ness and value kind.
- The test connector in tests/MockDb.h only returns constants, forwards to the statement, or invalidates the row, so it has no logic of its own to model.

## Findings

| source | as written | input that shows it | evidently intended | confidence | as-written member | corrected member |
|---|---|---|---|---|---|---|
| include/sqlpp11/text.h:49 | `text::_parameter_t` declares `_value_type = integral`, another kind than the one it belongs to, where boolean.h:50 declares `boolean` for the boolean parameter | none in these headers: no line of them reads `_parameter_t::_value_type`, so the alias has no effect that this model can show; the mismatch itself is `Text.ParameterValueTypeMismatch` | `_value_type = text`, the kind the parameter belongs to | not executed | Text.ParameterValueTypeAsWritten | Text.ParameterValueType |
