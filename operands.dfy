/** Value kinds and the expression nodes built by the kind-specific operators
    of include/sqlpp11/boolean.h and include/sqlpp11/text.h. */
module Operands {

  /** The value-type tags an expression can carry. */
  datatype ValueKind = BooleanKind | IntegralKind | FloatingPointKind | TextKind

  /** An operand after it has been wrapped into an expression node: whether
      the wrapped type is an expression at all, and which value kind it has. */
  datatype Operand = Operand(isExpression: bool, kind: ValueKind)

  /** The operator nodes the two kinds can build. */
  datatype Node =
    | LogicalAnd(lhs: Operand, rhs: Operand)
    | LogicalOr(lhs: Operand, rhs: Operand)
    | LogicalNot(arg: Operand)
    | Concat(lhs: Operand, rhs: Operand)
    | Like(lhs: Operand, rhs: Operand)
      /** `column += value`: assigns `column + value` to the column. */
    | AppendAssign(column: Operand, rhs: Operand)
}
