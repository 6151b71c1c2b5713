/**
 * The run-time exceptions the analyses and the disassembler raise, as values.
 */
module Failures {

  datatype Failure =
      /** IllegalArgumentException "Name redefinition": an OpName text already in the name table. */
      NameRedefinition(name: string)
      /** IndexOutOfBoundsException: operand `index` of a list of `size` operands was read. */
    | MissingOperand(index: nat, size: nat)
      /** IllegalArgumentException from subList: a slice of a list of `size` operands starting at `index` > `size`. */
    | SliceStartPastEnd(index: nat, size: nat)
      /** IllegalArgumentException: a formatter was handed an instruction with another opcode. */
    | OpcodeMismatch(expected: nat, received: nat)
      /** IllegalArgumentException: fewer operands than the instruction's minimum operand count. */
    | TooFewOperands(minimum: nat, received: nat)
      /** IllegalArgumentException from an enumeration's ofInteger: no enumerant has that value. */
    | UnknownEnumValue(value: int)
      /** IllegalStateException "Unrecognized qualifier" from the enumeration generator. */
    | UnrecognizedQuantifier(text: string)
      /** IllegalStateException from Collectors.toMap: two formatters for one instruction. */
    | DuplicateKey
}
