/**
 * The per-kind tables behind `processFieldDefinition` and the per-kind
 * field accessors: a table maps a field name and an instruction type to
 * the mutation that carries the instruction out.
 */
module FieldTables {

  import opened Wrappers
  import opened Syntax
  import opened Definitions
  import opened Assert

  /** Field name, then instruction type, to mutation. A kind's fields without mutations map to an empty table. */
  type Table<M> = map<string, map<InstructionType, M>>

  /** `instruction.field` used as a property key; a missing field is the key `undefined`. */
  function FieldKey(field: Option<string>): string
  {
    if field.Some? then field.value else "undefined"
  }

  function NotSupported(parent: Node, instruction: Instruction): Error
  {
    Error(TypeError, InstructionTypeName(instruction.op) + " Instruction not supported for "
      + KindName(parent.kind) + "." + FieldKey(instruction.field))
  }

  /** Whether the table has a mutation for the instruction's field and type. */
  predicate Supports<M>(table: Table<M>, instruction: Instruction)
  {
    FieldKey(instruction.field) in table && instruction.op in table[FieldKey(instruction.field)]
  }

  /** `processFieldDefinition`: the mutation for the instruction, or a TypeError when there is none. */
  function ProcessFieldDefinition<M>(parent: Node, instruction: Instruction, table: Table<M>): (r: Result<M, Error>)
    ensures r.Success? <==> Supports(table, instruction)
    ensures r.Success? ==> r.value == table[FieldKey(instruction.field)][instruction.op]
    ensures r.Failure? ==> r.error == NotSupported(parent, instruction) && r.error.errorType == TypeError
  {
    var key := FieldKey(instruction.field);
    if key in table && instruction.op in table[key] then Success(table[key][instruction.op])
    else Failure(NotSupported(parent, instruction))
  }

  /**
   * The shape every per-kind field accessor has: check the node's kind,
   * return a list field as a list and any other known field as a single
   * child, and throw `assertNever`'s error for an unknown field.
   */
  function ReadField(node: Node, expected: Kind, field: string, lists: set<string>, singles: set<string>): (r: Result<Field, Error>)
    requires lists !! singles
    ensures r.Success? <==> node.kind == expected && (field in lists || field in singles)
    ensures r.Success? && field in lists ==> r.value == Many(Children(node, field))
    ensures r.Success? && field in singles ==> r.value == Child(node, field) && !r.value.Many?
    ensures node.kind == expected && field !in lists && field !in singles ==> r == Failure(AssertNever(field))
    ensures node.kind != expected ==> r.Failure? && r.error.errorType == AssertionError
  {
    var check := AssertTSMNodeKind(node, expected);
    if check.Fail? then Failure(check.error)
    else if field in lists then Success(Many(Children(node, field)))
    else if field in singles then Success(Child(node, field))
    else Failure(AssertNever(field))
  }
}
