/** Reading and changing a source file. */
module SourceFileUtils {

  import opened Wrappers
  import opened Syntax
  import opened Definitions
  import opened Assert
  import FieldTables

  /**
   * The source file counterpart of the other per-kind accessors: a source
   * file exposes its statements.
   */
  function GetSourceFileField(node: Node, field: string): (r: Result<Field, Error>)
    ensures r.Success? <==> node.kind == SourceFile && field == "statements"
    ensures r.Success? ==> r.value == Many(Children(node, "statements"))
  {
    FieldTables.ReadField(node, SourceFile, field, {"statements"}, {})
  }

  datatype Mutation = AddStatement

  /** The mutation table of `processSourceFile`. */
  const Table: FieldTables.Table<Mutation> := map["statements" := map[ADD := AddStatement]]

  /**
   * `processSourceFile`: the only supported instruction is ADD on
   * `statements`, which appends the built node as the last statement.
   */
  function ProcessSourceFile(parent: Node, instruction: Instruction, nodeToModify: Option<Node>): (r: Result<Node, Error>)
    ensures r.Success? <==>
      parent.kind == SourceFile && instruction.field == Some("statements") && instruction.op == ADD && nodeToModify.Some?
    ensures r.Success? ==>
      r.value == WithField(parent, "statements", Many(Children(parent, "statements") + [nodeToModify.value]))
    ensures parent.kind != SourceFile ==> r.Failure? && r.error.errorType == AssertionError
    ensures parent.kind == SourceFile && FieldTables.Supports(Table, instruction) && nodeToModify.None? ==>
      r == Failure(Error(AssertionError, "Input is not defined"))
    ensures parent.kind == SourceFile && !FieldTables.Supports(Table, instruction) ==>
      r == Failure(FieldTables.NotSupported(parent, instruction))
  {
    var check := AssertTSMNodeKind(parent, SourceFile);
    if check.Fail? then Failure(check.error)
    else
      // printing the built node and parsing it back is taken to give the node itself
      var rawNode := nodeToModify;
      var mutation :- FieldTables.ProcessFieldDefinition(parent, instruction, Table);
      match mutation
      case AddStatement =>
        var defined := AssertDefined(rawNode);
        if defined.Fail? then Failure(defined.error)
        else Success(WithField(parent, "statements", Many(Children(parent, "statements") + [rawNode.value])))
  }

  /** Each ADD appends one statement, so ADDs accumulate rather than converge. */
  lemma AddStatementGrows(parent: Node, instruction: Instruction, statement: Node)
    requires parent.kind == SourceFile && instruction.op == ADD && instruction.field == Some("statements")
    ensures var once := ProcessSourceFile(parent, instruction, Some(statement));
      && once.Success?
      && |Children(once.value, "statements")| == |Children(parent, "statements")| + 1
      && var twice := ProcessSourceFile(once.value, instruction, Some(statement));
      && twice.Success?
      && Children(twice.value, "statements") == Children(parent, "statements") + [statement, statement]
  {
    var once := ProcessSourceFile(parent, instruction, Some(statement)).value;
    assert Children(parent, "statements") + [statement] + [statement] == Children(parent, "statements") + [statement, statement];
  }
}
