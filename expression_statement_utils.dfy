/** Field access on an expression statement. */
module ExpressionStatementUtils {

  import opened Wrappers
  import opened Syntax
  import opened Assert
  import FieldTables

  /** `getExpressionStatementField`: an expression statement exposes its expression and nothing else. */
  function GetExpressionStatementField(node: Node, field: string): (r: Result<Field, Error>)
    ensures r.Success? <==> node.kind == ExpressionStatement && field == "expression"
    ensures r.Success? ==> r.value == Child(node, "expression")
    ensures node.kind == ExpressionStatement && field != "expression" ==> r == Failure(AssertNever(field))
  {
    FieldTables.ReadField(node, ExpressionStatement, field, {}, {"expression"})
  }
}
