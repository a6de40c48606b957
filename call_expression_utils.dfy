/** Field access on a call expression. */
module CallExpressionUtils {

  import opened Wrappers
  import opened Syntax
  import opened Assert
  import FieldTables

  /** `getCallExpressionField`: a call expression exposes its callee expression and nothing else. */
  function GetCallExpressionField(node: Node, field: string): (r: Result<Field, Error>)
    ensures r.Success? <==> node.kind == CallExpression && field == "expression"
    ensures r.Success? ==> r.value == Child(node, "expression")
    ensures node.kind == CallExpression && field != "expression" ==> r == Failure(AssertNever(field))
  {
    FieldTables.ReadField(node, CallExpression, field, {}, {"expression"})
  }
}
