/** Field access on a block. */
module BlockUtils {

  import opened Wrappers
  import opened Syntax
  import opened Assert
  import FieldTables

  /** `getBlockField`: a block exposes its statements and nothing else. */
  function GetBlockField(node: Node, field: string): (r: Result<Field, Error>)
    ensures r.Success? <==> node.kind == Block && field == "statements"
    ensures r.Success? ==> r.value == Many(Children(node, "statements"))
    ensures node.kind == Block && field != "statements" ==> r == Failure(AssertNever(field))
  {
    FieldTables.ReadField(node, Block, field, {"statements"}, {})
  }
}
