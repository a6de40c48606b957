/** The engine's guards: each passes, or throws an error naming what was wrong. */
module Assert {

  import opened Wrappers
  import opened Syntax
  import opened Definitions

  /** The two error classes the engine throws. */
  datatype ErrorType = AssertionError | TypeError

  datatype Error = Error(errorType: ErrorType, message: string)

  /** `assertNever`: always throws, naming the unsupported input. */
  function AssertNever(input: string): (e: Error)
    ensures e.errorType == AssertionError
  {
    Error(AssertionError, "Input " + input + " not supported")
  }

  /** A kind as `ts.SyntaxKind[kind]` renders it; a missing kind renders as `undefined`. */
  function OptionalEnumName(k: Option<Kind>): string
  {
    if k.Some? then EnumName(k.value) else "undefined"
  }

  /** `assertDefinitionKind`: the definition's kind must be the node's kind. */
  function AssertDefinitionKind(d: Definition, k: Kind): (r: Outcome<Error>)
    ensures r.Pass? <==> KindOf(d) == Some(k)
    ensures r.Fail? ==> r.error.errorType == AssertionError
  {
    if KindOf(d) != Some(k) then
      Fail(Error(AssertionError, "Definition of kind '" + OptionalEnumName(KindOf(d))
        + "' does not match expected Node kind '" + EnumName(k) + "'"))
    else Pass
  }

  /** `assertDefined` */
  function AssertDefined<T>(input: Option<T>): (r: Outcome<Error>)
    ensures r.Pass? <==> input.Some?
    ensures r.Fail? ==> r.error == Error(AssertionError, "Input is not defined")
  {
    if input.None? then Fail(Error(AssertionError, "Input is not defined")) else Pass
  }

  /** `assertTSNodeType`: the node must be present and satisfy the predicate. */
  function AssertTSNodeType(node: Option<Node>, isKind: Node -> bool): (r: Outcome<Error>)
    ensures r.Pass? <==> node.Some? && isKind(node.value)
    ensures node.None? ==> r == Fail(Error(AssertionError, "Node is not defined"))
    ensures node.Some? && !isKind(node.value) ==>
      r == Fail(Error(AssertionError, "Invalid Node of kind " + EnumName(node.value.kind)))
  {
    if node.None? then Fail(Error(AssertionError, "Node is not defined"))
    else if !isKind(node.value) then Fail(Error(AssertionError, "Invalid Node of kind " + EnumName(node.value.kind)))
    else Pass
  }

  /** `assertTSMNodeKind`: the node must be of the expected kind. */
  function AssertTSMNodeKind(node: Node, k: Kind): (r: Outcome<Error>)
    ensures r.Pass? <==> node.kind == k
    ensures r.Fail? ==> r.error.errorType == AssertionError
  {
    if node.kind != k then
      Fail(Error(AssertionError, "Invalid Node of kind " + EnumName(node.kind) + "; expected " + EnumName(k)))
    else Pass
  }

  /** `isDefined`: present, and not an empty list. */
  predicate IsDefined(f: Field)
    ensures f.Absent? ==> !IsDefined(f)
    ensures f.Many? ==> (IsDefined(f) <==> |f.nodes| > 0)
    ensures f.One? ==> IsDefined(f)
  {
    f.One? || (f.Many? && |f.nodes| > 0)
  }

  /** `typeof` of a field value. */
  function TypeOf(f: Field): string
  {
    if f.Absent? then "undefined" else "object"
  }

  /** `assertArray` */
  function AssertArray(f: Field): (r: Outcome<Error>)
    ensures r.Pass? <==> f.Many?
    ensures r.Fail? ==> r.error.errorType == AssertionError
  {
    if !f.Many? then Fail(Error(AssertionError, "Input is not of type array: " + TypeOf(f))) else Pass
  }

  /** `assertNotArray` */
  function AssertNotArray(f: Field): (r: Outcome<Error>)
    ensures r.Pass? <==> !f.Many?
    ensures r.Fail? ==> r.error == Error(AssertionError, "Input is of type array when it should not")
  {
    if f.Many? then Fail(Error(AssertionError, "Input is of type array when it should not")) else Pass
  }
}
