/** Reading and changing a property signature. */
module PropertySignatureUtils {

  import opened Wrappers
  import opened Syntax
  import opened Definitions
  import opened Assert
  import FieldTables

  /** `getPropertySignatureField`: `name`, `type`, `questionToken`, and the list `modifiers`. */
  function GetPropertySignatureField(node: Node, field: string): (r: Result<Field, Error>)
    ensures r.Success? <==> node.kind == PropertySignature && field in {"name", "type", "modifiers", "questionToken"}
    ensures r.Success? && field == "modifiers" ==> r.value == Many(Children(node, field))
    ensures r.Success? && field != "modifiers" ==> r.value == Child(node, field)
    ensures node.kind == PropertySignature && field !in {"name", "type", "modifiers", "questionToken"} ==>
      r == Failure(AssertNever(field))
  {
    FieldTables.ReadField(node, PropertySignature, field, {"modifiers"}, {"name", "type", "questionToken"})
  }

  datatype Mutation = SetType | UnsetType | AddModifier | SetQuestionToken | UnsetQuestionToken

  /** The mutation table of `processPropertySignature`; `name` has none. */
  const Table: FieldTables.Table<Mutation> := map[
    "type" := map[SET := SetType, UNSET := UnsetType],
    "modifiers" := map[ADD := AddModifier],
    "questionToken" := map[SET := SetQuestionToken, UNSET := UnsetQuestionToken],
    "name" := map[]]

  function UnsupportedModifier(k: Kind): Error
  {
    Error(TypeError, "Unsupported Modifier kind " + EnumName(k) + " for Property Signature")
  }

  predicate IsQuestionToken(n: Node) { n.kind == QuestionToken }

  /** ts-morph's `setHasQuestionToken`: the property is optional exactly when asked to be. */
  function SetHasQuestionToken(n: Node, value: bool): (r: Node)
    ensures Child(r, "questionToken").One? <==> value
    ensures Child(n, "questionToken").One? && value ==> r == n
    ensures r.kind == n.kind && r.text == n.text
    ensures forall g | g in n.fields && g != "questionToken" :: g in r.fields && r.fields[g] == n.fields[g]
  {
    if !value then WithField(n, "questionToken", Absent)
    else if Child(n, "questionToken").One? then n
    else WithField(n, "questionToken", One(Token(QuestionToken)))
  }

  /**
   * `processPropertySignature`: SET and UNSET on `type` and on
   * `questionToken`, and ADD on `modifiers` for `readonly`.
   */
  function ProcessPropertySignature(parent: Node, instruction: Instruction, nodeToModify: Option<Node>): (r: Result<Node, Error>)
    ensures parent.kind != PropertySignature ==> r.Failure? && r.error.errorType == AssertionError
    ensures parent.kind == PropertySignature && !FieldTables.Supports(Table, instruction) ==>
      r == Failure(FieldTables.NotSupported(parent, instruction))
    ensures r.Success? ==> r.value.kind == PropertySignature && r.value.text == parent.text
  {
    var check := AssertTSMNodeKind(parent, PropertySignature);
    if check.Fail? then Failure(check.error)
    else
      var mutation :- FieldTables.ProcessFieldDefinition(parent, instruction, Table);
      match mutation
      case SetType =>
        var typeNode := AssertTSNodeType(nodeToModify, IsTypeNode);
        if typeNode.Fail? then Failure(typeNode.error)
        else Success(WithField(parent, "type", One(nodeToModify.value)))
      case UnsetType =>
        Success(WithField(parent, "type", Absent))
      case AddModifier =>
        var modifier := AssertTSNodeType(nodeToModify, IsModifier);
        if modifier.Fail? then Failure(modifier.error)
        else if nodeToModify.value.kind == ModifierKeyword(Readonly) then Success(SetModifier(parent, Readonly))
        else Failure(UnsupportedModifier(nodeToModify.value.kind))
      case SetQuestionToken =>
        var token := AssertTSNodeType(nodeToModify, IsQuestionToken);
        if token.Fail? then Failure(token.error)
        else Success(SetHasQuestionToken(parent, true))
      case UnsetQuestionToken =>
        Success(SetHasQuestionToken(parent, false))
  }

  /** Applying a supported instruction a second time changes nothing more. */
  lemma ProcessPropertySignatureIdempotent(parent: Node, instruction: Instruction, nodeToModify: Option<Node>)
    requires ProcessPropertySignature(parent, instruction, nodeToModify).Success?
    ensures var once := ProcessPropertySignature(parent, instruction, nodeToModify).value;
      ProcessPropertySignature(once, instruction, nodeToModify) == Success(once)
  {
    var once := ProcessPropertySignature(parent, instruction, nodeToModify).value;
    var mutation := FieldTables.ProcessFieldDefinition(parent, instruction, Table).value;
    assert FieldTables.ProcessFieldDefinition(once, instruction, Table) == Success(mutation);
    match mutation
    case SetType =>
      assert WithField(once, "type", One(nodeToModify.value)) == once;
    case UnsetType =>
      assert WithField(once, "type", Absent) == once;
    case AddModifier =>
    case SetQuestionToken =>
    case UnsetQuestionToken =>
      assert WithField(once, "questionToken", Absent) == once;
  }

  /** SET and UNSET on `questionToken` make the property optional and required. */
  lemma QuestionTokenToggles(parent: Node, setting: Instruction, unset: Instruction)
    requires setting.op == SET && setting.field == Some("questionToken") && unset.op == UNSET && unset.field == Some("questionToken")
    requires parent.kind == PropertySignature
    ensures var optional := ProcessPropertySignature(parent, setting, Some(Token(QuestionToken)));
      && optional.Success? && Child(optional.value, "questionToken").One?
      && var required := ProcessPropertySignature(optional.value, unset, None);
      && required.Success? && Child(required.value, "questionToken") == Absent
  {
  }

  /**
   * SET on `type` installs a type node as the property's type and keeps
   * every other field; a payload that is not a type node is refused.
   * UNSET on `type` removes it.
   */
  lemma TypeSetAndUnset(parent: Node, instruction: Instruction, payload: Option<Node>)
    requires parent.kind == PropertySignature && instruction.field == Some("type")
    ensures instruction.op == SET && payload.Some? && IsTypeNode(payload.value) ==>
      var r := ProcessPropertySignature(parent, instruction, payload);
      && r == Success(WithField(parent, "type", One(payload.value)))
      && Child(r.value, "type") == One(payload.value)
      && forall g | g in parent.fields && g != "type" :: g in r.value.fields && r.value.fields[g] == parent.fields[g]
    ensures instruction.op == SET && payload.None? ==>
      ProcessPropertySignature(parent, instruction, payload) == Failure(Error(AssertionError, "Node is not defined"))
    ensures instruction.op == SET && payload.Some? && !IsTypeNode(payload.value) ==>
      ProcessPropertySignature(parent, instruction, payload) ==
        Failure(Error(AssertionError, "Invalid Node of kind " + EnumName(payload.value.kind)))
    ensures instruction.op == UNSET ==>
      var r := ProcessPropertySignature(parent, instruction, payload);
      && r.Success? && Child(r.value, "type") == Absent
      && forall g | g in parent.fields && g != "type" :: g in r.value.fields && r.value.fields[g] == parent.fields[g]
  {
  }

  /** ADD of `readonly` on `modifiers` turns it on and keeps every other modifier. */
  lemma AddReadonlyKeepsOthers(parent: Node, instruction: Instruction, keyword: Node, other: Modifier)
    requires parent.kind == PropertySignature && instruction.op == ADD && instruction.field == Some("modifiers")
    requires keyword.kind == ModifierKeyword(Readonly)
    ensures var r := ProcessPropertySignature(parent, instruction, Some(keyword));
      && r == Success(SetModifier(parent, Readonly))
      && HasModifier(r.value, Readonly)
      && (HasModifier(r.value, other) <==> HasModifier(parent, other) || other == Readonly)
  {
    SetModifierKeepsOthers(parent, Readonly, other);
  }

  /**
   * ADD on `modifiers` refuses a payload that is not a modifier with an
   * AssertionError, and any modifier but `readonly` with a TypeError
   * naming the property signature.
   */
  lemma AddModifierRejects(parent: Node, instruction: Instruction, payload: Option<Node>)
    requires parent.kind == PropertySignature && instruction.op == ADD && instruction.field == Some("modifiers")
    ensures payload.None? ==>
      ProcessPropertySignature(parent, instruction, payload) == Failure(Error(AssertionError, "Node is not defined"))
    ensures payload.Some? && !IsModifier(payload.value) ==>
      ProcessPropertySignature(parent, instruction, payload) ==
        Failure(Error(AssertionError, "Invalid Node of kind " + EnumName(payload.value.kind)))
    ensures payload.Some? && IsModifier(payload.value) && payload.value.kind.modifier != Readonly ==>
      ProcessPropertySignature(parent, instruction, payload) ==
        Failure(Error(TypeError, "Unsupported Modifier kind " + EnumName(payload.value.kind) + " for Property Signature"))
  {
  }

  /** SET on `questionToken` refuses a missing payload and one that is not a question token. */
  lemma QuestionTokenRejects(parent: Node, instruction: Instruction, payload: Option<Node>)
    requires parent.kind == PropertySignature && instruction.op == SET && instruction.field == Some("questionToken")
    ensures payload.None? ==>
      ProcessPropertySignature(parent, instruction, payload) == Failure(Error(AssertionError, "Node is not defined"))
    ensures payload.Some? && payload.value.kind != QuestionToken ==>
      ProcessPropertySignature(parent, instruction, payload) ==
        Failure(Error(AssertionError, "Invalid Node of kind " + EnumName(payload.value.kind)))
    ensures payload.Some? && payload.value.kind == QuestionToken ==>
      ProcessPropertySignature(parent, instruction, payload) == Success(SetHasQuestionToken(parent, true))
  {
  }
}
