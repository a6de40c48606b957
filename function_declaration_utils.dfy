/** Reading and changing a function declaration. */
module FunctionDeclarationUtils {

  import opened Wrappers
  import opened Syntax
  import opened Definitions
  import opened Assert
  import FieldTables

  /**
   * The function declaration counterpart of the other per-kind accessors,
   * over the fields a function declaration definition has: `parameters`
   * and `modifiers` are lists, the rest single nodes.
   */
  function GetFunctionDeclarationField(node: Node, field: string): (r: Result<Field, Error>)
    ensures r.Success? <==>
      node.kind == FunctionDeclaration && field in {"name", "parameters", "type", "modifiers", "body", "asteriskToken"}
    ensures r.Success? && field in {"parameters", "modifiers"} ==> r.value == Many(Children(node, field))
    ensures r.Success? && field !in {"parameters", "modifiers"} ==> r.value == Child(node, field)
    ensures node.kind == FunctionDeclaration && field !in {"name", "parameters", "type", "modifiers", "body", "asteriskToken"} ==>
      r == Failure(AssertNever(field))
  {
    FieldTables.ReadField(node, FunctionDeclaration, field, {"parameters", "modifiers"}, {"name", "type", "body", "asteriskToken"})
  }

  datatype Mutation = AddModifier | SetType | UnsetType

  /** The mutation table of `processFunctionDeclaration`; `body`, `parameters` and `name` have none. */
  const Table: FieldTables.Table<Mutation> := map[
    "modifiers" := map[ADD := AddModifier],
    "body" := map[],
    "parameters" := map[],
    "type" := map[SET := SetType, UNSET := UnsetType],
    "name" := map[]]

  function UnsupportedModifier(k: Kind): Error
  {
    Error(TypeError, "Unsupported Modifier kind " + EnumName(k))
  }

  /**
   * `processFunctionDeclaration`: ADD on `modifiers` turns on `export`,
   * `async` or `default`; SET on `type` sets the return type; UNSET on
   * `type` removes it. Everything else throws.
   */
  function ProcessFunctionDeclaration(parent: Node, instruction: Instruction, nodeToModify: Option<Node>): (r: Result<Node, Error>)
    ensures parent.kind != FunctionDeclaration ==> r.Failure? && r.error.errorType == AssertionError
    ensures parent.kind == FunctionDeclaration && !FieldTables.Supports(Table, instruction) ==>
      r == Failure(FieldTables.NotSupported(parent, instruction))
    ensures r.Success? ==> r.value.kind == FunctionDeclaration && r.value.text == parent.text
  {
    var check := AssertTSMNodeKind(parent, FunctionDeclaration);
    if check.Fail? then Failure(check.error)
    else
      var mutation :- FieldTables.ProcessFieldDefinition(parent, instruction, Table);
      match mutation
      case AddModifier =>
        var modifier := AssertTSNodeType(nodeToModify, IsModifier);
        if modifier.Fail? then Failure(modifier.error)
        else
          var kind := nodeToModify.value.kind;
          if kind == ModifierKeyword(Export) then Success(SetModifier(parent, Export))
          else if kind == ModifierKeyword(Async) then Success(SetModifier(parent, Async))
          else if kind == ModifierKeyword(Default) then Success(SetModifier(parent, Default))
          else Failure(UnsupportedModifier(kind))
      case SetType =>
        var typeNode := AssertTSNodeType(nodeToModify, IsTypeNode);
        if typeNode.Fail? then Failure(typeNode.error)
        else Success(WithField(parent, "type", One(nodeToModify.value)))
      case UnsetType =>
        Success(WithField(parent, "type", Absent))
  }

  /** Applying a supported instruction a second time changes nothing more. */
  lemma ProcessFunctionDeclarationIdempotent(parent: Node, instruction: Instruction, nodeToModify: Option<Node>)
    requires ProcessFunctionDeclaration(parent, instruction, nodeToModify).Success?
    ensures var once := ProcessFunctionDeclaration(parent, instruction, nodeToModify).value;
      ProcessFunctionDeclaration(once, instruction, nodeToModify) == Success(once)
  {
    var once := ProcessFunctionDeclaration(parent, instruction, nodeToModify).value;
    var mutation := FieldTables.ProcessFieldDefinition(parent, instruction, Table).value;
    assert FieldTables.ProcessFieldDefinition(once, instruction, Table) == Success(mutation);
    match mutation
    case AddModifier =>
    case SetType =>
      assert WithField(once, "type", One(nodeToModify.value)) == once;
    case UnsetType =>
      assert WithField(once, "type", Absent) == once;
  }

  /** Setting a return type and then removing it is the same as removing it. */
  lemma SetThenUnsetType(parent: Node, setting: Instruction, unset: Instruction, typeNode: Node)
    requires setting.op == SET && setting.field == Some("type") && unset.op == UNSET && unset.field == Some("type")
    requires parent.kind == FunctionDeclaration && IsTypeNode(typeNode)
    ensures var typed := ProcessFunctionDeclaration(parent, setting, Some(typeNode));
      && typed == Success(WithField(parent, "type", One(typeNode)))
      && ProcessFunctionDeclaration(typed.value, unset, None) == ProcessFunctionDeclaration(parent, unset, None)
      && ProcessFunctionDeclaration(parent, unset, None) == Success(WithField(parent, "type", Absent))
  {
    var typed := WithField(parent, "type", One(typeNode));
    assert WithField(typed, "type", Absent) == WithField(parent, "type", Absent);
  }

  /** ADD on `modifiers` turns the keyword on and keeps every other modifier. */
  lemma AddModifierKeepsOthers(parent: Node, instruction: Instruction, keyword: Node, other: Modifier)
    requires parent.kind == FunctionDeclaration && instruction.op == ADD && instruction.field == Some("modifiers")
    requires keyword.kind in {ModifierKeyword(Export), ModifierKeyword(Async), ModifierKeyword(Default)}
    ensures var r := ProcessFunctionDeclaration(parent, instruction, Some(keyword));
      && r == Success(SetModifier(parent, keyword.kind.modifier))
      && HasModifier(r.value, keyword.kind.modifier)
      && (HasModifier(r.value, other) <==> HasModifier(parent, other) || other == keyword.kind.modifier)
  {
    SetModifierKeepsOthers(parent, keyword.kind.modifier, other);
  }

  /**
   * ADD on `modifiers` refuses a payload that is not a modifier with an
   * AssertionError, as it does a missing payload, and a modifier other
   * than `export`, `async` and `default` with a TypeError.
   */
  lemma AddModifierRejects(parent: Node, instruction: Instruction, payload: Option<Node>)
    requires parent.kind == FunctionDeclaration && instruction.op == ADD && instruction.field == Some("modifiers")
    ensures payload.None? ==>
      ProcessFunctionDeclaration(parent, instruction, payload) == Failure(Error(AssertionError, "Node is not defined"))
    ensures payload.Some? && !IsModifier(payload.value) ==>
      ProcessFunctionDeclaration(parent, instruction, payload) ==
        Failure(Error(AssertionError, "Invalid Node of kind " + EnumName(payload.value.kind)))
    ensures payload.Some? && IsModifier(payload.value) && payload.value.kind.modifier !in {Export, Async, Default} ==>
      ProcessFunctionDeclaration(parent, instruction, payload) == Failure(UnsupportedModifier(payload.value.kind))
  {
  }

  /** SET on `type` refuses a missing payload and one that is not a type node, with an AssertionError. */
  lemma SetTypeRejects(parent: Node, instruction: Instruction, payload: Option<Node>)
    requires parent.kind == FunctionDeclaration && instruction.op == SET && instruction.field == Some("type")
    ensures payload.None? ==>
      ProcessFunctionDeclaration(parent, instruction, payload) == Failure(Error(AssertionError, "Node is not defined"))
    ensures payload.Some? && !IsTypeNode(payload.value) ==>
      ProcessFunctionDeclaration(parent, instruction, payload) ==
        Failure(Error(AssertionError, "Invalid Node of kind " + EnumName(payload.value.kind)))
  {
  }
}
