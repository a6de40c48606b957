/** Reading and changing an interface declaration. */
module InterfaceDeclarationUtils {

  import opened Wrappers
  import opened Syntax
  import opened Definitions
  import opened Assert
  import FieldTables

  /** `getInterfaceDeclarationField`: `name`, and the lists `members` and `modifiers`. */
  function GetInterfaceDeclarationField(node: Node, field: string): (r: Result<Field, Error>)
    ensures r.Success? <==> node.kind == InterfaceDeclaration && field in {"name", "members", "modifiers"}
    ensures r.Success? && field in {"members", "modifiers"} ==> r.value == Many(Children(node, field))
    ensures r.Success? && field !in {"members", "modifiers"} ==> r.value == Child(node, field)
    ensures node.kind == InterfaceDeclaration && field !in {"name", "members", "modifiers"} ==>
      r == Failure(AssertNever(field))
  {
    FieldTables.ReadField(node, InterfaceDeclaration, field, {"members", "modifiers"}, {"name"})
  }

  datatype Mutation = AddMember | AddModifier

  /** The mutation table of `processInterfaceDeclaration`; `name` has none. */
  const Table: FieldTables.Table<Mutation> := map[
    "members" := map[ADD := AddMember],
    "modifiers" := map[ADD := AddModifier],
    "name" := map[]]

  function UnsupportedModifier(k: Kind): Error
  {
    Error(TypeError, "Unsupported Modifier kind " + EnumName(k) + " for Interface Declaration")
  }

  /**
   * `processInterfaceDeclaration`: ADD on `members` appends a type
   * element; ADD on `modifiers` turns on `export` or `declare`.
   */
  function ProcessInterfaceDeclaration(parent: Node, instruction: Instruction, nodeToModify: Option<Node>): (r: Result<Node, Error>)
    ensures parent.kind != InterfaceDeclaration ==> r.Failure? && r.error.errorType == AssertionError
    ensures parent.kind == InterfaceDeclaration && !FieldTables.Supports(Table, instruction) ==>
      r == Failure(FieldTables.NotSupported(parent, instruction))
    ensures r.Success? ==> r.value.kind == InterfaceDeclaration && r.value.text == parent.text
  {
    var check := AssertTSMNodeKind(parent, InterfaceDeclaration);
    if check.Fail? then Failure(check.error)
    else
      var mutation :- FieldTables.ProcessFieldDefinition(parent, instruction, Table);
      match mutation
      case AddMember =>
        var member := AssertTSNodeType(nodeToModify, IsTypeElement);
        if member.Fail? then Failure(member.error)
        else Success(WithField(parent, "members", Many(Children(parent, "members") + [nodeToModify.value])))
      case AddModifier =>
        var modifier := AssertTSNodeType(nodeToModify, IsModifier);
        if modifier.Fail? then Failure(modifier.error)
        else
          var kind := nodeToModify.value.kind;
          if kind == ModifierKeyword(Export) then Success(SetModifier(parent, Export))
          else if kind == ModifierKeyword(Declare) then Success(SetModifier(parent, Declare))
          else Failure(UnsupportedModifier(kind))
  }

  /** ADD on `members` appends the member and leaves the other fields as they were. */
  lemma AddMemberAppends(parent: Node, instruction: Instruction, member: Node)
    requires parent.kind == InterfaceDeclaration && instruction.op == ADD && instruction.field == Some("members")
    requires IsTypeElement(member)
    ensures var r := ProcessInterfaceDeclaration(parent, instruction, Some(member));
      && r.Success?
      && Children(r.value, "members") == Children(parent, "members") + [member]
      && forall g | g in parent.fields && g != "members" :: g in r.value.fields && r.value.fields[g] == parent.fields[g]
  {
  }

  /** Only a type element can be added as a member; a missing payload is refused as well. */
  lemma AddMemberRejectsOthers(parent: Node, instruction: Instruction, member: Option<Node>)
    requires parent.kind == InterfaceDeclaration && instruction.op == ADD && instruction.field == Some("members")
    ensures member.None? ==>
      ProcessInterfaceDeclaration(parent, instruction, member) == Failure(Error(AssertionError, "Node is not defined"))
    ensures member.Some? && !IsTypeElement(member.value) ==>
      ProcessInterfaceDeclaration(parent, instruction, member) ==
        Failure(Error(AssertionError, "Invalid Node of kind " + EnumName(member.value.kind)))
  {
  }

  /** Exporting or declaring an interface twice is the same as doing it once. */
  lemma AddModifierIdempotent(parent: Node, instruction: Instruction, keyword: Node)
    requires instruction.op == ADD && instruction.field == Some("modifiers")
    requires ProcessInterfaceDeclaration(parent, instruction, Some(keyword)).Success?
    ensures var once := ProcessInterfaceDeclaration(parent, instruction, Some(keyword)).value;
      ProcessInterfaceDeclaration(once, instruction, Some(keyword)) == Success(once)
  {
  }

  /** ADD of `export` or `declare` on `modifiers` turns that keyword on and keeps every other modifier. */
  lemma AddModifierKeepsOthers(parent: Node, instruction: Instruction, keyword: Node, other: Modifier)
    requires parent.kind == InterfaceDeclaration && instruction.op == ADD && instruction.field == Some("modifiers")
    requires keyword.kind in {ModifierKeyword(Export), ModifierKeyword(Declare)}
    ensures var r := ProcessInterfaceDeclaration(parent, instruction, Some(keyword));
      && r == Success(SetModifier(parent, keyword.kind.modifier))
      && HasModifier(r.value, keyword.kind.modifier)
      && (HasModifier(r.value, other) <==> HasModifier(parent, other) || other == keyword.kind.modifier)
  {
    SetModifierKeepsOthers(parent, keyword.kind.modifier, other);
  }

  /**
   * ADD on `modifiers` refuses a payload that is not a modifier with an
   * AssertionError, and a modifier other than `export` and `declare`
   * with a TypeError naming the interface declaration.
   */
  lemma AddModifierRejects(parent: Node, instruction: Instruction, payload: Option<Node>)
    requires parent.kind == InterfaceDeclaration && instruction.op == ADD && instruction.field == Some("modifiers")
    ensures payload.None? ==>
      ProcessInterfaceDeclaration(parent, instruction, payload) == Failure(Error(AssertionError, "Node is not defined"))
    ensures payload.Some? && !IsModifier(payload.value) ==>
      ProcessInterfaceDeclaration(parent, instruction, payload) ==
        Failure(Error(AssertionError, "Invalid Node of kind " + EnumName(payload.value.kind)))
    ensures payload.Some? && IsModifier(payload.value) && payload.value.kind.modifier !in {Export, Declare} ==>
      ProcessInterfaceDeclaration(parent, instruction, payload) ==
        Failure(Error(TypeError, "Unsupported Modifier kind " + EnumName(payload.value.kind) + " for Interface Declaration"))
  {
  }
}
