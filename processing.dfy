/**
 * Applying instructions: each instruction finds its parent node by path,
 * builds the node it carries, and hands both to the processor of the
 * parent's kind, which changes the parent.
 */
module Processing {

  import opened Wrappers
  import opened Syntax
  import opened Definitions
  import opened Assert
  import opened InstructionsUtils
  import SourceFileUtils
  import FunctionDeclarationUtils
  import InterfaceDeclarationUtils
  import PropertySignatureUtils
  import FieldTables

  /** The kinds of node an instruction can be applied to. */
  predicate Processable(k: Kind)
  {
    k in {SourceFile, FunctionDeclaration, InterfaceDeclaration, PropertySignature}
  }

  function UnsupportedParent(parent: Node): Error
  {
    Error(TypeError, "Unable to Process Instruction: unsupported parent node of kind " + KindName(parent.kind))
  }

  /** The processor of the parent's kind; any other kind is rejected. */
  function Dispatch(parent: Node, instruction: Instruction, nodeToModify: Option<Node>): (r: Result<Node, Error>)
    ensures !Processable(parent.kind) ==> r == Failure(UnsupportedParent(parent))
    ensures r.Success? ==> Processable(parent.kind) && r.value.kind == parent.kind && r.value.text == parent.text
  {
    match parent.kind
    case SourceFile => SourceFileUtils.ProcessSourceFile(parent, instruction, nodeToModify)
    case FunctionDeclaration => FunctionDeclarationUtils.ProcessFunctionDeclaration(parent, instruction, nodeToModify)
    case InterfaceDeclaration => InterfaceDeclarationUtils.ProcessInterfaceDeclaration(parent, instruction, nodeToModify)
    case PropertySignature => PropertySignatureUtils.ProcessPropertySignature(parent, instruction, nodeToModify)
    case _ => Failure(UnsupportedParent(parent))
  }

  /** The definition an instruction hands on: none for REMOVE and UNSET. */
  function Carried(instruction: Instruction): (d: Option<Definition>)
    ensures instruction.op in {REMOVE, UNSET} ==> d.None?
    ensures instruction.op !in {REMOVE, UNSET} ==> d == instruction.definition
  {
    if instruction.op == REMOVE || instruction.op == UNSET then None else instruction.definition
  }

  /**
   * `processInstruction` on a tree value: the whole tree once the parent
   * the path names has been changed by its processor.
   */
  function Processed(root: Node, instruction: Instruction): (r: Result<Node, Error>)
    ensures GetNodeByPath(root, instruction.path).Failure? ==> r == Failure(GetNodeByPath(root, instruction.path).error)
    ensures r.Success? ==> GetNodeByPath(root, instruction.path).Success?
    ensures r.Success? ==> r.value.kind == root.kind
  {
    var parent :- GetNodeByPath(root, instruction.path);
    var nodeToModify :- ShouldBuildNodeFromDefinition(Carried(instruction));
    var updated :- Dispatch(parent, instruction, nodeToModify);
    ReplaceAtPath(root, instruction.path, updated)
  }

  /** After an instruction, its path names the parent as its processor left it. */
  lemma ProcessedAtPath(root: Node, instruction: Instruction)
    requires Processed(root, instruction).Success?
    ensures var parent := GetNodeByPath(root, instruction.path).value;
      var nodeToModify := ShouldBuildNodeFromDefinition(Carried(instruction)).value;
      && Dispatch(parent, instruction, nodeToModify).Success?
      && GetNodeByPath(Processed(root, instruction).value, instruction.path) == Dispatch(parent, instruction, nodeToModify)
  {
    var parent := GetNodeByPath(root, instruction.path).value;
    var nodeToModify := ShouldBuildNodeFromDefinition(Carried(instruction)).value;
    ReplaceThenGet(root, instruction.path, Dispatch(parent, instruction, nodeToModify).value);
  }

  /** An instruction whose parent's kind has no processor fails and names that kind. */
  lemma UnsupportedParentFails(root: Node, instruction: Instruction)
    requires GetNodeByPath(root, instruction.path).Success?
    requires ShouldBuildNodeFromDefinition(Carried(instruction)).Success?
    requires !Processable(GetNodeByPath(root, instruction.path).value.kind)
    ensures Processed(root, instruction) == Failure(UnsupportedParent(GetNodeByPath(root, instruction.path).value))
  {
  }

  /**
   * INSERT, REPLACE and REMOVE can be generated but never applied: no
   * kind's table has an entry for them, so each is refused as not
   * supported, and a parent of any other kind is refused as such.
   */
  lemma PositionalInstructionsNotApplied(parent: Node, instruction: Instruction, nodeToModify: Option<Node>)
    requires instruction.op in {INSERT, REPLACE, REMOVE}
    ensures Processable(parent.kind) ==>
      Dispatch(parent, instruction, nodeToModify) == Failure(FieldTables.NotSupported(parent, instruction))
    ensures !Processable(parent.kind) ==> Dispatch(parent, instruction, nodeToModify) == Failure(UnsupportedParent(parent))
  {
  }

  /** Where a run of instructions ends: the tree as the last instruction that succeeded left it, and the error that stopped it. */
  datatype Run = Run(tree: Node, error: Option<Error>)

  /** `processInstructions` on a tree value: the instructions in order, stopping at the first that throws. */
  function RunAll(root: Node, instructions: seq<Instruction>): (r: Run)
    ensures instructions == [] ==> r == Run(root, None)
    decreases |instructions|
  {
    if instructions == [] then Run(root, None)
    else
      match Processed(root, instructions[0])
      case Failure(e) => Run(root, Some(e))
      case Success(next) => RunAll(next, instructions[1..])
  }

  /** Running two lists one after the other is running their concatenation. */
  lemma {:induction false} RunAllConcat(root: Node, a: seq<Instruction>, b: seq<Instruction>)
    ensures RunAll(root, a + b) ==
      (var first := RunAll(root, a); if first.error.Some? then first else RunAll(first.tree, b))
    decreases |a|
  {
    if a == [] {
      assert a + b == b;
    } else {
      assert (a + b)[0] == a[0] && (a + b)[1..] == a[1..] + b;
      match Processed(root, a[0])
      case Failure(_) =>
      case Success(next) => RunAllConcat(next, a[1..], b);
    }
  }

  /** A run that stops leaves the tree exactly as the instructions before the failing one left it. */
  lemma {:induction false} RunAllStops(root: Node, instructions: seq<Instruction>, k: nat)
    requires k < |instructions|
    requires RunAll(root, instructions[..k]).error.None?
    requires Processed(RunAll(root, instructions[..k]).tree, instructions[k]).Failure?
    ensures RunAll(root, instructions) ==
      Run(RunAll(root, instructions[..k]).tree, Some(Processed(RunAll(root, instructions[..k]).tree, instructions[k]).error))
  {
    var before, after := instructions[..k], instructions[k..];
    SplitAt(instructions, k);
    RunAllConcat(root, before, after);
    RunAllFailsFirst(RunAll(root, before).tree, after);
  }

  lemma SplitAt(instructions: seq<Instruction>, k: nat)
    requires k < |instructions|
    ensures instructions[..k] + instructions[k..] == instructions
    ensures instructions[k..] != [] && instructions[k..][0] == instructions[k]
  {
  }

  /** A run whose first instruction throws stops there, with the tree untouched. */
  lemma RunAllFailsFirst(root: Node, instructions: seq<Instruction>)
    requires instructions != [] && Processed(root, instructions[0]).Failure?
    ensures RunAll(root, instructions) == Run(root, Some(Processed(root, instructions[0]).error))
  {
  }

  /** The tree the instructions are applied to, changed in place. */
  class Tree {
    var root: Node

    constructor (root: Node)
      ensures this.root == root
    {
      this.root := root;
    }

    /** `processInstruction`: the tree changes only when the instruction succeeds. */
    method ProcessInstruction(instruction: Instruction) returns (r: Outcome<Error>)
      modifies this
      ensures r.Pass? <==> Processed(old(root), instruction).Success?
      ensures r.Pass? ==> root == Processed(old(root), instruction).value
      ensures r.Fail? ==> r.error == Processed(old(root), instruction).error && root == old(root)
    {
      var parent := GetNodeByPath(root, instruction.path);
      if parent.Failure? {
        return Fail(parent.error);
      }
      var definition: Option<Definition>;
      if instruction.op == REMOVE || instruction.op == UNSET {
        definition := None;
      } else {
        definition := instruction.definition;
      }
      var nodeToModify := ShouldBuildNodeFromDefinition(definition);
      if nodeToModify.Failure? {
        return Fail(nodeToModify.error);
      }
      var updated := Dispatch(parent.value, instruction, nodeToModify.value);
      if updated.Failure? {
        return Fail(updated.error);
      }
      var tree := ReplaceAtPath(root, instruction.path, updated.value);
      root := tree.value;
      return Pass;
    }

    /** `processInstructions`: each instruction in turn; the first that throws stops the rest. */
    method ProcessInstructions(instructions: seq<Instruction>) returns (r: Outcome<Error>)
      modifies this
      ensures root == RunAll(old(root), instructions).tree
      ensures r.Fail? <==> RunAll(old(root), instructions).error.Some?
      ensures r.Fail? ==> r.error == RunAll(old(root), instructions).error.value
    {
      for k := 0 to |instructions|
        invariant RunAll(old(root), instructions) == RunAll(root, instructions[k..])
      {
        assert instructions[k..][0] == instructions[k] && instructions[k..][1..] == instructions[k + 1..];
        var outcome := ProcessInstruction(instructions[k]);
        if outcome.Fail? {
          return outcome;
        }
      }
      return Pass;
    }
  }
}
