/**
 * Generation and processing together: the first run against an empty
 * source file, where every statement of the definition is added.
 */
module Scenarios {

  import opened Wrappers
  import opened Syntax
  import opened Definitions
  import opened Assert
  import opened Instructions
  import opened InstructionsUtils
  import opened Processing
  import opened GenerationProperties
  import FunctionDeclarationUtils
  import SourceFileUtils

  /** A source file definition with only a list of statements. */
  function FileDefinition(statements: seq<Definition>): Definition
  {
    Definition([Prop(KindKey, KindValue(SourceFile)), Prop("statements", ListValue(statements))])
  }

  predicate AddsStatement(i: Instruction)
  {
    i.op == ADD && i.path == "" && i.field == Some("statements") && i.definition.Some?
    && BuildNodeFromDefinition(i.definition.value).Success?
  }

  /** The nodes a run of statement ADDs builds, in order. */
  function BuiltNodes(instructions: seq<Instruction>): (r: seq<Node>)
    requires forall j | 0 <= j < |instructions| :: AddsStatement(instructions[j])
    ensures |r| == |instructions|
  {
    if instructions == [] then []
    else
      assert AddsStatement(instructions[0]);
      assert forall j | 0 <= j < |instructions[1..]| :: instructions[1..][j] == instructions[j + 1];
      [BuildNodeFromDefinition(instructions[0].definition.value).value] + BuiltNodes(instructions[1..])
  }

  lemma FileDefinitionEntries(statements: seq<Definition>)
    ensures KindOf(FileDefinition(statements)) == Some(SourceFile)
    ensures RulesOf(FileDefinition(statements)) == []
    ensures GetDefinitionEntries(FileDefinition(statements)) == [Prop("statements", ListValue(statements))]
  {
    var d := FileDefinition(statements);
    var entry := Prop("statements", ListValue(statements));
    assert Lookup(d, KindKey) == Some(KindValue(SourceFile));
    assert LookupIndex(d.props, DirectivesKey).None?;
    assert d.props[1..] == [entry] && [entry][1..] == [];
  }

  /** Against a file without statements, generation adds every statement of the definition, in order. */
  lemma EmptyFileGeneratesAdds(q: Query, file: Node, statements: seq<Definition>)
    requires file.kind == SourceFile && Children(file, "statements") == []
    ensures var r := Generated(q, file, FileDefinition(statements), CreateContext(None, None));
      && r.Success? && |r.value| == |statements|
      && forall j | 0 <= j < |statements| ::
           r.value[j] == Instruction(ADD, "", Some("statements"), Some(Strip(statements[j])), None)
  {
    var d := FileDefinition(statements);
    var entry := Prop("statements", ListValue(statements));
    var ctx := CreateContext(None, None);
    FileDefinitionEntries(statements);
    SingleEntryAtRoot(q, file, d, ctx, entry);
    assert InstructionsUtils.GetNodeField(file, "statements") == Success(Many([]));
    AbsentListFieldAddsEachItem(q, file, d, ctx, "statements", statements);
  }

  /** One statement ADD applied at the root of a source file. */
  lemma AddStep(file: Node, i: Instruction)
    requires file.kind == SourceFile && AddsStatement(i)
    ensures Processed(file, i) == Success(WithField(file, "statements",
      Many(Children(file, "statements") + [BuildNodeFromDefinition(i.definition.value).value])))
  {
    var built := BuildNodeFromDefinition(i.definition.value).value;
    assert ShouldBuildNodeFromDefinition(Carried(i)) == Success(Some(built));
  }

  lemma RunStep(root: Node, instructions: seq<Instruction>, next: Node)
    requires instructions != [] && Processed(root, instructions[0]) == Success(next)
    ensures RunAll(root, instructions) == RunAll(next, instructions[1..])
  {
  }

  lemma BuiltNodesCons(instructions: seq<Instruction>)
    requires instructions != []
    requires forall j | 0 <= j < |instructions| :: AddsStatement(instructions[j])
    ensures AddsStatement(instructions[0])
    ensures forall j | 0 <= j < |instructions[1..]| :: AddsStatement(instructions[1..][j])
    ensures BuiltNodes(instructions) ==
      [BuildNodeFromDefinition(instructions[0].definition.value).value] + BuiltNodes(instructions[1..])
  {
    assert AddsStatement(instructions[0]);
    assert forall j | 0 <= j < |instructions[1..]| :: instructions[1..][j] == instructions[j + 1];
  }

  /** One step of AddsAppend: the first ADD, then what the rest is known to do. */
  lemma AddsAppendStep(file: Node, instructions: seq<Instruction>, next: Node)
    requires file.kind == SourceFile && instructions != [] && AddsStatement(instructions[0])
    requires forall j | 0 <= j < |instructions| :: AddsStatement(instructions[j])
    requires next == WithField(file, "statements",
      Many(Children(file, "statements") + [BuildNodeFromDefinition(instructions[0].definition.value).value]))
    requires RunAll(next, instructions[1..]).error.None?
    requires RunAll(next, instructions[1..]).tree.kind == SourceFile
    requires Children(RunAll(next, instructions[1..]).tree, "statements") ==
      Children(next, "statements") + BuiltNodes(instructions[1..])
    ensures RunAll(file, instructions) == RunAll(next, instructions[1..])
    ensures Children(RunAll(file, instructions).tree, "statements") == Children(file, "statements") + BuiltNodes(instructions)
  {
    BuiltNodesCons(instructions);
    AddStep(file, instructions[0]);
    RunStep(file, instructions, next);
    var statements := Children(file, "statements");
    var built := BuildNodeFromDefinition(instructions[0].definition.value).value;
    assert Children(next, "statements") == statements + [built];
    var rest := BuiltNodes(instructions[1..]);
    assert BuiltNodes(instructions) == [built] + rest;
    NodesAssoc(statements, [built], rest);
  }

  lemma NodesAssoc(a: seq<Node>, b: seq<Node>, c: seq<Node>)
    ensures (a + b) + c == a + (b + c)
  {
  }

  /** Each statement ADD on a source file appends the node its definition builds. */
  lemma {:induction false} AddsAppend(file: Node, instructions: seq<Instruction>)
    requires file.kind == SourceFile
    requires forall j | 0 <= j < |instructions| :: AddsStatement(instructions[j])
    ensures RunAll(file, instructions).error.None?
    ensures RunAll(file, instructions).tree.kind == SourceFile
    ensures Children(RunAll(file, instructions).tree, "statements") == Children(file, "statements") + BuiltNodes(instructions)
    decreases |instructions|
  {
    if instructions == [] {
      assert Children(file, "statements") + [] == Children(file, "statements");
    } else {
      BuiltNodesCons(instructions);
      var next := WithField(file, "statements",
        Many(Children(file, "statements") + [BuildNodeFromDefinition(instructions[0].definition.value).value]));
      AddsAppend(next, instructions[1..]);
      AddsAppendStep(file, instructions, next);
    }
  }

  /**
   * The first run: generating against an empty file and applying the
   * result leaves the file holding the built statements, in the order the
   * definition lists them.
   */
  lemma FirstRunBuildsEveryStatement(q: Query, file: Node, statements: seq<Definition>)
    requires file.kind == SourceFile && Children(file, "statements") == []
    requires forall j | 0 <= j < |statements| :: BuildNodeFromDefinition(Strip(statements[j])).Success?
    ensures var r := Generated(q, file, FileDefinition(statements), CreateContext(None, None));
      && r.Success?
      && var run := RunAll(file, r.value);
      && run.error.None?
      && |Children(run.tree, "statements")| == |statements|
      && forall j | 0 <= j < |statements| ::
           Children(run.tree, "statements")[j] == BuildNodeFromDefinition(Strip(statements[j])).value
  {
    EmptyFileGeneratesAdds(q, file, statements);
    var adds := Generated(q, file, FileDefinition(statements), CreateContext(None, None)).value;
    AddsAppend(file, adds);
    BuiltNodesAt(adds);
    assert [] + BuiltNodes(adds) == BuiltNodes(adds);
  }

  lemma {:induction false} BuiltNodesAt(instructions: seq<Instruction>)
    requires forall j | 0 <= j < |instructions| :: AddsStatement(instructions[j])
    ensures forall j | 0 <= j < |instructions| ::
      BuiltNodes(instructions)[j] == BuildNodeFromDefinition(instructions[j].definition.value).value
  {
    if instructions != [] {
      BuiltNodesAt(instructions[1..]);
      forall j | 0 < j < |instructions|
        ensures BuiltNodes(instructions)[j] == BuildNodeFromDefinition(instructions[j].definition.value).value
      {
        assert instructions[1..][j - 1] == instructions[j];
      }
    }
  }

  // ---------------------------------------------------------------------
  // Return types

  /** `{ kind: FunctionDeclaration, type: { kind: <type keyword> } }` */
  function ReturnTypeDefinition(w: TypeWord): Definition
  {
    Definition([Prop(KindKey, KindValue(FunctionDeclaration)), Prop("type", TypeValue(w))])
  }

  function TypeValue(w: TypeWord): Value
  {
    ObjValue(Definition([Prop(KindKey, KindValue(TypeKeyword(w)))]))
  }

  lemma ReturnTypeEntries(w: TypeWord)
    ensures KindOf(ReturnTypeDefinition(w)) == Some(FunctionDeclaration)
    ensures RulesOf(ReturnTypeDefinition(w)) == []
    ensures GetDefinitionEntries(ReturnTypeDefinition(w)) == [Prop("type", TypeValue(w))]
    ensures StripValue(TypeValue(w)) == TypeValue(w).def
    ensures BuildNodeFromDefinition(TypeValue(w).def) == Success(Token(TypeKeyword(w)))
    ensures !HasId(TypeValue(w).def)
  {
    var d := ReturnTypeDefinition(w);
    var entry := Prop("type", TypeValue(w));
    assert Lookup(d, KindKey) == Some(KindValue(FunctionDeclaration));
    assert LookupIndex(d.props, DirectivesKey).None?;
    assert d.props[1..] == [entry] && [entry][1..] == [];
    var t := TypeValue(w).def;
    assert Lookup(t, KindKey) == Some(KindValue(TypeKeyword(w)));
    assert t.props[1..] == [];
  }

  /** The single SET that gives a function its return type. */
  function SetReturnType(w: TypeWord): Instruction
  {
    Instruction(SET, "", Some("type"), Some(TypeValue(w).def), None)
  }

  /** Against a function without a return type, the definition of one compiles to one SET of it at the root. */
  lemma UntypedFunctionGeneratesSet(q: Query, fn: Node, w: TypeWord)
    requires fn.kind == FunctionDeclaration && Child(fn, "type") == Absent
    ensures Generated(q, fn, ReturnTypeDefinition(w), CreateContext(None, None)) == Success([SetReturnType(w)])
  {
    var d := ReturnTypeDefinition(w);
    var ctx := CreateContext(None, None);
    ReturnTypeEntries(w);
    SingleEntryAtRoot(q, fn, d, ctx, Prop("type", TypeValue(w)));
    AbsentScalarFieldIsSet(q, fn, d, ctx, "type", TypeValue(w));
  }

  /** Applying the SET gives the function the built type node. */
  lemma SetReturnTypeApplies(fn: Node, w: TypeWord)
    requires fn.kind == FunctionDeclaration
    ensures RunAll(fn, [SetReturnType(w)]) == Run(WithField(fn, "type", One(Token(TypeKeyword(w)))), None)
  {
    ReturnTypeEntries(w);
    var setType := SetReturnType(w);
    var typed := WithField(fn, "type", One(Token(TypeKeyword(w))));
    assert ShouldBuildNodeFromDefinition(Carried(setType)) == Success(Some(Token(TypeKeyword(w))));
    assert FunctionDeclarationUtils.ProcessFunctionDeclaration(fn, setType, Some(Token(TypeKeyword(w)))) == Success(typed);
    assert Processed(fn, setType) == Success(typed);
    assert [setType][1..] == [];
  }

  /**
   * The round trip for a return type: generating against a function
   * without one and applying the result gives the function that type and
   * leaves its other fields alone; generating again yields nothing.
   */
  lemma ReturnTypeRoundTrip(q: Query, fn: Node, w: TypeWord)
    requires fn.kind == FunctionDeclaration && Child(fn, "type") == Absent
    ensures var r := Generated(q, fn, ReturnTypeDefinition(w), CreateContext(None, None));
      && r.Success?
      && var run := RunAll(fn, r.value);
      && run.error.None?
      && Child(run.tree, "type") == One(Token(TypeKeyword(w)))
      && (forall g | g in fn.fields && g != "type" :: g in run.tree.fields && run.tree.fields[g] == fn.fields[g])
      && Generated(q, run.tree, ReturnTypeDefinition(w), CreateContext(None, None)) == Success([])
  {
    UntypedFunctionGeneratesSet(q, fn, w);
    SetReturnTypeApplies(fn, w);
    TypedFunctionIsSilent(q, WithField(fn, "type", One(Token(TypeKeyword(w)))), w);
  }

  /** Once the function has a return type, a definition without an id leaves it alone. */
  lemma TypedFunctionIsSilent(q: Query, fn: Node, w: TypeWord)
    requires fn.kind == FunctionDeclaration && Child(fn, "type").One?
    ensures Generated(q, fn, ReturnTypeDefinition(w), CreateContext(None, None)) == Success([])
  {
    var d := ReturnTypeDefinition(w);
    var ctx := CreateContext(None, None);
    ReturnTypeEntries(w);
    SingleEntryAtRoot(q, fn, d, ctx, Prop("type", TypeValue(w)));
    PresentScalarField(q, fn, d, ctx, "type", TypeValue(w));
    ScalarWithoutIdIsSilent(q, d, ctx, "type", TypeValue(w), Child(fn, "type").node);
  }
}
