/** What generation promises: where it adds, where it stays silent, and when it has nothing left to do. */
module GenerationProperties {

  import opened Wrappers
  import opened Syntax
  import opened Text
  import opened Definitions
  import opened Assert
  import opened Instructions
  import InstructionsUtils

  /** Below the root the definition's own rules are not evaluated against the node. */
  lemma RootRulesOnlyAtRoot(q: Query, node: Node, d: Definition, ctx: Context)
    requires IsTruthy(ctx.field) && KindOf(d) == Some(node.kind)
    ensures Generated(q, node, d, ctx) == FieldsFrom(q, node, d, ctx, 0)
  {
    ThenNothing(FieldsFrom(q, node, d, ctx, 0));
  }

  /** A list field the node lacks compiles to one ADD per item, in order. */
  lemma AbsentListFieldAddsEachItem(q: Query, node: Node, d: Definition, ctx: Context, key: string, items: seq<Definition>)
    requires Prop(key, ListValue(items)) in d.props
    requires InstructionsUtils.GetNodeField(node, key).Success?
    requires !IsDefined(InstructionsUtils.GetNodeField(node, key).value)
    ensures var r := FieldInstructions(q, node, d, ctx, Prop(key, ListValue(items)));
      && r.Success? && |r.value| == |items|
      && forall j | 0 <= j < |items| :: r.value[j] == Instruction(ADD, ctx.path, Some(key), Some(Strip(items[j])), None)
  {
  }

  /** A value other than a list that carries no id never produces an instruction once the node has the field. */
  lemma ScalarWithoutIdIsSilent(q: Query, d: Definition, ctx: Context, key: string, v: Value, n: Node)
    requires Prop(key, v) in d.props
    requires !(v.ObjValue? && HasId(v.def))
    ensures ScalarInstructions(q, d, ctx, key, v, n) == Success([])
  {
  }

  /** A nested definition whose id does not hold for the node present replaces it with one SET. */
  lemma UnmatchedScalarIsSet(q: Query, d: Definition, ctx: Context, key: string, v: Value, n: Node)
    requires Prop(key, v) in d.props
    requires v.ObjValue? && HasId(v.def) && !Holds(q.condition(DirectivesOf(v.def).value.id.value, n))
    ensures ScalarInstructions(q, d, ctx, key, v, n) == Success([Instruction(SET, ctx.path, Some(key), Some(Strip(v.def)), None)])
  {
  }

  /** At the root, a definition without rules and with a single entry generates what that entry does. */
  lemma SingleEntryAtRoot(q: Query, node: Node, d: Definition, ctx: Context, entry: Prop)
    requires KindOf(d) == Some(node.kind) && RulesOf(d) == [] && GetDefinitionEntries(d) == [entry]
    ensures entry in d.props
    ensures Generated(q, node, d, ctx) == FieldInstructions(q, node, d, ctx, entry)
  {
    assert entry in GetDefinitionEntries(d);
    var field := FieldInstructions(q, node, d, ctx, entry);
    assert FieldsFrom(q, node, d, ctx, 1) == Success([]);
    ThenNothing(field);
    assert FieldsFrom(q, node, d, ctx, 0) == field;
    ThenNothing(field);
  }

  /** A field the node has, defined by anything but a list, is compared as a single node. */
  lemma PresentScalarField(q: Query, node: Node, d: Definition, ctx: Context, key: string, v: Value)
    requires Prop(key, v) in d.props && !v.ListValue?
    requires InstructionsUtils.GetNodeField(node, key).Success?
    requires InstructionsUtils.GetNodeField(node, key).value.One?
    ensures FieldInstructions(q, node, d, ctx, Prop(key, v))
      == ScalarInstructions(q, d, ctx, key, v, InstructionsUtils.GetNodeField(node, key).value.node)
  {
  }

  /** A field the node lacks, defined by anything but a list, compiles to one SET carrying the value. */
  lemma AbsentScalarFieldIsSet(q: Query, node: Node, d: Definition, ctx: Context, key: string, v: Value)
    requires Prop(key, v) in d.props && !v.ListValue?
    requires InstructionsUtils.GetNodeField(node, key).Success?
    requires !IsDefined(InstructionsUtils.GetNodeField(node, key).value)
    ensures FieldInstructions(q, node, d, ctx, Prop(key, v))
      == Success([Instruction(SET, ctx.path, Some(key), Some(StripValue(v)), None)])
  {
  }

  /** A nested definition whose id holds for the node present is compared with it, one field down the path. */
  lemma MatchedScalarRecurses(q: Query, d: Definition, ctx: Context, key: string, v: Value, n: Node)
    requires Prop(key, v) in d.props
    requires v.ObjValue? && HasId(v.def) && KindOf(v.def).Some?
    requires Holds(q.condition(DirectivesOf(v.def).value.id.value, n))
    ensures ScalarInstructions(q, d, ctx, key, v, n) == Generated(q, n, v.def, Context(PathOf(ctx.path, [key]), Some(key)))
  {
  }

  /**
   * A list item without directives is added every time, whatever nodes
   * the list already holds: the comparison never finds it.
   */
  lemma ItemWithoutDirectivesIsAdded(q: Query, d: Definition, ctx: Context, key: string, items: seq<Definition>, j: nat, nodes: seq<Node>)
    requires Prop(key, ListValue(items)) in d.props && j < |items|
    requires DirectivesOf(items[j]).None?
    ensures ItemInstructions(q, d, ctx, key, items, j, nodes) == Success([Instruction(ADD, ctx.path, Some(key), Some(Strip(items[j])), None)])
  {
    var add := Instruction(ADD, ctx.path, Some(key), Some(Strip(items[j])), None);
    CompileSingleAdd(ctx.path, items[j], Some(key));
    assert [add] + ([] + []) == [add];
  }

  /** A list item with an id that no node satisfies, and no rules, is added once. */
  lemma UnmatchedItemIsAdded(q: Query, d: Definition, ctx: Context, key: string, items: seq<Definition>, j: nat, nodes: seq<Node>)
    requires Prop(key, ListValue(items)) in d.props && j < |items|
    requires HasId(items[j]) && RulesOf(items[j]) == []
    requires forall i | 0 <= i < |nodes| :: !Holds(q.condition(DirectivesOf(items[j]).value.id.value, nodes[i]))
    ensures ItemInstructions(q, d, ctx, key, items, j, nodes) == Success([Instruction(ADD, ctx.path, Some(key), Some(Strip(items[j])), None)])
  {
    var add := Instruction(ADD, ctx.path, Some(key), Some(Strip(items[j])), None);
    CompileSingleAdd(ctx.path, items[j], Some(key));
    assert [] + ([add] + []) == [add];
  }

  /** A list item whose id holds for a node is compared with the first such node, one level down the path. */
  lemma MatchedItemRecurses(q: Query, d: Definition, ctx: Context, key: string, items: seq<Definition>, j: nat, nodes: seq<Node>, i: nat)
    requires Prop(key, ListValue(items)) in d.props && j < |items|
    requires HasId(items[j]) && RulesOf(items[j]) == [] && KindOf(items[j]).Some?
    requires FirstMatch(q, DirectivesOf(items[j]).value.id.value, nodes) == Some(i)
    ensures ItemInstructions(q, d, ctx, key, items, j, nodes)
      == Generated(q, nodes[i], items[j], Context(PathOf(ctx.path, [key, NatToString(i)]), Some(key)))
  {
    var nested := Generated(q, nodes[i], items[j], Context(PathOf(ctx.path, [key, NatToString(i)]), Some(key)));
    ThenNothing(nested);
    assert Then(Success([]), Then(nested, Success([]))) == nested;
  }

  // ---------------------------------------------------------------------
  // Convergence

  /**
   * The node already satisfies the definition: same kind, no rules, every
   * field present, every list item identified with a node that satisfies
   * it in turn, every identified nested definition holding for its node.
   */
  predicate Settled(q: Query, node: Node, d: Definition)
    decreases d, 3
  {
    && KindOf(d) == Some(node.kind)
    && RulesOf(d) == []
    && forall k | 0 <= k < |GetDefinitionEntries(d)| :: EntrySettled(q, node, d, GetDefinitionEntries(d)[k])
  }

  predicate EntrySettled(q: Query, node: Node, d: Definition, entry: Prop)
    requires entry in d.props
    decreases d, 2
  {
    var f := InstructionsUtils.GetNodeField(node, entry.key);
    && f.Success? && IsDefined(f.value)
    && if entry.value.ListValue? then
         var items := entry.value.items;
         f.value.Many? && ItemsSettled(q, d, entry.key, items, f.value.nodes, 0)
       else
         var v := entry.value;
         && f.value.One?
         && (v.ObjValue? && HasId(v.def) ==>
               && Holds(q.condition(DirectivesOf(v.def).value.id.value, f.value.node))
               && (KindOf(v.def).Some? ==> Settled(q, f.value.node, v.def)))
  }

  /** Every list item from the `j`th on is settled. */
  predicate ItemsSettled(q: Query, d: Definition, key: string, items: seq<Definition>, nodes: seq<Node>, j: nat)
    requires Prop(key, ListValue(items)) in d.props && j <= |items|
    decreases d, 1, |items| - j
  {
    j < |items| ==> ItemSettled(q, d, key, items, j, nodes) && ItemsSettled(q, d, key, items, nodes, j + 1)
  }

  predicate ItemSettled(q: Query, d: Definition, key: string, items: seq<Definition>, j: nat, nodes: seq<Node>)
    requires Prop(key, ListValue(items)) in d.props && j < |items|
    decreases d, 0
  {
    var item := items[j];
    && HasId(item) && RulesOf(item) == []
    && var found := FirstMatch(q, DirectivesOf(item).value.id.value, nodes);
    && found.Some?
    && (KindOf(item).Some? ==> Settled(q, nodes[found.value], item))
  }

  /** A definition the tree already satisfies generates nothing, wherever it is applied. */
  lemma {:induction false} SettledIsSilent(q: Query, node: Node, d: Definition, ctx: Context)
    requires Settled(q, node, d)
    ensures Generated(q, node, d, ctx) == Success([])
    decreases d, 4
  {
    SettledFieldsSilent(q, node, d, ctx, 0);
    ThenNothing(FieldsFrom(q, node, d, ctx, 0));
  }

  lemma {:induction false} SettledFieldsSilent(q: Query, node: Node, d: Definition, ctx: Context, k: nat)
    requires Settled(q, node, d) && k <= |GetDefinitionEntries(d)|
    ensures FieldsFrom(q, node, d, ctx, k) == Success([])
    decreases d, 3, |GetDefinitionEntries(d)| - k
  {
    var entries := GetDefinitionEntries(d);
    if k < |entries| {
      SettledEntrySilent(q, node, d, ctx, entries[k]);
      SettledFieldsSilent(q, node, d, ctx, k + 1);
      FieldsStep(q, node, d, ctx, k);
    }
  }

  lemma FieldsStep(q: Query, node: Node, d: Definition, ctx: Context, k: nat)
    requires k < |GetDefinitionEntries(d)|
    requires FieldInstructions(q, node, d, ctx, GetDefinitionEntries(d)[k]) == Success([])
    requires FieldsFrom(q, node, d, ctx, k + 1) == Success([])
    ensures FieldsFrom(q, node, d, ctx, k) == Success([])
  {
    ThenNothing(Success([]));
  }

  lemma {:induction false} SettledEntrySilent(q: Query, node: Node, d: Definition, ctx: Context, entry: Prop)
    requires entry in d.props && EntrySettled(q, node, d, entry)
    ensures FieldInstructions(q, node, d, ctx, entry) == Success([])
    decreases d, 2
  {
    var f := InstructionsUtils.GetNodeField(node, entry.key).value;
    var v := entry.value;
    if v.ListValue? {
      SettledItemsSilent(q, d, ctx, entry.key, v.items, 0, f.nodes);
      SettledListEntry(q, node, d, ctx, entry);
    } else {
      if v.ObjValue? && HasId(v.def) && KindOf(v.def).Some? {
        SettledIsSilent(q, f.node, v.def, Context(PathOf(ctx.path, [entry.key]), Some(entry.key)));
      }
      SettledScalarEntry(q, node, d, ctx, entry);
    }
  }

  lemma SettledListEntry(q: Query, node: Node, d: Definition, ctx: Context, entry: Prop)
    requires entry in d.props && EntrySettled(q, node, d, entry) && entry.value.ListValue?
    requires ItemsFrom(q, d, ctx, entry.key, entry.value.items, InstructionsUtils.GetNodeField(node, entry.key).value.nodes, 0) == Success([])
    ensures FieldInstructions(q, node, d, ctx, entry) == Success([])
  {
  }

  lemma SettledScalarEntry(q: Query, node: Node, d: Definition, ctx: Context, entry: Prop)
    requires entry in d.props && EntrySettled(q, node, d, entry) && !entry.value.ListValue?
    requires var v := entry.value; v.ObjValue? && HasId(v.def) && KindOf(v.def).Some? ==>
      Generated(q, InstructionsUtils.GetNodeField(node, entry.key).value.node, v.def,
        Context(PathOf(ctx.path, [entry.key]), Some(entry.key))) == Success([])
    ensures FieldInstructions(q, node, d, ctx, entry) == Success([])
  {
  }

  lemma {:induction false} SettledItemsSilent(q: Query, d: Definition, ctx: Context, key: string, items: seq<Definition>, j: nat, nodes: seq<Node>)
    requires Prop(key, ListValue(items)) in d.props && j <= |items|
    requires ItemsSettled(q, d, key, items, nodes, j)
    ensures ItemsFrom(q, d, ctx, key, items, nodes, j) == Success([])
    decreases d, 1, |items| - j
  {
    if j < |items| {
      SettledItemSilent(q, d, ctx, key, items, j, nodes);
      SettledItemsSilent(q, d, ctx, key, items, j + 1, nodes);
      ItemsStep(q, d, ctx, key, items, j, nodes);
    }
  }

  lemma ItemsStep(q: Query, d: Definition, ctx: Context, key: string, items: seq<Definition>, j: nat, nodes: seq<Node>)
    requires Prop(key, ListValue(items)) in d.props && j < |items|
    requires ItemInstructions(q, d, ctx, key, items, j, nodes) == Success([])
    requires ItemsFrom(q, d, ctx, key, items, nodes, j + 1) == Success([])
    ensures ItemsFrom(q, d, ctx, key, items, nodes, j) == Success([])
  {
    ThenNothing(Success([]));
  }

  lemma {:induction false} SettledItemSilent(q: Query, d: Definition, ctx: Context, key: string, items: seq<Definition>, j: nat, nodes: seq<Node>)
    requires Prop(key, ListValue(items)) in d.props && j < |items|
    requires ItemSettled(q, d, key, items, j, nodes)
    ensures ItemInstructions(q, d, ctx, key, items, j, nodes) == Success([])
    decreases d, 0
  {
    var item := items[j];
    var found := FirstMatch(q, DirectivesOf(item).value.id.value, nodes);
    if KindOf(item).Some? {
      SettledIsSilent(q, nodes[found.value], item, Context(PathOf(ctx.path, [key, NatToString(found.value)]), Some(key)));
    }
    assert ItemById(q, d, ctx, key, items, j, nodes) == Success([]);
    ThenNothing(Success([]));
  }
}
