/**
 * Generating instructions: comparing a definition with the syntax tree
 * it describes and compiling the instructions that would make the tree
 * match it.
 */
module Instructions {

  import opened Wrappers
  import opened Syntax
  import opened Text
  import opened Definitions
  import opened Assert
  import InstructionsUtils

  /** A JSONata result seen as a truth value: the boolean `true`, another truthy value, or a falsy one. */
  datatype Truth = True | Truthy | Falsy

  /** What `Number(...)` makes of a JSONata index result. */
  datatype Number = Integer(value: int) | NonInteger(text: string)

  /**
   * The JSONata evaluator, which is not part of this model: `condition(q, n)`
   * evaluates the query `q` against the node `n`, and `index(q, ns)`
   * evaluates the index query `q` against the list `ns`.
   */
  datatype Query = Query(condition: (string, Node) -> Truth, index: (string, seq<Node>) -> Number)

  predicate Holds(t: Truth) { t != Falsy }

  /** Where generation stands: the path of the current node and the field it was reached through. */
  datatype Context = Context(path: string, field: Option<string>)

  /** An optional string taken as a JavaScript truth value. */
  predicate IsTruthy(s: Option<string>) { s.Some? && s.value != "" }

  /** `a || b` on optional strings. */
  function Or(a: Option<string>, b: Option<string>): (r: Option<string>)
    ensures IsTruthy(a) ==> r == a
    ensures !IsTruthy(a) ==> r == b
  {
    if IsTruthy(a) then a else b
  }

  /** `createContext`: the root path unless one is given. */
  function CreateContext(path: Option<string>, field: Option<string>): (c: Context)
    ensures path.None? ==> c.path == ""
    ensures path.Some? ==> c.path == path.value
    ensures c.field == field
  {
    Context(if path.Some? then path.value else PathOf("", []), field)
  }

  // ---------------------------------------------------------------------
  // Paths

  /** One id of `createPath`: an integer as an index, anything else as a property. */
  function Segment(id: string): string
  {
    if ParseInteger(id).Some? then "[" + id + "]" else "." + id
  }

  /** The ids appended one after another to `acc`, as the loop of `createPath` does. */
  function Appended(acc: string, ids: seq<string>): (r: string)
    ensures |r| >= |acc| && r[..|acc|] == acc
    decreases |ids|
  {
    if ids == [] then acc else Appended(acc + Segment(ids[0]), ids[1..])
  }

  /** The path `createPath(id, ...ids)` computes. */
  function PathOf(id: string, ids: seq<string>): (p: string)
    ensures p == [] || p[0] != '.'
  {
    StripLeadingDots(Appended(id, ids))
  }

  /** `createPath`: appends each id as an index or a property, then drops leading dots. */
  method CreatePath(id: string, ids: seq<string>) returns (path: string)
    ensures path == PathOf(id, ids)
    ensures path == [] || path[0] != '.'
  {
    var newId := id;
    for k := 0 to |ids|
      invariant Appended(newId, ids[k..]) == Appended(id, ids)
    {
      assert ids[k..][1..] == ids[k + 1..];
      var segment;
      if ParseInteger(ids[k]).Some? {
        segment := "[" + ids[k] + "]";
      } else {
        segment := "." + ids[k];
      }
      newId := newId + segment;
    }
    path := StripLeadingDots(newId);
  }

  lemma CreatePathRoot()
    ensures PathOf("", []) == ""
  {
  }

  lemma CreatePathIndex()
    ensures PathOf("", ["statements", "0"]) == "statements[0]"
  {
    AppendedIndexExample();
    StripIndexExample();
  }

  lemma AppendedIndexExample()
    ensures Appended("", ["statements", "0"]) == ".statements[0]"
  {
    var ids := ["statements", "0"];
    assert ParseInteger("statements") == None;
    assert Segment("statements") == ".statements" && "" + ".statements" == ".statements";
    assert ids[0] == "statements" && ids[1..] == ["0"];
    assert Appended("", ids) == Appended(".statements", ["0"]);
    assert ParseInteger("0") == Some(0);
    assert Segment("0") == "[0]" && ".statements" + "[0]" == ".statements[0]";
    assert ["0"][0] == "0" && ["0"][1..] == [];
  }

  lemma StripIndexExample()
    ensures StripLeadingDots(".statements[0]") == "statements[0]"
  {
    assert ".statements[0]"[1..] == "statements[0]";
  }

  lemma CreatePathProperty()
    ensures PathOf("statements[0]", ["type"]) == "statements[0].type"
  {
    assert ParseInteger("type") == None;
    assert Segment("type") == ".type" && "statements[0]" + ".type" == "statements[0].type";
    assert ["type"][0] == "type" && ["type"][1..] == [];
    assert Appended("statements[0]", ["type"]) == "statements[0].type";
  }

  /** A path that does not start with a dot is a prefix of every path built from it. */
  lemma PathOfExtends(id: string, ids: seq<string>)
    ensures !StartsWithDot(id) ==> id <= PathOf(id, ids)
  {
    var s := Appended(id, ids);
    if id != "" && !StartsWithDot(id) {
      assert s[0] == id[0];
    }
  }

  // ---------------------------------------------------------------------
  // Compiling instructions

  /** The entries of a definition other than `kind` and `__instructions`, in order. */
  function GetDefinitionEntries(d: Definition): (r: seq<Prop>)
    ensures forall p | p in r :: p in d.props && p.key != KindKey && p.key != DirectivesKey
    ensures forall p | p in d.props && p.key != KindKey && p.key != DirectivesKey :: p in r
  {
    Without(Without(d.props, KindKey), DirectivesKey)
  }

  /** The entry filter keeps the order of the entries it keeps. */
  lemma {:induction false} WithoutConcat(a: seq<Prop>, b: seq<Prop>, key: string)
    ensures Without(a + b, key) == Without(a, key) + Without(b, key)
  {
    if a != [] {
      WithoutConcat(a[1..], b, key);
      if a[0].key == key {
        WithoutConsDropped(a, b, key);
      } else {
        WithoutConsKept(a, b, key);
      }
    } else {
      assert a + b == b;
    }
  }

  lemma WithoutConsDropped(a: seq<Prop>, b: seq<Prop>, key: string)
    requires a != [] && a[0].key == key
    requires Without(a[1..] + b, key) == Without(a[1..], key) + Without(b, key)
    ensures Without(a + b, key) == Without(a, key) + Without(b, key)
  {
    PropsTail(a, b);
  }

  lemma WithoutConsKept(a: seq<Prop>, b: seq<Prop>, key: string)
    requires a != [] && a[0].key != key
    requires Without(a[1..] + b, key) == Without(a[1..], key) + Without(b, key)
    ensures Without(a + b, key) == Without(a, key) + Without(b, key)
  {
    PropsTail(a, b);
    assert Without(a + b, key) == [a[0]] + Without(a[1..] + b, key);
    PropsAssoc([a[0]], Without(a[1..], key), Without(b, key));
  }

  lemma PropsTail(a: seq<Prop>, b: seq<Prop>)
    requires a != []
    ensures a + b != [] && (a + b)[0] == a[0] && (a + b)[1..] == a[1..] + b
  {
  }

  lemma PropsAssoc(a: seq<Prop>, b: seq<Prop>, c: seq<Prop>)
    ensures (a + b) + c == a + (b + c)
  {
  }

  /** The value handed to `compileInstructions`: one (possibly missing) value, or a list of them. */
  datatype Payload = Item(value: Option<Value>) | Items(items: seq<Option<Definition>>)

  function CannotDestructure(name: string): Error
  {
    Error(TypeError, "Cannot destructure property '__instructions' of '" + name + "' as it is undefined.")
  }

  /** No payload carries directives; only REMOVE and UNSET lack a payload; ADD, SET and UNSET carry no index. */
  predicate WellShaped(i: Instruction)
  {
    && (i.definition.None? <==> i.op in {REMOVE, UNSET})
    && (i.definition.Some? ==> DirectivesOf(i.definition.value).None?)
    && (i.op in {ADD, SET, UNSET} ==> i.index.None?)
  }

  predicate AllWellShaped(r: Result<seq<Instruction>, Error>)
  {
    r.Success? ==> forall i | 0 <= i < |r.value| :: WellShaped(r.value[i])
  }

  /** The instruction `compileDefaultNodeArrayInstructions` makes for one list item. */
  function ArrayInstruction(path: string, item: Option<Definition>, field: Option<string>,
                            instructionType: Option<InstructionType>, index: Option<int>): (r: Result<Instruction, Error>)
    ensures r.Success? <==> instructionType == Some(REMOVE) || item.Some?
    ensures r.Success? && instructionType != Some(UNSET) ==> WellShaped(r.value)
  {
    if instructionType == Some(INSERT) || instructionType == Some(REPLACE) then
      if item.None? then Failure(CannotDestructure("definitionItem"))
      else Success(Instruction(instructionType.value, path, field, Some(Strip(item.value)), index))
    else if instructionType == Some(REMOVE) then
      Success(Instruction(REMOVE, path, field, None, index))
    else if item.None? then Failure(CannotDestructure("definitionItem"))
    else Success(Instruction(if instructionType.Some? then instructionType.value else ADD, path, field, Some(Strip(item.value)), None))
  }

  /**
   * `compileDefaultNodeArrayInstructions`: one instruction per list item, in
   * order, of the given type (ADD by default), each carrying its item less
   * its directives; REMOVE carries no item.
   */
  function CompileDefaultNodeArrayInstructions(path: string, items: seq<Option<Definition>>, field: Option<string>,
                                               instructionType: Option<InstructionType>, index: Option<int>)
    : (r: Result<seq<Instruction>, Error>)
    ensures r.Success? <==> instructionType == Some(REMOVE) || forall j | 0 <= j < |items| :: items[j].Some?
    ensures r.Success? ==> |r.value| == |items|
    ensures r.Success? ==> forall j | 0 <= j < |items| ::
      && r.value[j].op == (if instructionType.Some? then instructionType.value else ADD)
      && r.value[j].path == path && r.value[j].field == field
      && r.value[j].definition == (if instructionType == Some(REMOVE) then None else Some(Strip(items[j].value)))
      && r.value[j].index == (if instructionType.Some? && instructionType.value in {INSERT, REPLACE, REMOVE} then index else None)
    ensures instructionType != Some(UNSET) ==> AllWellShaped(r)
  {
    if items == [] then Success([])
    else
      var first :- ArrayInstruction(path, items[0], field, instructionType, index);
      var rest :- CompileDefaultNodeArrayInstructions(path, items[1..], field, instructionType, index);
      Success([first] + rest)
  }

  /**
   * `compileDefaultNodeInstructions`: one SET (the default) carrying the
   * value less its directives, or one UNSET; any other type is rejected.
   */
  function CompileDefaultNodeInstructions(path: string, value: Option<Value>, field: Option<string>,
                                          instructionType: Option<InstructionType>): (r: Result<seq<Instruction>, Error>)
    ensures instructionType in {None, Some(SET)} && value.Some? ==>
      r == Success([Instruction(SET, path, field, Some(StripValue(value.value)), None)])
    ensures instructionType == Some(UNSET) ==> r == Success([Instruction(UNSET, path, field, None, None)])
    ensures instructionType.Some? && instructionType.value !in {SET, UNSET} ==>
      r == Failure(AssertNever(InstructionTypeName(instructionType.value)))
    ensures AllWellShaped(r)
  {
    var t := if instructionType.Some? then instructionType.value else SET;
    match t
    case SET =>
      if value.None? then Failure(CannotDestructure("definitionWithInstructions"))
      else Success([Instruction(SET, path, field, Some(StripValue(value.value)), None)])
    case UNSET => Success([Instruction(UNSET, path, field, None, None)])
    case _ => Failure(AssertNever(InstructionTypeName(t)))
  }

  /** `compileInstructions`: a list compiles item by item, anything else as a single node. */
  function CompileInstructions(path: string, payload: Payload, field: Option<string>,
                               instructionType: Option<InstructionType>, index: Option<int>): (r: Result<seq<Instruction>, Error>)
    ensures payload.Items? ==> r == CompileDefaultNodeArrayInstructions(path, payload.items, field, instructionType, index)
    ensures payload.Item? ==> r == CompileDefaultNodeInstructions(path, payload.value, field, instructionType)
    ensures !(payload.Items? && instructionType == Some(UNSET)) ==> AllWellShaped(r)
    ensures r.Success? ==> forall i | 0 <= i < |r.value| :: r.value[i].path == path
  {
    match payload
    case Items(items) => CompileDefaultNodeArrayInstructions(path, items, field, instructionType, index)
    case Item(value) => CompileDefaultNodeInstructions(path, value, field, instructionType)
  }

  /** A single item with no instruction type compiles to one ADD carrying it less its directives. */
  lemma CompileSingleAdd(path: string, item: Definition, field: Option<string>)
    ensures CompileDefaultNodeArrayInstructions(path, [Some(item)], field, None, None)
      == Success([Instruction(ADD, path, field, Some(Strip(item)), None)])
  {
    var add := Instruction(ADD, path, field, Some(Strip(item)), None);
    assert [Some(item)][1..] == [];
    assert ArrayInstruction(path, Some(item), field, None, None) == Success(add);
    assert CompileDefaultNodeArrayInstructions(path, [], field, None, None) == Success([]);
    assert [add] + [] == [add];
  }

  // ---------------------------------------------------------------------
  // Rules

  /** Every instruction's path has `prefix` as a prefix. */
  predicate AllUnder(r: Result<seq<Instruction>, Error>, prefix: string)
  {
    r.Success? ==> forall i | 0 <= i < |r.value| :: prefix <= r.value[i].path
  }

  lemma ThenUnder(first: Result<seq<Instruction>, Error>, rest: Result<seq<Instruction>, Error>, prefix: string)
    ensures AllUnder(first, prefix) && AllUnder(rest, prefix) ==> AllUnder(Then(first, rest), prefix)
  {
    if first.Success? && rest.Success? && AllUnder(first, prefix) && AllUnder(rest, prefix) {
      var r := Then(first, rest).value;
      forall i | 0 <= i < |r| ensures prefix <= r[i].path {
        if i < |first.value| { assert r[i] == first.value[i]; } else { assert r[i] == rest.value[i - |first.value|]; }
      }
    }
  }

  lemma UnderWider(r: Result<seq<Instruction>, Error>, shorter: string, longer: string)
    ensures shorter <= longer && AllUnder(r, longer) ==> AllUnder(r, shorter)
  {
    if r.Success? && shorter <= longer && AllUnder(r, longer) {
      forall i | 0 <= i < |r.value| ensures shorter <= r.value[i].path {
        assert r.value[i].path[..|longer|] == longer;
        assert r.value[i].path[..|shorter|] == longer[..|shorter|];
      }
    }
  }

  /** `findIndex` with a JSONata condition: the first node it holds for. */
  function FirstMatch(q: Query, condition: string, nodes: seq<Node>): (r: Option<nat>)
    ensures r.Some? ==> r.value < |nodes| && Holds(q.condition(condition, nodes[r.value]))
    ensures r.Some? ==> forall j | 0 <= j < r.value :: !Holds(q.condition(condition, nodes[j]))
    ensures r.None? ==> forall j | 0 <= j < |nodes| :: !Holds(q.condition(condition, nodes[j]))
  {
    if nodes == [] then None
    else if Holds(q.condition(condition, nodes[0])) then Some(0)
    else match FirstMatch(q, condition, nodes[1..])
      case None => None
      case Some(j) => Some(j + 1)
  }

  function NumberText(n: Number): string
  {
    match n
    case Integer(v) => IntToString(v)
    case NonInteger(text) => text
  }

  function IndexOutOfRange(rule: Rule, length: nat, result: Number): Error
  {
    Error(TypeError, "Invalid index for " + InstructionTypeName(rule.instruction)
      + ", must be integer less than or equal to the array length (" + NatToString(length) + "); got " + NumberText(result))
  }

  function IndexNotAnElement(rule: Rule, result: int): Error
  {
    Error(TypeError, "Invalid index for " + InstructionTypeName(rule.instruction)
      + "; must be a valid array index integer; got " + IntToString(result))
  }

  /**
   * `shouldGetRuleIndex`: a query index must evaluate to an integer no
   * larger than the list's length, and strictly smaller for REPLACE and
   * REMOVE; a literal index is used as it is; REMOVE without an index
   * removes the node the rule matched.
   */
  function ShouldGetRuleIndex(q: Query, rule: Rule, nodes: seq<Node>, nodeIndex: nat): (r: Result<Option<int>, Error>)
    ensures rule.index.Some? && rule.index.value.Expression? ==>
      var result := q.index(rule.index.value.query, nodes);
      && (r.Success? <==>
            result.Integer? && result.value <= |nodes|
            && !(result.value == |nodes| && rule.instruction in {REPLACE, REMOVE}))
      && (r.Success? ==> r.value == Some(result.value))
      && (r.Failure? ==> r.error.errorType == TypeError)
    ensures rule.index.Some? && rule.index.value.Literal? ==> r == Success(Some(rule.index.value.position))
    ensures rule.index.None? ==> r == Success(if rule.instruction == REMOVE then Some(nodeIndex) else None)
  {
    match rule.index
    case Some(Expression(query)) =>
      var result := q.index(query, nodes);
      if result.NonInteger? || result.value > |nodes| then Failure(IndexOutOfRange(rule, |nodes|, result))
      else if result.value == |nodes| && (rule.instruction == REPLACE || rule.instruction == REMOVE) then
        Failure(IndexNotAnElement(rule, result.value))
      else Success(Some(result.value))
    case Some(Literal(position)) => Success(Some(position))
    case None => Success(if rule.instruction == REMOVE then Some(nodeIndex) else None)
  }

  /** INSERT may target the position just past the last node; REPLACE and REMOVE may not. */
  lemma RuleIndexAtLength(q: Query, rule: Rule, nodes: seq<Node>, nodeIndex: nat)
    requires rule.index.Some? && rule.index.value.Expression?
    requires q.index(rule.index.value.query, nodes) == Integer(|nodes|)
    ensures rule.instruction == INSERT ==> ShouldGetRuleIndex(q, rule, nodes, nodeIndex) == Success(Some(|nodes|))
    ensures rule.instruction in {REPLACE, REMOVE} ==>
      ShouldGetRuleIndex(q, rule, nodes, nodeIndex) == Failure(IndexNotAnElement(rule, |nodes|))
  {
  }

  /** Nodes a rule or an id condition is evaluated against: the root node, or a list field's nodes. */
  datatype Target = Single(node: Node) | Several(nodes: seq<Node>)

  /** The instructions one matched rule compiles to, once its target path and index are known. */
  function RuleCompile(d: Definition, rule: Rule, ctx: Context, nextPath: string, index: Option<int>): (r: Result<seq<Instruction>, Error>)
    ensures AllWellShaped(r)
    ensures ctx.path <= nextPath ==> AllUnder(r, ctx.path)
  {
    if rule.instruction == UNSET then
      CompileInstructions(nextPath, Item(None), rule.field, Some(UNSET), None)
    else if rule.instruction == REMOVE then
      CompileInstructions(nextPath, Items([None]), rule.field, Some(REMOVE), index)
    else
      CompileInstructions(ctx.path, Items([Some(d)]), Or(rule.field, ctx.field), Some(rule.instruction), index)
  }

  /**
   * The instructions of one rule. Over a list the rule applies when some
   * node satisfies its condition and the field is known; at the root it
   * applies when the condition is exactly `true`.
   */
  function RuleOutcome(q: Query, d: Definition, target: Target, ctx: Context, rule: Rule): (r: Result<seq<Instruction>, Error>)
    ensures AllWellShaped(r)
    ensures !StartsWithDot(ctx.path) ==> AllUnder(r, ctx.path)
  {
    match target
    case Several(nodes) =>
      var found := FirstMatch(q, rule.condition, nodes);
      if IsTruthy(ctx.field) && found.Some? then
        var index :- ShouldGetRuleIndex(q, rule, nodes, found.value);
        PathOfExtends(ctx.path, [ctx.field.value, NatToString(found.value)]);
        RuleCompile(d, rule, ctx, PathOf(ctx.path, [ctx.field.value, NatToString(found.value)]), index)
      else Success([])
    case Single(node) =>
      if q.condition(rule.condition, node) == True then RuleCompile(d, rule, ctx, ctx.path, None)
      else Success([])
  }

  /** Running one computation after another: the first error wins, otherwise the instructions concatenate. */
  function Then(first: Result<seq<Instruction>, Error>, rest: Result<seq<Instruction>, Error>): (r: Result<seq<Instruction>, Error>)
    ensures r.Success? <==> first.Success? && rest.Success?
    ensures r.Success? ==> r.value == first.value + rest.value
    ensures first.Failure? ==> r == first
    ensures first.Success? && rest.Failure? ==> r == Failure(rest.error)
    ensures AllWellShaped(first) && AllWellShaped(rest) ==> AllWellShaped(r)
  {
    match first
    case Failure(e) => Failure(e)
    case Success(a) =>
      match rest
      case Failure(e) => Failure(e)
      case Success(b) => Success(a + b)
  }

  lemma ThenNothing(x: Result<seq<Instruction>, Error>)
    ensures Then(Success([]), x) == x
    ensures Then(x, Success([])) == x
  {
    if x.Success? {
      assert [] + x.value == x.value && x.value + [] == x.value;
    }
  }

  lemma ThenAssoc(a: seq<Instruction>, x: Result<seq<Instruction>, Error>, y: Result<seq<Instruction>, Error>)
    ensures Then(Success(a), Then(x, y)) == Then(Then(Success(a), x), y)
  {
    if x.Success? && y.Success? {
      assert a + (x.value + y.value) == (a + x.value) + y.value;
    }
  }

  function RulesFrom(q: Query, d: Definition, target: Target, ctx: Context, rules: seq<Rule>, i: nat): (r: Result<seq<Instruction>, Error>)
    requires i <= |rules|
    ensures AllWellShaped(r)
    ensures !StartsWithDot(ctx.path) ==> AllUnder(r, ctx.path)
    decreases |rules| - i
  {
    if i == |rules| then Success([])
    else
      ThenUnder(RuleOutcome(q, d, target, ctx, rules[i]), RulesFrom(q, d, target, ctx, rules, i + 1), ctx.path);
      Then(RuleOutcome(q, d, target, ctx, rules[i]), RulesFrom(q, d, target, ctx, rules, i + 1))
  }

  /** The rules of a definition's directives, if it has any. */
  function RulesOf(d: Definition): seq<Rule>
  {
    if DirectivesOf(d).Some? && DirectivesOf(d).value.rules.Some? then DirectivesOf(d).value.rules.value else []
  }

  /** The instructions `shouldGenerateInstructionsFromRules` returns: each rule's, in order. */
  function RuleInstructions(q: Query, d: Definition, target: Target, ctx: Context): (r: Result<seq<Instruction>, Error>)
    ensures RulesOf(d) == [] ==> r == Success([])
    ensures AllWellShaped(r)
    ensures !StartsWithDot(ctx.path) ==> AllUnder(r, ctx.path)
  {
    RulesFrom(q, d, target, ctx, RulesOf(d), 0)
  }

  /** `shouldGenerateInstructionsFromRules` */
  method ShouldGenerateInstructionsFromRules(q: Query, d: Definition, target: Target, ctx: Context)
    returns (r: Result<seq<Instruction>, Error>)
    ensures r == RuleInstructions(q, d, target, ctx)
  {
    var rules := RulesOf(d);
    if |rules| == 0 {
      return Success([]);
    }
    var instructions: seq<Instruction> := [];
    ThenNothing(RulesFrom(q, d, target, ctx, rules, 0));
    for i := 0 to |rules|
      invariant RuleInstructions(q, d, target, ctx) == Then(Success(instructions), RulesFrom(q, d, target, ctx, rules, i))
    {
      var rule := rules[i];
      var nextPath: Option<string> := None;
      var index: Option<int> := None;
      match target {
        case Several(nodes) =>
          var found := FirstMatch(q, rule.condition, nodes);
          if IsTruthy(ctx.field) && found.Some? {
            var ruleIndex := ShouldGetRuleIndex(q, rule, nodes, found.value);
            if ruleIndex.Failure? {
              return Failure(ruleIndex.error);
            }
            index := ruleIndex.value;
            var p := CreatePath(ctx.path, [ctx.field.value, NatToString(found.value)]);
            nextPath := Some(p);
          }
        case Single(node) =>
          if q.condition(rule.condition, node) == True {
            nextPath := Some(ctx.path);
          }
      }
      var compiled: Result<seq<Instruction>, Error> := Success([]);
      if nextPath.Some? {
        if rule.instruction == UNSET {
          compiled := CompileInstructions(nextPath.value, Item(None), rule.field, Some(UNSET), None);
        } else if rule.instruction == REMOVE {
          compiled := CompileInstructions(nextPath.value, Items([None]), rule.field, Some(REMOVE), index);
        } else {
          compiled := CompileInstructions(ctx.path, Items([Some(d)]), Or(rule.field, ctx.field), Some(rule.instruction), index);
        }
      }
      assert compiled == RuleOutcome(q, d, target, ctx, rule);
      if compiled.Failure? {
        return Failure(compiled.error);
      }
      ThenAssoc(instructions, compiled, RulesFrom(q, d, target, ctx, rules, i + 1));
      instructions := instructions + compiled.value;
    }
    assert instructions + [] == instructions;
    return Success(instructions);
  }

  /** A rule whose condition no node satisfies contributes nothing, whatever its index would evaluate to. */
  lemma UnmatchedRuleIsSilent(q: Query, d: Definition, nodes: seq<Node>, ctx: Context, rule: Rule)
    requires forall j | 0 <= j < |nodes| :: !Holds(q.condition(rule.condition, nodes[j]))
    ensures RuleOutcome(q, d, Several(nodes), ctx, rule) == Success([])
  {
  }

  /**
   * A rule that some node of the list satisfies compiles to exactly one
   * instruction of the rule's type: UNSET and REMOVE aim at the matched
   * node under the rule's field, every other type at the current path
   * under the rule's field or else the current one, carrying the
   * definition less its directives.
   */
  lemma MatchedListRule(q: Query, d: Definition, nodes: seq<Node>, ctx: Context, rule: Rule, i: nat)
    requires IsTruthy(ctx.field)
    requires FirstMatch(q, rule.condition, nodes) == Some(i)
    requires ShouldGetRuleIndex(q, rule, nodes, i).Success?
    ensures var index := ShouldGetRuleIndex(q, rule, nodes, i).value;
      var r := RuleOutcome(q, d, Several(nodes), ctx, rule);
      && r.Success? && |r.value| == 1
      && r.value[0].op == rule.instruction
      && (rule.instruction in {UNSET, REMOVE} ==>
            && r.value[0].path == PathOf(ctx.path, [ctx.field.value, NatToString(i)])
            && r.value[0].field == rule.field
            && r.value[0].definition == None)
      && (rule.instruction !in {UNSET, REMOVE} ==>
            && r.value[0].path == ctx.path
            && r.value[0].field == Or(rule.field, ctx.field)
            && r.value[0].definition == Some(Strip(d)))
      && r.value[0].index == (if rule.instruction in {INSERT, REPLACE, REMOVE} then index else None)
  {
    var index := ShouldGetRuleIndex(q, rule, nodes, i).value;
    var nextPath := PathOf(ctx.path, [ctx.field.value, NatToString(i)]);
    if rule.instruction == UNSET {
      assert RuleOutcome(q, d, Several(nodes), ctx, rule) == Success([Instruction(UNSET, nextPath, rule.field, None, None)]);
    } else if rule.instruction == REMOVE {
      assert RuleOutcome(q, d, Several(nodes), ctx, rule) == CompileDefaultNodeArrayInstructions(nextPath, [None], rule.field, Some(REMOVE), index);
    } else {
      assert RuleOutcome(q, d, Several(nodes), ctx, rule)
        == CompileDefaultNodeArrayInstructions(ctx.path, [Some(d)], Or(rule.field, ctx.field), Some(rule.instruction), index);
    }
  }

  /**
   * A condition that yields a truthy value other than `true` fires a rule
   * over a list, but not a rule at the root, which needs exactly `true`.
   */
  lemma TruthyFiresOnlyOverLists(q: Query, d: Definition, node: Node, ctx: Context, rule: Rule)
    requires q.condition(rule.condition, node) == Truthy
    ensures RuleOutcome(q, d, Single(node), ctx, rule) == Success([])
    ensures FirstMatch(q, rule.condition, [node]) == Some(0)
  {
  }

  /**
   * A rule at the root whose condition is exactly `true` yields its one
   * instruction at the current path, with no index: UNSET and REMOVE name
   * the rule's field and carry nothing, the others name the rule's field
   * or the current one and carry the definition without its policy.
   */
  lemma RootRuleFires(q: Query, d: Definition, node: Node, ctx: Context, rule: Rule)
    requires q.condition(rule.condition, node) == True
    ensures var r := RuleOutcome(q, d, Single(node), ctx, rule);
      && r.Success? && |r.value| == 1
      && r.value[0].op == rule.instruction
      && r.value[0].path == ctx.path
      && r.value[0].index == None
      && (rule.instruction in {UNSET, REMOVE} ==>
            r.value[0].field == rule.field && r.value[0].definition == None)
      && (rule.instruction !in {UNSET, REMOVE} ==>
            r.value[0].field == Or(rule.field, ctx.field) && r.value[0].definition == Some(Strip(d)))
  {
    if rule.instruction == UNSET {
      assert RuleOutcome(q, d, Single(node), ctx, rule) == Success([Instruction(UNSET, ctx.path, rule.field, None, None)]);
    } else if rule.instruction == REMOVE {
      assert RuleOutcome(q, d, Single(node), ctx, rule) == CompileDefaultNodeArrayInstructions(ctx.path, [None], rule.field, Some(REMOVE), None);
    } else {
      assert RuleOutcome(q, d, Single(node), ctx, rule)
        == CompileDefaultNodeArrayInstructions(ctx.path, [Some(d)], Or(rule.field, ctx.field), Some(rule.instruction), None);
    }
  }

  /** A rule at the root yields nothing unless its condition is exactly `true`, whether falsy or merely truthy. */
  lemma RootRuleSilentUnlessTrue(q: Query, d: Definition, node: Node, ctx: Context, rule: Rule)
    requires q.condition(rule.condition, node) != True
    ensures RuleOutcome(q, d, Single(node), ctx, rule) == Success([])
  {
  }

  // ---------------------------------------------------------------------
  // Generating

  /** The items of a list, each present. */
  function Present(items: seq<Definition>): (r: seq<Option<Definition>>)
    ensures |r| == |items|
    ensures forall j | 0 <= j < |items| :: r[j] == Some(items[j])
  {
    if items == [] then [] else [Some(items[0])] + Present(items[1..])
  }

  /** What `compileInstructions` receives for a definition value: a list as a list, anything else as one value. */
  function PayloadOf(v: Value): (p: Payload)
    ensures v.ListValue? ==> p == Items(Present(v.items))
    ensures !v.ListValue? ==> p == Item(Some(v))
  {
    if v.ListValue? then Items(Present(v.items)) else Item(Some(v))
  }

  /**
   * `generateInstructions`: the definition must be of the node's kind; at
   * the root its rules are evaluated against the node; then each of its
   * entries is compared with the node's field of the same name, in order.
   */
  function Generated(q: Query, node: Node, d: Definition, ctx: Context): (r: Result<seq<Instruction>, Error>)
    ensures KindOf(d) != Some(node.kind) ==> r.Failure? && r.error.errorType == AssertionError
    ensures AllWellShaped(r)
    ensures !StartsWithDot(ctx.path) ==> AllUnder(r, ctx.path)
    decreases d, 5
  {
    var check := AssertDefinitionKind(d, node.kind);
    if check.Fail? then Failure(check.error)
    else
      var root := if !IsTruthy(ctx.field) then RuleInstructions(q, d, Single(node), ctx) else Success([]);
      ThenUnder(root, FieldsFrom(q, node, d, ctx, 0), ctx.path);
      Then(root, FieldsFrom(q, node, d, ctx, 0))
  }

  /** The instructions of the entries from the `k`th on. */
  function FieldsFrom(q: Query, node: Node, d: Definition, ctx: Context, k: nat): (r: Result<seq<Instruction>, Error>)
    requires k <= |GetDefinitionEntries(d)|
    ensures AllWellShaped(r)
    ensures !StartsWithDot(ctx.path) ==> AllUnder(r, ctx.path)
    decreases d, 4, |GetDefinitionEntries(d)| - k
  {
    var entries := GetDefinitionEntries(d);
    if k == |entries| then Success([])
    else
      ThenUnder(FieldInstructions(q, node, d, ctx, entries[k]), FieldsFrom(q, node, d, ctx, k + 1), ctx.path);
      Then(FieldInstructions(q, node, d, ctx, entries[k]), FieldsFrom(q, node, d, ctx, k + 1))
  }

  /**
   * One entry: a field the node lacks is compiled outright (one ADD per
   * list item, or one SET); a list is compared item by item with the
   * node's list; any other value only when it carries an id.
   */
  function FieldInstructions(q: Query, node: Node, d: Definition, ctx: Context, entry: Prop): (r: Result<seq<Instruction>, Error>)
    requires entry in d.props
    ensures AllWellShaped(r)
    ensures !StartsWithDot(ctx.path) ==> AllUnder(r, ctx.path)
    decreases d, 3
  {
    var nodes :- InstructionsUtils.GetNodeField(node, entry.key);
    if !IsDefined(nodes) then CompileInstructions(ctx.path, PayloadOf(entry.value), Some(entry.key), None, None)
    else if entry.value.ListValue? then
      var check := AssertArray(nodes);
      if check.Fail? then Failure(check.error)
      else ItemsFrom(q, d, ctx, entry.key, entry.value.items, nodes.nodes, 0)
    else
      var check := AssertNotArray(nodes);
      if check.Fail? then Failure(check.error)
      else ScalarInstructions(q, d, ctx, entry.key, entry.value, nodes.node)
  }

  /** The instructions of the list items from the `j`th on. */
  function ItemsFrom(q: Query, d: Definition, ctx: Context, key: string, items: seq<Definition>, nodes: seq<Node>, j: nat)
    : (r: Result<seq<Instruction>, Error>)
    requires Prop(key, ListValue(items)) in d.props && j <= |items|
    ensures AllWellShaped(r)
    ensures !StartsWithDot(ctx.path) ==> AllUnder(r, ctx.path)
    decreases d, 2, |items| - j
  {
    if j == |items| then Success([])
    else
      ThenUnder(ItemInstructions(q, d, ctx, key, items, j, nodes), ItemsFrom(q, d, ctx, key, items, nodes, j + 1), ctx.path);
      Then(ItemInstructions(q, d, ctx, key, items, j, nodes), ItemsFrom(q, d, ctx, key, items, nodes, j + 1))
  }

  /**
   * One list item: without directives it is added; with an id it is
   * added when no node satisfies the id, or compared with the first node
   * that does; its rules are then evaluated against the node list.
   */
  function ItemInstructions(q: Query, d: Definition, ctx: Context, key: string, items: seq<Definition>, j: nat, nodes: seq<Node>)
    : (r: Result<seq<Instruction>, Error>)
    requires Prop(key, ListValue(items)) in d.props && j < |items|
    ensures AllWellShaped(r)
    ensures !StartsWithDot(ctx.path) ==> AllUnder(r, ctx.path)
    decreases d, 1
  {
    var item := items[j];
    var defaults :=
      if DirectivesOf(item).None? then CompileDefaultNodeArrayInstructions(ctx.path, [Some(item)], Some(key), None, None)
      else Success([]);
    var byId := ItemById(q, d, ctx, key, items, j, nodes);
    var rules := RuleInstructions(q, item, Several(nodes), Context(ctx.path, Some(key)));
    ThenUnder(byId, rules, ctx.path);
    ThenUnder(defaults, Then(byId, rules), ctx.path);
    Then(defaults, Then(byId, rules))
  }

  /** The id of a list item: added when no node satisfies it, compared with the first node that does. */
  function ItemById(q: Query, d: Definition, ctx: Context, key: string, items: seq<Definition>, j: nat, nodes: seq<Node>)
    : (r: Result<seq<Instruction>, Error>)
    requires Prop(key, ListValue(items)) in d.props && j < |items|
    ensures AllWellShaped(r)
    ensures !StartsWithDot(ctx.path) ==> AllUnder(r, ctx.path)
    ensures !HasId(items[j]) ==> r == Success([])
    decreases d, 0
  {
    var item := items[j];
    if !HasId(item) then Success([])
    else
      match FirstMatch(q, DirectivesOf(item).value.id.value, nodes)
      case None => CompileInstructions(ctx.path, Items([Some(item)]), Some(key), None, None)
      case Some(i) =>
        if IsDefinition(ObjValue(item)) then
          var nested := Generated(q, nodes[i], item, Context(PathOf(ctx.path, [key, NatToString(i)]), Some(key)));
          PathOfExtends(ctx.path, [key, NatToString(i)]);
          UnderWider(nested, ctx.path, PathOf(ctx.path, [key, NatToString(i)]));
          nested
        else Success([])
  }

  /**
   * A value other than a list: a nested definition with an id is compared
   * with the node when the id holds for it, and set when it does not;
   * anything else contributes nothing.
   */
  function ScalarInstructions(q: Query, d: Definition, ctx: Context, key: string, v: Value, n: Node)
    : (r: Result<seq<Instruction>, Error>)
    requires Prop(key, v) in d.props
    ensures AllWellShaped(r)
    ensures !StartsWithDot(ctx.path) ==> AllUnder(r, ctx.path)
    decreases d, 0
  {
    if v.ObjValue? && HasId(v.def) then
      if !Holds(q.condition(DirectivesOf(v.def).value.id.value, n)) then
        CompileInstructions(ctx.path, Item(Some(v)), Some(key), None, None)
      else if IsDefinition(v) then
        var nested := Generated(q, n, v.def, Context(PathOf(ctx.path, [key]), Some(key)));
        PathOfExtends(ctx.path, [key]);
        UnderWider(nested, ctx.path, PathOf(ctx.path, [key]));
        nested
      else Success([])
    else Success([])
  }

  /** `generateInstructions`: the root rules, then the entries one by one. */
  method GenerateInstructions(q: Query, node: Node, d: Definition, ctx: Context) returns (r: Result<seq<Instruction>, Error>)
    ensures r == Generated(q, node, d, ctx)
    decreases d, 3
  {
    var check := AssertDefinitionKind(d, node.kind);
    if check.Fail? {
      return Failure(check.error);
    }
    var instructions: seq<Instruction> := [];
    if !IsTruthy(ctx.field) {
      var root := ShouldGenerateInstructionsFromRules(q, d, Single(node), ctx);
      if root.Failure? {
        return Failure(root.error);
      }
      instructions := root.value;
    }
    ThenNothing(FieldsFrom(q, node, d, ctx, 0));
    var entries := GetDefinitionEntries(d);
    for k := 0 to |entries|
      invariant Generated(q, node, d, ctx) == Then(Success(instructions), FieldsFrom(q, node, d, ctx, k))
    {
      var field := GenerateFieldInstructions(q, node, d, ctx, entries[k]);
      if field.Failure? {
        return Failure(field.error);
      }
      ThenAssoc(instructions, field, FieldsFrom(q, node, d, ctx, k + 1));
      instructions := instructions + field.value;
    }
    assert instructions + [] == instructions;
    return Success(instructions);
  }

  /** The body of the entry loop of `generateInstructions`, for one entry. */
  method GenerateFieldInstructions(q: Query, node: Node, d: Definition, ctx: Context, entry: Prop)
    returns (r: Result<seq<Instruction>, Error>)
    requires entry in d.props
    ensures r == FieldInstructions(q, node, d, ctx, entry)
    decreases d, 2
  {
    var nodes := InstructionsUtils.GetNodeField(node, entry.key);
    if nodes.Failure? {
      return Failure(nodes.error);
    }
    var field := nodes.value;
    if !IsDefined(field) {
      return CompileInstructions(ctx.path, PayloadOf(entry.value), Some(entry.key), None, None);
    }
    if entry.value.ListValue? {
      var check := AssertArray(field);
      if check.Fail? {
        return Failure(check.error);
      }
      var items := entry.value.items;
      var instructions: seq<Instruction> := [];
      ThenNothing(ItemsFrom(q, d, ctx, entry.key, items, field.nodes, 0));
      for j := 0 to |items|
        invariant FieldInstructions(q, node, d, ctx, entry) == Then(Success(instructions), ItemsFrom(q, d, ctx, entry.key, items, field.nodes, j))
      {
        var piece := GenerateItemInstructions(q, d, ctx, entry.key, items, j, field.nodes);
        if piece.Failure? {
          return Failure(piece.error);
        }
        ThenAssoc(instructions, piece, ItemsFrom(q, d, ctx, entry.key, items, field.nodes, j + 1));
        instructions := instructions + piece.value;
      }
      assert instructions + [] == instructions;
      return Success(instructions);
    }
    var check := AssertNotArray(field);
    if check.Fail? {
      return Failure(check.error);
    }
    if entry.value.ObjValue? && HasId(entry.value.def) {
      var def := entry.value.def;
      if !Holds(q.condition(DirectivesOf(def).value.id.value, field.node)) {
        return CompileInstructions(ctx.path, Item(Some(entry.value)), Some(entry.key), None, None);
      }
      var nextPath := CreatePath(ctx.path, [entry.key]);
      if KindOf(def).Some? {
        r := GenerateInstructions(q, field.node, def, CreateContext(Some(nextPath), Some(entry.key)));
        return;
      }
    }
    return Success([]);
  }

  /** The body of the item loop of `generateInstructions`, for one list item. */
  method GenerateItemInstructions(q: Query, d: Definition, ctx: Context, key: string, items: seq<Definition>, j: nat, nodes: seq<Node>)
    returns (r: Result<seq<Instruction>, Error>)
    requires Prop(key, ListValue(items)) in d.props && j < |items|
    ensures r == ItemInstructions(q, d, ctx, key, items, j, nodes)
    decreases d, 1
  {
    var item := items[j];
    var instructions: seq<Instruction> := [];
    if DirectivesOf(item).None? {
      var defaults := CompileDefaultNodeArrayInstructions(ctx.path, [Some(item)], Some(key), None, None);
      instructions := defaults.value;
    }
    var byId := GenerateItemById(q, d, ctx, key, items, j, nodes);
    if byId.Failure? {
      return Failure(byId.error);
    }
    var rules := ShouldGenerateInstructionsFromRules(q, item, Several(nodes), CreateContext(Some(ctx.path), Some(key)));
    if rules.Failure? {
      return Failure(rules.error);
    }
    InstructionsAssoc(instructions, byId.value, rules.value);
    return Success(instructions + byId.value + rules.value);
  }

  /** The id branch of the item loop of `generateInstructions`. */
  method GenerateItemById(q: Query, d: Definition, ctx: Context, key: string, items: seq<Definition>, j: nat, nodes: seq<Node>)
    returns (r: Result<seq<Instruction>, Error>)
    requires Prop(key, ListValue(items)) in d.props && j < |items|
    ensures r == ItemById(q, d, ctx, key, items, j, nodes)
    decreases d, 0
  {
    var item := items[j];
    if !HasId(item) {
      return Success([]);
    }
    var found := FirstMatch(q, DirectivesOf(item).value.id.value, nodes);
    if found.None? {
      return CompileInstructions(ctx.path, Items([Some(item)]), Some(key), None, None);
    }
    var nextPath := CreatePath(ctx.path, [key, NatToString(found.value)]);
    if IsDefinition(ObjValue(item)) {
      r := GenerateInstructions(q, nodes[found.value], item, CreateContext(Some(nextPath), Some(key)));
      return;
    }
    return Success([]);
  }

  lemma InstructionsAssoc(a: seq<Instruction>, b: seq<Instruction>, c: seq<Instruction>)
    ensures a + b + c == a + (b + c)
  {
  }
}
