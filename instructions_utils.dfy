/**
 * Walking the syntax tree: reading a field of a node, finding the node a
 * path names, and building syntax nodes from definitions.
 */
module InstructionsUtils {

  import opened Wrappers
  import opened Syntax
  import opened Text
  import opened Definitions
  import opened Assert
  import FunctionDeclarationUtils
  import InterfaceDeclarationUtils
  import PropertySignatureUtils
  import SourceFileUtils
  import BlockUtils
  import ExpressionStatementUtils
  import CallExpressionUtils

  /** The fields `getNodeField` can read on a node of each kind. */
  function ReadableFields(k: Kind): set<string>
  {
    match k
    case FunctionDeclaration => {"name", "parameters", "type", "modifiers", "body", "asteriskToken"}
    case InterfaceDeclaration => {"name", "members", "modifiers"}
    case PropertySignature => {"name", "type", "modifiers", "questionToken"}
    case SourceFile => {"statements"}
    case Block => {"statements"}
    case ExpressionStatement => {"expression"}
    case CallExpression => {"expression"}
    case _ => {}
  }

  /** The readable fields that hold lists. */
  function ListFields(k: Kind): set<string>
  {
    match k
    case FunctionDeclaration => {"parameters", "modifiers"}
    case InterfaceDeclaration => {"members", "modifiers"}
    case PropertySignature => {"modifiers"}
    case SourceFile => {"statements"}
    case Block => {"statements"}
    case _ => {}
  }

  predicate HasAccessor(k: Kind)
  {
    k in {FunctionDeclaration, InterfaceDeclaration, PropertySignature, SourceFile, Block, ExpressionStatement, CallExpression}
  }

  function UnknownField(node: Node, field: string): Error
  {
    Error(TypeError, "Unable to get field of name '" + field + "' from node of kind '" + KindName(node.kind) + "'")
  }

  /**
   * `getNodeField`: the field of the node, read by the accessor of the
   * node's kind. A list field reads as a list, any other field as one
   * child or nothing.
   */
  function GetNodeField(node: Node, field: string): (r: Result<Field, Error>)
    ensures r.Success? <==> field in ReadableFields(node.kind)
    ensures r.Success? ==>
      r.value == (if field in ListFields(node.kind) then Many(Children(node, field)) else Child(node, field))
    ensures !HasAccessor(node.kind) ==> r == Failure(UnknownField(node, field))
    ensures HasAccessor(node.kind) && field !in ReadableFields(node.kind) ==> r == Failure(AssertNever(field))
  {
    match node.kind
    case FunctionDeclaration => FunctionDeclarationUtils.GetFunctionDeclarationField(node, field)
    case InterfaceDeclaration => InterfaceDeclarationUtils.GetInterfaceDeclarationField(node, field)
    case PropertySignature => PropertySignatureUtils.GetPropertySignatureField(node, field)
    case SourceFile => SourceFileUtils.GetSourceFileField(node, field)
    case Block => BlockUtils.GetBlockField(node, field)
    case ExpressionStatement => ExpressionStatementUtils.GetExpressionStatementField(node, field)
    case CallExpression => CallExpressionUtils.GetCallExpressionField(node, field)
    case _ => Failure(UnknownField(node, field))
  }

  /** A field name made of digits is never a field of any node. */
  lemma NoNumericField(node: Node, field: string)
    requires |field| > 0 && IsDigit(field[0])
    ensures GetNodeField(node, field).Failure?
  {
  }

  function NotAnIndex(raw: string): Error
  {
    Error(TypeError, "Next node is an array of nodes but the following ID is not an array index '" + raw + "'")
  }

  function NoNodeAtIndex(index: int): Error
  {
    Error(TypeError, "Node not found at index '" + IntToString(index) + "'")
  }

  function NoNodeAtLocation(location: string, path: string): Error
  {
    Error(TypeError, "Node not found at location '" + location + "' for Path '" + path + "'")
  }

  /**
   * `getNodeByPath`: the node a path names, relative to `current`. The path
   * is cut at dots and brackets; the first piece names a field, and a list
   * field takes the next piece as the index of the element to go on from.
   */
  function GetNodeByPath(current: Node, path: string): (r: Result<Node, Error>)
    ensures path == "" ==> r == Success(current)
    ensures path != "" && GetNodeField(current, Tokens(path)[0]).Failure? ==>
      r == Failure(GetNodeField(current, Tokens(path)[0]).error)
    ensures path != "" && GetNodeField(current, Tokens(path)[0]) == Success(Absent) ==>
      r == Failure(NoNodeAtLocation(Tokens(path)[0], path))
    ensures path != "" && |Tokens(path)| == 1 && GetNodeField(current, Tokens(path)[0]).Success? &&
            GetNodeField(current, Tokens(path)[0]).value.One? ==>
      r == Success(GetNodeField(current, Tokens(path)[0]).value.node)
    decreases |path|
  {
    if path == "" then Success(current)
    else
      var parts := Tokens(path);
      TokensShrink(path);
      var location, remaining := parts[0], parts[1..];
      var next :- GetNodeField(current, location);
      match next
      case Many(nodes) =>
        var index := if |remaining| > 0 then ParseInteger(remaining[0]) else None;
        if index.None? then Failure(NotAnIndex(if |remaining| > 0 then remaining[0] else "undefined"))
        else if !(0 <= index.value < |nodes|) then Failure(NoNodeAtIndex(index.value))
        else GetNodeByPath(nodes[index.value], Join(remaining[1..]))
      case Absent => Failure(NoNodeAtLocation(location, path))
      case One(child) =>
        if remaining == [] then Success(child) else GetNodeByPath(child, Join(remaining))
  }

  /**
   * Writing back at a non-empty path changes only the field the path
   * starts with: the node's kind, text and every other field are kept,
   * and a list field keeps its length and every element but the one the
   * path goes through.
   */
  lemma ReplaceKeepsRest(current: Node, path: string, replacement: Node)
    requires path != "" && ReplaceAtPath(current, path, replacement).Success?
    ensures var r := ReplaceAtPath(current, path, replacement).value;
      var location := Tokens(path)[0];
      && r.kind == current.kind && r.text == current.text
      && (forall g | g in current.fields && g != location :: g in r.fields && r.fields[g] == current.fields[g])
      && (GetNodeField(current, location).Success? && GetNodeField(current, location).value.Many? ==>
            var nodes := GetNodeField(current, location).value.nodes;
            && |Tokens(path)| > 1 && ParseInteger(Tokens(path)[1]).Some?
            && location in r.fields && r.fields[location].Many? && |r.fields[location].nodes| == |nodes|
            && forall j | 0 <= j < |nodes| && j != ParseInteger(Tokens(path)[1]).value ::
                 r.fields[location].nodes[j] == nodes[j])
  {
    TokensShrink(path);
  }

  /** The empty path names the node the walk starts from. */
  lemma EmptyPathIsCurrent(current: Node)
    ensures GetNodeByPath(current, "") == Success(current)
  {
  }

  /**
   * A path whose first piece names a list field must go on with an
   * integer index of an element of that list; otherwise the walk stops
   * with the error that says which.
   */
  lemma ListStepErrors(current: Node, path: string)
    requires path != "" && GetNodeField(current, Tokens(path)[0]).Success?
    requires GetNodeField(current, Tokens(path)[0]).value.Many?
    ensures var parts := Tokens(path);
      var nodes := GetNodeField(current, parts[0]).value.nodes;
      && (|parts| == 1 ==> GetNodeByPath(current, path) == Failure(NotAnIndex("undefined")))
      && (|parts| > 1 && ParseInteger(parts[1]).None? ==> GetNodeByPath(current, path) == Failure(NotAnIndex(parts[1])))
      && (|parts| > 1 && ParseInteger(parts[1]).Some? && !(0 <= ParseInteger(parts[1]).value < |nodes|) ==>
            GetNodeByPath(current, path) == Failure(NoNodeAtIndex(ParseInteger(parts[1]).value)))
      && (|parts| > 1 && ParseInteger(parts[1]).Some? && 0 <= ParseInteger(parts[1]).value < |nodes| ==>
            GetNodeByPath(current, path) == GetNodeByPath(nodes[ParseInteger(parts[1]).value], Join(parts[2..])))
  {
    var parts := Tokens(path);
    if |parts| > 1 {
      assert parts[1..][0] == parts[1] && parts[1..][1..] == parts[2..];
    }
  }

  /**
   * A missing single-node field stops the walk with an error naming the
   * field and the path as this step of the walk received it: below the
   * first step that is what remains of the original path, not all of it.
   */
  lemma MissingFieldNamesRemainingPath(current: Node, path: string)
    requires path != "" && GetNodeField(current, Tokens(path)[0]) == Success(Absent)
    ensures GetNodeByPath(current, path) == Failure(NoNodeAtLocation(Tokens(path)[0], path))
  {
  }

  /**
   * The tree with the node that `path` names replaced by `replacement`:
   * the write-back of each ts-morph mutation, which changes the node in
   * place. It fails exactly where the walk to the node fails.
   */
  function ReplaceAtPath(current: Node, path: string, replacement: Node): (r: Result<Node, Error>)
    ensures r.Success? <==> GetNodeByPath(current, path).Success?
    ensures r.Success? && path != "" ==> r.value.kind == current.kind
    decreases |path|
  {
    if path == "" then Success(replacement)
    else
      var parts := Tokens(path);
      TokensShrink(path);
      var location, remaining := parts[0], parts[1..];
      var next :- GetNodeField(current, location);
      match next
      case Many(nodes) =>
        var index := if |remaining| > 0 then ParseInteger(remaining[0]) else None;
        if index.None? then Failure(NotAnIndex(if |remaining| > 0 then remaining[0] else "undefined"))
        else if !(0 <= index.value < |nodes|) then Failure(NoNodeAtIndex(index.value))
        else
          var child :- ReplaceAtPath(nodes[index.value], Join(remaining[1..]), replacement);
          Success(WithField(current, location, Many(nodes[index.value := child])))
      case Absent => Failure(NoNodeAtLocation(location, path))
      case One(node) =>
        var child :- if remaining == [] then Success(replacement) else ReplaceAtPath(node, Join(remaining), replacement);
        Success(WithField(current, location, One(child)))
  }

  /** After a replacement, the path names the replacement. */
  lemma {:induction false} ReplaceThenGet(current: Node, path: string, replacement: Node)
    requires GetNodeByPath(current, path).Success?
    ensures ReplaceAtPath(current, path, replacement).Success?
    ensures GetNodeByPath(ReplaceAtPath(current, path, replacement).value, path) == Success(replacement)
    decreases |path|
  {
    if path != "" {
      var parts := Tokens(path);
      TokensShrink(path);
      var location, remaining := parts[0], parts[1..];
      var next := GetNodeField(current, location).value;
      var updated := ReplaceAtPath(current, path, replacement).value;
      match next
      case Many(nodes) =>
        var i := ParseInteger(remaining[0]).value;
        ReplaceThenGet(nodes[i], Join(remaining[1..]), replacement);
        var child := ReplaceAtPath(nodes[i], Join(remaining[1..]), replacement).value;
        assert updated == WithField(current, location, Many(nodes[i := child]));
        assert GetNodeField(updated, location) == Success(Many(nodes[i := child]));
      case One(node) =>
        if remaining != [] {
          ReplaceThenGet(node, Join(remaining), replacement);
        }
        var child := if remaining == [] then replacement else ReplaceAtPath(node, Join(remaining), replacement).value;
        assert updated == WithField(current, location, One(child));
        assert GetNodeField(updated, location) == Success(One(child));
    }
  }

  function KindNotSupported(k: Option<Kind>): Error
  {
    Error(TypeError, "TS Node Kind not supported: '" + OptionalEnumName(k) + "|" + OptionalEnumName(k) + "'")
  }

  /** The error of reading a property of a missing definition field. */
  function CannotRead(property: string): Error
  {
    Error(TypeError, "Cannot read properties of undefined (reading '" + property + "')")
  }

  /** The error of mapping over a definition field that is not a list. */
  function NotAList(key: string): Error
  {
    Error(TypeError, "definition." + key + ".map is not a function")
  }

  /** Kinds `buildNodeFromDefinition` has a factory call for, besides tokens. */
  predicate Buildable(k: Kind)
  {
    k in {InterfaceDeclaration, PropertySignature, Identifier, Block, FunctionDeclaration} || IsTokenKind(k)
  }

  /**
   * `buildNodeFromDefinition`: a syntax node of the definition's own kind,
   * its children built from the definition's fields in the order the
   * factory call takes them.
   */
  function BuildNodeFromDefinition(d: Definition): (r: Result<Node, Error>)
    ensures r.Success? ==> KindOf(d).Some? && r.value.kind == KindOf(d).value && Buildable(r.value.kind)
    ensures KindOf(d).None? ==> r == Failure(KindNotSupported(None))
    ensures KindOf(d).Some? && !Buildable(KindOf(d).value) ==> r == Failure(KindNotSupported(KindOf(d)))
    ensures KindOf(d).Some? && IsTokenKind(KindOf(d).value) && KindOf(d).value != Identifier ==>
      r == Success(Token(KindOf(d).value))
    ensures KindOf(d) == Some(Identifier) ==> r == Success(Node(Identifier, IdentifierText(d), map[]))
    ensures r.Success? && r.value.kind == FunctionDeclaration ==>
      "parameters" in r.value.fields && r.value.fields["parameters"] == Many([])
    decreases d, 2
  {
    match KindOf(d)
    case None => Failure(KindNotSupported(None))
    case Some(k) =>
      match k
      case InterfaceDeclaration =>
        var modifiers :- BuildOptionalList(d, "modifiers");
        var name :- BuildName(d, true);
        var members :- BuildRequiredList(d, "members");
        Success(Node(InterfaceDeclaration, "",
          PutList(map["name" := OneOf(name), "members" := Many(members)], "modifiers", modifiers)))
      case PropertySignature =>
        var modifiers :- BuildOptionalList(d, "modifiers");
        var name :- BuildName(d, true);
        var questionToken :- ShouldBuildField(d, "questionToken");
        var typeNode :- ShouldBuildField(d, "type");
        Success(Node(PropertySignature, "",
          PutList(map["name" := OneOf(name), "questionToken" := OneOf(questionToken), "type" := OneOf(typeNode)],
            "modifiers", modifiers)))
      case Identifier =>
        Success(Node(Identifier, IdentifierText(d), map[]))
      case ModifierKeyword(m) =>
        // `readonly`, `async` and `export` go through createModifier, the other modifiers through createToken
        Success(Token(k))
      case Block =>
        var statements :- BuildRequiredList(d, "statements");
        Success(Node(Block, "", map["statements" := Many(statements)]))
      case FunctionDeclaration =>
        var modifiers :- BuildOptionalList(d, "modifiers");
        var name :- BuildName(d, false);
        var typeNode :- ShouldBuildField(d, "type");
        var body :- ShouldBuildField(d, "body");
        Success(Node(FunctionDeclaration, "",
          PutList(map["name" := OneOf(name), "parameters" := Many([]), "type" := OneOf(typeNode), "body" := OneOf(body)],
            "modifiers", modifiers)))
      case _ =>
        if IsTokenKind(k) then Success(Token(k)) else Failure(KindNotSupported(Some(k)))
  }

  function OneOf(n: Option<Node>): Field
  {
    if n.Some? then One(n.value) else Absent
  }

  function PutList(fields: map<string, Field>, key: string, nodes: Option<seq<Node>>): map<string, Field>
  {
    if nodes.Some? then fields[key := Many(nodes.value)] else fields
  }

  /** `definition.text` of an identifier definition; a missing text is taken as empty. */
  function IdentifierText(d: Definition): string
  {
    match Lookup(d, "text")
    case Some(StrValue(s)) => s
    case _ => ""
  }

  /** Building the `i`-th property's value, which must be a definition object. */
  function BuildAt(d: Definition, i: nat): (r: Result<Node, Error>)
    requires i < |d.props|
    decreases d, 0
  {
    match d.props[i].value
    case ObjValue(inner) => BuildNodeFromDefinition(inner)
    case _ => Failure(KindNotSupported(None))
  }

  /** `shouldBuildNodeFromDefinition(definition[key])` */
  function ShouldBuildField(d: Definition, key: string): (r: Result<Option<Node>, Error>)
    ensures LookupIndex(d.props, key).None? ==> r == Success(None)
    decreases d, 1
  {
    match LookupIndex(d.props, key)
    case None => Success(None)
    case Some(i) =>
      var n :- BuildAt(d, i);
      Success(Some(n))
  }

  /**
   * The name of a declaration: a string names an identifier, anything
   * else is built. A missing name is an error where the factory needs a
   * name, and no name otherwise.
   */
  function BuildName(d: Definition, required: bool): (r: Result<Option<Node>, Error>)
    ensures required && r.Success? ==> r.value.Some?
    ensures LookupIndex(d.props, "name").None? ==> r == (if required then Failure(CannotRead("kind")) else Success(None))
    ensures LookupIndex(d.props, "name").Some? && d.props[LookupIndex(d.props, "name").value].value.StrValue? ==>
      r == Success(Some(Node(Identifier, d.props[LookupIndex(d.props, "name").value].value.str, map[])))
    decreases d, 1
  {
    match LookupIndex(d.props, "name")
    case None => if required then Failure(CannotRead("kind")) else Success(None)
    case Some(i) =>
      match d.props[i].value
      case StrValue(s) => Success(Some(Node(Identifier, s, map[])))
      case _ =>
        var n :- BuildAt(d, i);
        Success(Some(n))
  }

  /** `definition[key]?.map(buildNodeFromDefinition)` */
  function BuildOptionalList(d: Definition, key: string): (r: Result<Option<seq<Node>>, Error>)
    ensures LookupIndex(d.props, key).None? ==> r == Success(None)
    decreases d, 1
  {
    match LookupIndex(d.props, key)
    case None => Success(None)
    case Some(i) =>
      if d.props[i].value.ListValue? then
        var nodes :- BuildItems(d, i, 0);
        Success(Some(nodes))
      else Failure(NotAList(key))
  }

  /** `definition[key].map(buildNodeFromDefinition)` */
  function BuildRequiredList(d: Definition, key: string): (r: Result<seq<Node>, Error>)
    ensures LookupIndex(d.props, key).None? ==> r == Failure(CannotRead("map"))
    decreases d, 1
  {
    match LookupIndex(d.props, key)
    case None => Failure(CannotRead("map"))
    case Some(i) =>
      if d.props[i].value.ListValue? then BuildItems(d, i, 0) else Failure(NotAList(key))
  }

  /** The items of the `i`-th property's list from the `j`-th on, each built. */
  function BuildItems(d: Definition, i: nat, j: nat): (r: Result<seq<Node>, Error>)
    requires i < |d.props| && d.props[i].value.ListValue? && j <= |d.props[i].value.items|
    ensures r.Success? ==> |r.value| == |d.props[i].value.items| - j
    ensures r.Success? ==> forall t | 0 <= t < |r.value| ::
      BuildNodeFromDefinition(d.props[i].value.items[j + t]) == Success(r.value[t])
    decreases d, 0, |d.props[i].value.items| - j
  {
    var items := d.props[i].value.items;
    if j == |items| then Success([])
    else
      var first :- BuildNodeFromDefinition(items[j]);
      var rest :- BuildItems(d, i, j + 1);
      BuiltItemsCons(items, j, first, rest);
      Success([first] + rest)
  }

  lemma BuiltItemsCons(items: seq<Definition>, j: nat, first: Node, rest: seq<Node>)
    requires j < |items| && BuildNodeFromDefinition(items[j]) == Success(first)
    requires |rest| == |items| - (j + 1)
    requires forall t | 0 <= t < |rest| :: BuildNodeFromDefinition(items[j + 1 + t]) == Success(rest[t])
    ensures forall t | 0 <= t < |[first] + rest| :: BuildNodeFromDefinition(items[j + t]) == Success(([first] + rest)[t])
  {
    var all := [first] + rest;
    forall t | 0 <= t < |all|
      ensures BuildNodeFromDefinition(items[j + t]) == Success(all[t])
    {
      if t > 0 {
        var u := t - 1;
        assert all[t] == rest[u];
        assert items[j + t] == items[j + 1 + u];
      }
    }
  }

  /** `shouldBuildNodeFromDefinition`: nothing to build for a missing definition. */
  function ShouldBuildNodeFromDefinition(d: Option<Definition>): (r: Result<Option<Node>, Error>)
    ensures d.None? ==> r == Success(None)
    ensures d.Some? ==> r.Success? == BuildNodeFromDefinition(d.value).Success?
    ensures d.Some? && r.Success? ==> r.value == Some(BuildNodeFromDefinition(d.value).value)
  {
    if d.None? then Success(None)
    else
      var n :- BuildNodeFromDefinition(d.value);
      Success(Some(n))
  }
}
