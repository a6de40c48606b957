/**
 * The TypeScript syntax tree as the engine sees it: a node has a kind,
 * identifier text, and named fields, each absent, one child or a list.
 */
module Syntax {

  /** The modifier keywords TypeScript's `isModifier` accepts. */
  datatype Modifier =
    | Abstract | Async | Const | Declare | Default | Export | In | Out
    | Override | Private | Protected | Public | Readonly | Static

  /** Keywords that are type nodes on their own (`void`, `string`, ...). */
  datatype TypeWord =
    | AnyWord | BigIntWord | BooleanWord | NeverWord | NumberWord | ObjectWord
    | StringWord | SymbolWord | UndefinedWord | UnknownWord | VoidWord

  /**
   * The syntax kinds the engine distinguishes. Every kind it never names
   * is an `OtherToken` (inside the token range) or an `OtherKind`.
   */
  datatype Kind =
    | SourceFile
    | FunctionDeclaration
    | InterfaceDeclaration
    | PropertySignature
    | Block
    | ExpressionStatement
    | CallExpression
    | Identifier
    | ModifierKeyword(modifier: Modifier)
    | TypeKeyword(word: TypeWord)
    | QuestionToken
    | OtherToken(tokenName: string)
    | OtherKind(kindName: string)

  function ModifierName(m: Modifier): string
  {
    match m
    case Abstract => "Abstract"
    case Async => "Async"
    case Const => "Const"
    case Declare => "Declare"
    case Default => "Default"
    case Export => "Export"
    case In => "In"
    case Out => "Out"
    case Override => "Override"
    case Private => "Private"
    case Protected => "Protected"
    case Public => "Public"
    case Readonly => "Readonly"
    case Static => "Static"
  }

  function TypeWordName(w: TypeWord): string
  {
    match w
    case AnyWord => "Any"
    case BigIntWord => "BigInt"
    case BooleanWord => "Boolean"
    case NeverWord => "Never"
    case NumberWord => "Number"
    case ObjectWord => "Object"
    case StringWord => "String"
    case SymbolWord => "Symbol"
    case UndefinedWord => "Undefined"
    case UnknownWord => "Unknown"
    case VoidWord => "Void"
  }

  /** The kind's name as ts-morph's `getKindName()` reports it. */
  function KindName(k: Kind): string
  {
    match k
    case SourceFile => "SourceFile"
    case FunctionDeclaration => "FunctionDeclaration"
    case InterfaceDeclaration => "InterfaceDeclaration"
    case PropertySignature => "PropertySignature"
    case Block => "Block"
    case ExpressionStatement => "ExpressionStatement"
    case CallExpression => "CallExpression"
    case Identifier => "Identifier"
    case ModifierKeyword(m) => ModifierName(m) + "Keyword"
    case TypeKeyword(w) => TypeWordName(w) + "Keyword"
    case QuestionToken => "QuestionToken"
    case OtherToken(name) => name
    case OtherKind(name) => name
  }

  /**
   * `ts.SyntaxKind[k]`, the enum's reverse mapping. In the TypeScript 4.7
   * enum the marker `FirstContextualKeyword` is declared after
   * `AbstractKeyword` with the same value, so it is the name the reverse
   * mapping gives that kind; the model's other kinds have no such alias.
   */
  function EnumName(k: Kind): (name: string)
    ensures k == ModifierKeyword(Abstract) ==> name == "FirstContextualKeyword"
    ensures k != ModifierKeyword(Abstract) ==> name == KindName(k)
  {
    if k == ModifierKeyword(Abstract) then "FirstContextualKeyword" else KindName(k)
  }

  /** Kinds between `SyntaxKind.FirstToken` and `SyntaxKind.LastToken`. */
  predicate IsTokenKind(k: Kind)
  {
    k.Identifier? || k.ModifierKeyword? || k.TypeKeyword? || k.QuestionToken? || k.OtherToken?
  }

  datatype Node = Node(kind: Kind, text: string, fields: map<string, Field>)

  /** What a field of a node holds: nothing, one child, or a list of children. */
  datatype Field = Absent | One(node: Node) | Many(nodes: seq<Node>)

  /** A node without children or text, such as a keyword or a token. */
  function Token(k: Kind): (n: Node)
    ensures n.kind == k && n.fields == map[]
  {
    Node(k, "", map[])
  }

  /** `ts.isModifier` */
  predicate IsModifier(n: Node) { n.kind.ModifierKeyword? }

  /** `ts.isTypeNode`, restricted to the type nodes this model names. */
  predicate IsTypeNode(n: Node) { n.kind.TypeKeyword? }

  /** `ts.isTypeElement`, restricted to the type elements this model names. */
  predicate IsTypeElement(n: Node) { n.kind.PropertySignature? }

  /** The list stored under `f`, or the empty list when there is none. */
  function Children(n: Node, f: string): seq<Node>
  {
    if f in n.fields && n.fields[f].Many? then n.fields[f].nodes else []
  }

  /** The single child stored under `f`, if there is one. */
  function Child(n: Node, f: string): Field
  {
    if f in n.fields && n.fields[f].One? then n.fields[f] else Absent
  }

  function WithField(n: Node, f: string, v: Field): (r: Node)
    ensures r.kind == n.kind && r.text == n.text
    ensures f in r.fields && r.fields[f] == v
    ensures forall g | g in n.fields && g != f :: g in r.fields && r.fields[g] == n.fields[g]
  {
    n.(fields := n.fields[f := v])
  }

  /** Whether the modifier list of `n` holds the keyword `m`. */
  predicate HasModifier(n: Node, m: Modifier)
  {
    HasKind(Children(n, "modifiers"), ModifierKeyword(m))
  }

  predicate HasKind(nodes: seq<Node>, k: Kind)
  {
    exists i | 0 <= i < |nodes| :: nodes[i].kind == k
  }

  /**
   * Where a modifier sits among the others: the order TypeScript prints
   * them in. Nodes that are not modifier keywords come first.
   */
  function ModifierRank(n: Node): int
  {
    match n.kind
    case ModifierKeyword(m) =>
      (match m
       case Export => 0
       case Default => 1
       case Declare => 2
       case Public => 3
       case Protected => 3
       case Private => 3
       case Static => 4
       case Override => 5
       case Abstract => 6
       case Readonly => 7
       case Async => 8
       case Const => 9
       case In => 10
       case Out => 11)
    case _ => -1
  }

  predicate RankOrdered(mods: seq<Node>)
  {
    forall i, j | 0 <= i < j < |mods| :: ModifierRank(mods[i]) <= ModifierRank(mods[j])
  }

  /** The position of the first entry of `mods` that must follow `t`. */
  function InsertPosition(mods: seq<Node>, t: Node): (k: nat)
    ensures k <= |mods|
    ensures forall i | 0 <= i < k :: ModifierRank(mods[i]) <= ModifierRank(t)
    ensures k < |mods| ==> ModifierRank(t) < ModifierRank(mods[k])
  {
    if mods == [] || ModifierRank(t) < ModifierRank(mods[0]) then 0
    else 1 + InsertPosition(mods[1..], t)
  }

  /** `mods` with `t` placed before the first modifier that must follow it. */
  function InsertByRank(mods: seq<Node>, t: Node): (r: seq<Node>)
    ensures multiset(r) == multiset(mods) + multiset{t}
  {
    var k := InsertPosition(mods, t);
    assert mods == mods[..k] + mods[k..];
    mods[..k] + [t] + mods[k..]
  }

  /** Where each entry of `mods` lands once `t` is inserted. */
  lemma InsertByRankAt(mods: seq<Node>, t: Node)
    ensures var k := InsertPosition(mods, t); var r := InsertByRank(mods, t);
      && |r| == |mods| + 1 && r[k] == t
      && (forall i | 0 <= i < k :: r[i] == mods[i])
      && (forall i | k < i < |r| :: r[i] == mods[i - 1])
  {
    var k := InsertPosition(mods, t);
    var r := InsertByRank(mods, t);
    assert r == mods[..k] + [t] + mods[k..];
    forall i | 0 <= i < k ensures r[i] == mods[i] {
      assert r[i] == mods[..k][i];
    }
    forall i | k < i < |r| ensures r[i] == mods[i - 1] {
      assert r[i] == mods[k..][i - k - 1];
    }
  }

  /** Inserting by rank keeps a rank-ordered list rank-ordered. */
  lemma InsertByRankOrdered(mods: seq<Node>, t: Node)
    requires RankOrdered(mods)
    ensures RankOrdered(InsertByRank(mods, t))
  {
    var k := InsertPosition(mods, t);
    var r := InsertByRank(mods, t);
    InsertByRankAt(mods, t);
    forall i, j | 0 <= i < j < |r| ensures ModifierRank(r[i]) <= ModifierRank(r[j]) {
      var a := if i < k then i else i - 1;
      var b := if j < k then j else j - 1;
      if i == k {
        assert ModifierRank(t) < ModifierRank(mods[k]) && ModifierRank(mods[k]) <= ModifierRank(mods[b]);
      } else if j == k {
        assert ModifierRank(mods[a]) <= ModifierRank(t);
      } else {
        assert r[i] == mods[a] && r[j] == mods[b] && a < b;
      }
    }
  }

  /**
   * ts-morph's `toggleModifier(m, true)`, as `setIsExported(true)` and its
   * siblings use it: the keyword is added when the node lacks it, and the
   * node is left alone when it has it.
   */
  function SetModifier(n: Node, m: Modifier): (r: Node)
    ensures HasModifier(r, m)
    ensures HasModifier(n, m) ==> r == n
    ensures !HasModifier(n, m) ==>
      Children(r, "modifiers") == InsertByRank(Children(n, "modifiers"), Token(ModifierKeyword(m)))
    ensures r.kind == n.kind && r.text == n.text
    ensures forall g | g in n.fields && g != "modifiers" :: g in r.fields && r.fields[g] == n.fields[g]
    ensures forall g | g in r.fields && g != "modifiers" :: g in n.fields
  {
    if HasModifier(n, m) then n
    else
      var t := Token(ModifierKeyword(m));
      var mods := InsertByRank(Children(n, "modifiers"), t);
      assert t in multiset(mods);
      WithField(n, "modifiers", Many(mods))
  }

  lemma InsertByRankKeepsKinds(mods: seq<Node>, t: Node, k: Kind)
    requires HasKind(mods, k) || t.kind == k
    ensures HasKind(InsertByRank(mods, t), k)
  {
    var p := InsertPosition(mods, t);
    var r := InsertByRank(mods, t);
    InsertByRankAt(mods, t);
    if t.kind != k {
      var i :| 0 <= i < |mods| && mods[i].kind == k;
      var j := if i < p then i else i + 1;
      assert r[j] == mods[i];
    }
  }

  lemma InsertByRankAddsOnlyItsKind(mods: seq<Node>, t: Node, k: Kind)
    requires HasKind(InsertByRank(mods, t), k) && t.kind != k
    ensures HasKind(mods, k)
  {
    var p := InsertPosition(mods, t);
    var r := InsertByRank(mods, t);
    InsertByRankAt(mods, t);
    var i :| 0 <= i < |r| && r[i].kind == k;
    var j := if i < p then i else i - 1;
    assert r[i] == mods[j];
  }

  /** Inserting a node keeps every kind the list had and adds only its own. */
  lemma InsertByRankKinds(mods: seq<Node>, t: Node, k: Kind)
    ensures HasKind(InsertByRank(mods, t), k) <==> HasKind(mods, k) || t.kind == k
  {
    if HasKind(mods, k) || t.kind == k {
      InsertByRankKeepsKinds(mods, t, k);
    }
    if HasKind(InsertByRank(mods, t), k) && t.kind != k {
      InsertByRankAddsOnlyItsKind(mods, t, k);
    }
  }

  /** Adding a modifier keeps every modifier the node had, and adds no other. */
  lemma SetModifierKeepsOthers(n: Node, m: Modifier, other: Modifier)
    ensures HasModifier(SetModifier(n, m), other) <==> HasModifier(n, other) || other == m
  {
    if !HasModifier(n, m) {
      InsertByRankKinds(Children(n, "modifiers"), Token(ModifierKeyword(m)), ModifierKeyword(other));
    }
  }

  /** Adding a modifier keeps a rank-ordered modifier list rank-ordered. */
  lemma SetModifierOrdered(n: Node, m: Modifier)
    requires RankOrdered(Children(n, "modifiers"))
    ensures RankOrdered(Children(SetModifier(n, m), "modifiers"))
  {
    if !HasModifier(n, m) {
      InsertByRankOrdered(Children(n, "modifiers"), Token(ModifierKeyword(m)));
    }
  }
}
