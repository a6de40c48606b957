/**
 * Definitions: the plain-object descriptions of the syntax a user wants,
 * with their `__instructions` policies, and the instructions generated
 * from them.
 */
module Definitions {

  import opened Wrappers
  import opened Syntax
  import opened Text

  /** The six instruction types; each renders as its own name. */
  datatype InstructionType = SET | ADD | INSERT | REPLACE | UNSET | REMOVE

  function InstructionTypeName(t: InstructionType): string
  {
    match t
    case SET => "SET"
    case ADD => "ADD"
    case INSERT => "INSERT"
    case REPLACE => "REPLACE"
    case UNSET => "UNSET"
    case REMOVE => "REMOVE"
  }

  /** A rule's `index`: a literal position or a query evaluated over the list. */
  datatype RuleIndex = Literal(position: int) | Expression(query: string)

  datatype Rule = Rule(
    instruction: InstructionType,
    condition: string,
    index: Option<RuleIndex>,
    field: Option<string>)

  /** The `__instructions` policy of a definition: an identifying query and rules. */
  datatype Directives = Directives(id: Option<string>, rules: Option<seq<Rule>>)

  /**
   * A property value of a definition object. `kind` holds a syntax kind,
   * `__instructions` holds directives, every other key a string, a boolean,
   * a nested definition or a list of them.
   */
  datatype Value =
    | KindValue(kind: Kind)
    | DirectivesValue(directives: Directives)
    | StrValue(str: string)
    | BoolValue(b: bool)
    | ObjValue(def: Definition)
    | ListValue(items: seq<Definition>)

  datatype Prop = Prop(key: string, value: Value)

  /**
   * A definition object, its properties in insertion order. A JavaScript
   * object has each key once; a sequence with a repeated key is not one,
   * and lookups on it read the first occurrence.
   */
  datatype Definition = Definition(props: seq<Prop>)

  const KindKey := "kind"
  const DirectivesKey := "__instructions"

  /** The position of the first property named `key`. */
  function LookupIndex(props: seq<Prop>, key: string): (r: Option<nat>)
    ensures r.Some? ==> r.value < |props| && props[r.value].key == key
    ensures r.Some? ==> forall j | 0 <= j < r.value :: props[j].key != key
    ensures r.None? ==> forall j | 0 <= j < |props| :: props[j].key != key
  {
    if props == [] then None
    else if props[0].key == key then Some(0)
    else match LookupIndex(props[1..], key)
      case None => None
      case Some(i) => Some(i + 1)
  }

  function Lookup(d: Definition, key: string): Option<Value>
  {
    match LookupIndex(d.props, key)
    case None => None
    case Some(i) => Some(d.props[i].value)
  }

  /** `definition.kind`, when it holds a syntax kind. */
  function KindOf(d: Definition): Option<Kind>
  {
    match Lookup(d, KindKey)
    case Some(KindValue(k)) => Some(k)
    case _ => None
  }

  /** `definition.__instructions`, when present. */
  function DirectivesOf(d: Definition): Option<Directives>
  {
    match Lookup(d, DirectivesKey)
    case Some(DirectivesValue(p)) => Some(p)
    case _ => None
  }

  /** `definition.__instructions?.id` taken as a JavaScript truth value. */
  predicate HasId(d: Definition)
  {
    DirectivesOf(d).Some? && DirectivesOf(d).value.id.Some? && DirectivesOf(d).value.id.value != ""
  }

  /** The remaining properties once one key is destructured away. */
  function Without(props: seq<Prop>, key: string): (r: seq<Prop>)
    ensures |r| <= |props|
    ensures forall p | p in r :: p in props && p.key != key
    ensures forall p | p in props && p.key != key :: p in r
  {
    if props == [] then []
    else if props[0].key == key then Without(props[1..], key)
    else [props[0]] + Without(props[1..], key)
  }

  /** `const { __instructions: _, ...definition } = input` for a definition object. */
  function Strip(d: Definition): (r: Definition)
    ensures DirectivesOf(r).None?
    ensures KindOf(r) == KindOf(d)
  {
    var r := Definition(Without(d.props, DirectivesKey));
    WithoutKeepsLookup(d.props, DirectivesKey, KindKey);
    assert LookupIndex(r.props, DirectivesKey).None?;
    r
  }

  lemma {:induction false} WithoutKeepsLookup(props: seq<Prop>, dropped: string, key: string)
    requires dropped != key
    ensures Lookup(Definition(Without(props, dropped)), key) == Lookup(Definition(props), key)
  {
    if props != [] {
      var rest := Without(props[1..], dropped);
      WithoutKeepsLookup(props[1..], dropped, key);
      if props[0].key == dropped {
        LookupTail(props, key);
      } else if props[0].key != key {
        var kept := [props[0]] + rest;
        assert kept[0] == props[0] && kept[1..] == rest;
        LookupTail(props, key);
        LookupTail(kept, key);
      }
    }
  }

  /** A first property under another key does not change a lookup. */
  lemma LookupTail(props: seq<Prop>, key: string)
    requires props != [] && props[0].key != key
    ensures Lookup(Definition(props), key) == Lookup(Definition(props[1..]), key)
  {
  }

  /**
   * The object rest of a spread over any value: a definition loses its
   * directives, a string becomes its characters under index keys, and a
   * boolean spreads to nothing.
   */
  function StripValue(v: Value): (r: Definition)
    ensures DirectivesOf(r).None?
    ensures v.ObjValue? ==> r == Strip(v.def)
    ensures v.StrValue? ==> |r.props| == |v.str|
  {
    match v
    case ObjValue(d) => Strip(d)
    case StrValue(s) =>
      var r := Definition(seq(|s|, i requires 0 <= i < |s| => Prop(NatToString(i), StrValue([s[i]]))));
      assert forall j | 0 <= j < |r.props| :: r.props[j].key != DirectivesKey by {
        forall j | 0 <= j < |r.props| ensures r.props[j].key != DirectivesKey {
          assert IsDigit(r.props[j].key[0]);
        }
      }
      r
    case _ => Definition([])
  }

  /** `isDefinition`: an object whose `kind` is a syntax kind. */
  predicate IsDefinition(v: Value)
    ensures IsDefinition(v) ==> v.ObjValue? && KindOf(v.def).Some?
    ensures v.ObjValue? && KindOf(v.def).Some? ==> IsDefinition(v)
    ensures v.StrValue? || v.ListValue? ==> !IsDefinition(v)
  {
    v.ObjValue? && KindOf(v.def).Some?
  }

  /** An instruction: what to do, where, to which field, with which payload. */
  datatype Instruction = Instruction(
    op: InstructionType,
    path: string,
    field: Option<string>,
    definition: Option<Definition>,
    index: Option<int>)
}
