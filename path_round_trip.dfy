/**
 * The paths generation writes and the walk that reads them agree: a path
 * built by `createPath` from field names and list indices leads
 * `getNodeByPath` to the node those fields and indices reach.
 */
module PathRoundTrip {

  import opened Wrappers
  import opened Syntax
  import opened Text
  import opened Instructions
  import opened InstructionsUtils

  /** One step down a tree: a single-node field, or an element of a list field. */
  datatype Step = Field(name: string) | Element(name: string, index: nat)

  /** A field name as the definitions use them: letters only. */
  predicate IsName(s: string) { |s| > 0 && forall i | 0 <= i < |s| :: IsLetter(s[i]) }

  predicate WellNamed(steps: seq<Step>) { forall k | 0 <= k < |steps| :: IsName(steps[k].name) }

  /** The ids handed to `createPath` for the steps. */
  function Ids(steps: seq<Step>): seq<string>
  {
    if steps == [] then []
    else match steps[0]
      case Field(f) => [f] + Ids(steps[1..])
      case Element(f, i) => [f, NatToString(i)] + Ids(steps[1..])
  }

  /** The path of the steps from the root. */
  function Render(steps: seq<Step>): string
  {
    PathOf("", Ids(steps))
  }

  /** The node the steps reach, if every field on the way is there. */
  function Follow(root: Node, steps: seq<Step>): Option<Node>
  {
    if steps == [] then Some(root)
    else match (steps[0], GetNodeField(root, steps[0].name))
      case (Field(_), Success(One(child))) => Follow(child, steps[1..])
      case (Element(_, i), Success(Many(nodes))) => if i < |nodes| then Follow(nodes[i], steps[1..]) else None
      case _ => None
  }

  /** The pieces the walk cuts the rendered path into. */
  function Pieces(steps: seq<Step>): seq<string>
  {
    if steps == [] then []
    else match steps[0]
      case Field(f) => [f] + Pieces(steps[1..])
      case Element(f, i) => [f, NatToString(i)] + (if |steps| == 1 then [""] else Pieces(steps[1..]))
  }

  /** The ids with brackets already turned into dots: what `createPath` appends, made uniform. */
  function Dotted(steps: seq<Step>): string
  {
    if steps == [] then ""
    else match steps[0]
      case Field(f) => "." + (f + Dotted(steps[1..]))
      case Element(f, i) => "." + (f + ("." + (NatToString(i) + ("." + Dotted(steps[1..])))))
  }

  // ---------------------------------------------------------------------
  // String facts

  lemma {:induction false} AppendedShift(acc: string, ids: seq<string>)
    ensures Appended(acc, ids) == acc + Appended("", ids)
    decreases |ids|
  {
    if ids == [] {
      assert acc + "" == acc;
    } else {
      var s := Segment(ids[0]);
      AppendedShift(acc + s, ids[1..]);
      AppendedShift(s, ids[1..]);
      AppendedShiftStep(acc, ids);
    }
  }

  lemma AppendedShiftStep(acc: string, ids: seq<string>)
    requires ids != []
    requires Appended(acc + Segment(ids[0]), ids[1..]) == (acc + Segment(ids[0])) + Appended("", ids[1..])
    requires Appended(Segment(ids[0]), ids[1..]) == Segment(ids[0]) + Appended("", ids[1..])
    ensures Appended(acc, ids) == acc + Appended("", ids)
  {
    var s := Segment(ids[0]);
    assert "" + s == s;
    assert Appended("", ids) == Appended(s, ids[1..]);
    Assoc(acc, s, Appended("", ids[1..]));
  }

  lemma NameNoDots(f: string)
    requires IsName(f)
    ensures NoDots(f) && NoBrackets(f)
    ensures ParseInteger(f) == None
  {
  }

  lemma NumberNoDots(n: nat)
    ensures NoDots(NatToString(n)) && NoBrackets(NatToString(n))
  {
    var s := NatToString(n);
    assert forall i | 0 <= i < |s| :: IsDigit(s[i]);
  }

  /** A dot-free word passes through the collapse untouched. */
  lemma {:induction false} CollapseWord(w: string, y: string)
    requires NoDots(w)
    ensures CollapseDots(w + y) == w + CollapseDots(y)
  {
    if w != [] {
      CollapseWord(w[1..], y);
      CollapseWordStep(w, y);
    } else {
      assert w + y == y;
    }
  }

  lemma CollapseWordStep(w: string, y: string)
    requires w != [] && NoDots(w)
    requires CollapseDots(w[1..] + y) == w[1..] + CollapseDots(y)
    ensures CollapseDots(w + y) == w + CollapseDots(y)
  {
    var s := w + y;
    assert s[0] == w[0] && s[1..] == w[1..] + y;
    if |s| > 1 {
      assert CollapseDots(s) == [w[0]] + (w[1..] + CollapseDots(y));
      Assoc([w[0]], w[1..], CollapseDots(y));
      assert [w[0]] + w[1..] == w;
    } else {
      assert w == s && y == [];
    }
  }

  /** A dot survives the collapse unless another follows it. */
  lemma CollapseDot(y: string)
    ensures CollapseDots("." + y) == if StartsWithDot(y) then CollapseDots(y) else "." + CollapseDots(y)
  {
    var s := "." + y;
    if y != [] {
      assert s[0] == '.' && s[1] == y[0] && s[1..] == y;
    }
  }

  // ---------------------------------------------------------------------
  // What the walk sees

  lemma Assoc(a: string, b: string, c: string)
    ensures (a + b) + c == a + (b + c)
  {
  }

  lemma AppendedField(f: string, rest: seq<string>)
    requires IsName(f)
    ensures Appended("", [f] + rest) == "." + (f + Appended("", rest))
  {
    NameNoDots(f);
    var ids := [f] + rest;
    assert ids[0] == f && ids[1..] == rest;
    assert "" + ("." + f) == "." + f;
    assert Appended("", ids) == Appended("." + f, rest);
    AppendedShift("." + f, rest);
    Assoc(".", f, Appended("", rest));
  }

  lemma AppendedElement(f: string, i: nat, rest: seq<string>)
    requires IsName(f)
    ensures Appended("", [f, NatToString(i)] + rest)
      == "." + (f + ("[" + (NatToString(i) + ("]" + Appended("", rest)))))
  {
    NameNoDots(f);
    ParseIntegerNatToString(i);
    var n := NatToString(i);
    var t := Appended("", rest);
    var ids := [f, n] + rest;
    assert ids[0] == f && ids[1..] == [n] + rest && ([n] + rest)[0] == n && ([n] + rest)[1..] == rest;
    assert "" + ("." + f) == "." + f;
    var head := ("." + f) + (("[" + n) + "]");
    assert Appended("", ids) == Appended("." + f, [n] + rest);
    assert Appended("." + f, [n] + rest) == Appended(head, rest);
    AppendedShift(head, rest);
    Assoc("." + f, ("[" + n) + "]", t);
    Assoc(".", f, (("[" + n) + "]") + t);
    Assoc("[" + n, "]", t);
    Assoc("[", n, "]" + t);
  }

  lemma {:induction false} AppendedIds(steps: seq<Step>)
    requires WellNamed(steps)
    ensures ReplaceBrackets(Appended("", Ids(steps))) == Dotted(steps)
    decreases |steps|
  {
    if steps != [] {
      assert WellNamed(steps[1..]) by {
        forall k | 0 <= k < |steps[1..]| ensures IsName(steps[1..][k].name) {
          assert steps[1..][k] == steps[k + 1];
        }
      }
      AppendedIds(steps[1..]);
      if steps[0].Field? {
        AppendedIdsField(steps);
      } else {
        AppendedIdsElement(steps);
      }
    }
  }

  lemma AppendedIdsField(steps: seq<Step>)
    requires steps != [] && steps[0].Field? && IsName(steps[0].name)
    requires ReplaceBrackets(Appended("", Ids(steps[1..]))) == Dotted(steps[1..])
    ensures ReplaceBrackets(Appended("", Ids(steps))) == Dotted(steps)
  {
    var f := steps[0].name;
    var rest := Ids(steps[1..]);
    var t := Appended("", rest);
    NameNoDots(f);
    ReplaceIdentity(f);
    assert Ids(steps) == [f] + rest;
    AppendedField(f, rest);
    ReplaceBracketsConcat(".", f + t);
    ReplaceBracketsConcat(f, t);
  }

  lemma AppendedIdsElement(steps: seq<Step>)
    requires steps != [] && steps[0].Element? && IsName(steps[0].name)
    requires ReplaceBrackets(Appended("", Ids(steps[1..]))) == Dotted(steps[1..])
    ensures ReplaceBrackets(Appended("", Ids(steps))) == Dotted(steps)
  {
    var f, i := steps[0].name, steps[0].index;
    var rest := Ids(steps[1..]);
    var t := Appended("", rest);
    var n := NatToString(i);
    NameNoDots(f);
    ReplaceIdentity(f);
    NumberNoDots(i);
    ReplaceIdentity(n);
    assert Ids(steps) == [f, n] + rest;
    AppendedElement(f, i, rest);
    ReplaceBracketsConcat(".", f + ("[" + (n + ("]" + t))));
    ReplaceBracketsConcat(f, "[" + (n + ("]" + t)));
    ReplaceBracketsConcat("[", n + ("]" + t));
    ReplaceBracketsConcat(n, "]" + t);
    ReplaceBracketsConcat("]", t);
  }

  lemma {:induction false} DottedStartsWithDot(steps: seq<Step>)
    requires steps != []
    ensures StartsWithDot(Dotted(steps))
  {
  }

  lemma JoinCons(x: string, p: seq<string>)
    requires |p| >= 1
    ensures Join([x] + p) == x + ("." + Join(p))
  {
    assert ([x] + p)[0] == x && ([x] + p)[1..] == p;
    Assoc(x, ".", Join(p));
  }

  lemma CollapseFieldHead(f: string, tail: string)
    requires NoDots(f) && f != ""
    ensures CollapseDots("." + (f + tail)) == "." + (f + CollapseDots(tail))
  {
    CollapseDot(f + tail);
    CollapseWord(f, tail);
  }

  lemma CollapseElementHead(f: string, n: string, tail: string)
    requires NoDots(f) && f != "" && NoDots(n) && n != ""
    ensures CollapseDots("." + (f + ("." + (n + ("." + tail))))) == "." + (f + ("." + (n + CollapseDots("." + tail))))
  {
    CollapseFieldHead(f, "." + (n + ("." + tail)));
    CollapseFieldHead(n, "." + tail);
  }

  lemma CollapseFieldCase(steps: seq<Step>)
    requires steps != [] && steps[0].Field? && IsName(steps[0].name)
    requires steps[1..] != [] ==>
      StartsWithDot(Dotted(steps[1..])) && CollapseDots(Dotted(steps[1..])) == "." + Join(Pieces(steps[1..])) && |Pieces(steps[1..])| >= 1
    ensures CollapseDots(Dotted(steps)) == "." + Join(Pieces(steps))
  {
    var f, rest := steps[0].name, steps[1..];
    NameNoDots(f);
    CollapseFieldHead(f, Dotted(rest));
    if rest == [] {
      assert Pieces(steps) == [f];
      assert f + "" == f;
    } else {
      assert Pieces(steps) == [f] + Pieces(rest);
      JoinCons(f, Pieces(rest));
    }
  }

  lemma CollapseElementCase(steps: seq<Step>)
    requires steps != [] && steps[0].Element? && IsName(steps[0].name)
    requires steps[1..] != [] ==>
      StartsWithDot(Dotted(steps[1..])) && CollapseDots(Dotted(steps[1..])) == "." + Join(Pieces(steps[1..])) && |Pieces(steps[1..])| >= 1
    ensures CollapseDots(Dotted(steps)) == "." + Join(Pieces(steps))
  {
    var f, rest := steps[0].name, steps[1..];
    var n := NatToString(steps[0].index);
    var p := if rest == [] then [""] else Pieces(rest);
    NameNoDots(f);
    NumberNoDots(steps[0].index);
    CollapseElementHead(f, n, Dotted(rest));
    CollapseDotTail(rest);
    PiecesElement(steps);
    JoinCons(n, p);
    JoinCons(f, [n] + p);
  }

  lemma PiecesElement(steps: seq<Step>)
    requires steps != [] && steps[0].Element?
    ensures Pieces(steps) ==
      [steps[0].name] + ([NatToString(steps[0].index)] + (if steps[1..] == [] then [""] else Pieces(steps[1..])))
  {
  }

  /** The dot that closes an index, and what follows it, once collapsed. */
  lemma CollapseDotTail(rest: seq<Step>)
    requires rest != [] ==>
      StartsWithDot(Dotted(rest)) && CollapseDots(Dotted(rest)) == "." + Join(Pieces(rest)) && |Pieces(rest)| >= 1
    ensures CollapseDots("." + Dotted(rest)) == "." + Join(if rest == [] then [""] else Pieces(rest))
  {
    CollapseDot(Dotted(rest));
  }

  /** Collapsing the dotted form leaves a dot followed by the pieces joined. */
  lemma {:induction false} CollapseDotted(steps: seq<Step>)
    requires steps != [] && WellNamed(steps)
    ensures CollapseDots(Dotted(steps)) == "." + Join(Pieces(steps))
    ensures |Pieces(steps)| >= 1
    decreases |steps|
  {
    var rest := steps[1..];
    assert WellNamed(rest) by {
      forall k | 0 <= k < |rest| ensures IsName(rest[k].name) {
        assert rest[k] == steps[k + 1];
      }
    }
    if rest != [] {
      CollapseDotted(rest);
      DottedStartsWithDot(rest);
    }
    if steps[0].Field? {
      CollapseFieldCase(steps);
    } else {
      CollapseElementCase(steps);
    }
  }

  /** The rendered path is cut into exactly the pieces of the steps. */
  lemma TokensOfRender(steps: seq<Step>)
    requires steps != [] && WellNamed(steps)
    ensures Tokens(Render(steps)) == Pieces(steps)
  {
    CollapseRender(steps);
    PiecesClean(steps);
    SplitJoin(Pieces(steps));
  }

  /** `createPath` puts a dot before the first field name, which the strip then removes. */
  lemma RenderHead(steps: seq<Step>)
    requires steps != [] && WellNamed(steps)
    ensures Appended("", Ids(steps)) == "." + Render(steps)
    ensures Render(steps) != "" && Render(steps)[0] == steps[0].name[0]
  {
    var f := steps[0].name;
    NameNoDots(f);
    var rest := Ids(steps[1..]);
    var whole := Appended("", Ids(steps));
    var x: string;
    match steps[0] {
      case Field(_) =>
        AppendedField(f, rest);
        x := f + Appended("", rest);
      case Element(_, i) =>
        AppendedElement(f, i, rest);
        x := f + ("[" + (NatToString(i) + ("]" + Appended("", rest))));
    }
    assert whole == "." + x && x[0] == f[0];
    assert whole[1..] == x;
  }

  lemma CollapseRender(steps: seq<Step>)
    requires steps != [] && WellNamed(steps)
    ensures CollapseDots(ReplaceBrackets(Render(steps))) == Join(Pieces(steps))
  {
    var x := Render(steps);
    RenderHead(steps);
    ReplaceBracketsConcat(".", x);
    AppendedIds(steps);
    var y := ReplaceBrackets(x);
    assert Dotted(steps) == "." + y && y[0] == x[0];
    CollapseDot(y);
    CollapseDotted(steps);
    DotInjective(CollapseDots(y), Join(Pieces(steps)));
  }

  lemma DotInjective(a: string, b: string)
    requires "." + a == "." + b
    ensures a == b
  {
    assert a == ("." + a)[1..];
  }

  /** Every piece is free of dots and brackets, and only the last can be empty. */
  lemma {:induction false} PiecesClean(steps: seq<Step>)
    requires WellNamed(steps)
    ensures forall k | 0 <= k < |Pieces(steps)| :: NoDots(Pieces(steps)[k]) && NoBrackets(Pieces(steps)[k])
    ensures forall k | 0 <= k < |Pieces(steps)| - 1 :: Pieces(steps)[k] != ""
    ensures steps != [] ==> |Pieces(steps)| >= 1 && Pieces(steps)[0] != ""
    decreases |steps|
  {
    if steps != [] {
      var rest := steps[1..];
      assert WellNamed(rest) by {
        forall k | 0 <= k < |rest| ensures IsName(rest[k].name) {
          assert rest[k] == steps[k + 1];
        }
      }
      PiecesClean(rest);
      NameNoDots(steps[0].name);
      match steps[0]
      case Field(f) =>
      case Element(f, i) => NumberNoDots(i);
    }
  }

  lemma JoinStep(a: string, b: string)
    requires a != "" && NoDots(a) && NoBrackets(a)
    requires NoBrackets(b) && NoDoubleDots(b) && !StartsWithDot(b)
    ensures NoBrackets(a + "." + b) && NoDoubleDots(a + "." + b) && !StartsWithDot(a + "." + b)
  {
    var s := a + "." + b;
    forall i | 0 <= i < |s| ensures s[i] != '[' && s[i] != ']' {
      if i > |a| { assert s[i] == b[i - |a| - 1]; }
    }
    forall i | 0 <= i < |s| - 1 ensures !(s[i] == '.' && s[i + 1] == '.') {
      if i < |a| {
        assert s[i] == a[i];
      } else if i > |a| {
        assert s[i] == b[i - |a| - 1] && s[i + 1] == b[i - |a|];
      }
    }
  }

  /** Joining clean pieces gives a path without brackets or runs of dots. */
  lemma {:induction false} JoinClean(parts: seq<string>)
    requires |parts| >= 1
    requires forall k | 0 <= k < |parts| :: NoDots(parts[k]) && NoBrackets(parts[k])
    requires forall k | 0 <= k < |parts| - 1 :: parts[k] != ""
    ensures NoBrackets(Join(parts)) && NoDoubleDots(Join(parts))
    ensures parts[0] != "" ==> !StartsWithDot(Join(parts))
  {
    if |parts| > 1 {
      var rest := parts[1..];
      assert forall k | 0 <= k < |rest| :: rest[k] == parts[k + 1];
      JoinClean(rest);
      if rest[0] == "" {
        assert |rest| == 1 && Join(rest) == "";
      }
      JoinStep(parts[0], Join(rest));
    }
  }

  /** Cutting the joined pieces apart again gives the pieces. */
  lemma TokensOfJoin(steps: seq<Step>)
    requires steps != [] && WellNamed(steps)
    ensures Tokens(Join(Pieces(steps))) == Pieces(steps)
  {
    var p := Pieces(steps);
    PiecesClean(steps);
    JoinClean(p);
    ReplaceIdentity(Join(p));
    CollapseIdentity(Join(p));
    SplitJoin(p);
  }

  /** What every step of the walk needs: a non-empty path and well-named remaining steps. */
  lemma WalkFacts(path: string, steps: seq<Step>)
    requires steps != [] && WellNamed(steps)
    requires Tokens(path) == Pieces(steps)
    ensures path != "" && WellNamed(steps[1..])
  {
    var rest := steps[1..];
    PiecesClean(steps);
    assert Tokens("") == [""];
    forall k | 0 <= k < |rest| ensures IsName(rest[k].name) {
      assert rest[k] == steps[k + 1];
    }
  }

  /** A path cut into the pieces of the steps leads the walk where the steps lead. */
  lemma {:induction false} Walk(root: Node, path: string, steps: seq<Step>)
    requires steps != [] && WellNamed(steps)
    requires Tokens(path) == Pieces(steps)
    requires Follow(root, steps).Some?
    ensures GetNodeByPath(root, path) == Success(Follow(root, steps).value)
    decreases |steps|, 1
  {
    if steps[0].Field? {
      WalkField(root, path, steps);
    } else {
      WalkElement(root, path, steps);
    }
  }

  /** The walk through a single-node field. */
  lemma {:induction false} WalkField(root: Node, path: string, steps: seq<Step>)
    requires steps != [] && WellNamed(steps) && steps[0].Field?
    requires Tokens(path) == Pieces(steps)
    requires Follow(root, steps).Some?
    ensures GetNodeByPath(root, path) == Success(Follow(root, steps).value)
    decreases |steps|, 0
  {
    var rest := steps[1..];
    var f := steps[0].name;
    WalkFacts(path, steps);
    var child := GetNodeField(root, f).value.node;
    assert Tokens(path) == [f] + Pieces(rest);
    ByPathField(root, path, f, Pieces(rest));
    if rest != [] {
      TokensOfJoin(rest);
      Walk(child, Join(Pieces(rest)), rest);
    }
  }

  /** The walk through one element of a list field. */
  lemma {:induction false} WalkElement(root: Node, path: string, steps: seq<Step>)
    requires steps != [] && WellNamed(steps) && steps[0].Element?
    requires Tokens(path) == Pieces(steps)
    requires Follow(root, steps).Some?
    ensures GetNodeByPath(root, path) == Success(Follow(root, steps).value)
    decreases |steps|, 0
  {
    var rest := steps[1..];
    var f := steps[0].name;
    var i := steps[0].index;
    WalkFacts(path, steps);
    var nodes := GetNodeField(root, f).value.nodes;
    var tail := if rest == [] then [""] else Pieces(rest);
    assert Tokens(path) == [f] + ([NatToString(i)] + tail);
    ByPathElement(root, path, f, i, tail);
    if rest != [] {
      TokensOfJoin(rest);
      Walk(nodes[i], Join(Pieces(rest)), rest);
    } else {
      assert Join(tail) == "";
    }
  }

  /** One single-node step of `getNodeByPath`. */
  lemma ByPathField(current: Node, path: string, f: string, tail: seq<string>)
    requires path != "" && Tokens(path) == [f] + tail
    requires GetNodeField(current, f).Success? && GetNodeField(current, f).value.One?
    ensures GetNodeByPath(current, path) ==
      var child := GetNodeField(current, f).value.node;
      if tail == [] then Success(child) else GetNodeByPath(child, Join(tail))
  {
    var parts := Tokens(path);
    assert parts[0] == f && parts[1..] == tail;
  }

  /** One list-element step of `getNodeByPath`. */
  lemma ByPathElement(current: Node, path: string, f: string, i: nat, tail: seq<string>)
    requires path != "" && Tokens(path) == [f] + ([NatToString(i)] + tail)
    requires GetNodeField(current, f).Success? && GetNodeField(current, f).value.Many?
    requires i < |GetNodeField(current, f).value.nodes|
    ensures GetNodeByPath(current, path) == GetNodeByPath(GetNodeField(current, f).value.nodes[i], Join(tail))
  {
    var parts := Tokens(path);
    ParseIntegerNatToString(i);
    assert parts[0] == f && parts[1..] == [NatToString(i)] + tail;
    assert parts[1..][0] == NatToString(i) && parts[1..][1..] == tail;
  }

  /**
   * The round trip: the path `createPath` builds from the fields and
   * indices of a route leads `getNodeByPath` to the node at its end.
   */
  lemma RenderThenWalk(root: Node, steps: seq<Step>)
    requires WellNamed(steps)
    requires Follow(root, steps).Some?
    ensures GetNodeByPath(root, Render(steps)) == Success(Follow(root, steps).value)
  {
    if steps != [] {
      TokensOfRender(steps);
      Walk(root, Render(steps), steps);
    }
  }
}
