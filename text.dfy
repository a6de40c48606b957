/**
 * The JavaScript string and number behaviour the engine relies on:
 * `Number.isInteger(Number(s))`, `n.toString()`, and the string
 * operations that take a path apart.
 */
module Text {

  import opened Wrappers

  predicate IsDigit(c: char) { '0' <= c <= '9' }

  predicate IsLetter(c: char) { 'a' <= c <= 'z' || 'A' <= c <= 'Z' }

  predicate AllDigits(s: string) { forall i | 0 <= i < |s| :: IsDigit(s[i]) }

  /** The decimal value of a digit string. */
  function DigitsValue(s: string): nat
    requires AllDigits(s)
  {
    if s == [] then 0 else DigitsValue(s[..|s| - 1]) * 10 + (s[|s| - 1] as int - '0' as int)
  }

  /**
   * `Number(s)` when it yields an integer, for the decimal forms paths and
   * indices use: the empty string is 0, otherwise an optional sign and a
   * run of digits. Every other string is taken to yield a non-integer.
   */
  function ParseInteger(s: string): (r: Option<int>)
    ensures s == "" ==> r == Some(0)
    ensures |s| > 0 && IsLetter(s[0]) ==> r == None
    ensures |s| > 0 && s[0] == '.' ==> r == None
    ensures AllDigits(s) ==> r == Some(DigitsValue(s))
  {
    if AllDigits(s) then Some(DigitsValue(s))
    else if |s| > 1 && s[0] == '-' && AllDigits(s[1..]) then Some(0 - DigitsValue(s[1..]))
    else if |s| > 1 && s[0] == '+' && AllDigits(s[1..]) then Some(DigitsValue(s[1..]))
    else None
  }

  function Digit(d: nat): (c: char)
    requires d < 10
    ensures IsDigit(c) && c as int - '0' as int == d
  {
    ('0' as int + d) as char
  }

  /** `n.toString()` for a natural number. */
  function NatToString(n: nat): (s: string)
    ensures |s| > 0 && AllDigits(s)
  {
    if n < 10 then [Digit(n)] else NatToString(n / 10) + [Digit(n % 10)]
  }

  /** `n.toString()` for any integer. */
  function IntToString(i: int): (s: string)
    ensures |s| > 0
  {
    if i < 0 then "-" + NatToString(-i) else NatToString(i)
  }

  /** Rendering a natural number and reading it back gives the number. */
  lemma {:induction false} DigitsValueNatToString(n: nat)
    ensures DigitsValue(NatToString(n)) == n
  {
    if n >= 10 {
      var s := NatToString(n / 10);
      DigitsValueNatToString(n / 10);
      assert (s + [Digit(n % 10)])[..|s|] == s;
    }
  }

  lemma ParseIntegerNatToString(n: nat)
    ensures ParseInteger(NatToString(n)) == Some(n)
  {
    DigitsValueNatToString(n);
  }

  /** What `/^\.+/` leaves when it is removed from the front. */
  function StripLeadingDots(s: string): (r: string)
    ensures |r| <= |s| && r == s[|s| - |r|..]
    ensures r == [] || r[0] != '.'
    ensures forall i | 0 <= i < |s| - |r| :: s[i] == '.'
  {
    if s != [] && s[0] == '.' then StripLeadingDots(s[1..]) else s
  }

  /** `replaceAll('[', '.').replaceAll(']', '.')` */
  function ReplaceBrackets(s: string): (r: string)
    ensures |r| == |s|
    ensures forall i | 0 <= i < |s| :: r[i] == (if s[i] == '[' || s[i] == ']' then '.' else s[i])
  {
    if s == [] then [] else [if s[0] == '[' || s[0] == ']' then '.' else s[0]] + ReplaceBrackets(s[1..])
  }

  /** `replace(/\.+/g, '.')`: every run of dots becomes one dot. */
  function CollapseDots(s: string): string
  {
    if |s| <= 1 then s
    else if s[0] == '.' && s[1] == '.' then CollapseDots(s[1..])
    else [s[0]] + CollapseDots(s[1..])
  }

  /** `split('.')`: the pieces between dots, at least one. */
  function Split(s: string): (r: seq<string>)
    ensures |r| >= 1
  {
    if s == [] then [""]
    else
      var rest := Split(s[1..]);
      if s[0] == '.' then [""] + rest else [[s[0]] + rest[0]] + rest[1..]
  }

  /** `join('.')` */
  function Join(parts: seq<string>): string
  {
    if parts == [] then ""
    else if |parts| == 1 then parts[0]
    else parts[0] + "." + Join(parts[1..])
  }

  /** The pieces a path is taken apart into before it is walked. */
  function Tokens(path: string): seq<string>
  {
    Split(CollapseDots(ReplaceBrackets(path)))
  }

  predicate NoDots(s: string) { forall i | 0 <= i < |s| :: s[i] != '.' }

  lemma {:induction false} SplitNoDots(s: string)
    requires NoDots(s)
    ensures Split(s) == [s]
  {
    if s != [] {
      SplitNoDots(s[1..]);
      assert [s[0]] + s[1..] == s;
    }
  }

  /** Splitting around one dot splits each side. */
  lemma {:induction false} SplitAroundDot(x: string, y: string)
    ensures Split(x + "." + y) == Split(x) + Split(y)
  {
    if x == [] {
      var s := x + "." + y;
      assert s == "." + y && s[0] == '.' && s[1..] == y;
    } else {
      SplitAroundDot(x[1..], y);
      SplitAroundDotStep(x, y);
    }
  }

  lemma SplitAroundDotStep(x: string, y: string)
    requires x != []
    requires Split(x[1..] + "." + y) == Split(x[1..]) + Split(y)
    ensures Split(x + "." + y) == Split(x) + Split(y)
  {
    DottedTail(x, y);
    var r, r' := Split(x[1..] + "." + y), Split(x[1..]);
    if x[0] == '.' {
      assert Split(x + "." + y) == [""] + r;
      PiecesAssoc([""], r', Split(y));
    } else {
      SplitCharHead(x[0], r, r', Split(y));
    }
  }

  lemma DottedTail(x: string, y: string)
    requires x != []
    ensures (x + "." + y)[0] == x[0] && (x + "." + y)[1..] == x[1..] + "." + y
  {
  }

  lemma PiecesAssoc(a: seq<string>, b: seq<string>, c: seq<string>)
    ensures (a + b) + c == a + (b + c)
  {
  }

  lemma SplitCharHead(c: char, r: seq<string>, r': seq<string>, t: seq<string>)
    requires |r'| >= 1 && r == r' + t
    ensures [[c] + r[0]] + r[1..] == ([[c] + r'[0]] + r'[1..]) + t
  {
    assert r[0] == r'[0] && r[1..] == r'[1..] + t;
    PiecesAssoc([[c] + r'[0]], r'[1..], t);
  }

  /** Joining the pieces of a string gives the string back. */
  lemma {:induction false} JoinSplit(s: string)
    ensures Join(Split(s)) == s
  {
    if s != [] {
      var rest := Split(s[1..]);
      JoinSplit(s[1..]);
      if s[0] != '.' {
        var r := Split(s);
        assert r[0] == [s[0]] + rest[0] && r[1..] == rest[1..];
        if |rest| > 1 {
          assert Join(r) == r[0] + "." + Join(r[1..]);
          assert Join(rest) == rest[0] + "." + Join(rest[1..]);
        }
      }
    }
  }

  /** Splitting a join of dot-free pieces gives the pieces back. */
  lemma {:induction false} SplitJoin(parts: seq<string>)
    requires |parts| >= 1
    requires forall i | 0 <= i < |parts| :: NoDots(parts[i])
    ensures Split(Join(parts)) == parts
  {
    if |parts| == 1 {
      SplitNoDots(parts[0]);
    } else {
      SplitJoin(parts[1..]);
      SplitNoDots(parts[0]);
      SplitAroundDot(parts[0], Join(parts[1..]));
      assert [parts[0]] + parts[1..] == parts;
    }
  }

  lemma {:induction false} ReplaceBracketsConcat(x: string, y: string)
    ensures ReplaceBrackets(x + y) == ReplaceBrackets(x) + ReplaceBrackets(y)
  {
    var l, r := ReplaceBrackets(x + y), ReplaceBrackets(x) + ReplaceBrackets(y);
    assert |l| == |r|;
    forall i | 0 <= i < |l| ensures l[i] == r[i] {
      if i < |x| { assert (x + y)[i] == x[i]; } else { assert (x + y)[i] == y[i - |x|]; }
    }
  }

  predicate EndsInDot(s: string) { |s| > 0 && s[|s| - 1] == '.' }

  predicate StartsWithDot(s: string) { |s| > 0 && s[0] == '.' }

  /** Collapsing works piecewise where no run of dots crosses the seam. */
  lemma {:induction false} CollapseConcat(x: string, y: string)
    requires !(EndsInDot(x) && StartsWithDot(y))
    ensures CollapseDots(x + y) == CollapseDots(x) + CollapseDots(y)
  {
    if |x| == 1 {
      if |y| > 0 {
        assert (x + y)[1..] == y;
      }
    } else if |x| > 1 {
      CollapseConcat(x[1..], y);
      assert (x + y)[0] == x[0] && (x + y)[1] == x[1] && (x + y)[1..] == x[1..] + y;
      if x[0] == '.' && x[1] == '.' {
        assert CollapseDots(x + y) == CollapseDots(x[1..] + y);
        assert CollapseDots(x) == CollapseDots(x[1..]);
      } else {
        assert CollapseDots(x + y) == [x[0]] + CollapseDots(x[1..] + y);
        assert CollapseDots(x) == [x[0]] + CollapseDots(x[1..]);
        assert CollapseDots(x[1..] + y) == CollapseDots(x[1..]) + CollapseDots(y);
        assert [x[0]] + (CollapseDots(x[1..]) + CollapseDots(y)) == ([x[0]] + CollapseDots(x[1..])) + CollapseDots(y);
      }
    } else {
      assert x + y == y && CollapseDots(x) == [];
    }
  }

  /** A dot right after a dot is swallowed by the collapse. */
  lemma {:induction false} CollapseSecondDot(x: string, y: string)
    requires EndsInDot(x)
    ensures CollapseDots(x + "." + y) == CollapseDots(x + y)
  {
    if |x| == 1 {
      assert (x + "." + y)[1..] == x + y;
    } else {
      CollapseSecondDot(x[1..], y);
      assert (x + "." + y)[1..] == x[1..] + "." + y;
      assert (x + y)[1..] == x[1..] + y;
    }
  }

  predicate NoDoubleDots(s: string) { forall i | 0 <= i < |s| - 1 :: !(s[i] == '.' && s[i + 1] == '.') }

  lemma {:induction false} CollapseIdentity(s: string)
    requires NoDoubleDots(s)
    ensures CollapseDots(s) == s
  {
    if |s| > 1 {
      CollapseIdentity(s[1..]);
    }
  }

  predicate NoBrackets(s: string) { forall i | 0 <= i < |s| :: s[i] != '[' && s[i] != ']' }

  lemma ReplaceIdentity(s: string)
    requires NoBrackets(s)
    ensures ReplaceBrackets(s) == s
  {
  }

  lemma {:induction false} CollapseShorter(s: string)
    ensures |CollapseDots(s)| <= |s|
  {
    if |s| > 1 {
      CollapseShorter(s[1..]);
    }
  }

  lemma {:induction false} JoinTailShorter(parts: seq<string>)
    requires |parts| >= 1
    ensures |Join(parts[1..])| <= |Join(parts)|
    ensures |parts| >= 2 ==> |Join(parts[1..])| < |Join(parts)|
  {
  }

  /** Every path the walk recurses on is shorter than the one it started from. */
  lemma TokensShrink(path: string)
    requires path != ""
    ensures |Tokens(path)| >= 2 ==> |Join(Tokens(path)[1..])| < |path|
    ensures |Tokens(path)| >= 2 ==> |Join(Tokens(path)[2..])| < |path|
  {
    var n := CollapseDots(ReplaceBrackets(path));
    CollapseShorter(ReplaceBrackets(path));
    JoinSplit(n);
    var parts := Tokens(path);
    if |parts| >= 2 {
      JoinTailShorter(parts);
      JoinTailShorter(parts[1..]);
      assert parts[1..][1..] == parts[2..];
    }
  }
}
