/** POSIX path strings as the watch manager handles them: joining, normalising and prefix tests. */
module Paths {

  const SEP := '/'

  /** Joins like `os.path.join` for two arguments. */
  function Join(a: string, b: string): string {
    if b != "" && b[0] == SEP then b
    else if a == "" || a[|a| - 1] == SEP then a + b
    else a + "/" + b
  }

  /** The pieces of `s` between separators, like `s.split('/')`. */
  function SplitSep(s: string): (pieces: seq<string>)
    ensures |pieces| > 0
  {
    if s == "" then [""]
    else
      var rest := SplitSep(s[1..]);
      if s[0] == SEP then [""] + rest else [[s[0]] + rest[0]] + rest[1..]
  }

  /** Drops empty and `.` pieces and lets `..` remove the piece before it. */
  function Collapse(pieces: seq<string>, rooted: bool, kept: seq<string>): seq<string> {
    if pieces == [] then kept
    else
      var c := pieces[0];
      if c == "" || c == "." then Collapse(pieces[1..], rooted, kept)
      else if c != ".." || (!rooted && kept == []) || (kept != [] && kept[|kept| - 1] == "..") then
        Collapse(pieces[1..], rooted, kept + [c])
      else if kept != [] then Collapse(pieces[1..], rooted, kept[..|kept| - 1])
      else Collapse(pieces[1..], rooted, kept)
  }

  function JoinSep(pieces: seq<string>): string {
    if pieces == [] then ""
    else if |pieces| == 1 then pieces[0]
    else pieces[0] + ("/" + JoinSep(pieces[1..]))
  }

  /** Normalises like `os.path.normpath` on POSIX: one or two leading separators are kept. */
  function NormPath(p: string): string {
    if p == "" then "."
    else
      var slashes :=
        if p[0] != SEP then ""
        else if "//" <= p && !("///" <= p) then "//"
        else "/";
      var body := slashes + JoinSep(Collapse(SplitSep(p), slashes != "", []));
      if body == "" then "." else body
  }

  /** A name that a directory can hold. */
  predicate ProperName(n: string) {
    n != "" && n != "." && n != ".." && SEP !in n
  }

  predicate Proper(cs: seq<string>) {
    forall i :: 0 <= i < |cs| ==> ProperName(cs[i])
  }

  /** The components with a separator before each. */
  function Slashed(cs: seq<string>): string {
    if cs == [] then "" else "/" + (cs[0] + Slashed(cs[1..]))
  }

  /** The normalised absolute path of a component sequence. */
  function Render(cs: seq<string>): string {
    if cs == [] then "/" else Slashed(cs)
  }

  lemma {:induction false} SlashedAppend(a: seq<string>, b: seq<string>)
    ensures Slashed(a + b) == Slashed(a) + Slashed(b)
  {
    if a == [] {
      assert a + b == b;
    } else {
      assert (a + b)[1..] == a[1..] + b;
      SlashedAppend(a[1..], b);
    }
  }

  lemma {:induction false} SlashedLast(cs: seq<string>)
    requires cs != [] && Proper(cs)
    ensures Slashed(cs) != "" && Slashed(cs)[|Slashed(cs)| - 1] != SEP
  {
    var k := |cs| - 1;
    assert cs == cs[..k] + [cs[k]];
    SlashedAppend(cs[..k], [cs[k]]);
    assert Slashed([cs[k]]) == "/" + cs[k] by { assert Slashed([cs[k]][1..]) == ""; }
    assert ProperName(cs[k]);
  }

  /** Joining a proper name to a rendered path appends one component. */
  lemma JoinRender(cs: seq<string>, n: string)
    requires Proper(cs) && ProperName(n)
    ensures Join(Render(cs), n) == Render(cs + [n])
  {
    assert Slashed([n]) == "/" + n by { assert Slashed([n][1..]) == ""; }
    SlashedAppend(cs, [n]);
    if cs != [] { SlashedLast(cs); }
  }

  lemma {:induction false} SplitName(n: string, rest: string)
    requires SEP !in n
    requires rest == "" || rest[0] == SEP
    ensures SplitSep(n + rest) == if rest == "" then [n] else [n] + SplitSep(rest[1..])
  {
    if n == "" {
      assert n + rest == rest;
    } else {
      assert (n + rest)[1..] == n[1..] + rest;
      SplitName(n[1..], rest);
      assert n == [n[0]] + n[1..];
    }
  }

  lemma {:induction false} SplitSlashed(cs: seq<string>)
    requires Proper(cs)
    ensures SplitSep(Slashed(cs)) == [""] + cs
  {
    if cs != [] {
      var tail := Slashed(cs[1..]);
      SplitSlashed(cs[1..]);
      assert ProperName(cs[0]);
      SplitName(cs[0], tail);
      assert Slashed(cs)[1..] == cs[0] + tail;
      if tail == "" {
        assert cs[1..] == [];
      } else {
        assert [""] + cs[1..] == SplitSep(tail) == [""] + SplitSep(tail[1..]);
        assert cs[1..] == ([""] + cs[1..])[1..] == SplitSep(tail[1..]);
      }
      assert cs == [cs[0]] + cs[1..];
    }
  }

  lemma {:induction false} CollapseProper(cs: seq<string>, rooted: bool, kept: seq<string>)
    requires Proper(cs)
    ensures Collapse(cs, rooted, kept) == kept + cs
  {
    if cs != [] {
      assert ProperName(cs[0]);
      CollapseProper(cs[1..], rooted, kept + [cs[0]]);
      assert kept + [cs[0]] + cs[1..] == kept + cs;
    } else {
      assert kept + cs == kept;
    }
  }

  lemma {:induction false} JoinSepSlashed(cs: seq<string>)
    requires cs != []
    ensures "/" + JoinSep(cs) == Slashed(cs)
  {
    if |cs| > 1 {
      JoinSepSlashed(cs[1..]);
    } else {
      assert Slashed(cs[1..]) == "";
    }
  }

  /** Rendered paths are exactly what normalising leaves alone. */
  lemma NormRender(cs: seq<string>)
    requires Proper(cs)
    ensures NormPath(Render(cs)) == Render(cs)
  {
    if cs == [] {
      assert SplitSep("/") == ["", ""] by { assert SplitSep("/"[1..]) == [""]; }
      assert Collapse(["", ""], true, []) == [] by {
        assert ["", ""][1..] == [""];
        assert Collapse([""], true, []) == [] by { assert [""][1..] == []; }
      }
    } else {
      SplitSlashed(cs);
      assert ProperName(cs[0]);
      assert Slashed(cs)[1] == cs[0][0];
      assert cs[0][0] in cs[0];
      CollapseProper(cs, true, []);
      assert ([""] + cs)[1..] == cs;
      assert Collapse([""] + cs, true, []) == [] + cs == cs;
      JoinSepSlashed(cs);
    }
  }

  lemma {:induction false} SlashedPrefix(a: seq<string>, b: seq<string>)
    requires Proper(a) && Proper(b)
    requires Slashed(a) + "/" <= Slashed(b)
    ensures a < b
  {
    if a != [] {
      assert b != [];
      assert ProperName(a[0]) && ProperName(b[0]);
      var x, y := Slashed(a[1..]) + "/", Slashed(b[1..]);
      assert Slashed(a) + "/" == "/" + (a[0] + x);
      assert Slashed(b) == "/" + (b[0] + y);
      assert a[0] + x <= b[0] + y by {
        assert (Slashed(a) + "/")[1..] == a[0] + x && Slashed(b)[1..] == b[0] + y;
      }
      SameFirstName(a[0], x, b[0], y);
      SlashedPrefix(a[1..], b[1..]);
      assert a == [a[0]] + a[1..] && b == [b[0]] + b[1..];
    } else {
      assert b != [];
    }
  }

  lemma {:induction false} SameFirstName(m: string, x: string, n: string, y: string)
    requires SEP !in m && SEP !in n
    requires x != "" && x[0] == SEP
    requires y == "" || y[0] == SEP
    requires m + x <= n + y
    ensures m == n && x <= y
  {
    assert (m + x)[0] == (n + y)[0];
    assert m == "" ==> m + x == x;
    assert n == "" ==> n + y == y;
    if m != "" && n != "" {
      assert (m + x)[1..] == m[1..] + x && (n + y)[1..] == n[1..] + y;
      SameFirstName(m[1..], x, n[1..], y);
      assert m == [m[0]] + m[1..] && n == [n[0]] + n[1..];
    }
  }

  /** The string test `startswith(src + '/')` is exactly "strictly below src", component by component:
      no sibling that merely shares leading characters passes it. */
  lemma StartsWithIsStrictlyUnder(src: seq<string>, p: seq<string>)
    requires Proper(src) && Proper(p) && src != []
    ensures Render(src) + "/" <= Render(p) <==> src < p
  {
    if src < p {
      var k := |src|;
      assert p == src + p[k..];
      SlashedAppend(src, p[k..]);
      assert Slashed(p[k..])[0] == SEP;
      assert Slashed(p) == (Slashed(src) + "/") + Slashed(p[k..])[1..];
    }
    if Render(src) + "/" <= Render(p) {
      if p == [] { SlashedLast(src); }
      SlashedPrefix(src, p);
    }
  }

  /** Cutting the source prefix off and joining the rest to the destination moves the components. */
  lemma ReprefixRender(src: seq<string>, dst: seq<string>, p: seq<string>)
    requires Proper(src) && Proper(dst) && Proper(p) && src != [] && dst != []
    requires src < p
    ensures |Render(src)| + 1 <= |Render(p)|
    ensures Join(Render(dst), Render(p)[|Render(src)| + 1..]) == Render(dst + p[|src|..])
  {
    var below := p[|src|..];
    assert p == src + below;
    SlashedAppend(src, below);
    SlashedAppend(dst, below);
    var rest := Slashed(below)[1..];
    assert Slashed(below) == "/" + rest;
    assert Render(p)[|Render(src)| + 1..] == rest;
    assert ProperName(below[0]);
    SlashedLast(dst);
    JoinBelow(Slashed(dst), below);
    assert dst + below != [];
  }

  lemma JoinBelow(d: string, below: seq<string>)
    requires d != "" && d[|d| - 1] != SEP && below != [] && ProperName(below[0])
    ensures Slashed(below) != "" && Join(d, Slashed(below)[1..]) == d + Slashed(below)
  {
    var rest := Slashed(below)[1..];
    assert rest == below[0] + Slashed(below[1..]);
    assert rest[0] == below[0][0] && below[0][0] in below[0];
    assert d + "/" + rest == d + ("/" + rest);
  }

  lemma {:induction false} SlashedInjective(a: seq<string>, b: seq<string>)
    requires Proper(a) && Proper(b) && Slashed(a) == Slashed(b)
    ensures a == b
  {
    if a == [] || b == [] {
    } else {
      var x, y := Slashed(a[1..]), Slashed(b[1..]);
      assert ProperName(a[0]) && ProperName(b[0]);
      assert Slashed(a)[1..] == a[0] + x && Slashed(b)[1..] == b[0] + y;
      SplitName(a[0], x);
      SplitName(b[0], y);
      assert a[0] == SplitSep(a[0] + x)[0] == b[0];
      assert x == (a[0] + x)[|a[0]|..] == y;
      SlashedInjective(a[1..], b[1..]);
      assert a == [a[0]] + a[1..] && b == [b[0]] + b[1..];
    }
  }

  /** Different component sequences have different paths. */
  lemma RenderInjective(a: seq<string>, b: seq<string>)
    requires Proper(a) && Proper(b) && Render(a) == Render(b)
    ensures a == b
  {
    if a == [] && b != [] { SlashedLast(b); }
    else if a != [] && b == [] { SlashedLast(a); }
    else { SlashedInjective(a, b); }
  }
}
