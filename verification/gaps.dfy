/** How statements are spaced in the text of a module. */
module Gaps {
  import opened Expressions
  import opened Statements
  import opened SourceGenerators

  /** What is written before a statement that is not the first: a definition has one empty line before it, or before its
      decorators, a class two, and any other statement none. */
  function NewlinesBefore(s: Stmt): string {
    if s.ClassDef? then "\n\n\n" else if s.FunctionDef? then "\n\n" else "\n"
  }

  lemma RepeatIs()
    ensures Repeat("\n", 1) == "\n" && Repeat("\n", 2) == "\n\n" && Repeat("\n", 3) == "\n\n\n"
  {
    assert Repeat("\n", 1) == "\n" + Repeat("\n", 0);
    assert Repeat("\n", 2) == "\n" + Repeat("\n", 1);
    assert Repeat("\n", 3) == "\n" + Repeat("\n", 2);
  }

  /** The lines of a statement, wherever it stands: newlines, and then what it would be at the top of a text. */
  lemma GapsAre(s: Stmt, d: nat, rest: seq<Line>, w: string)
    ensures More(Lines(s, d) + rest, w) == NewlinesBefore(s) + Render(Lines(s, d), w) + More(rest, w)
  {
    MoreConcat(Lines(s, d), rest, w);
    FirstLine(s, d);
    RepeatIs();
    var l := Lines(s, d);
    hide Lines, Repeat;
    assert More(l, w) == Repeat("\n", l[0].gap) + (Repeat(w, l[0].depth) + l[0].text + More(l[1..], w));
  }

  lemma FirstLine(s: Stmt, d: nat)
    ensures Lines(s, d) != [] && Lines(s, d)[0].gap == if s.ClassDef? then 3 else if s.FunctionDef? then 2 else 1
  {
  }

  /** A statement behind others in a module. */
  lemma StatementFollows(a: seq<Stmt>, s: Stmt, w: string)
    requires a != []
    ensures Source(a + [s], w) == Source(a, w) + NewlinesBefore(s) + Source([s], w)
  {
    BodyAppend(a, [s], 0);
    OneStatement(s);
    HasLines(a);
    RenderConcat(BodyLines(a, 0), Lines(s, 0), w);
    GapsAre(s, 0, [], w);
    NothingMore(Lines(s, 0), w);
    hide *;
    EmptyEnd(Render(BodyLines(a, 0), w), NewlinesBefore(s), Render(Lines(s, 0), w));
  }

  lemma HasLines(a: seq<Stmt>)
    requires a != []
    ensures BodyLines(a, 0) != []
  {
    FirstLine(a[0], 0);
  }

  lemma NothingMore(ls: seq<Line>, w: string)
    ensures ls + [] == ls && More([], w) == ""
  {
  }

  lemma EmptyEnd(x: string, y: string, z: string)
    ensures x + (y + z + "") == x + y + z
  {
  }

  lemma {:induction false} BodyAppend(a: seq<Stmt>, b: seq<Stmt>, d: nat)
    ensures BodyLines(a + b, d) == BodyLines(a, d) + BodyLines(b, d)
    decreases |a|
  {
    hide Lines;
    if a == [] {
      assert a + b == b && BodyLines(a, d) == [];
    } else {
      assert (a + b)[1..] == a[1..] + b && (a + b)[0] == a[0];
      BodyAppend(a[1..], b, d);
    }
  }

  /** A decorator has a line of its own, directly before what it decorates. */
  lemma DecoratorsFollow(n: string, p: Signature, e: Expr, ds: seq<Expr>, b: seq<Stmt>, a: Arguments, w: string)
    ensures Source([FunctionDef(n, p, [e] + ds, b)], w) == "@" + Print(e) + "\n" + Source([FunctionDef(n, p, ds, b)], w)
    ensures Source([ClassDef(n, a, [e] + ds, b)], w) == "@" + Print(e) + "\n" + Source([ClassDef(n, a, ds, b)], w)
  {
    DecoratedFirst(2, e, ds, DefHeader(n, p), BodyLines(b, 1), w);
    DecoratedFirst(3, e, ds, ClassHeader(n, a), BodyLines(b, 1), w);
    DefinitionLines(n, p, [e] + ds, b, a);
    DefinitionLines(n, p, ds, b, a);
    hide BodyLines, DefLines, Render, DefHeader, ClassHeader, Print;
  }

  lemma DefinitionLines(n: string, p: Signature, ds: seq<Expr>, b: seq<Stmt>, a: Arguments)
    ensures BodyLines([FunctionDef(n, p, ds, b)], 0) == DefLines(2, ds, DefHeader(n, p), 0) + BodyLines(b, 1)
    ensures BodyLines([ClassDef(n, a, ds, b)], 0) == DefLines(3, ds, ClassHeader(n, a), 0) + BodyLines(b, 1)
  {
    OneStatement(FunctionDef(n, p, ds, b));
    OneStatement(ClassDef(n, a, ds, b));
    hide BodyLines, DefLines, DefHeader, ClassHeader;
  }

  lemma OneStatement(s: Stmt)
    ensures BodyLines([s], 0) == Lines(s, 0)
  {
    assert [s][1..] == [] && Lines(s, 0) + [] == Lines(s, 0);
  }

  lemma DecoratedFirst(gap: nat, e: Expr, ds: seq<Expr>, header: string, body: seq<Line>, w: string)
    ensures Render(DefLines(gap, [e] + ds, header, 0) + body, w) ==
            "@" + Print(e) + "\n" + Render(DefLines(gap, ds, header, 0) + body, w)
  {
    var first, next, rest := Line(gap, 0, "@" + Print(e)), DefLines(1, ds, header, 0), DefLines(gap, ds, header, 0);
    DecoratorLine(gap, e, ds, header);
    SameButGap(gap, ds, header);
    hide *;
    Grouped(first, next, body);
    RenderConcat([first], next + body, w);
    OneLine(first, w);
    SameBehind(next, rest, body);
    OneGap(next + body, rest + body, w);
    LineBreak(first.text, Render(rest + body, w));
  }

  lemma DecoratorLine(gap: nat, e: Expr, ds: seq<Expr>, header: string)
    ensures DefLines(gap, [e] + ds, header, 0) == [Line(gap, 0, "@" + Print(e))] + DefLines(1, ds, header, 0)
  {
    hide Print;
    assert ([e] + ds)[1..] == ds;
  }

  lemma SameBehind(x: seq<Line>, y: seq<Line>, body: seq<Line>)
    requires x != [] && y != [] && x[1..] == y[1..]
    ensures (x + body)[0] == x[0] && (y + body)[0] == y[0] && (x + body)[1..] == (y + body)[1..]
  {
    assert (x + body)[1..] == x[1..] + body && (y + body)[1..] == y[1..] + body;
  }

  lemma LineBreak(x: string, y: string)
    ensures x + ("\n" + y) == x + "\n" + y
  {
  }

  lemma Grouped(x: Line, a: seq<Line>, b: seq<Line>)
    ensures ([x] + a) + b == [x] + (a + b)
  {
  }

  lemma OneLine(l: Line, w: string)
    requires l.depth == 0
    ensures Render([l], w) == l.text
  {
    assert [l][1..] == [] && Repeat(w, 0) == "" && More([], w) == "";
    assert "" + l.text + "" == l.text;
  }

  lemma SameButGap(gap: nat, ds: seq<Expr>, header: string)
    ensures var x, y := DefLines(1, ds, header, 0), DefLines(gap, ds, header, 0);
            x != [] && y != [] && x[0].gap == 1 && y[0] == x[0].(gap := gap) && x[1..] == y[1..]
  {
  }

  lemma OneGap(x: seq<Line>, y: seq<Line>, w: string)
    requires x != [] && y != [] && x[0].gap == 1 && y[0] == x[0].(gap := y[0].gap) && x[1..] == y[1..]
    ensures More(x, w) == "\n" + Render(y, w)
  {
    RepeatIs();
    hide Repeat;
  }
}
