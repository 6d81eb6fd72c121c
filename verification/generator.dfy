/** `SourceGenerator`: the object that prints a tree, with its pending newlines and its indentation. */
module SourceGenerators {
  import opened Options
  import opened Expressions
  import opened Statements

  /** What has been written, whether anything has, and what is pending. */
  datatype Page = Page(text: string, begun: bool, newLines: nat, indentation: nat)

  function Join(parts: seq<string>): string {
    if parts == [] then "" else Join(parts[..|parts| - 1]) + parts[|parts| - 1]
  }

  /** The newlines and the indentation that are written before the next text. */
  function Pending(p: Page, indent: string): string {
    if p.newLines == 0 then ""
    else (if p.begun then Repeat("\n", p.newLines) else "") + Repeat(indent, p.indentation)
  }

  function Written(p: Page, indent: string, x: string): Page {
    Page(p.text + Pending(p, indent) + x, true, 0, p.indentation)
  }

  /** The page with lines below what is there. */
  function Appended(p: Page, ls: seq<Line>, indent: string): Page {
    if ls == [] then p
    else p.(text := p.text + (if p.begun then More(ls, indent) else Render(ls, indent)), begun := true)
  }

  lemma WrittenTwice(p: Page, indent: string, x: string, y: string)
    ensures Written(Written(p, indent, x), indent, y) == Written(p, indent, x + y)
  {
    var a := p.text + Pending(p, indent);
    assert a + x + "" + y == a + (x + y);
  }

  lemma WrittenLine(p: Page, gap: nat, text: string, indent: string)
    requires p.newLines == 0 && gap > 0
    ensures Written(p.(newLines := gap), indent, text) == Appended(p, [Line(gap, p.indentation, text)], indent)
  {
    var n, i, l := Repeat("\n", gap), Repeat(indent, p.indentation), Line(gap, p.indentation, text);
    assert [l][1..] == [];
    assert i + text + "" == i + text;
    assert More([l], indent) == n + (i + text) && Render([l], indent) == i + text;
    assert p.text + (n + i) + text == p.text + (n + (i + text));
    assert "" + i == i && p.text + i + text == p.text + (i + text);
  }

  lemma {:induction false} MoreConcat(a: seq<Line>, b: seq<Line>, indent: string)
    ensures More(a + b, indent) == More(a, indent) + More(b, indent)
    decreases |a|
  {
    if a == [] {
      assert a + b == b;
    } else {
      assert (a + b)[0] == a[0] && (a + b)[1..] == a[1..] + b;
      MoreConcat(a[1..], b, indent);
      Group(Repeat("\n", a[0].gap), Repeat(indent, a[0].depth) + a[0].text, More(a[1..], indent), More(b, indent));
    }
  }

  lemma Group(w: string, x: string, y: string, z: string)
    ensures w + (x + (y + z)) == w + (x + y) + z && x + (y + z) == x + y + z
  {
  }

  lemma RenderConcat(a: seq<Line>, b: seq<Line>, indent: string)
    requires a != []
    ensures Render(a + b, indent) == Render(a, indent) + More(b, indent)
  {
    assert (a + b)[0] == a[0] && (a + b)[1..] == a[1..] + b;
    MoreConcat(a[1..], b, indent);
    Group("", Repeat(indent, a[0].depth) + a[0].text, More(a[1..], indent), More(b, indent));
  }

  lemma AppendedTwice(p: Page, a: seq<Line>, b: seq<Line>, indent: string)
    ensures Appended(Appended(p, a, indent), b, indent) == Appended(p, a + b, indent)
  {
    hide More, Render;
    if a == [] {
      assert a + b == b;
    } else if b == [] {
      assert a + b == a;
    } else {
      MoreConcat(a, b, indent);
      RenderConcat(a, b, indent);
      Group("", p.text, if p.begun then More(a, indent) else Render(a, indent), More(b, indent));
    }
  }

  lemma JoinAppend(parts: seq<string>, x: string)
    ensures Join(parts + [x]) == Join(parts) + x
  {
    assert (parts + [x])[..|parts|] == parts;
  }

  // ---- parameters -----------------------------------------------------------------------------

  /** The text of parameters zipped with their defaults. */
  function ZipText(ids: seq<string>, ds: seq<Option<Expr>>, first: bool): string {
    if ids == [] || ds == [] then ""
    else
      Comma(first) + (ids[0] + (if ds[0].Some? then "=" + Print(ds[0].value) else "")) + ZipText(ids[1..], ds[1..], false)
  }

  function Nones(n: nat): (ds: seq<Option<Expr>>)
    ensures |ds| == n
  {
    if n == 0 then [] else [None] + Nones(n - 1)
  }

  function Somes(es: seq<Expr>): seq<Option<Expr>> { if es == [] then [] else [Some(es[0])] + Somes(es[1..]) }

  lemma {:induction false} ZipSomes(ids: seq<string>, es: seq<Expr>, first: bool)
    ensures ZipText(ids, Somes(es), first) == PrintKeywords(Defaults(ids, es), first)
    decreases |ids|
  {
    if ids != [] && es != [] {
      ZipSomes(ids[1..], es[1..], false);
      assert Somes(es)[1..] == Somes(es[1..]) && Defaults(ids, es)[1..] == Defaults(ids[1..], es[1..]);
      assert ids[0] + ("=" + Print(es[0])) == ids[0] + "=" + Print(es[0]);
      Group("", Comma(first), ids[0] + "=", Print(es[0]));
      Group("", Comma(first), ids[0], "=");
    }
  }

  lemma {:induction false} ZipIs(ids: seq<string>, n: nat, es: seq<Expr>, first: bool)
    requires n <= |ids|
    ensures ZipText(ids, Nones(n) + Somes(es), first) ==
            PrintArgs(Names(ids[..n]), first) + PrintKeywords(Defaults(ids[n..], es), first && n == 0)
    decreases n
  {
    hide PrintKeywords, Defaults;
    if n == 0 {
      assert Nones(0) + Somes(es) == Somes(es) && ids[0..] == ids && ids[..0] == [];
      ZipSomes(ids, es, first);
      assert "" + PrintKeywords(Defaults(ids, es), first) == PrintKeywords(Defaults(ids, es), first);
    } else {
      ZipIs(ids[1..], n - 1, es, false);
      ZipStep(ids, n, es);
      Group("", Comma(first) + ids[0], PrintArgs(Names(ids[1..][..n - 1]), false), PrintKeywords(Defaults(ids[n..], es), false));
    }
  }

  lemma ZipStep(ids: seq<string>, n: nat, es: seq<Expr>)
    requires 0 < n <= |ids|
    ensures var ds := Nones(n) + Somes(es); ds[0] == None && ds[1..] == Nones(n - 1) + Somes(es)
    ensures ids[1..][..n - 1] == ids[..n][1..] && ids[1..][n - 1..] == ids[n..] && ids[0] + "" == ids[0]
    ensures Names(ids[..n]) == [Name(ids[0])] + Names(ids[1..][..n - 1])
  {
    assert ids[1..][..n - 1] == ids[..n][1..];
  }

  lemma SignatureText(p: Signature)
    ensures var ds := Nones(Padding(p)) + Somes(p.defaults); var first := p.args == []; var first2 := first && p.vararg.None?;
            ZipText(p.args, ds, true) + PrintStar(NameOption(p.vararg), "*", first) +
            PrintStar(NameOption(p.kwarg), "**", first2) == PrintArguments(AsArguments(p))
  {
    hide PrintStar, PrintArgs, PrintKeywords;
    var n := Padding(p);
    ZipIs(p.args, n, p.defaults, true);
    var a := AsArguments(p);
    assert a.args == [] <==> n == 0;
    assert a.keywords == [] <==> p.args[n..] == [] || p.defaults == [];
    assert p.args == [] <==> a.args == [] && a.keywords == [];
  }

  // ---- the generator --------------------------------------------------------------------------

  class SourceGenerator {
    const indentWith: string
    var result: seq<string>
    var newLines: nat
    var indentation: nat

    constructor (indentWith: string)
      ensures this.indentWith == indentWith && View() == Page("", false, 0, 0)
    {
      this.indentWith := indentWith;
      result, newLines, indentation := [], 0, 0;
    }

    ghost function View(): Page reads this { Page(Join(result), result != [], newLines, indentation) }

    method Write(x: string)
      modifies this`result, this`newLines
      ensures View() == Written(old(View()), indentWith, x)
    {
      ghost var p := View();
      if newLines > 0 {
        if result != [] {
          JoinAppend(result, Repeat("\n", newLines));
          result := result + [Repeat("\n", newLines)];
        }
        JoinAppend(result, Repeat(indentWith, indentation));
        result := result + [Repeat(indentWith, indentation)];
        newLines := 0;
      }
      assert Join(result) == p.text + Pending(p, indentWith);
      JoinAppend(result, x);
      result := result + [x];
    }

    method Newline(extra: nat)
      modifies this`newLines
      ensures newLines == if old(newLines) < 1 + extra then 1 + extra else old(newLines)
    {
      if newLines < 1 + extra { newLines := 1 + extra; }
    }

    // ---- expressions ----

    /** Something was written and nothing is pending: more text only follows. */
    ghost predicate Inside() reads this { result != [] && newLines == 0 }

    ghost function Text(): string reads this { Join(result) }

    method Follow(x: string)
      requires Inside()
      modifies this`result, this`newLines
      ensures Inside() && Text() == old(Text()) + x
    {
      assert Text() + "" + x == Text() + x;
      Write(x);
    }

    /** What is written is the expression. */
    method Visit(e: Expr)
      modifies this`result, this`newLines
      ensures View() == Written(old(View()), indentWith, Print(e))
      decreases e, 1
    {
      ghost var p := View();
      match e
      case Name(id) => Write(id);
      case Attribute(v, a) =>
        Visit(v);
        WrittenTwice(p, indentWith, Print(v), "." + a);
        assert Print(v) + ("." + a) == Print(e);
        Write("." + a);
      case Subscript(v, i) =>
        Visit(v);
        Follow("[");
        VisitIndex(i);
        Follow("]");
        Wrap(p, Print(v), "[", PrintIndex(i), "]");
      case Call(f, a) =>
        Visit(f);
        Follow("(");
        VisitArguments(a);
        Follow(")");
        Wrap(p, Print(f), "(", PrintArguments(a), ")");
      case Bool(op, es) =>
        Write("(");
        var _ := VisitSeq(es, BoolSymbol(op));
        Follow(")");
        Wrap(p, "", "(", PrintSeq(es, BoolSymbol(op)), ")");
      case Unary(op, x) => VisitUnary(e);
      case Tuple(es) =>
        Write("(");
        var idx := VisitSeq(es, ", ");
        var close := if idx != 0 then ")" else ",)";
        Follow(close);
        Wrap(p, "", "(", PrintSeq(es, ", "), close);
      case List(es) =>
        Write("[");
        var _ := VisitSeq(es, ", ");
        Follow("]");
        Wrap(p, "", "[", PrintSeq(es, ", "), "]");
      case Set(es) =>
        Write("{");
        var _ := VisitSeq(es, ", ");
        Follow("}");
        Wrap(p, "", "{", PrintSeq(es, ", "), "}");
      case Dict(ps) =>
        Write("{");
        VisitItems(ps);
        Follow("}");
        Wrap(p, "", "{", PrintItems(ps), "}");
    }

    lemma Wrap(p: Page, v: string, o: string, x: string, c: string)
      ensures var q := p.text + Pending(p, indentWith);
              q + v + o + x + c == q + (v + o + x + c) && q + o + x + c == q + (o + x + c)
    {
    }

    /** A visit after something was written. */
    method Put(e: Expr)
      requires Inside()
      modifies this`result, this`newLines
      ensures Inside() && indentation == old(indentation) && Text() == old(Text()) + Print(e)
      decreases e, 2
    {
      assert Text() + "" == Text();
      Visit(e);
    }

    method WriteOp(uop: UnaryOp)
      requires Inside()
      modifies this`result, this`newLines
      ensures Inside() && indentation == old(indentation) && Text() == old(Text()) + UnarySymbol(uop)
    {
      ghost var t := Text();
      var op := match uop case Invert => "~" case Not => "not" case UAdd => "+" case USub => "-";
      Follow(op);
      if op == "not" {
        Follow(" ");
        assert t + "not" + " " == t + "not ";
      }
    }

    method VisitUnary(e: Expr)
      requires e.Unary?
      modifies this`result, this`newLines
      ensures View() == Written(old(View()), indentWith, Print(e))
      decreases e, 0
    {
      ghost var p := View();
      Write("(");
      WriteOp(e.uop);
      Put(e.operand);
      Follow(")");
      Wrap(p, "(", UnarySymbol(e.uop), Print(e.operand), ")");
    }

    /** Expressions with a separator between them; the index of the last one. */
    method VisitSeq(es: seq<Expr>, sep: string) returns (idx: int)
      requires Inside()
      modifies this`result, this`newLines
      ensures Inside() && indentation == old(indentation) && Text() == old(Text()) + PrintSeq(es, sep) && idx == |es| - 1
      decreases es
    {
      idx := -1;
      var i := 0;
      assert es[0..] == es;
      while i < |es|
        invariant i <= |es| && idx == i - 1 && Inside() && indentation == old(indentation)
        invariant Text() + ((if i == 0 || i == |es| then "" else sep) + PrintSeq(es[i..], sep)) ==
                  old(Text()) + PrintSeq(es, sep)
      {
        idx := i;
        ghost var t := Text();
        assert es[i..][1..] == es[i + 1..] && es[i..][0] == es[i];
        if i > 0 { Follow(sep); }
        Put(es[i]);
        ghost var s, s2 := if i == 0 then "" else sep, if i + 1 == |es| then "" else sep;
        assert "" + "" == "" && Text() + "" == Text();
        ShiftText(t, s, Print(es[i]), s2, PrintSeq(es[i + 1..], sep));
        i := i + 1;
      }
      assert Text() + ("" + "") == Text();
    }

    static lemma ShiftText(t: string, s: string, x: string, s2: string, rest: string)
      ensures t + (s + (x + s2 + rest)) == t + s + x + (s2 + rest)
      ensures t + (s + (x + (s2 + rest))) == t + s + x + (s2 + rest)
      ensures t + "" + x == t + x && t + s + (x + s2 + "") == t + s + x + s2 && x + "" == x && x + s2 + "" == x + s2
    {
    }

    method VisitItems(ps: seq<Item>)
      requires Inside()
      modifies this`result, this`newLines
      ensures Inside() && indentation == old(indentation) && Text() == old(Text()) + PrintItems(ps)
      decreases ps
    {
      var i := 0;
      assert ps[0..] == ps;
      while i < |ps|
        invariant i <= |ps| && Inside() && indentation == old(indentation)
        invariant Text() + ((if i == 0 || i == |ps| then "" else ", ") + PrintItems(ps[i..])) == old(Text()) + PrintItems(ps)
      {
        ghost var t := Text();
        assert ps[i..][1..] == ps[i + 1..] && ps[i..][0] == ps[i];
        if i > 0 { Follow(", "); }
        VisitItem(ps[i]);
        ghost var s, s2 := if i == 0 then "" else ", ", if i + 1 == |ps| then "" else ", ";
        ShiftText(t, s, PrintItem(ps[i]), s2, PrintItems(ps[i + 1..]));
        i := i + 1;
      }
      assert Text() + ("" + "") == Text();
    }

    method VisitItem(p: Item)
      requires Inside()
      modifies this`result, this`newLines
      ensures Inside() && indentation == old(indentation) && Text() == old(Text()) + PrintItem(p)
      decreases p
    {
      ghost var t := Text();
      Put(p.key);
      Follow(": ");
      Put(p.value);
      assert t + Print(p.key) + ": " + Print(p.value) == t + PrintItem(p);
    }

    method VisitOption(e: Option<Expr>)
      requires Inside()
      modifies this`result, this`newLines
      ensures Inside() && indentation == old(indentation) && Text() == old(Text()) + PrintOption(e)
      decreases e
    {
      ghost var t := Text();
      if e.Some? { Put(e.value); } else { assert t + "" == t; }
    }

    method VisitStep(e: Option<Expr>)
      requires Inside()
      modifies this`result, this`newLines
      ensures Inside() && indentation == old(indentation) && Text() == old(Text()) + PrintStep(e)
      decreases e
    {
      ghost var t := Text();
      if e.Some? {
        Follow(":");
        if e.value != Name("None") {
          Put(e.value);
          assert t + ":" + Print(e.value) == t + (":" + Print(e.value));
        } else {
          assert t + ":" == t + (":" + "");
        }
      } else {
        assert t + "" == t;
      }
    }

    method VisitIndex(i: Index)
      requires Inside()
      modifies this`result, this`newLines
      ensures Inside() && indentation == old(indentation) && Text() == old(Text()) + PrintIndex(i)
      decreases i
    {
      ghost var t := Text();
      match i
      case Index(e) => Put(e);
      case Slice(l, u, s) =>
        VisitOption(l);
        Follow(":");
        VisitOption(u);
        VisitStep(s);
        Four(t, PrintOption(l), ":", PrintOption(u), PrintStep(s));
    }

    /** The bracket that opens a list of bases comes with its first member; a call has it written already. */
    static function Lead(open: string, wantComma: bool, any: bool): string { if !wantComma && any then open else "" }

    /** `write_comma` or `paren_or_comma`: the opening the first time, then a comma. */
    method WriteComma(wantComma: bool, open: string) returns (want: bool)
      requires Inside()
      modifies this`result, this`newLines
      ensures Inside() && indentation == old(indentation) && want
      ensures Text() == old(Text()) + Lead(open, wantComma, true) + Comma(!wantComma)
    {
      ghost var t := Text();
      assert t + "" + ", " == t + ", " && t + open + "" == t + open;
      if wantComma { Follow(", "); } else if open != "" { Follow(open); }
      want := true;
    }

    /** A page on which a list still has its rest to come. */
    static lemma ListText(t: string, o: string, c: string, x: string, rest: string)
      ensures t + o + c + x + ("" + rest) == t + (o + (c + x + rest))
    {
      assert "" + rest == rest;
    }

    method VisitArgs(es: seq<Expr>, wantComma: bool, open: string) returns (want: bool)
      requires Inside()
      modifies this`result, this`newLines
      ensures Inside() && indentation == old(indentation) && want == (wantComma || es != [])
      ensures Text() == old(Text()) + (Lead(open, wantComma, es != []) + PrintArgs(es, !wantComma))
      decreases es
    {
      want := wantComma;
      var i := 0;
      assert es[0..] == es;
      while i < |es|
        invariant i <= |es| && Inside() && indentation == old(indentation) && want == (wantComma || i > 0)
        invariant Text() + (Lead(open, want, i < |es|) + PrintArgs(es[i..], !want)) ==
                  old(Text()) + (Lead(open, wantComma, es != []) + PrintArgs(es, !wantComma))
      {
        ghost var t, was := Text(), want;
        assert es[i..][1..] == es[i + 1..] && es[i..][0] == es[i];
        want := WriteComma(want, open);
        Put(es[i]);
        ListText(t, Lead(open, was, true), Comma(!was), Print(es[i]), PrintArgs(es[i + 1..], false));
        i := i + 1;
      }
      assert Text() + ("" + "") == Text();
    }

    method VisitKeyword(w: Keyword)
      requires Inside()
      modifies this`result, this`newLines
      ensures Inside() && indentation == old(indentation) && Text() == old(Text()) + (w.arg + "=" + Print(w.value))
      decreases w
    {
      ghost var t := Text();
      Follow(w.arg + "=");
      Put(w.value);
      assert t + (w.arg + "=") + Print(w.value) == t + (w.arg + "=" + Print(w.value));
    }

    method VisitKeywords(ks: seq<Keyword>, wantComma: bool, open: string) returns (want: bool)
      requires Inside()
      modifies this`result, this`newLines
      ensures Inside() && indentation == old(indentation) && want == (wantComma || ks != [])
      ensures Text() == old(Text()) + (Lead(open, wantComma, ks != []) + PrintKeywords(ks, !wantComma))
      decreases ks
    {
      want := wantComma;
      var i := 0;
      assert ks[0..] == ks;
      while i < |ks|
        invariant i <= |ks| && Inside() && indentation == old(indentation) && want == (wantComma || i > 0)
        invariant Text() + (Lead(open, want, i < |ks|) + PrintKeywords(ks[i..], !want)) ==
                  old(Text()) + (Lead(open, wantComma, ks != []) + PrintKeywords(ks, !wantComma))
      {
        ghost var t, was := Text(), want;
        ghost var x, rest := ks[i].arg + "=" + Print(ks[i].value), PrintKeywords(ks[i + 1..], false);
        assert ks[i..][1..] == ks[i + 1..] && ks[i..][0] == ks[i];
        want := WriteComma(want, open);
        VisitKeyword(ks[i]);
        ListText(t, Lead(open, was, true), Comma(!was), x, rest);
        KeywordText(Comma(!was), ks[i].arg, Print(ks[i].value));
        i := i + 1;
      }
      assert Text() + ("" + "") == Text();
    }

    static lemma KeywordText(c: string, a: string, v: string)
      ensures c + a + "=" + v == c + (a + "=" + v)
    {
    }

    method VisitStar(e: Option<Expr>, stars: string, wantComma: bool, open: string) returns (want: bool)
      requires Inside()
      modifies this`result, this`newLines
      ensures Inside() && indentation == old(indentation) && want == (wantComma || e.Some?)
      ensures Text() == old(Text()) + (Lead(open, wantComma, e.Some?) + PrintStar(e, stars, !wantComma))
      decreases e
    {
      want := wantComma;
      ghost var t := Text();
      if e.Some? {
        want := WriteComma(want, open);
        Follow(stars);
        Put(e.value);
        ListText(t, Lead(open, wantComma, true), Comma(!wantComma) + stars, Print(e.value), "");
        StarText(t + Lead(open, wantComma, true), Comma(!wantComma), stars, Print(e.value));
      } else {
        assert t + ("" + "") == t;
      }
    }

    static lemma StarText(t: string, c: string, s: string, x: string)
      ensures t + c + s + x == t + (c + s) + x && c + s + x + "" == c + s + x && "" + "" == ""
      ensures t + (c + s) + x + "" == t + (c + s) + x
    {
    }

    /** Arguments, with what opens them if there are any. */
    method VisitAll(a: Arguments, open: string) returns (want: bool)
      requires Inside()
      modifies this`result, this`newLines
      ensures Inside() && indentation == old(indentation) && want == (a != NO_ARGUMENTS)
      ensures Text() == old(Text()) + (Lead(open, false, want) + PrintArguments(a))
      decreases a, 0
    {
      ghost var t := Text();
      want := VisitArgs(a.args, false, open);
      want := VisitKeywords(a.keywords, want, open);
      want := VisitStar(a.starargs, "*", want, open);
      want := VisitStar(a.kwargs, "**", want, open);
      ghost var first1 := a.args == [];
      ghost var first2 := first1 && a.keywords == [];
      ghost var first3 := first2 && a.starargs.None?;
      ghost var w, x := PrintArgs(a.args, true), PrintKeywords(a.keywords, first1);
      ghost var y, z := PrintStar(a.starargs, "*", first2), PrintStar(a.kwargs, "**", first3);
      assert first1 ==> w == "";
      assert first2 ==> x == "";
      assert first3 ==> y == "";
      assert !want ==> z == "";
      Opened(t, open, w, x, y, z);
    }

    /** The opening may come before any of four texts when those before it are empty. */
    static lemma Opened(t: string, o: string, w: string, x: string, y: string, z: string)
      ensures t + (o + w) + ("" + x) + ("" + y) + ("" + z) == t + (o + (w + x + y + z))
      ensures t + ("" + "") + (o + x) + ("" + y) + ("" + z) == t + (o + ("" + x + y + z))
      ensures t + ("" + "") + ("" + "") + (o + y) + ("" + z) == t + (o + ("" + "" + y + z))
      ensures t + ("" + "") + ("" + "") + ("" + "") + (o + z) == t + (o + ("" + "" + "" + z))
      ensures t + ("" + "") + ("" + "") + ("" + "") + ("" + "") == t + ("" + ("" + "" + "" + ""))
    {
      assert "" + x == x && "" + y == y && "" + z == z && "" + "" == "" && t + "" == t;
    }

    method VisitArguments(a: Arguments)
      requires Inside()
      modifies this`result, this`newLines
      ensures Inside() && indentation == old(indentation) && Text() == old(Text()) + PrintArguments(a)
      decreases a, 1
    {
      var want := VisitAll(a, "");
      assert "" + PrintArguments(a) == PrintArguments(a);
    }

    static lemma Three(t: string, x: string, y: string, z: string)
      ensures t + x + ("" + y) + ("" + z) == t + (x + y + z)
    {
      Neutral(t, y, z);
    }

    static lemma Four(t: string, w: string, x: string, y: string, z: string)
      ensures t + w + x + y + z == t + (w + x + y + z)
    {
    }

    // ---- statements ----

    /** A line is what is written between two newlines. */
    static lemma LineIs(p: Page, gap: nat, x: string, text: string, indent: string)
      requires p.newLines == 0 && gap > 0 && x == text
      ensures Written(p.(newLines := gap), indent, x) == Appended(p, [Line(gap, p.indentation, text)], indent)
    {
      WrittenLine(p, gap, text, indent);
    }

    /** What follows a text that was written. */
    static lemma Onward(p: Page, indent: string, x: string, y: string)
      ensures Written(p, indent, x + y).text == Written(p, indent, x).text + y
    {
      assert p.text + Pending(p, indent) + (x + y) == p.text + Pending(p, indent) + x + y;
    }

    method Statement(text: string)
      requires newLines == 0
      modifies this`result, this`newLines
      ensures View() == Appended(old(View()), [Line(1, indentation, text)], indentWith)
    {
      ghost var p := View();
      Newline(0);
      Write(text);
      LineIs(p, 1, text, text, indentWith);
    }

    /** `if`, `elif` and `while`. */
    method TestLine(word: string, test: Expr)
      requires newLines == 0
      modifies this`result, this`newLines
      ensures View() == Appended(old(View()), [Line(1, indentation, TestHeader(word, test))], indentWith)
    {
      ghost var p := View();
      Newline(0);
      ghost var q := View();
      Write(word);
      Put(test);
      Follow(":");
      Onward(q, indentWith, word, Print(test));
      Onward(q, indentWith, word + Print(test), ":");
      LineIs(p, 1, word + Print(test) + ":", TestHeader(word, test), indentWith);
    }

    method ForLine(target: Expr, iter: Expr)
      requires newLines == 0
      modifies this`result, this`newLines
      ensures View() == Appended(old(View()), [Line(1, indentation, ForHeader(target, iter))], indentWith)
    {
      ghost var p := View();
      Newline(0);
      ghost var q := View();
      Write("for ");
      Put(target);
      Follow(" in ");
      Put(iter);
      Follow(":");
      ghost var x := "for " + Print(target);
      Onward(q, indentWith, "for ", Print(target));
      Onward(q, indentWith, x, " in ");
      Onward(q, indentWith, x + " in ", Print(iter));
      Onward(q, indentWith, x + " in " + Print(iter), ":");
      LineIs(p, 1, x + " in " + Print(iter) + ":", ForHeader(target, iter), indentWith);
    }

    method WithLine(context: Expr, vars: Option<Expr>)
      requires newLines == 0
      modifies this`result, this`newLines
      ensures View() == Appended(old(View()), [Line(1, indentation, WithHeader(context, vars))], indentWith)
    {
      ghost var p := View();
      Newline(0);
      ghost var q := View();
      Write("with ");
      Put(context);
      As(vars);
      Follow(":");
      ghost var x, y := "with " + Print(context), AsText(vars);
      Onward(q, indentWith, "with ", Print(context));
      Onward(q, indentWith, x, y);
      Onward(q, indentWith, x + y, ":");
      LineIs(p, 1, x + y + ":", WithHeader(context, vars), indentWith);
    }

    static function AsText(vars: Option<Expr>): string { if vars.Some? then " as " + Print(vars.value) else "" }

    method As(vars: Option<Expr>)
      requires Inside()
      modifies this`result, this`newLines
      ensures Inside() && indentation == old(indentation) && Text() == old(Text()) + AsText(vars)
    {
      ghost var t := Text();
      if vars.Some? {
        Follow(" as ");
        Put(vars.value);
        assert t + " as " + Print(vars.value) == t + (" as " + Print(vars.value));
      } else {
        assert t + "" == t;
      }
    }

    /** The lines of decorators, the first after a gap. */
    static ghost function DecoratorLines(gap: nat, ds: seq<Expr>, d: nat): seq<Line>
      decreases |ds|
    {
      if ds == [] then [] else [Line(gap, d, "@" + Print(ds[0]))] + DecoratorLines(1, ds[1..], d)
    }

    static lemma {:induction false} DefLinesAre(gap: nat, ds: seq<Expr>, header: string, d: nat)
      ensures DefLines(gap, ds, header, d) ==
              DecoratorLines(gap, ds, d) + [Line(if ds == [] then gap else 1, d, header)]
      decreases |ds|
    {
      if ds != [] { DefLinesAre(1, ds[1..], header, d); }
    }

    /** One more line is one line less to come. */
    static lemma NextLine(p: Page, q: Page, v: Page, x: Line, rest: seq<Line>, indent: string)
      requires Appended(v, [x] + rest, indent) == p && q == Appended(v, [x], indent)
      ensures Appended(q, rest, indent) == p
    {
      AppendedTwice(v, [x], rest, indent);
    }

    method Decorate(e: Expr)
      modifies this`result, this`newLines
      ensures var gap := if old(newLines) == 0 then 1 else old(newLines);
              View() == Appended(old(View()).(newLines := 0), [Line(gap, old(indentation), "@" + Print(e))], indentWith)
    {
      ghost var v := View().(newLines := 0);
      Newline(0);
      ghost var q := View();
      Write("@");
      Put(e);
      Onward(q, indentWith, "@", Print(e));
      LineIs(v, q.newLines, "@" + Print(e), "@" + Print(e), indentWith);
    }

    method Decorators(ds: seq<Expr>)
      requires newLines >= 1
      modifies this`result, this`newLines
      ensures newLines == if ds == [] then old(newLines) else 0
      ensures View().(newLines := 0) ==
              Appended(old(View()).(newLines := 0), DecoratorLines(old(newLines), ds, indentation), indentWith)
    {
      hide Appended;
      ghost var gap, d := newLines, indentation;
      ghost var page := Appended(View().(newLines := 0), DecoratorLines(gap, ds, d), indentWith);
      var i := 0;
      assert ds[0..] == ds;
      while i < |ds|
        invariant i <= |ds| && newLines == (if i == 0 then gap else 0) && indentation == d
        invariant Appended(View().(newLines := 0), DecoratorLines(if i == 0 then gap else 1, ds[i..], d), indentWith) == page
      {
        ghost var v, g := View().(newLines := 0), if i == 0 then gap else 1;
        assert ds[i..][1..] == ds[i + 1..] && ds[i..][0] == ds[i];
        Decorate(ds[i]);
        AppendedIndentation(v, [Line(g, d, "@" + Print(ds[i]))], indentWith);
        NextLine(page, View(), v, Line(g, d, "@" + Print(ds[i])), DecoratorLines(1, ds[i + 1..], d), indentWith);
        i := i + 1;
      }
      NoLines(View().(newLines := 0), indentWith);
    }

    static lemma NoLines(p: Page, indent: string)
      ensures Appended(p, [], indent) == p
    {
    }

    /** Decorators, and the newline before the header. */
    method Definition(extra: nat, ds: seq<Expr>)
      requires newLines == 0
      modifies this`result, this`newLines
      ensures newLines == (if ds == [] then 1 + extra else 1)
      ensures View().(newLines := 0) == Appended(old(View()), DecoratorLines(1 + extra, ds, indentation), indentWith)
    {
      Newline(extra);
      Decorators(ds);
      Newline(0);
    }

    static lemma HeaderIs(p: Page, v: Page, gap: nat, ds: seq<Expr>, x: string, header: string, indent: string)
      requires p.newLines == 0 && gap > 0 && x == header && v.newLines == (if ds == [] then gap else 1)
      requires v.(newLines := 0) == Appended(p, DecoratorLines(gap, ds, p.indentation), indent)
      ensures Written(v, indent, x) == Appended(p, DefLines(gap, ds, header, p.indentation), indent)
    {
      hide Written, Appended, DefLines, DecoratorLines;
      var d := p.indentation;
      var w := v.(newLines := 0);
      assert w.indentation == d by { AppendedIndentation(p, DecoratorLines(gap, ds, d), indent); }
      LineIs(w, v.newLines, x, header, indent);
      assert v == w.(newLines := v.newLines);
      AppendedTwice(p, DecoratorLines(gap, ds, d), [Line(v.newLines, d, header)], indent);
      DefLinesAre(gap, ds, header, d);
    }

    static lemma AppendedIndentation(p: Page, ls: seq<Line>, indent: string)
      ensures Appended(p, ls, indent).indentation == p.indentation && Appended(p, ls, indent).newLines == p.newLines
    {
    }

    static function ParameterText(id: string, d: Option<Expr>): string {
      id + if d.Some? then "=" + Print(d.value) else ""
    }

    /** One more parameter is one less to come. */
    static lemma NextParameter(ids: seq<string>, ds: seq<Option<Expr>>, i: nat, t: string, first: bool)
      requires i < |ids| && i < |ds|
      ensures t + ZipText(ids[i..], ds[i..], first) ==
              t + "" + Comma(first) + ParameterText(ids[i], ds[i]) + ZipText(ids[i + 1..], ds[i + 1..], false)
    {
      assert ids[i..][1..] == ids[i + 1..] && ds[i..][1..] == ds[i + 1..] && ids[i..][0] == ids[i] && ds[i..][0] == ds[i];
      var x, rest := ParameterText(ids[i], ds[i]), ZipText(ids[i + 1..], ds[i + 1..], false);
      ListText(t, "", Comma(first), x, rest);
      Neutral(t, Comma(first) + x + rest, rest);
    }

    method VisitParameters(ids: seq<string>, ds: seq<Option<Expr>>) returns (want: bool)
      requires Inside() && |ids| <= |ds|
      modifies this`result, this`newLines
      ensures Inside() && indentation == old(indentation) && want == (ids != [])
      ensures Text() == old(Text()) + ZipText(ids, ds, true)
    {
      hide ZipText;
      ghost var t := Text();
      want := false;
      var i := 0;
      assert ids[0..] == ids && ds[0..] == ds;
      while i < |ids|
        invariant i <= |ids| && Inside() && indentation == old(indentation) && want == (i > 0)
        invariant Text() + ZipText(ids[i..], ds[i..], !want) == t + ZipText(ids, ds, true)
      {
        NextParameter(ids, ds, i, Text(), !want);
        want := WriteComma(want, "");
        Parameter(ids[i], ds[i]);
        i := i + 1;
      }
      NoParameters(ids[i..], ds[i..], Text());
    }

    static lemma NoParameters(ids: seq<string>, ds: seq<Option<Expr>>, t: string)
      requires ids == []
      ensures t + ZipText(ids, ds, true) == t && t + ZipText(ids, ds, false) == t
    {
    }

    method VisitSignature(p: Signature)
      requires Inside()
      modifies this`result, this`newLines
      ensures Inside() && indentation == old(indentation) && Text() == old(Text()) + PrintArguments(AsArguments(p))
    {
      hide ZipText, PrintStar, PrintArguments, AsArguments, Nones, Somes, Join;
      ghost var t := Text();
      var ds := Nones(Padding(p)) + Somes(p.defaults);
      PaddedLength(p);
      var want := VisitParameters(p.args, ds);
      want := VisitStar(NameOption(p.vararg), "*", want, "");
      want := VisitStar(NameOption(p.kwarg), "**", want, "");
      ghost var first := p.args == [];
      ghost var w, y := ZipText(p.args, ds, true), PrintStar(NameOption(p.vararg), "*", first);
      ghost var z := PrintStar(NameOption(p.kwarg), "**", first && p.vararg.None?);
      SignatureText(p);
      Three(t, w, y, z);
    }

    static lemma PaddedLength(p: Signature)
      ensures |Nones(Padding(p)) + Somes(p.defaults)| >= |p.args|
    {
      SomesLength(p.defaults);
    }

    static lemma {:induction false} SomesLength(es: seq<Expr>)
      ensures |Somes(es)| == |es|
      decreases |es|
    {
      if es != [] { SomesLength(es[1..]); }
    }

    static lemma Neutral(t: string, y: string, z: string)
      ensures t + "" == t && "" + y == y && "" + z == z && y + "" == y
    {
    }

    method Parameter(id: string, d: Option<Expr>)
      requires Inside()
      modifies this`result, this`newLines
      ensures Inside() && indentation == old(indentation)
      ensures Text() == old(Text()) + ParameterText(id, d)
    {
      ghost var t := Text();
      Follow(id);
      if d.Some? {
        Follow("=");
        Put(d.value);
        assert t + id + "=" + Print(d.value) == t + (id + ("=" + Print(d.value)));
      } else {
        assert t + id == t + (id + "");
      }
    }

    method DefLine(name: string, p: Signature, ds: seq<Expr>)
      requires newLines == 0
      modifies this`result, this`newLines
      ensures View() == Appended(old(View()), DefLines(2, ds, DefHeader(name, p), indentation), indentWith)
    {
      ghost var before := View();
      Definition(1, ds);
      ghost var v := View();
      var d := "def " + name + "(";
      ghost var args := PrintArguments(AsArguments(p));
      Write(d);
      VisitSignature(p);
      Follow("):");
      Onward(v, indentWith, d, args);
      Onward(v, indentWith, d + args, "):");
      HeaderIs(before, v, 2, ds, d + args + "):", DefHeader(name, p), indentWith);
    }

    method ClassLine(name: string, a: Arguments, ds: seq<Expr>)
      requires newLines == 0
      modifies this`result, this`newLines
      ensures View() == Appended(old(View()), DefLines(3, ds, ClassHeader(name, a), indentation), indentWith)
    {
      hide PrintArguments, DefLines, Appended, Join;
      ghost var before := View();
      Definition(2, ds);
      ghost var v := View();
      var c := "class " + name;
      ghost var args := PrintArguments(a);
      Write(c);
      var have := VisitAll(a, "(");
      ghost var all := Lead("(", false, have) + args;
      Follow(if have then "):" else ":");
      ghost var end := if have then "):" else ":";
      Onward(v, indentWith, c, all);
      Onward(v, indentWith, c + all, end);
      NoText(a);
      ClassText(c, args, all, have);
      HeaderIs(before, v, 3, ds, c + all + end, ClassHeader(name, a), indentWith);
    }

    static lemma NoText(a: Arguments)
      ensures a == NO_ARGUMENTS ==> PrintArguments(a) == ""
    {
    }

    static lemma ClassText(c: string, args: string, all: string, have: bool)
      requires all == Lead("(", false, have) + args && (!have ==> args == "")
      ensures c + all + (if have then "):" else ":") == c + (if have then "(" + args + "):" else ":")
    {
      if have {
        assert c + ("(" + args) + "):" == c + ("(" + args + "):");
      } else {
        assert all == "" && c + all == c;
      }
    }

    /** `body`: the statements one level deeper. */
    method Body(ss: seq<Stmt>)
      requires newLines == 0
      modifies this`result, this`newLines, this`indentation
      ensures View() == Appended(old(View()), BodyLines(ss, old(indentation) + 1), indentWith)
      decreases ss, 0
    {
      hide Appended, Lines, Join;
      ghost var p, d := View(), indentation + 1;
      indentation := indentation + 1;
      ghost var deeper := View();
      ghost var page := Appended(deeper, BodyLines(ss, d), indentWith);
      var i := 0;
      assert ss[0..] == ss;
      while i < |ss|
        invariant i <= |ss| && newLines == 0 && indentation == d
        invariant Appended(View(), BodyLines(ss[i..], d), indentWith) == page
      {
        ghost var v := View();
        assert ss[i..][1..] == ss[i + 1..] && ss[i..][0] == ss[i];
        VisitStmt(ss[i]);
        AppendedIndentation(v, Lines(ss[i], d), indentWith);
        AppendedTwice(v, Lines(ss[i], d), BodyLines(ss[i + 1..], d), indentWith);
        i := i + 1;
      }
      NoLines(View(), indentWith);
      indentation := indentation - 1;
      Shifted(p, deeper, BodyLines(ss, d), indentWith);
    }

    /** Lines carry their own depth. */
    static lemma Shifted(p: Page, q: Page, ls: seq<Line>, indent: string)
      requires q == p.(indentation := p.indentation + 1)
      ensures Appended(q, ls, indent).(indentation := p.indentation) == Appended(p, ls, indent)
    {
    }

    static lemma AppendedThrice(p: Page, a: seq<Line>, b: seq<Line>, c: seq<Line>, indent: string)
      ensures Appended(Appended(p, a, indent), b, indent) == Appended(p, a + b, indent)
      ensures Appended(Appended(Appended(p, a, indent), b, indent), c, indent) == Appended(p, a + b + c, indent)
      ensures Appended(p, a, indent).indentation == p.indentation && Appended(p, a, indent).newLines == p.newLines
      ensures Appended(p, a + b, indent).indentation == p.indentation && Appended(p, a + b, indent).newLines == p.newLines
    {
      AppendedTwice(p, a, b, indent);
      AppendedTwice(p, a + b, c, indent);
      AppendedIndentation(p, a, indent);
      AppendedIndentation(p, a + b, indent);
    }

    method ElseBody(o: seq<Stmt>)
      requires newLines == 0
      modifies this`result, this`newLines, this`indentation
      ensures View() ==
              Appended(old(View()), [Line(1, old(indentation), "else:")] + BodyLines(o, old(indentation) + 1), indentWith)
      decreases o, 1
    {
      hide Appended, Join, BodyLines;
      ghost var p, l := View(), [Line(1, indentation, "else:")];
      AppendedThrice(p, l, BodyLines(o, indentation + 1), [], indentWith);
      Statement("else:");
      Body(o);
    }

    /** The `else` of a loop is written if there is one. */
    method OrElse(o: seq<Stmt>)
      requires newLines == 0
      modifies this`result, this`newLines, this`indentation
      ensures View() == Appended(old(View()), OrElseLines(o, old(indentation)), indentWith)
      decreases o, 2
    {
      if o != [] { ElseBody(o); } else { NoLines(View(), indentWith); }
    }

    /** What comes after the body of an `if`: one `elif` after the other, and an `else`. */
    method VisitIf(s: Stmt)
      requires s.If? && newLines == 0
      modifies this`result, this`newLines, this`indentation
      ensures View() == Appended(old(View()), Lines(s, old(indentation)), indentWith)
      decreases s, 0
    {
      hide Appended, Join, BodyLines, TestHeader;
      ghost var d, p := indentation, View();
      ghost var page := Appended(p, Lines(s, d), indentWith);
      AppendedThrice(p, [Line(1, d, TestHeader("if ", s.test))], BodyLines(s.body, d + 1), ElseLines(s.orelse, d), indentWith);
      TestLine("if ", s.test);
      Body(s.body);
      var node := s;
      while |node.orelse| == 1 && node.orelse[0].If?
        invariant node.If? && (node == s || node < s) && newLines == 0 && indentation == d
        invariant Appended(View(), ElseLines(node.orelse, d), indentWith) == page
        decreases node
      {
        assert node.orelse[0] < node;
        node := node.orelse[0];
        ghost var l := [Line(1, d, TestHeader("elif ", node.test))];
        AppendedThrice(View(), l, BodyLines(node.body, d + 1), ElseLines(node.orelse, d), indentWith);
        TestLine("elif ", node.test);
        Body(node.body);
      }
      ElseBody(node.orelse);
    }

    method VisitStmt(s: Stmt)
      requires newLines == 0
      modifies this`result, this`newLines, this`indentation
      ensures View() == Appended(old(View()), Lines(s, old(indentation)), indentWith)
      decreases s, 1
    {
      hide Appended, Join, BodyLines, OrElseLines, DefLines, TestHeader, ForHeader, WithHeader, DefHeader, ClassHeader;
      ghost var d, p := indentation, View();
      match s
      case Simple(t) => Statement(t);
      case If(_, _, _) => VisitIf(s);
      case For(t, i, b, o) =>
        AppendedThrice(p, [Line(1, d, ForHeader(t, i))], BodyLines(b, d + 1), OrElseLines(o, d), indentWith);
        ForLine(t, i);
        Body(b);
        OrElse(o);
      case While(t, b, o) =>
        AppendedThrice(p, [Line(1, d, TestHeader("while ", t))], BodyLines(b, d + 1), OrElseLines(o, d), indentWith);
        TestLine("while ", t);
        Body(b);
        OrElse(o);
      case With(c, v, b) =>
        AppendedThrice(p, [Line(1, d, WithHeader(c, v))], BodyLines(b, d + 1), [], indentWith);
        WithLine(c, v);
        Body(b);
      case FunctionDef(n, ps, ds, b) =>
        AppendedThrice(p, DefLines(2, ds, DefHeader(n, ps), d), BodyLines(b, d + 1), [], indentWith);
        DefLine(n, ps, ds);
        Body(b);
      case ClassDef(n, a, ds, b) =>
        AppendedThrice(p, DefLines(3, ds, ClassHeader(n, a), d), BodyLines(b, d + 1), [], indentWith);
        ClassLine(n, a, ds);
        Body(b);
    }
  }

  /** `to_source` of a module. */
  method ToSource(ss: seq<Stmt>, indentWith: string) returns (source: string)
    ensures source == Source(ss, indentWith)
  {
    var generator := new SourceGenerator(indentWith);
    ghost var page := Appended(generator.View(), BodyLines(ss, 0), indentWith);
    var i := 0;
    assert ss[0..] == ss;
    while i < |ss|
      invariant i <= |ss| && generator.newLines == 0 && generator.indentation == 0 && generator.indentWith == indentWith
      invariant Appended(generator.View(), BodyLines(ss[i..], 0), indentWith) == page
    {
      ghost var v := generator.View();
      assert ss[i..][1..] == ss[i + 1..] && ss[i..][0] == ss[i];
      generator.VisitStmt(ss[i]);
      SourceGenerator.AppendedIndentation(v, Lines(ss[i], 0), indentWith);
      AppendedTwice(v, Lines(ss[i], 0), BodyLines(ss[i + 1..], 0), indentWith);
      i := i + 1;
    }
    assert "" + Source(ss, indentWith) == Source(ss, indentWith);
    source := JoinAll(generator.result);
  }

  /** The parts one after the other. */
  method JoinAll(parts: seq<string>) returns (s: string)
    ensures s == Join(parts)
  {
    s := "";
    var i := 0;
    while i < |parts|
      invariant i <= |parts| && s == Join(parts[..i])
    {
      JoinAppend(parts[..i], parts[i]);
      assert parts[..i] + [parts[i]] == parts[..i + 1];
      s := s + parts[i];
      i := i + 1;
    }
    assert parts[..|parts|] == parts;
  }
}
