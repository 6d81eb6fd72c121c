/** The text of a header is read back, and fits on one line. */
module Headers {
  import opened Options
  import opened Expressions
  import opened ExpressionReading
  import opened Statements

  // ---- what a header reads as -----------------------------------------------------------------

  lemma Reads(e: Expr, k: string)
    requires Valid(e) && Stop(k)
    ensures ReadExpr(Print(e) + k) == Ok(Norm(e), k)
  {
    PIs(e, k);
    ReadsExpr(e, k);
    TailStops(Norm(e), k);
  }

  lemma Skip(a: string, b: string)
    ensures a <= a + b && (a + b)[|a|..] == b
  {
  }

  function ReadAfter(word: string, s: string): Header {
    if word == "for " then ReadFor(s)
    else if word == "with " then ReadWith(s)
    else if word == "def " then ReadDef(s)
    else if word == "class " then ReadClass(s)
    else ReadTest(word, s)
  }

  /** The first word decides how the rest is read. */
  lemma Dispatch(word: string, s: string)
    requires word in ["if ", "elif ", "while ", "for ", "with ", "def ", "class "]
    requires s != "" && s[|s| - 1] == ':'
    ensures ReadHeader(word + s) == ReadAfter(word, s)
  {
    hide ReadFor, ReadWith, ReadDef, ReadClass, ReadTest, ReadExpr;
    var t := word + s;
    Skip(word, s);
    FirstLetters(word, t);
    assert t[|t| - 1] == ':';
  }

  /** The words differ in the first three letters. */
  lemma FirstLetters(word: string, t: string)
    requires word in ["if ", "elif ", "while ", "for ", "with ", "def ", "class "] && word <= t
    ensures t[0] != '@' && t != "else:"
    ensures ("if " <= t <==> word == "if ") && ("elif " <= t <==> word == "elif ")
    ensures ("while " <= t <==> word == "while ") && ("for " <= t <==> word == "for ")
    ensures ("with " <= t <==> word == "with ") && ("def " <= t <==> word == "def ")
    ensures "class " <= t <==> word == "class "
  {
    assert t[0] == word[0] && t[1] == word[1] && t[2] == word[2];
    assert "if "[0] == 'i' && "elif "[0] == 'e' && "for "[0] == 'f' && "def "[0] == 'd' && "class "[0] == 'c';
    assert "while "[0] == 'w' && "while "[1] == 'h' && "with "[0] == 'w' && "with "[1] == 'i';
  }

  lemma TestIs(word: string, e: Expr)
    requires Valid(e) && word in ["if ", "elif ", "while "]
    ensures ReadHeader(TestHeader(word, e)) == Iffy(word, Norm(e))
  {
    hide ReadHeader, ReadExpr, Print, Valid, Norm;
    Assoc(word, Print(e), ":");
    Dispatch(word, Print(e) + ":");
    Reads(e, ":");
  }

  lemma ForIs(e: Expr, i: Expr)
    requires Valid(e) && Valid(i)
    ensures ReadHeader(ForHeader(e, i)) == Forly(Norm(e), Norm(i))
  {
    hide ReadHeader, ReadExpr, Print, Valid, Norm;
    var k := " in " + (Print(i) + ":");
    assert ForHeader(e, i) == "for " + (Print(e) + k);
    Dispatch("for ", Print(e) + k);
    Skip(" in ", Print(i) + ":");
    Reads(e, k);
    Reads(i, ":");
  }

  lemma WithIs(c: Expr, v: Option<Expr>)
    requires Valid(c) && ValidOption(v)
    ensures ReadHeader(WithHeader(c, v)) == Withly(Norm(c), NormOption(v))
  {
    hide ReadHeader, ReadExpr, Print, Valid, Norm;
    var k := if v.Some? then " as " + (Print(v.value) + ":") else ":";
    assert WithHeader(c, v) == "with " + (Print(c) + k);
    Dispatch("with ", Print(c) + k);
    Reads(c, k);
    if v.Some? {
      Skip(" as ", Print(v.value) + ":");
      Reads(v.value, ":");
    }
  }

  lemma DecoratorIs(e: Expr)
    requires Valid(e)
    ensures ReadHeader("@" + Print(e)) == Decorator(Norm(e))
  {
    ReadPrint(e);
    Skip("@", Print(e));
  }

  lemma CallIs(a: Arguments)
    requires ValidArguments(a)
    ensures ReadCall("(" + PrintArguments(a) + "):") == Some(NormArguments(a))
  {
    hide ReadPieces, Assemble, PrintArguments, PArguments, ValidArguments, NormArguments;
    PArgumentsIs(a, "):");
    ReadsArguments(a, ":");
    var s := PrintArguments(a) + "):";
    Assoc("(", PrintArguments(a), "):");
    Skip("(", s);
    assert ")" + ":" == "):";
  }

  lemma EmptyArguments(a: Arguments)
    ensures NormArguments(NO_ARGUMENTS) == NO_ARGUMENTS
  {
  }

  lemma ClassIs(n: string, a: Arguments)
    requires Identifier(n) && ValidArguments(a)
    ensures ReadHeader(ClassHeader(n, a)) == Classy(n, NormArguments(a))
  {
    hide ReadHeader, PrintArguments, ReadCall, ValidArguments, NormArguments;
    EmptyArguments(a);
    var k := if a == NO_ARGUMENTS then ":" else "(" + PrintArguments(a) + "):";
    assert ClassHeader(n, a) == "class " + (n + k);
    Dispatch("class ", n + k);
    WordIs(n, k);
    if a != NO_ARGUMENTS {
      CallIs(a);
      assert k[0] == '(';
    }
  }

  lemma DefIs(n: string, p: Signature)
    requires Identifier(n) && ValidSignature(p)
    ensures ReadHeader(DefHeader(n, p)) == Defly(n, NormSignature(p))
  {
    hide ReadHeader, PrintArguments, ReadCall, ValidArguments, NormArguments, AsArguments, SignatureOf, NormSignature;
    var a := AsArguments(p);
    SignatureValid(p);
    SignatureIs(p);
    CallIs(a);
    var k := "(" + PrintArguments(a) + "):";
    assert DefHeader(n, p) == "def " + (n + k);
    Dispatch("def ", n + k);
    WordIs(n, k);
  }

  // ---- parameters -----------------------------------------------------------------------------

  lemma {:induction false} ValidSlice(es: seq<Expr>, i: nat)
    requires ValidSeq(es) && i < |es|
    ensures Valid(es[i])
    decreases i
  {
    if i > 0 { ValidSlice(es[1..], i - 1); }
  }

  lemma {:induction false} NamesIs(ids: seq<string>)
    requires Identifiers(ids)
    ensures ValidSeq(Names(ids)) && NormSeq(Names(ids)) == Names(ids) && AllNames(Names(ids)) && Ids(Names(ids)) == ids
  {
    if ids != [] {
      NamesIs(ids[1..]);
      assert Names(ids)[1..] == Names(ids[1..]);
      assert [ids[0]] + ids[1..] == ids;
    }
  }

  lemma {:induction false} DefaultsIs(ids: seq<string>, es: seq<Expr>)
    requires Identifiers(ids) && ValidSeq(es) && |ids| <= |es|
    ensures var ks := Defaults(ids, es);
            ValidKeywords(ks) && KeywordIds(NormKeywords(ks)) == ids && KeywordValues(NormKeywords(ks)) == NormSeq(es)[..|ids|]
  {
    if ids != [] {
      DefaultsIs(ids[1..], es[1..]);
      var ks := Defaults(ids, es);
      assert ks[1..] == Defaults(ids[1..], es[1..]);
      assert NormKeywords(ks)[1..] == NormKeywords(ks[1..]);
      assert [ids[0]] + ids[1..] == ids;
      assert NormSeq(es)[..|ids|] == [Norm(es[0])] + NormSeq(es[1..])[..|ids| - 1];
    }
  }

  lemma SignatureValid(p: Signature)
    requires ValidSignature(p)
    ensures ValidArguments(AsArguments(p))
  {
    var n := Padding(p);
    NamesIs(p.args[..n]);
    DefaultsIs(p.args[n..], p.defaults);
  }

  lemma IdentifiersSlice(ids: seq<string>, n: nat)
    requires Identifiers(ids) && n <= |ids|
    ensures Identifiers(ids[..n]) && Identifiers(ids[n..])
  {
  }

  lemma NameOptionIs(id: Option<string>)
    ensures NormOption(NameOption(id)) == NameOption(id)
  {
  }

  lemma SignatureIs(p: Signature)
    requires ValidSignature(p)
    ensures SignatureOf(NormArguments(AsArguments(p))) == Some(NormSignature(p))
  {
    hide Identifiers, ValidSeq, ValidKeywords, Names, Defaults, NormSeq, NormKeywords, Ids, KeywordIds, KeywordValues;
    hide AllNames;
    var n := Padding(p);
    var es := NormSeq(p.defaults);
    IdentifiersSlice(p.args, n);
    NamesIs(p.args[..n]);
    DefaultsIs(p.args[n..], p.defaults);
    assert p.args[..n] + p.args[n..] == p.args;
    assert NormSignature(p).defaults == es[..|p.args| - n];
    var a := NormArguments(AsArguments(p));
    NameOptionIs(p.vararg);
    NameOptionIs(p.kwarg);
    assert a.starargs == NameOption(p.vararg) && a.kwargs == NameOption(p.kwarg);
    assert a.args == Names(p.args[..n]) && AllNames(a.args);
  }

  // ---- a header fits on one line --------------------------------------------------------------

  predicate OneLine(s: string) { '\n' !in s }

  lemma {:induction false} WordOneLine(s: string)
    requires Identifier(s)
    ensures OneLine(s)
  {
  }

  lemma {:induction false} PrintOneLine(e: Expr)
    requires Valid(e)
    ensures OneLine(Print(e))
    decreases e
  {
    match e
    case Name(id) => WordOneLine(id);
    case Attribute(v, a) =>
      PrintOneLine(v);
      WordOneLine(a);
    case Subscript(v, i) =>
      PrintOneLine(v);
      IndexOneLine(i);
    case Call(f, a) =>
      PrintOneLine(f);
      ArgumentsOneLine(a);
    case Bool(op, es) => SeqOneLine(es, BoolSymbol(op));
    case Unary(_, x) => PrintOneLine(x);
    case Tuple(es) => SeqOneLine(es, ", ");
    case List(es) => SeqOneLine(es, ", ");
    case Set(es) => SeqOneLine(es, ", ");
    case Dict(ps) => ItemsOneLine(ps);
  }

  lemma {:induction false} SeqOneLine(es: seq<Expr>, sep: string)
    requires ValidSeq(es) && OneLine(sep)
    ensures OneLine(PrintSeq(es, sep))
    decreases es
  {
    if es != [] {
      PrintOneLine(es[0]);
      SeqOneLine(es[1..], sep);
    }
  }

  lemma {:induction false} ItemsOneLine(ps: seq<Item>)
    requires ValidItems(ps)
    ensures OneLine(PrintItems(ps))
    decreases ps
  {
    if ps != [] {
      ItemOneLine(ps[0]);
      ItemsOneLine(ps[1..]);
    }
  }

  lemma {:induction false} ItemOneLine(p: Item)
    requires ValidItem(p)
    ensures OneLine(PrintItem(p))
    decreases p
  {
    PrintOneLine(p.key);
    PrintOneLine(p.value);
  }

  lemma {:induction false} OptionOneLine(e: Option<Expr>)
    requires ValidOption(e)
    ensures OneLine(PrintOption(e)) && OneLine(PrintStep(e))
    ensures OneLine(PrintStar(e, "*", true)) && OneLine(PrintStar(e, "*", false))
    ensures OneLine(PrintStar(e, "**", true)) && OneLine(PrintStar(e, "**", false))
    decreases e
  {
    if e.Some? { PrintOneLine(e.value); }
  }

  lemma {:induction false} IndexOneLine(i: Index)
    requires ValidIndex(i)
    ensures OneLine(PrintIndex(i))
    decreases i
  {
    match i
    case Index(e) => PrintOneLine(e);
    case Slice(l, u, s) =>
      OptionOneLine(l);
      OptionOneLine(u);
      OptionOneLine(s);
  }

  lemma {:induction false} ArgsOneLine(es: seq<Expr>, first: bool)
    requires ValidSeq(es)
    ensures OneLine(PrintArgs(es, first))
    decreases es
  {
    if es != [] {
      PrintOneLine(es[0]);
      ArgsOneLine(es[1..], false);
    }
  }

  lemma {:induction false} KeywordsOneLine(ks: seq<Keyword>, first: bool)
    requires ValidKeywords(ks)
    ensures OneLine(PrintKeywords(ks, first))
    decreases ks
  {
    if ks != [] {
      WordOneLine(ks[0].arg);
      KeywordOneLine(ks[0]);
      KeywordsOneLine(ks[1..], false);
    }
  }

  lemma {:induction false} KeywordOneLine(w: Keyword)
    requires Valid(w.value)
    ensures OneLine(Print(w.value))
    decreases w
  {
    PrintOneLine(w.value);
  }

  lemma {:induction false} ArgumentsOneLine(a: Arguments)
    requires ValidArguments(a)
    ensures OneLine(PrintArguments(a))
    decreases a
  {
    ArgsOneLine(a.args, true);
    KeywordsOneLine(a.keywords, a.args == []);
    OptionOneLine(a.starargs);
    OptionOneLine(a.kwargs);
  }
}
