/** Reading undoes printing, for every tree of expressions. */
module ExpressionReading {
  import opened Options
  import opened Expressions

  // ---- printing in front of a text ------------------------------------------------------------

  function P(e: Expr, k: string): string {
    match e
    case Name(id) => id + k
    case Attribute(v, a) => P(v, "." + (a + k))
    case Subscript(v, i) => P(v, "[" + PIndex(i, "]" + k))
    case Call(f, a) => P(f, "(" + PArguments(a, ")" + k))
    case Bool(op, es) => "(" + PSeq(es, BoolSymbol(op), ")" + k)
    case Unary(op, x) => "(" + (UnarySymbol(op) + P(x, ")" + k))
    case Tuple(es) => "(" + PSeq(es, ", ", (if |es| == 1 then ",)" else ")") + k)
    case List(es) => "[" + PSeq(es, ", ", "]" + k)
    case Set(es) => "{" + PSeq(es, ", ", "}" + k)
    case Dict(ps) => "{" + PItems(ps, "}" + k)
  }

  function PSeq(es: seq<Expr>, sep: string, k: string): string {
    if es == [] then k else if |es| == 1 then P(es[0], k) else P(es[0], sep + PSeq(es[1..], sep, k))
  }

  function PItem(p: Item, k: string): string { P(p.key, ": " + P(p.value, k)) }

  function PItems(ps: seq<Item>, k: string): string {
    if ps == [] then k else if |ps| == 1 then PItem(ps[0], k) else PItem(ps[0], ", " + PItems(ps[1..], k))
  }

  function POption(e: Option<Expr>, k: string): string { if e.Some? then P(e.value, k) else k }

  function PStep(e: Option<Expr>, k: string): string {
    if e.None? then k else ":" + if e.value == Name("None") then k else P(e.value, k)
  }

  function PIndex(i: Index, k: string): string {
    match i
    case Index(e) => P(e, k)
    case Slice(l, u, s) => POption(l, ":" + POption(u, PStep(s, k)))
  }

  function PArgs(es: seq<Expr>, first: bool, k: string): string {
    if es == [] then k else Comma(first) + P(es[0], PArgs(es[1..], false, k))
  }

  function PKeyword(w: Keyword, k: string): string { w.arg + ("=" + P(w.value, k)) }

  function PKeywords(ks: seq<Keyword>, first: bool, k: string): string {
    if ks == [] then k else Comma(first) + PKeyword(ks[0], PKeywords(ks[1..], false, k))
  }

  function PStar(e: Option<Expr>, stars: string, first: bool, k: string): string {
    if e.None? then k else Comma(first) + (stars + P(e.value, k))
  }

  function PArguments(a: Arguments, k: string): string {
    var first1 := a.args == [];
    var first2 := first1 && a.keywords == [];
    var first3 := first2 && a.starargs.None?;
    PArgs(a.args, true,
          PKeywords(a.keywords, first1, PStar(a.starargs, "*", first2, PStar(a.kwargs, "**", first3, k))))
  }

  lemma Assoc(a: string, b: string, c: string)
    ensures (a + b) + c == a + (b + c)
  {
  }

  lemma {:induction false} PIs(e: Expr, k: string)
    ensures P(e, k) == Print(e) + k
    decreases e
  {
    match e
    case Name(id) =>
    case Attribute(v, a) =>
      PIs(v, "." + (a + k));
      Around(Print(v), ".", a, "", k);
      assert Print(v) + "." + a + "" == Print(v) + "." + a && "" + k == k;
    case Subscript(v, i) =>
      PIs(v, "[" + PIndex(i, "]" + k));
      PIndexIs(i, "]" + k);
      Around(Print(v), "[", PrintIndex(i), "]", k);
    case Call(f, a) =>
      PIs(f, "(" + PArguments(a, ")" + k));
      PArgumentsIs(a, ")" + k);
      Around(Print(f), "(", PrintArguments(a), ")", k);
    case Bool(op, es) =>
      PSeqIs(es, BoolSymbol(op), ")" + k);
      Bracket("(", PrintSeq(es, BoolSymbol(op)), ")", k);
    case Unary(op, x) =>
      PIs(x, ")" + k);
      Around("(", UnarySymbol(op), Print(x), ")", k);
    case Tuple(es) =>
      var c := if |es| == 1 then ",)" else ")";
      PSeqIs(es, ", ", c + k);
      Bracket("(", PrintSeq(es, ", "), c, k);
    case List(es) =>
      PSeqIs(es, ", ", "]" + k);
      Bracket("[", PrintSeq(es, ", "), "]", k);
    case Set(es) =>
      PSeqIs(es, ", ", "}" + k);
      Bracket("{", PrintSeq(es, ", "), "}", k);
    case Dict(ps) =>
      PItemsIs(ps, "}" + k);
      Bracket("{", PrintItems(ps), "}", k);
  }

  lemma Bracket(o: string, x: string, c: string, k: string)
    ensures o + (x + (c + k)) == o + x + c + k
  {
  }

  lemma Around(v: string, o: string, x: string, c: string, k: string)
    ensures v + (o + (x + (c + k))) == v + o + x + c + k
  {
  }

  lemma {:induction false} PSeqIs(es: seq<Expr>, sep: string, k: string)
    ensures PSeq(es, sep, k) == PrintSeq(es, sep) + k
    decreases es
  {
    if |es| == 1 {
      PIs(es[0], k);
    } else if es != [] {
      PSeqIs(es[1..], sep, k);
      PIs(es[0], sep + PSeq(es[1..], sep, k));
      Assoc(Print(es[0]) + sep, PrintSeq(es[1..], sep), k);
    }
  }

  lemma {:induction false} PItemIs(p: Item, k: string)
    ensures PItem(p, k) == PrintItem(p) + k
    decreases p
  {
    PIs(p.value, k);
    PIs(p.key, ": " + P(p.value, k));
    Assoc(Print(p.key) + ": ", Print(p.value), k);
  }

  lemma {:induction false} PItemsIs(ps: seq<Item>, k: string)
    ensures PItems(ps, k) == PrintItems(ps) + k
    decreases ps
  {
    if |ps| == 1 {
      PItemIs(ps[0], k);
    } else if ps != [] {
      PItemsIs(ps[1..], k);
      PItemIs(ps[0], ", " + PItems(ps[1..], k));
      Assoc(", ", PrintItems(ps[1..]), k);
      Assoc(PrintItem(ps[0]), ", " + PrintItems(ps[1..]), k);
    }
  }

  lemma {:induction false} PStepIs(e: Option<Expr>, k: string)
    ensures PStep(e, k) == PrintStep(e) + k
    decreases e
  {
    if e.Some? { PIs(e.value, k); }
  }

  lemma {:induction false} POptionIs(e: Option<Expr>, k: string)
    ensures POption(e, k) == PrintOption(e) + k
    decreases e
  {
    if e.Some? { PIs(e.value, k); }
  }

  lemma {:induction false} PIndexIs(i: Index, k: string)
    ensures PIndex(i, k) == PrintIndex(i) + k
    decreases i
  {
    match i
    case Index(e) => PIs(e, k);
    case Slice(l, u, s) =>
      PStepIs(s, k);
      POptionIs(u, PStep(s, k));
      POptionIs(l, ":" + POption(u, PStep(s, k)));
      Around(PrintOption(l), ":", PrintOption(u), PrintStep(s), k);
  }

  lemma {:induction false} PArgsIs(es: seq<Expr>, first: bool, k: string)
    ensures PArgs(es, first, k) == PrintArgs(es, first) + k
    decreases es, 0
  {
    if es != [] {
      PArgsIs(es[1..], false, k);
      PIs(es[0], PArgs(es[1..], false, k));
      Assoc(Comma(first) + Print(es[0]), PrintArgs(es[1..], false), k);
    }
  }

  lemma {:induction false} PKeywordIs(w: Keyword, k: string)
    ensures PKeyword(w, k) == w.arg + "=" + Print(w.value) + k
    decreases w
  {
    PIs(w.value, k);
  }

  lemma {:induction false} PKeywordsIs(ks: seq<Keyword>, first: bool, k: string)
    ensures PKeywords(ks, first, k) == PrintKeywords(ks, first) + k
    decreases ks
  {
    if ks != [] {
      PKeywordsIs(ks[1..], false, k);
      PKeywordIs(ks[0], PKeywords(ks[1..], false, k));
      Assoc(Comma(first) + ks[0].arg + "=" + Print(ks[0].value), PrintKeywords(ks[1..], false), k);
    }
  }

  lemma {:induction false} PStarIs(e: Option<Expr>, stars: string, first: bool, k: string)
    ensures PStar(e, stars, first, k) == PrintStar(e, stars, first) + k
    decreases e
  {
    if e.Some? {
      PIs(e.value, k);
      Assoc(Comma(first) + stars, Print(e.value), k);
    }
  }

  lemma {:induction false} PArgumentsIs(a: Arguments, k: string)
    ensures PArguments(a, k) == PrintArguments(a) + k
    decreases a
  {
    hide Print, PrintArgs, PrintKeywords, PArgs, PKeywords, PStar, Comma;
    var first1 := a.args == [];
    var first2 := first1 && a.keywords == [];
    var first3 := first2 && a.starargs.None?;
    var y, z := PrintStar(a.starargs, "*", first2), PrintStar(a.kwargs, "**", first3);
    PStarIs(a.kwargs, "**", first3, k);
    PStarIs(a.starargs, "*", first2, z + k);
    PKeywordsIs(a.keywords, first1, y + (z + k));
    PArgsIs(a.args, true, PrintKeywords(a.keywords, first1) + (y + (z + k)));
    Regroup(PrintArgs(a.args, true), PrintKeywords(a.keywords, first1), y, z, k);
  }

  lemma Regroup(w: string, x: string, y: string, z: string, k: string)
    ensures w + (x + (y + (z + k))) == w + x + y + z + k
  {
  }

  // ---- reading --------------------------------------------------------------------------------

  predicate IdStop(k: string) { k == "" || !IdChar(k[0]) }

  /** What follows an expression inside brackets: neither a name nor a tail can go on. */
  predicate Stop(k: string) { k != "" && k[0] in ")]},: =" }

  lemma {:induction false} WordIs(id: string, k: string)
    requires (forall i :: 0 <= i < |id| ==> IdChar(id[i])) && IdStop(k)
    ensures Word(id + k) == |id| && (id + k)[..|id|] == id && (id + k)[|id|..] == k
    decreases |id|
  {
    if id != "" {
      assert (id + k)[1..] == id[1..] + k;
      WordIs(id[1..], k);
    } else {
      assert id + k == k;
    }
  }

  lemma {:induction false} Head(e: Expr, k: string)
    requires Valid(e)
    ensures P(e, k) != "" && var c := P(e, k)[0]; (IdChar(c) && !('0' <= c <= '9')) || c in "([{"
    decreases e
  {
    match e
    case Attribute(v, a) => Head(v, "." + (a + k));
    case Subscript(v, i) => Head(v, "[" + PIndex(i, "]" + k));
    case Call(f, a) => Head(f, "(" + PArguments(a, ")" + k));
    case _ =>
  }

  /** No printed expression looks like the start of a `not`. */
  lemma {:induction false} NotNot(e: Expr, k: string)
    requires Valid(e) && IdStop(k)
    ensures !("not " <= P(e, k))
    decreases e
  {
    match e
    case Attribute(v, a) => NotNot(v, "." + (a + k));
    case Subscript(v, i) => NotNot(v, "[" + PIndex(i, "]" + k));
    case Call(f, a) => NotNot(f, "(" + PArguments(a, ")" + k));
    case Name(id) => NotWord(id, k);
    case _ =>
  }

  lemma NotWord(id: string, k: string)
    requires Identifier(id) && IdStop(k)
    ensures !("not " <= id + k)
  {
    WordIs(id, k);
    NotAWord(id + k);
    assert Word(id + k) == 3 ==> id == (id + k)[..3];
  }

  lemma NotAWord(s: string)
    ensures "not " <= s ==> Word(s) == 3 && s[..3] == "not"
  {
    if "not " <= s {
      var t := s[4..];
      assert s == "not" + (" " + t);
      WordIs("not", " " + t);
    }
  }

  lemma TailStops(e: Expr, k: string)
    requires Stop(k)
    ensures ReadTail(e, k) == Ok(e, k) && IdStop(k)
  {
  }

  /** Reading a printed expression and what follows goes on with what follows. */
  lemma {:induction false} ReadsExpr(e: Expr, k: string)
    requires Valid(e) && IdStop(k)
    ensures ReadExpr(P(e, k)) == ReadTail(Norm(e), k)
    decreases e, 1
  {
    match e
    case Name(id) => ReadsName(id, k);
    case Attribute(v, a) =>
      ReadsExpr(v, "." + (a + k));
      ReadsAttribute(Norm(v), a, k);
    case Subscript(v, i) =>
      ReadsExpr(v, "[" + PIndex(i, "]" + k));
      ReadsIndex(i, k);
      assert ("[" + PIndex(i, "]" + k))[1..] == PIndex(i, "]" + k);
    case Call(f, a) =>
      ReadsExpr(f, "(" + PArguments(a, ")" + k));
      ReadsArguments(a, k);
      assert ("(" + PArguments(a, ")" + k))[1..] == PArguments(a, ")" + k);
    case Bool(op, es) => ReadsBool(e, k);
    case Unary(op, x) => ReadsUnary(e, k);
    case Tuple(es) => ReadsTuple(e, k);
    case List(es) => ReadsList(e, k);
    case Set(es) => ReadsSet(e, k);
    case Dict(ps) => ReadsDict(e, k);
  }

  lemma ReadsName(id: string, k: string)
    requires Identifier(id) && IdStop(k)
    ensures ReadExpr(id + k) == ReadTail(Name(id), k)
  {
    WordIs(id, k);
    assert (id + k)[0] == id[0];
  }

  lemma ReadsAttribute(v: Expr, a: string, k: string)
    requires Identifier(a) && IdStop(k)
    ensures ReadTail(v, "." + (a + k)) == ReadTail(Attribute(v, a), k)
  {
    WordIs(a, k);
    assert ("." + (a + k))[1..] == a + k;
  }

  /** After an opening parenthesis, an expression is read unless a unary operator or the end follows. */
  lemma {:induction false} ReadsParen(e: Expr, k: string)
    requires Valid(e) && Stop(k)
    requires ReadExpr(P(e, k)) == ReadTail(Norm(e), k)
    ensures ReadAtom("(" + P(e, k)) == ReadParenRest(Norm(e), k)
  {
    hide ReadExpr, ReadTail, Word, P;
    assert ("(" + P(e, k))[1..] == P(e, k);
    Head(e, k);
    TailStops(Norm(e), k);
    NotNot(e, k);
  }

  /** An opening parenthesis, a first expression and more of them. */
  lemma ParenSeq(x: Expr, sep: string, s: string, es: seq<Expr>, k: string)
    requires ReadSeq(s, sep, ')') == Ok(es, k)
    ensures sep == ", " ==> ReadParenRest(x, sep + s) == Ok(Tuple([x] + es), k)
    ensures sep == " and " ==> ReadParenRest(x, sep + s) == Ok(Bool(And, [x] + es), k)
    ensures sep == " or " ==> ReadParenRest(x, sep + s) == Ok(Bool(Or, [x] + es), k)
  {
    hide ReadSeq;
    assert (sep + s)[|sep|..] == s;
    assert |sep| >= 2 ==> (sep + s)[1] == sep[1];
  }

  lemma ParenEmpty(k: string)
    ensures ReadAtom("(" + (")" + k)) == Ok(Tuple([]), k)
  {
    var close := ")" + k;
    assert ("(" + close)[1..] == close && close[1..] == k;
    assert ReadParen(close) == Ok(Tuple([]), k);
  }

  lemma ParenOne(x: Expr, k: string)
    ensures ReadParenRest(x, ")" + k) == Ok(x, k) && ReadParenRest(x, ",)" + k) == Ok(Tuple([x]), k)
  {
    assert (")" + k)[1..] == k && (",)" + k)[2..] == k;
  }

  lemma {:induction false} ReadsBool(e: Expr, k: string)
    requires e.Bool? && Valid(e)
    ensures ReadAtom(P(e, k)) == Ok(Norm(e), k)
    decreases e, 0
  {
    hide ReadAtom, ReadExpr, ReadTail, ReadSeq, ReadParenRest, Word;
    var es, sep := e.operands, BoolSymbol(e.op);
    var close := ")" + k;
    if es == [] {
      ParenEmpty(k);
    } else if |es| == 1 {
      ReadsExpr(es[0], close);
      ReadsParen(es[0], close);
      ParenOne(Norm(es[0]), k);
    } else {
      var rest := PSeq(es[1..], sep, close);
      ReadsExpr(es[0], sep + rest);
      ReadsParen(es[0], sep + rest);
      ReadsSeq(es[1..], sep, ')', k);
      ParenSeq(Norm(es[0]), sep, rest, NormSeq(es[1..]), k);
    }
  }

  lemma {:induction false} ReadsTuple(e: Expr, k: string)
    requires e.Tuple? && Valid(e)
    ensures ReadAtom(P(e, k)) == Ok(Norm(e), k)
    decreases e, 0
  {
    hide ReadAtom, ReadExpr, ReadTail, ReadSeq, ReadParenRest, Word;
    var es := e.elts;
    if es == [] {
      ParenEmpty(k);
    } else if |es| == 1 {
      ReadsExpr(es[0], ",)" + k);
      ReadsParen(es[0], ",)" + k);
      ParenOne(Norm(es[0]), k);
      assert NormSeq(es) == [Norm(es[0])];
    } else {
      var rest := PSeq(es[1..], ", ", ")" + k);
      ReadsExpr(es[0], ", " + rest);
      ReadsParen(es[0], ", " + rest);
      ReadsSeq(es[1..], ", ", ')', k);
      ParenSeq(Norm(es[0]), ", ", rest, NormSeq(es[1..]), k);
    }
  }

  lemma {:induction false} ReadsUnary(e: Expr, k: string)
    requires e.Unary? && Valid(e)
    ensures ReadAtom(P(e, k)) == Ok(Norm(e), k)
    decreases e, 0
  {
    hide ReadExpr, ReadTail, Word;
    var close := ")" + k;
    var rest := P(e.operand, close);
    ReadsExpr(e.operand, close);
    TailStops(Norm(e.operand), close);
    assert close[1..] == k;
    assert ReadUnary(e.uop, rest) == Ok(Norm(e), k);
    var op := UnarySymbol(e.uop);
    assert ("(" + (op + rest))[1..] == op + rest;
    assert (op + rest)[|op|..] == rest && (op + rest)[0] == op[0];
  }

  lemma {:induction false} ReadsList(e: Expr, k: string)
    requires e.List? && Valid(e)
    ensures ReadAtom(P(e, k)) == Ok(Norm(e), k)
    decreases e, 0
  {
    var close := "]" + k;
    var rest := PSeq(e.elts, ", ", close);
    assert ("[" + rest)[1..] == rest;
    if e.elts == [] {
      assert ("[" + rest)[2..] == k;
    } else {
      SeqHead(e.elts, ", ", close);
      ReadsSeq(e.elts, ", ", ']', k);
    }
  }

  lemma SeqHead(es: seq<Expr>, sep: string, k: string)
    requires es != [] && ValidSeq(es)
    ensures PSeq(es, sep, k) != "" && PSeq(es, sep, k)[0] !in ")]}"
  {
    Head(es[0], if |es| == 1 then k else sep + PSeq(es[1..], sep, k));
  }

  lemma {:induction false} ReadsSet(e: Expr, k: string)
    requires e.Set? && Valid(e)
    ensures ReadAtom(P(e, k)) == Ok(Norm(e), k)
    decreases e, 0
  {
    hide ReadExpr, ReadTail, ReadSeq, Word;
    var es, close := e.elts, "}" + k;
    var rest := PSeq(es, ", ", close);
    assert ("{" + rest)[1..] == rest && close[1..] == k;
    assert ReadBrace(rest) == Ok(Norm(e), k) by {
      if es != [] {
        SeqHead(es, ", ", close);
        if |es| == 1 {
          ReadsExpr(es[0], close);
          TailStops(Norm(es[0]), close);
          assert NormSeq(es) == [Norm(es[0])];
        } else {
          var more := PSeq(es[1..], ", ", close);
          ReadsExpr(es[0], ", " + more);
          TailStops(Norm(es[0]), ", " + more);
          ReadsSeq(es[1..], ", ", '}', k);
          assert (", " + more)[2..] == more;
        }
      }
    }
  }

  lemma {:induction false} ReadsDict(e: Expr, k: string)
    requires e.Dict? && Valid(e)
    ensures ReadAtom(P(e, k)) == Ok(Norm(e), k)
    decreases e, 0
  {
    var ps, close := e.items, "}" + k;
    var rest := PItems(ps, close);
    assert ("{" + rest)[1..] == rest && close[1..] == k;
    if ps == [] {
      assert ReadBrace(rest) == Ok(Norm(e), k);
    } else {
      ReadsItems(ps, k);
      ReadsEntries(ps, rest, k);
    }
  }

  /** After an opening brace, an expression and a colon mean a dictionary. */
  lemma {:induction false} ReadsEntries(ps: seq<Item>, s: string, k: string)
    requires ps != [] && ValidItems(ps) && s == PItems(ps, "}" + k)
    requires ReadItems(s) == Ok(NormItems(ps), k)
    ensures ReadBrace(s) == Ok(Dict(NormItems(ps)), k)
    decreases ps, 1
  {
    hide ReadExpr, ReadItems, ReadTail, Word;
    var more := if |ps| == 1 then "}" + k else ", " + PItems(ps[1..], "}" + k);
    var after := ": " + P(ps[0].value, more);
    assert s == P(ps[0].key, after) && ValidItem(ps[0]);
    Head(ps[0].key, after);
    ReadsItem(ps[0], more);
    assert after[0] == ':';
  }

  lemma {:induction false} ReadsSeq(es: seq<Expr>, sep: string, close: char, k: string)
    requires es != [] && ValidSeq(es) && sep in [", ", " and ", " or "] && close in ")]}"
    ensures ReadSeq(PSeq(es, sep, [close] + k), sep, close) == Ok(NormSeq(es), k)
    decreases es
  {
    if |es| == 1 {
      ReadsExpr(es[0], [close] + k);
      TailStops(Norm(es[0]), [close] + k);
      assert ([close] + k)[1..] == k;
      assert NormSeq(es) == [Norm(es[0])];
    } else {
      var rest := PSeq(es[1..], sep, [close] + k);
      ReadsExpr(es[0], sep + rest);
      TailStops(Norm(es[0]), sep + rest);
      ReadsSeq(es[1..], sep, close, k);
      assert (sep + rest)[|sep|..] == rest;
    }
  }

  lemma {:induction false} ReadsItems(ps: seq<Item>, k: string)
    requires ps != [] && ValidItems(ps)
    ensures ReadItems(PItems(ps, "}" + k)) == Ok(NormItems(ps), k)
    decreases ps
  {
    var rest := if |ps| == 1 then "}" + k else ", " + PItems(ps[1..], "}" + k);
    ReadsItem(ps[0], rest);
    if |ps| == 1 {
      assert rest[1..] == k;
      assert NormItems(ps) == [NormItem(ps[0])];
      assert PItems(ps, "}" + k) == PItem(ps[0], rest);
    } else {
      ReadsItems(ps[1..], k);
      assert rest[2..] == PItems(ps[1..], "}" + k);
    }
  }

  lemma {:induction false} ReadsItem(p: Item, k: string)
    requires ValidItem(p) && Stop(k)
    ensures ReadExpr(PItem(p, k)) == Ok(Norm(p.key), ": " + P(p.value, k))
    ensures (": " + P(p.value, k))[2..] == P(p.value, k) && ReadExpr(P(p.value, k)) == Ok(Norm(p.value), k)
    decreases p
  {
    ReadsExpr(p.key, ": " + P(p.value, k));
    TailStops(Norm(p.key), ": " + P(p.value, k));
    ReadsExpr(p.value, k);
    TailStops(Norm(p.value), k);
  }

  lemma {:induction false} ReadsOption(e: Option<Expr>, k: string)
    requires ValidOption(e) && (At(k, ':') || At(k, ']'))
    ensures ReadOption(POption(e, k)) == Ok(NormOption(e), k)
    decreases e
  {
    if e.Some? {
      Head(e.value, k);
      ReadsExpr(e.value, k);
      TailStops(Norm(e.value), k);
    }
  }

  lemma {:induction false} ReadsIndex(i: Index, k: string)
    requires ValidIndex(i)
    ensures ReadIndex(PIndex(i, "]" + k)) == Ok(NormIndex(i), k)
    decreases i
  {
    hide ReadExpr, ReadTail, Word, Valid;
    var close := "]" + k;
    assert close[1..] == k;
    match i {
      case Index(e) =>
        Head(e, close);
        ReadsExpr(e, close);
        TailStops(Norm(e), close);
      case Slice(l, u, s) =>
        var step := PStep(s, close);
        var upper := POption(u, step);
        assert (":" + upper)[1..] == upper;
        ReadsOption(l, ":" + upper);
        ReadsOption(u, step);
        if s.Some? {
          ReadsStep(s.value, close);
          var last := if s.value == Name("None") then close else P(s.value, close);
          assert step[1..] == last;
        }
    }
  }

  lemma {:induction false} ReadsStep(e: Expr, k: string)
    requires Valid(e) && At(k, ']')
    ensures ReadOption(if e == Name("None") then k else P(e, k)) ==
            Ok(if e == Name("None") then None else Some(Norm(e)), k)
    decreases e, 2
  {
    Head(e, k);
    ReadsExpr(e, k);
    TailStops(Norm(e), k);
  }

  // ---- arguments ------------------------------------------------------------------------------

  function PosOf(es: seq<Expr>): seq<Piece> { if es == [] then [] else [Pos(es[0])] + PosOf(es[1..]) }

  function KeysOf(ks: seq<Keyword>): seq<Piece> {
    if ks == [] then [] else [Key(ks[0].arg, ks[0].value)] + KeysOf(ks[1..])
  }

  function StarsOf(a: Arguments): seq<Piece> {
    (if a.starargs.Some? then [Star(a.starargs.value)] else []) + if a.kwargs.Some? then [Stars(a.kwargs.value)] else []
  }

  lemma {:induction false} AssembleArgs(a: Arguments)
    ensures Assemble(PosOf(a.args) + (KeysOf(a.keywords) + StarsOf(a))) == Some(a)
    decreases |a.args|
  {
    var tail := KeysOf(a.keywords) + StarsOf(a);
    if a.args == [] {
      AssembleKeywords(a);
      assert PosOf(a.args) + tail == tail;
    } else {
      var b := a.(args := a.args[1..]);
      AssembleArgs(b);
      assert KeysOf(b.keywords) + StarsOf(b) == tail;
      hide KeysOf, StarsOf;
      assert PosOf(a.args) == [Pos(a.args[0])] + PosOf(b.args);
      AssemblePos(a.args[0], PosOf(b.args), tail, b);
      assert [a.args[0]] + b.args == a.args;
    }
  }

  lemma AssemblePos(e: Expr, ps: seq<Piece>, tail: seq<Piece>, a: Arguments)
    requires Assemble(ps + tail) == Some(a)
    ensures Assemble(([Pos(e)] + ps) + tail) == Some(a.(args := [e] + a.args))
  {
    assert (([Pos(e)] + ps) + tail)[1..] == ps + tail;
  }

  lemma {:induction false} AssembleKeywords(a: Arguments)
    requires a.args == []
    ensures Assemble(KeysOf(a.keywords) + StarsOf(a)) == Some(a)
    decreases |a.keywords|
  {
    if a.keywords == [] {
      assert KeysOf(a.keywords) + StarsOf(a) == StarsOf(a);
      var last := if a.kwargs.Some? then [Stars(a.kwargs.value)] else [];
      assert a.kwargs.Some? ==> last[1..] == [];
      assert Assemble(last) == Some(Arguments([], [], None, a.kwargs));
      assert a.starargs.Some? ==> StarsOf(a)[1..] == last;
      assert a.starargs.None? ==> StarsOf(a) == last;
    } else {
      var b := a.(keywords := a.keywords[1..]);
      AssembleKeywords(b);
      assert (KeysOf(a.keywords) + StarsOf(a))[1..] == KeysOf(b.keywords) + StarsOf(b);
      assert [Keyword(a.keywords[0].arg, a.keywords[0].value)] + b.keywords == a.keywords;
    }
  }

  function Prepend(ps: seq<Piece>, r: Read<seq<Piece>>): Read<seq<Piece>> {
    if r.Fail? then Fail else Ok(ps + r.value, r.rest)
  }

  /** After an argument. */
  predicate Next(k: string) { At(k, ')') || At(k, ',') }

  lemma {:induction false} ReadsPiece(e: Expr, k: string)
    requires Valid(e) && Next(k)
    ensures ReadPiece(P(e, k)) == Ok(Pos(Norm(e)), k)
    ensures ReadPiece("*" + P(e, k)) == Ok(Star(Norm(e)), k)
    ensures ReadPiece("**" + P(e, k)) == Ok(Stars(Norm(e)), k)
    decreases e, 2
  {
    Head(e, k);
    ReadsExpr(e, k);
    TailStops(Norm(e), k);
    var s := P(e, k);
    assert s[0] != '*';
    assert ("*" + s)[1] == s[0] && ("*" + s)[1..] == s;
    assert ("**" + s)[2..] == s;
  }

  lemma {:induction false} ReadsKeyword(w: Keyword, k: string)
    requires Identifier(w.arg) && Valid(w.value) && Next(k)
    ensures ReadPiece(PKeyword(w, k)) == Ok(Key(w.arg, Norm(w.value)), k)
    decreases w
  {
    var rest := "=" + P(w.value, k);
    ReadsName(w.arg, rest);
    TailStops(Name(w.arg), rest);
    assert PKeyword(w, k)[0] == w.arg[0];
    assert rest[1..] == P(w.value, k);
    ReadsExpr(w.value, k);
    TailStops(Norm(w.value), k);
  }

  /** One more argument in front of the others. */
  lemma ReadsOne(s: string, first: bool, p: Piece, k: string)
    requires s != "" && s[0] != ')' && ReadPiece(s) == Ok(p, k)
    ensures ReadPieces(Comma(first) + s, first) == Prepend([p], ReadPieces(k, false))
  {
    var c := Comma(first);
    assert (c + s)[|c|..] == s;
    assert (c + s)[0] != ')';
  }

  lemma {:induction false} ReadsArgs(es: seq<Expr>, first: bool, k: string)
    requires ValidSeq(es) && (es == [] || Next(k))
    ensures es == [] || Next(PArgs(es, false, k))
    ensures ReadPieces(PArgs(es, first, k), first) == Prepend(PosOf(NormSeq(es)), ReadPieces(k, first && es == []))
    decreases es
  {
    if es == [] {
      assert PosOf(NormSeq(es)) == [];
      var r := ReadPieces(k, first);
      assert r.Ok? ==> [] + r.value == r.value;
    } else {
      ReadsArgs(es[1..], false, k);
      var rest := PArgs(es[1..], false, k);
      Head(es[0], rest);
      ReadsPiece(es[0], rest);
      ReadsOne(P(es[0], rest), first, Pos(Norm(es[0])), rest);
      PrependAssoc(Pos(Norm(es[0])), PosOf(NormSeq(es[1..])), ReadPieces(k, false));
      assert NormSeq(es)[1..] == NormSeq(es[1..]);
    }
  }

  lemma PrependAssoc(p: Piece, ps: seq<Piece>, r: Read<seq<Piece>>)
    ensures Prepend([p], Prepend(ps, r)) == Prepend([p] + ps, r)
  {
    if r.Ok? { assert [p] + (ps + r.value) == [p] + ps + r.value; }
  }

  lemma {:induction false} ReadsKeywords(ks: seq<Keyword>, first: bool, k: string)
    requires ValidKeywords(ks) && (ks == [] || Next(k))
    ensures Next(PKeywords(ks, false, k)) || (ks == [] && !Next(k))
    ensures ReadPieces(PKeywords(ks, first, k), first) ==
            Prepend(KeysOf(NormKeywords(ks)), ReadPieces(k, first && ks == []))
    decreases ks
  {
    if ks == [] {
      var r := ReadPieces(k, first);
      assert r.Ok? ==> [] + r.value == r.value;
    } else {
      ReadsKeywords(ks[1..], false, k);
      var rest := PKeywords(ks[1..], false, k);
      ReadsKeyword(ks[0], rest);
      assert PKeyword(ks[0], rest)[0] == ks[0].arg[0];
      ReadsOne(PKeyword(ks[0], rest), first, Key(ks[0].arg, Norm(ks[0].value)), rest);
      PrependAssoc(Key(ks[0].arg, Norm(ks[0].value)), KeysOf(NormKeywords(ks[1..])), ReadPieces(k, false));
      assert NormKeywords(ks)[1..] == NormKeywords(ks[1..]);
    }
  }

  lemma {:induction false} ReadsStars(a: Arguments, first: bool, k: string)
    requires ValidOption(a.starargs) && ValidOption(a.kwargs)
    ensures var s := PStar(a.starargs, "*", first, PStar(a.kwargs, "**", first && a.starargs.None?, ")" + k));
            (!first ==> Next(s)) && ReadPieces(s, first) == Ok(StarsOf(NormArguments(a)), k)
    decreases a, 0
  {
    var close := ")" + k;
    assert close[1..] == k;
    var first2 := first && a.starargs.None?;
    var z := PStar(a.kwargs, "**", first2, close);
    var end := ReadPieces(close, false);
    if a.kwargs.Some? {
      ReadsPiece(a.kwargs.value, close);
      ReadsOne("**" + P(a.kwargs.value, close), first2, Stars(Norm(a.kwargs.value)), close);
    }
    assert a.kwargs.Some? ==> [Stars(Norm(a.kwargs.value))] + [] == [Stars(Norm(a.kwargs.value))];
    assert ReadPieces(z, first2) == Ok(if a.kwargs.Some? then [Stars(Norm(a.kwargs.value))] else [], k);
    if a.starargs.Some? {
      ReadsPiece(a.starargs.value, z);
      ReadsOne("*" + P(a.starargs.value, z), first, Star(Norm(a.starargs.value)), z);
      assert StarsOf(NormArguments(a)) == [Star(Norm(a.starargs.value))] + StarsOf(NormArguments(a))[1..];
    } else {
      assert StarsOf(NormArguments(a)) == if a.kwargs.Some? then [Stars(Norm(a.kwargs.value))] else [];
    }
  }

  lemma {:induction false} ReadsArguments(a: Arguments, k: string)
    requires ValidArguments(a)
    ensures var r := ReadPieces(PArguments(a, ")" + k), true);
            r.Ok? && r.rest == k && Assemble(r.value) == Some(NormArguments(a))
    decreases a
  {
    var n := NormArguments(a);
    var first1 := a.args == [];
    var first2 := first1 && a.keywords == [];
    var first3 := first2 && a.starargs.None?;
    var y := PStar(a.starargs, "*", first2, PStar(a.kwargs, "**", first3, ")" + k));
    ReadsStars(a, first2, k);
    ReadsKeywords(a.keywords, first1, y);
    ReadsArgs(a.args, true, PKeywords(a.keywords, first1, y));
    AssembleArgs(n);
  }

  // ---- main results ---------------------------------------------------------------------------

  /** Printing is undone by reading, up to the trees that have no text of their own. */
  lemma ReadPrint(e: Expr)
    requires Valid(e)
    ensures ReadExpr(Print(e)) == Ok(Norm(e), "")
  {
    PIs(e, "");
    ReadsExpr(e, "");
    assert Print(e) + "" == Print(e);
  }

  /** Trees that have a text of their own. */
  predicate Plain(e: Expr) {
    match e
    case Name(_) => true
    case Attribute(v, _) => Plain(v)
    case Subscript(v, i) => Plain(v) && PlainIndex(i)
    case Call(f, a) => Plain(f) && PlainArguments(a)
    case Bool(_, es) => |es| >= 2 && PlainSeq(es)
    case Unary(_, x) => Plain(x)
    case Tuple(es) => PlainSeq(es)
    case List(es) => PlainSeq(es)
    case Set(es) => es != [] && PlainSeq(es)
    case Dict(ps) => PlainItems(ps)
  }

  predicate PlainSeq(es: seq<Expr>) { es == [] || (Plain(es[0]) && PlainSeq(es[1..])) }

  predicate PlainItem(p: Item) { Plain(p.key) && Plain(p.value) }

  predicate PlainItems(ps: seq<Item>) { ps == [] || (PlainItem(ps[0]) && PlainItems(ps[1..])) }

  predicate PlainOption(e: Option<Expr>) { e.None? || Plain(e.value) }

  predicate PlainIndex(i: Index) {
    match i
    case Index(e) => Plain(e)
    case Slice(l, u, s) => PlainOption(l) && PlainOption(u) && PlainOption(s)
  }

  predicate PlainKeyword(w: Keyword) { Plain(w.value) }

  predicate PlainKeywords(ks: seq<Keyword>) { ks == [] || (PlainKeyword(ks[0]) && PlainKeywords(ks[1..])) }

  predicate PlainArguments(a: Arguments) {
    PlainSeq(a.args) && PlainKeywords(a.keywords) && PlainOption(a.starargs) && PlainOption(a.kwargs)
  }

  lemma {:induction false} NormIs(e: Expr)
    ensures Plain(Norm(e)) && (Plain(e) ==> Norm(e) == e)
    decreases e
  {
    match e
    case Name(_) =>
    case Attribute(v, _) => NormIs(v);
    case Subscript(v, i) =>
      NormIs(v);
      NormIndexIs(i);
    case Call(f, a) =>
      NormIs(f);
      NormArgumentsIs(a);
    case Bool(_, es) =>
      NormSeqIs(es);
      if |es| == 1 { NormIs(es[0]); }
    case Unary(_, x) => NormIs(x);
    case Tuple(es) => NormSeqIs(es);
    case List(es) => NormSeqIs(es);
    case Set(es) => NormSeqIs(es);
    case Dict(ps) => NormItemsIs(ps);
  }

  lemma {:induction false} NormSeqIs(es: seq<Expr>)
    ensures PlainSeq(NormSeq(es)) && (PlainSeq(es) ==> NormSeq(es) == es)
    decreases es
  {
    if es != [] {
      NormIs(es[0]);
      NormSeqIs(es[1..]);
      assert NormSeq(es)[1..] == NormSeq(es[1..]);
    }
  }

  lemma {:induction false} NormItemsIs(ps: seq<Item>)
    ensures PlainItems(NormItems(ps)) && (PlainItems(ps) ==> NormItems(ps) == ps)
    decreases ps
  {
    if ps != [] {
      NormItemIs(ps[0]);
      NormItemsIs(ps[1..]);
      assert NormItems(ps)[1..] == NormItems(ps[1..]);
    }
  }

  lemma {:induction false} NormItemIs(p: Item)
    ensures PlainItem(NormItem(p)) && (PlainItem(p) ==> NormItem(p) == p)
    decreases p
  {
    NormIs(p.key);
    NormIs(p.value);
  }

  lemma {:induction false} NormOptionIs(e: Option<Expr>)
    ensures PlainOption(NormOption(e)) && (PlainOption(e) ==> NormOption(e) == e)
    decreases e
  {
    if e.Some? { NormIs(e.value); }
  }

  lemma {:induction false} NormIndexIs(i: Index)
    ensures PlainIndex(NormIndex(i)) && (PlainIndex(i) ==> NormIndex(i) == i)
    decreases i
  {
    match i
    case Index(e) => NormIs(e);
    case Slice(l, u, s) =>
      NormOptionIs(l);
      NormOptionIs(u);
      NormOptionIs(s);
  }

  lemma {:induction false} NormKeywordsIs(ks: seq<Keyword>)
    ensures PlainKeywords(NormKeywords(ks)) && (PlainKeywords(ks) ==> NormKeywords(ks) == ks)
    decreases ks
  {
    if ks != [] {
      NormKeywordIs(ks[0]);
      NormKeywordsIs(ks[1..]);
      assert NormKeywords(ks)[1..] == NormKeywords(ks[1..]);
    }
  }

  lemma {:induction false} NormKeywordIs(w: Keyword)
    ensures Plain(Norm(w.value)) && (PlainKeyword(w) ==> Norm(w.value) == w.value)
    decreases w
  {
    NormIs(w.value);
  }

  lemma {:induction false} NormArgumentsIs(a: Arguments)
    ensures PlainArguments(NormArguments(a)) && (PlainArguments(a) ==> NormArguments(a) == a)
    decreases a
  {
    NormSeqIs(a.args);
    NormKeywordsIs(a.keywords);
    NormOptionIs(a.starargs);
    NormOptionIs(a.kwargs);
  }

  /** Reading gives back the printed tree exactly if every `and`/`or` has two operands and no set is empty. */
  lemma RoundTrip(e: Expr)
    requires Valid(e)
    ensures ReadExpr(Print(e)) == Ok(e, "") <==> Plain(e)
  {
    ReadPrint(e);
    NormIs(e);
  }

  /** Two trees have the same text exactly if they read as the same tree. */
  lemma PrintIsInjective(d: Expr, e: Expr)
    requires Valid(d) && Valid(e) && Plain(d) && Plain(e)
    ensures Print(d) == Print(e) <==> d == e
  {
    RoundTrip(d);
    RoundTrip(e);
  }

  /** The empty set is printed as the empty dictionary, an `or` without operands as the empty tuple, and one of a
      single operand as that operand in parentheses. */
  lemma DegenerateTrees()
    ensures Print(Set([])) == Print(Dict([])) && ReadExpr(Print(Set([]))) == Ok(Dict([]), "")
    ensures Print(Bool(Or, [Name("x")])) == "(x)" && ReadExpr("(x)") == Ok(Name("x"), "")
    ensures Print(Bool(Or, [])) == Print(Tuple([])) && ReadExpr(Print(Bool(Or, []))) == Ok(Tuple([]), "")
  {
    hide ReadExpr;
    var x := [Name("x")];
    assert Identifier("x") && x[1..] == [];
    ReadPrint(Set([]));
    ReadPrint(Bool(Or, x));
    ReadPrint(Bool(Or, []));
    assert PrintSeq(x, " or ") == "x" && PrintSeq([], " or ") == "";
  }
}
