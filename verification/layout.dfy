/** The lines of a tree of statements read as that tree, exactly if no block is empty. */
module Layout {
  import opened Options
  import opened Expressions
  import opened ExpressionReading
  import opened Statements
  import opened Headers

  // ---- rows in front of others ----------------------------------------------------------------

  function L(s: Stmt, d: nat, k: seq<Row>): seq<Row>
    decreases s
  {
    match s
    case Simple(t) => [Row(d, t)] + k
    case If(t, b, o) => [Row(d, TestHeader("if ", t))] + LBody(b, d + 1, LElse(o, d, k))
    case For(t, i, b, o) => [Row(d, ForHeader(t, i))] + LBody(b, d + 1, LOrElse(o, d, k))
    case While(t, b, o) => [Row(d, TestHeader("while ", t))] + LBody(b, d + 1, LOrElse(o, d, k))
    case With(c, v, b) => [Row(d, WithHeader(c, v))] + LBody(b, d + 1, k)
    case FunctionDef(n, p, ds, b) => LDef(ds, DefHeader(n, p), d, LBody(b, d + 1, k))
    case ClassDef(n, a, ds, b) => LDef(ds, ClassHeader(n, a), d, LBody(b, d + 1, k))
  }

  function LBody(ss: seq<Stmt>, d: nat, k: seq<Row>): seq<Row>
    decreases ss, 0
  {
    if ss == [] then k else L(ss[0], d, LBody(ss[1..], d, k))
  }

  function LElse(o: seq<Stmt>, d: nat, k: seq<Row>): seq<Row>
    decreases o, 1
  {
    if |o| == 1 && o[0].If? then
      [Row(d, TestHeader("elif ", o[0].test))] + LBody(o[0].body, d + 1, LElse(o[0].orelse, d, k))
    else [Row(d, "else:")] + LBody(o, d + 1, k)
  }

  function LOrElse(o: seq<Stmt>, d: nat, k: seq<Row>): seq<Row>
    decreases o, 1
  {
    if o == [] then k else [Row(d, "else:")] + LBody(o, d + 1, k)
  }

  function LDef(ds: seq<Expr>, header: string, d: nat, k: seq<Row>): seq<Row>
    decreases |ds|
  {
    if ds == [] then [Row(d, header)] + k else [Row(d, "@" + Print(ds[0]))] + LDef(ds[1..], header, d, k)
  }

  /** Depth and text of the lines. */
  function Rows(ls: seq<Line>): seq<Row> {
    if ls == [] then [] else [Row(ls[0].depth, ls[0].text)] + Rows(ls[1..])
  }

  lemma {:induction false} RowsConcat(a: seq<Line>, b: seq<Line>, k: seq<Row>)
    ensures Rows(a + b) + k == Rows(a) + (Rows(b) + k)
    decreases |a|
  {
    if a == [] {
      assert a + b == b;
    } else {
      assert (a + b)[1..] == a[1..] + b && (a + b)[0] == a[0];
      RowsConcat(a[1..], b, k);
      AssocRows(Row(a[0].depth, a[0].text), Rows(a[1..] + b), k);
      AssocRows(Row(a[0].depth, a[0].text), Rows(a[1..]), Rows(b) + k);
    }
  }

  lemma AssocRows(x: Row, a: seq<Row>, b: seq<Row>)
    ensures [x] + a + b == [x] + (a + b)
  {
  }

  lemma RowsFirst(x: Line, a: seq<Line>, b: seq<Line>, k: seq<Row>)
    ensures Rows([x] + a + b) + k == [Row(x.depth, x.text)] + (Rows(a) + (Rows(b) + k))
  {
    assert [x] + a + b == [x] + (a + b);
    assert ([x] + (a + b))[1..] == a + b;
    RowsConcat(a, b, k);
  }

  lemma {:induction false} LIs(s: Stmt, d: nat, k: seq<Row>)
    ensures L(s, d, k) == Rows(Lines(s, d)) + k
    decreases s
  {
    hide Rows;
    match s
    case Simple(t) => RowsOne(Line(1, d, t), [], k);
    case If(t, b, o) =>
      LElseIs(o, d, k);
      LBodyIs(b, d + 1, Rows(ElseLines(o, d)) + k);
      RowsFirst(Line(1, d, TestHeader("if ", t)), BodyLines(b, d + 1), ElseLines(o, d), k);
    case For(t, i, b, o) =>
      LOrElseIs(o, d, k);
      LBodyIs(b, d + 1, Rows(OrElseLines(o, d)) + k);
      RowsFirst(Line(1, d, ForHeader(t, i)), BodyLines(b, d + 1), OrElseLines(o, d), k);
    case While(t, b, o) =>
      LOrElseIs(o, d, k);
      LBodyIs(b, d + 1, Rows(OrElseLines(o, d)) + k);
      RowsFirst(Line(1, d, TestHeader("while ", t)), BodyLines(b, d + 1), OrElseLines(o, d), k);
    case With(c, v, b) =>
      LBodyIs(b, d + 1, k);
      RowsOne(Line(1, d, WithHeader(c, v)), BodyLines(b, d + 1), k);
    case FunctionDef(n, p, ds, b) =>
      LBodyIs(b, d + 1, k);
      LDefIs(2, ds, DefHeader(n, p), d, Rows(BodyLines(b, d + 1)) + k);
      RowsConcat(DefLines(2, ds, DefHeader(n, p), d), BodyLines(b, d + 1), k);
    case ClassDef(n, a, ds, b) =>
      LBodyIs(b, d + 1, k);
      LDefIs(3, ds, ClassHeader(n, a), d, Rows(BodyLines(b, d + 1)) + k);
      RowsConcat(DefLines(3, ds, ClassHeader(n, a), d), BodyLines(b, d + 1), k);
  }

  lemma RowsOne(x: Line, a: seq<Line>, k: seq<Row>)
    ensures Rows([x] + a) + k == [Row(x.depth, x.text)] + (Rows(a) + k)
    ensures Rows([x]) + k == [Row(x.depth, x.text)] + k
  {
    assert ([x] + a)[1..] == a && [x][1..] == [];
  }

  lemma {:induction false} LBodyIs(ss: seq<Stmt>, d: nat, k: seq<Row>)
    ensures LBody(ss, d, k) == Rows(BodyLines(ss, d)) + k
    decreases ss, 0
  {
    if ss == [] {
      assert Rows([]) + k == k;
    } else {
      LBodyIs(ss[1..], d, k);
      LIs(ss[0], d, Rows(BodyLines(ss[1..], d)) + k);
      RowsConcat(Lines(ss[0], d), BodyLines(ss[1..], d), k);
    }
  }

  lemma {:induction false} LElseIs(o: seq<Stmt>, d: nat, k: seq<Row>)
    ensures LElse(o, d, k) == Rows(ElseLines(o, d)) + k
    decreases o, 1
  {
    hide Rows;
    if |o| == 1 && o[0].If? {
      LElseIs(o[0].orelse, d, k);
      LBodyIs(o[0].body, d + 1, Rows(ElseLines(o[0].orelse, d)) + k);
      RowsFirst(Line(1, d, TestHeader("elif ", o[0].test)), BodyLines(o[0].body, d + 1), ElseLines(o[0].orelse, d), k);
    } else {
      LBodyIs(o, d + 1, k);
      RowsOne(Line(1, d, "else:"), BodyLines(o, d + 1), k);
    }
  }

  lemma {:induction false} LOrElseIs(o: seq<Stmt>, d: nat, k: seq<Row>)
    ensures LOrElse(o, d, k) == Rows(OrElseLines(o, d)) + k
    decreases o, 1
  {
    if o == [] {
      assert Rows([]) + k == k;
    } else {
      LBodyIs(o, d + 1, k);
      RowsOne(Line(1, d, "else:"), BodyLines(o, d + 1), k);
    }
  }

  lemma {:induction false} LDefIs(gap: nat, ds: seq<Expr>, header: string, d: nat, k: seq<Row>)
    ensures LDef(ds, header, d, k) == Rows(DefLines(gap, ds, header, d)) + k
    decreases |ds|
  {
    if ds == [] {
      RowsOne(Line(gap, d, header), [], k);
    } else {
      LDefIs(1, ds[1..], header, d, k);
      RowsOne(Line(gap, d, "@" + Print(ds[0])), DefLines(1, ds[1..], header, d), k);
    }
  }

  // ---- reading blocks -------------------------------------------------------------------------

  function Either<T>(filled: bool, v: T, k: seq<Row>): Rest<T> { if filled then Got(v, k) else Lost }

  predicate Continues(h: Header) { h == Else || (h.Iffy? && h.word == "elif ") }

  /** What follows a statement at a depth: nothing deeper, and no `else` of its own. */
  predicate Quiet(k: seq<Row>, d: nat) {
    (k == [] || k[0].depth <= d) && (Starts(k, d) ==> !Continues(ReadHeader(k[0].text)))
  }

  /** What follows a block. */
  predicate Closed(k: seq<Row>, d: nat) { k == [] || k[0].depth < d }

  lemma SimpleIs(t: string)
    requires SimpleText(t)
    ensures ReadHeader(t) == Plainly(t)
  {
  }

  lemma ElseIs()
    ensures ReadHeader("else:") == Else
  {
  }

  /** A statement starts on a line at its depth, and not with an `else`. */
  lemma FirstRow(s: Stmt, d: nat, k: seq<Row>)
    requires ValidStmt(s)
    ensures Starts(L(s, d, k), d) && Quiet(L(s, d, k), d)
  {
    hide ReadHeader, Valid, Print, TestHeader, ForHeader, WithHeader, DefHeader, ClassHeader;
    hide Identifier, ValidSignature, ValidArguments;
    match s
    case Simple(t) => SimpleIs(t);
    case If(t, _, _) => TestIs("if ", t);
    case For(t, i, _, _) => ForIs(t, i);
    case While(t, _, _) => TestIs("while ", t);
    case With(c, v, _) => WithIs(c, v);
    case FunctionDef(n, p, ds, _) => if ds == [] { DefIs(n, p); } else { DecoratorIs(ds[0]); }
    case ClassDef(n, a, ds, _) => if ds == [] { ClassIs(n, a); } else { DecoratorIs(ds[0]); }
  }

  lemma FirstOfBody(ss: seq<Stmt>, d: nat, k: seq<Row>)
    requires ValidStmts(ss) && Closed(k, d)
    ensures Quiet(LBody(ss, d, k), d) && (Starts(LBody(ss, d, k), d) <==> ss != [])
  {
    if ss != [] { FirstRow(ss[0], d, LBody(ss[1..], d, k)); }
  }

  lemma {:induction false} ReadsBlock(lax: bool, ss: seq<Stmt>, d: nat, k: seq<Row>)
    requires ValidStmts(ss) && Closed(k, d)
    ensures ReadBlock(lax, LBody(ss, d, k), d) == Either(ss != [] && FilledAll(lax, ss), NormStmts(ss), k)
    decreases ss, 1
  {
    FirstOfBody(ss, d, k);
    ReadsStmts(lax, ss, d, k);
  }

  lemma {:induction false} ReadsStmts(lax: bool, ss: seq<Stmt>, d: nat, k: seq<Row>)
    requires ValidStmts(ss) && Closed(k, d)
    ensures ReadStmts(lax, LBody(ss, d, k), d) == Either(FilledAll(lax, ss), NormStmts(ss), k)
    decreases ss, 0
  {
    hide ReadStmt, L, ReadHeader;
    if ss != [] {
      var rest := LBody(ss[1..], d, k);
      FirstOfBody(ss[1..], d, k);
      FirstRow(ss[0], d, rest);
      ReadsStmt(lax, ss[0], d, rest);
      ReadsStmts(lax, ss[1..], d, k);
    }
  }

  lemma {:induction false} ReadsElse(lax: bool, o: seq<Stmt>, d: nat, k: seq<Row>)
    requires ValidStmts(o) && Quiet(k, d)
    ensures ReadElse(lax, LElse(o, d, k), d) == Either((lax || o != []) && FilledAll(lax, o), NormStmts(o), k)
    ensures Starts(LElse(o, d, k), d)
    decreases o, 2
  {
    hide ReadBlock, LBody, ReadHeader, TestHeader, Valid, Norm;
    var rows := LElse(o, d, k);
    if |o| == 1 && o[0].If? {
      var s := o[0];
      var rest := LElse(s.orelse, d, k);
      TestIs("elif ", s.test);
      ReadsElse(lax, s.orelse, d, k);
      ReadsBlock(lax, s.body, d + 1, rest);
      assert rows[1..] == LBody(s.body, d + 1, rest);
      assert NormStmts(o) == [NormStmt(s)];
      assert FilledAll(lax, o) <==> Filled(lax, s);
    } else {
      ElseIs();
      ReadsBlock(lax, o, d + 1, k);
      assert rows[1..] == LBody(o, d + 1, k);
      FirstOfBody(o, d + 1, k);
      NoBody(d + 1, k);
    }
  }

  lemma NoBody(d: nat, k: seq<Row>)
    ensures LBody([], d, k) == k && NormStmts([]) == []
  {
  }

  lemma {:induction false} ReadsOrElse(lax: bool, o: seq<Stmt>, d: nat, k: seq<Row>)
    requires ValidStmts(o) && Quiet(k, d)
    ensures ReadOrElse(lax, LOrElse(o, d, k), d) == Either(FilledAll(lax, o), NormStmts(o), k)
    ensures LOrElse(o, d, k) == [] || LOrElse(o, d, k)[0].depth <= d
    decreases o, 2
  {
    hide ReadBlock, LBody, ReadHeader;
    if o != [] {
      ElseIs();
      ReadsBlock(lax, o, d + 1, k);
      assert LOrElse(o, d, k)[1..] == LBody(o, d + 1, k);
    }
  }

  lemma {:induction false} ReadsStmt(lax: bool, s: Stmt, d: nat, k: seq<Row>)
    requires ValidStmt(s) && Quiet(k, d)
    ensures ReadStmt(lax, L(s, d, k), d) == Either(Filled(lax, s), NormStmt(s), k)
    decreases s
  {
    hide ReadBlock, ReadElse, ReadOrElse, LBody, LElse, LOrElse, ReadHeader, Valid, Norm;
    hide TestHeader, ForHeader, WithHeader, DefHeader, ClassHeader, ReadDefinition, LDef, ValidSignature;
    match s
    case Simple(t) =>
      SimpleIs(t);
      assert L(s, d, k)[1..] == k;
    case If(t, b, o) =>
      TestIs("if ", t);
      ReadsElse(lax, o, d, k);
      ReadsBlock(lax, b, d + 1, LElse(o, d, k));
      assert L(s, d, k)[1..] == LBody(b, d + 1, LElse(o, d, k));
    case For(t, i, b, o) =>
      ForIs(t, i);
      ReadsOrElse(lax, o, d, k);
      ReadsBlock(lax, b, d + 1, LOrElse(o, d, k));
      assert L(s, d, k)[1..] == LBody(b, d + 1, LOrElse(o, d, k));
    case While(t, b, o) =>
      TestIs("while ", t);
      ReadsOrElse(lax, o, d, k);
      ReadsBlock(lax, b, d + 1, LOrElse(o, d, k));
      assert L(s, d, k)[1..] == LBody(b, d + 1, LOrElse(o, d, k));
    case With(c, v, b) =>
      WithIs(c, v);
      ReadsBlock(lax, b, d + 1, k);
      assert L(s, d, k)[1..] == LBody(b, d + 1, k);
    case FunctionDef(n, p, ds, b) => ReadsDefinition(lax, s, d, k);
    case ClassDef(n, a, ds, b) => ReadsDefinition(lax, s, d, k);
  }

  /** Decorators are collected in order. */
  lemma {:induction false} Decorates(lax: bool, ds: seq<Expr>, header: string, d: nat, k: seq<Row>, acc: seq<Expr>)
    requires ValidSeq(ds)
    ensures ReadDefinition(lax, LDef(ds, header, d, k), d, acc) == ReadDefinition(lax, [Row(d, header)] + k, d, acc + NormSeq(ds))
    decreases |ds|
  {
    hide ReadHeader, Valid, Norm, ReadBlock;
    if ds == [] {
      assert acc + NormSeq(ds) == acc;
    } else {
      DecoratorIs(ds[0]);
      assert LDef(ds, header, d, k)[1..] == LDef(ds[1..], header, d, k);
      Decorates(lax, ds[1..], header, d, k, acc + [Norm(ds[0])]);
      assert acc + [Norm(ds[0])] + NormSeq(ds[1..]) == acc + NormSeq(ds);
    }
  }

  lemma {:induction false} ReadsDefinition(lax: bool, s: Stmt, d: nat, k: seq<Row>)
    requires ValidStmt(s) && Quiet(k, d) && (s.FunctionDef? || s.ClassDef?)
    ensures ReadStmt(lax, L(s, d, k), d) == Either(Filled(lax, s), NormStmt(s), k)
    decreases s, 0
  {
    hide ReadBlock, LBody, ReadHeader, Valid, Norm, DefHeader, ClassHeader, ValidSignature, ValidArguments, Identifier;
    hide NormArguments, NormSignature;
    var body := LBody(s.body, d + 1, k);
    var header := if s.FunctionDef? then DefHeader(s.name, s.params) else ClassHeader(s.name, s.bases);
    Decorates(lax, s.decorators, header, d, body, []);
    assert [] + NormSeq(s.decorators) == NormSeq(s.decorators);
    assert ([Row(d, header)] + body)[1..] == body;
    ReadsBlock(lax, s.body, d + 1, k);
    if s.decorators != [] { DecoratorIs(s.decorators[0]); }
    if s.FunctionDef? { DefIs(s.name, s.params); } else { ClassIs(s.name, s.bases); }
  }

  // ---- reading lines --------------------------------------------------------------------------

  /** What indents: at least one blank, and nothing else. */
  predicate Indents(w: string) { w != "" && forall i :: 0 <= i < |w| ==> Blank(w[i]) }

  predicate CleanLines(ls: seq<Line>) {
    forall i :: 0 <= i < |ls| ==> 1 <= ls[i].gap && Clean(ls[i].text)
  }

  lemma {:induction false} RowIs(d: nat, text: string, w: string)
    requires Indents(w) && Clean(text)
    ensures ReadRow(Repeat(w, d) + text, w) == Row(d, text)
    decreases d
  {
    var line := Repeat(w, d) + text;
    if d == 0 {
      assert line == text && text[0] != w[0];
    } else {
      assert line == w + (Repeat(w, d - 1) + text);
      RowIs(d - 1, text, w);
    }
  }

  lemma {:induction false} IndentOneLine(d: nat, w: string)
    requires Indents(w)
    ensures OneLine(Repeat(w, d))
    decreases d
  {
    if d > 0 { IndentOneLine(d - 1, w); }
  }

  lemma {:induction false} EolIs(line: string, t: string)
    requires OneLine(line) && (t == "" || t[0] == '\n')
    ensures Eol(line + t) == |line|
    decreases |line|
  {
    if line == "" {
      assert line + t == t;
    } else {
      assert (line + t)[1..] == line[1..] + t;
      EolIs(line[1..], t);
    }
  }

  lemma ReadsLine(line: string, t: string, w: string)
    requires w != "" && line != "" && OneLine(line) && (t == "" || t[0] == '\n')
    ensures ReadRows(line + t, w) == [ReadRow(line, w)] + ReadRows(t, w)
  {
    hide ReadRow, Eol;
    EolIs(line, t);
    var s := line + t;
    assert s[..|line|] == line;
    if t == "" {
      assert s == line;
    } else {
      assert s[|line| + 1..] == t[1..];
      ReadsNewline(t, w);
    }
  }

  lemma ReadsNewline(t: string, w: string)
    requires w != "" && t != "" && t[0] == '\n'
    ensures ReadRows(t, w) == ReadRows(t[1..], w)
  {
    hide ReadRow;
    assert Eol(t) == 0;
    var r := if |t| == 1 then [] else ReadRows(t[1..], w);
    assert [] + r == r;
  }

  lemma {:induction false} ReadsGap(n: nat, t: string, w: string)
    requires w != ""
    ensures ReadRows(Repeat("\n", n) + t, w) == ReadRows(t, w)
    decreases n
  {
    hide ReadRows;
    if n == 0 {
      assert Repeat("\n", n) + t == t;
    } else {
      var s := Repeat("\n", n - 1) + t;
      assert Repeat("\n", n) + t == "\n" + s;
      assert ("\n" + s)[1..] == s;
      ReadsNewline("\n" + s, w);
      ReadsGap(n - 1, t, w);
    }
  }

  /** Indentation and text of a line, with what follows. */
  lemma ReadsText(l: Line, t: string, w: string)
    requires Indents(w) && Clean(l.text) && (t == "" || t[0] == '\n')
    ensures ReadRows(Repeat(w, l.depth) + l.text + t, w) == [Row(l.depth, l.text)] + ReadRows(t, w)
  {
    IndentOneLine(l.depth, w);
    ReadsLine(Repeat(w, l.depth) + l.text, t, w);
    RowIs(l.depth, l.text, w);
  }

  lemma {:induction false} ReadsMore(ls: seq<Line>, w: string)
    requires Indents(w) && CleanLines(ls)
    ensures ReadRows(More(ls, w), w) == Rows(ls)
    ensures More(ls, w) == "" || More(ls, w)[0] == '\n'
    decreases |ls|
  {
    if ls != [] {
      ReadsMore(ls[1..], w);
      ReadsText(ls[0], More(ls[1..], w), w);
      ReadsGap(ls[0].gap, Repeat(w, ls[0].depth) + ls[0].text + More(ls[1..], w), w);
    }
  }

  /** Every line of the text that is not empty starts with exactly its depth in indents, and no line is lost. */
  lemma LayoutIsRead(ls: seq<Line>, w: string)
    requires Indents(w) && CleanLines(ls)
    ensures ReadRows(Render(ls, w), w) == Rows(ls)
  {
    if ls != [] {
      ReadsMore(ls[1..], w);
      ReadsText(ls[0], More(ls[1..], w), w);
    }
  }

  // ---- the lines of statements are such lines -------------------------------------------------

  lemma CleanConcat(a: seq<Line>, b: seq<Line>)
    ensures CleanLines(a + b) <==> CleanLines(a) && CleanLines(b)
  {
    if CleanLines(a + b) {
      assert forall i :: 0 <= i < |a| ==> (a + b)[i] == a[i];
      assert forall i :: 0 <= i < |b| ==> (a + b)[|a| + i] == b[i];
    }
  }

  lemma HeadersClean(e: Expr)
    requires Valid(e)
    ensures Clean(TestHeader("if ", e)) && Clean(TestHeader("elif ", e)) && Clean(TestHeader("while ", e))
    ensures Clean("@" + Print(e))
  {
    PrintOneLine(e);
  }

  lemma {:induction false} DefLinesClean(gap: nat, ds: seq<Expr>, header: string, d: nat)
    requires gap >= 1 && ValidSeq(ds) && Clean(header)
    ensures CleanLines(DefLines(gap, ds, header, d))
    decreases |ds|
  {
    hide Valid;
    if ds != [] {
      HeadersClean(ds[0]);
      DefLinesClean(1, ds[1..], header, d);
      CleanConcat([Line(gap, d, "@" + Print(ds[0]))], DefLines(1, ds[1..], header, d));
    }
  }

  lemma ForClean(e: Expr, i: Expr)
    requires Valid(e) && Valid(i)
    ensures Clean(ForHeader(e, i))
  {
    hide Valid, Print;
    PrintOneLine(e);
    PrintOneLine(i);
  }

  lemma WithClean(c: Expr, v: Option<Expr>)
    requires Valid(c) && ValidOption(v)
    ensures Clean(WithHeader(c, v))
  {
    hide Valid, Print;
    PrintOneLine(c);
    if v.Some? { PrintOneLine(v.value); }
  }

  lemma DefClean(n: string, p: Signature)
    requires Identifier(n) && ValidSignature(p)
    ensures Clean(DefHeader(n, p))
  {
    hide Identifier, ValidSignature, AsArguments, PrintArguments;
    WordOneLine(n);
    SignatureValid(p);
    ArgumentsOneLine(AsArguments(p));
  }

  lemma ClassClean(n: string, a: Arguments)
    requires Identifier(n) && ValidArguments(a)
    ensures Clean(ClassHeader(n, a))
  {
    hide Identifier, PrintArguments, ValidArguments;
    WordOneLine(n);
    ArgumentsOneLine(a);
  }

  lemma Clean3(x: Line, a: seq<Line>, b: seq<Line>)
    requires 1 <= x.gap && Clean(x.text) && CleanLines(a) && CleanLines(b)
    ensures CleanLines([x] + a + b) && CleanLines([x] + a)
  {
    CleanConcat([x], a);
    CleanConcat([x] + a, b);
  }

  lemma {:induction false} LinesClean(s: Stmt, d: nat)
    requires ValidStmt(s)
    ensures CleanLines(Lines(s, d))
    decreases s
  {
    hide CleanLines, Clean, Valid, ValidSignature, ValidArguments, Identifier, TestHeader, ForHeader, WithHeader;
    hide DefHeader, ClassHeader, DefLines, BodyLines, ElseLines, OrElseLines;
    match s
    case Simple(t) => SimpleClean(t, d);
    case If(t, b, o) =>
      HeadersClean(t);
      BodyClean(b, d + 1);
      ElseClean(o, d);
      Clean3(Line(1, d, TestHeader("if ", t)), BodyLines(b, d + 1), ElseLines(o, d));
    case For(t, i, b, o) =>
      ForClean(t, i);
      BodyClean(b, d + 1);
      OrElseClean(o, d);
      Clean3(Line(1, d, ForHeader(t, i)), BodyLines(b, d + 1), OrElseLines(o, d));
    case While(t, b, o) =>
      HeadersClean(t);
      BodyClean(b, d + 1);
      OrElseClean(o, d);
      Clean3(Line(1, d, TestHeader("while ", t)), BodyLines(b, d + 1), OrElseLines(o, d));
    case With(c, v, b) =>
      WithClean(c, v);
      BodyClean(b, d + 1);
      Clean3(Line(1, d, WithHeader(c, v)), BodyLines(b, d + 1), BodyLines(b, d + 1));
    case FunctionDef(n, p, ds, b) =>
      DefClean(n, p);
      BodyClean(b, d + 1);
      DefLinesClean(2, ds, DefHeader(n, p), d);
      CleanConcat(DefLines(2, ds, DefHeader(n, p), d), BodyLines(b, d + 1));
    case ClassDef(n, a, ds, b) =>
      ClassClean(n, a);
      BodyClean(b, d + 1);
      DefLinesClean(3, ds, ClassHeader(n, a), d);
      CleanConcat(DefLines(3, ds, ClassHeader(n, a), d), BodyLines(b, d + 1));
  }

  lemma SimpleClean(t: string, d: nat)
    requires SimpleText(t)
    ensures CleanLines([Line(1, d, t)])
  {
  }

  lemma {:induction false} BodyClean(ss: seq<Stmt>, d: nat)
    requires ValidStmts(ss)
    ensures CleanLines(BodyLines(ss, d))
    decreases ss, 0
  {
    if ss != [] {
      LinesClean(ss[0], d);
      BodyClean(ss[1..], d);
      CleanConcat(Lines(ss[0], d), BodyLines(ss[1..], d));
    }
  }

  lemma {:induction false} ElseClean(o: seq<Stmt>, d: nat)
    requires ValidStmts(o)
    ensures CleanLines(ElseLines(o, d))
    decreases o, 1
  {
    hide CleanLines, TestHeader, Valid;
    if |o| == 1 && o[0].If? {
      HeadersClean(o[0].test);
      BodyClean(o[0].body, d + 1);
      ElseClean(o[0].orelse, d);
      Clean3(Line(1, d, TestHeader("elif ", o[0].test)), BodyLines(o[0].body, d + 1), ElseLines(o[0].orelse, d));
    } else {
      BodyClean(o, d + 1);
      Clean3(Line(1, d, "else:"), BodyLines(o, d + 1), BodyLines(o, d + 1));
    }
  }

  lemma {:induction false} OrElseClean(o: seq<Stmt>, d: nat)
    requires ValidStmts(o)
    ensures CleanLines(OrElseLines(o, d))
    decreases o, 1
  {
    if o != [] {
      BodyClean(o, d + 1);
      Clean3(Line(1, d, "else:"), BodyLines(o, d + 1), BodyLines(o, d + 1));
    }
  }

  // ---- main results ---------------------------------------------------------------------------

  /** The text of a module reads as its statements if no block is empty, and as nothing otherwise. */
  lemma SourceIsRead(ss: seq<Stmt>, w: string)
    requires ValidStmts(ss) && Indents(w)
    ensures ReadSource(Source(ss, w), w) == if FilledAll(false, ss) then Some(NormStmts(ss)) else None
  {
    BodyClean(ss, 0);
    LayoutIsRead(BodyLines(ss, 0), w);
    LBodyIs(ss, 0, []);
    assert Rows(BodyLines(ss, 0)) + [] == Rows(BodyLines(ss, 0));
    ReadsStmts(false, ss, 0, []);
  }

  predicate PlainSignature(p: Signature) { |p.defaults| <= |p.args| && PlainSeq(p.defaults) }

  /** Statements with a text of their own: their expressions have one, and every default has a parameter. */
  predicate PlainStmt(s: Stmt) {
    match s
    case Simple(_) => true
    case If(t, b, o) => Plain(t) && PlainStmts(b) && PlainStmts(o)
    case For(t, i, b, o) => Plain(t) && Plain(i) && PlainStmts(b) && PlainStmts(o)
    case While(t, b, o) => Plain(t) && PlainStmts(b) && PlainStmts(o)
    case With(c, v, b) => Plain(c) && PlainOption(v) && PlainStmts(b)
    case FunctionDef(_, p, ds, b) => PlainSignature(p) && PlainSeq(ds) && PlainStmts(b)
    case ClassDef(_, a, ds, b) => PlainArguments(a) && PlainSeq(ds) && PlainStmts(b)
  }

  predicate PlainStmts(ss: seq<Stmt>) { ss == [] || (PlainStmt(ss[0]) && PlainStmts(ss[1..])) }

  lemma {:induction false} PlainTake(es: seq<Expr>, n: nat)
    requires PlainSeq(es) && n <= |es|
    ensures PlainSeq(es[..n])
    decreases n
  {
    if n > 0 {
      PlainTake(es[1..], n - 1);
      assert es[..n][1..] == es[1..][..n - 1];
    }
  }

  lemma NormSignatureIs(p: Signature)
    ensures PlainSignature(NormSignature(p)) && (PlainSignature(p) ==> NormSignature(p) == p)
  {
    NormSeqIs(p.defaults);
    if |p.args| < |p.defaults| { PlainTake(NormSeq(p.defaults), |p.args|); }
  }

  lemma {:induction false} NormStmtIs(s: Stmt)
    ensures PlainStmt(NormStmt(s)) && (PlainStmt(s) ==> NormStmt(s) == s)
    decreases s
  {
    hide Norm, Plain, NormSignature, PlainSignature, NormArguments, PlainArguments, NormOption, PlainOption;
    match s
    case Simple(_) =>
    case If(t, b, o) =>
      NormIs(t);
      NormStmtsIs(b);
      NormStmtsIs(o);
    case For(t, i, b, o) =>
      NormIs(t);
      NormIs(i);
      NormStmtsIs(b);
      NormStmtsIs(o);
    case While(t, b, o) =>
      NormIs(t);
      NormStmtsIs(b);
      NormStmtsIs(o);
    case With(c, v, b) =>
      NormIs(c);
      NormOptionIs(v);
      NormStmtsIs(b);
    case FunctionDef(_, p, ds, b) =>
      NormSignatureIs(p);
      NormSeqIs(ds);
      NormStmtsIs(b);
    case ClassDef(_, a, ds, b) =>
      NormArgumentsIs(a);
      NormSeqIs(ds);
      NormStmtsIs(b);
  }

  lemma {:induction false} NormStmtsIs(ss: seq<Stmt>)
    ensures PlainStmts(NormStmts(ss)) && (PlainStmts(ss) ==> NormStmts(ss) == ss)
    decreases ss
  {
    if ss != [] {
      NormStmtIs(ss[0]);
      NormStmtsIs(ss[1..]);
      assert NormStmts(ss)[1..] == NormStmts(ss[1..]);
    }
  }

  /** Reading gives back the printed statements exactly if no block is empty and every part has a text of
      its own. */
  lemma SourceRoundTrip(ss: seq<Stmt>, w: string)
    requires ValidStmts(ss) && Indents(w)
    ensures ReadSource(Source(ss, w), w) == Some(ss) <==> FilledAll(false, ss) && PlainStmts(ss)
  {
    SourceIsRead(ss, w);
    NormStmtsIs(ss);
  }

  /** Depth and text of the lines read as the statements, also where an `if` has no `else`. */
  lemma RowsAreRead(ss: seq<Stmt>)
    requires ValidStmts(ss)
    ensures ReadStmts(true, Rows(BodyLines(ss, 0)), 0) == if FilledAll(true, ss) then Got(NormStmts(ss), []) else Lost
  {
    LBodyIs(ss, 0, []);
    assert Rows(BodyLines(ss, 0)) + [] == Rows(BodyLines(ss, 0));
    ReadsStmts(true, ss, 0, []);
  }

  /** Two modules with the same depths and texts of lines, with an `else` at every `if` or not, are the same
      statements. */
  lemma RowsDetermineStatements(ss: seq<Stmt>, tt: seq<Stmt>)
    requires ValidStmts(ss) && ValidStmts(tt) && FilledAll(true, ss) && FilledAll(true, tt)
    ensures Rows(BodyLines(ss, 0)) == Rows(BodyLines(tt, 0)) ==> NormStmts(ss) == NormStmts(tt)
  {
    RowsAreRead(ss);
    RowsAreRead(tt);
  }

  /** ... and so are two with the same text, whatever they are indented with; plain ones are equal exactly if
      their texts are. */
  lemma SourceDeterminesStatements(ss: seq<Stmt>, tt: seq<Stmt>, w: string)
    requires ValidStmts(ss) && ValidStmts(tt) && FilledAll(true, ss) && FilledAll(true, tt) && Indents(w)
    ensures Source(ss, w) == Source(tt, w) ==> NormStmts(ss) == NormStmts(tt)
    ensures PlainStmts(ss) && PlainStmts(tt) ==> (Source(ss, w) == Source(tt, w) <==> ss == tt)
  {
    BodyClean(ss, 0);
    BodyClean(tt, 0);
    LayoutIsRead(BodyLines(ss, 0), w);
    LayoutIsRead(BodyLines(tt, 0), w);
    RowsDetermineStatements(ss, tt);
    NormStmtsIs(ss);
    NormStmtsIs(tt);
  }

  const IF_ONLY := If(Name("x"), [Simple("pass")], [])

  /** An `if` without an `else` is printed with one that is empty, which cannot be read. */
  lemma IfWithoutElse()
    ensures ValidStmt(IF_ONLY) && Source([IF_ONLY], "    ") == "if x:\n    pass\nelse:"
    ensures ReadSource(Source([IF_ONLY], "    "), "    ") == None
  {
    hide ReadSource, Lines;
    IfOnlyLines();
    IfOnlyText();
    assert Identifier("x");
    assert [Simple("pass")][1..] == [] && [IF_ONLY][1..] == [];
    SourceIsRead([IF_ONLY], "    ");
  }

  const IF_ONLY_LINES := [Line(1, 0, "if x:"), Line(1, 1, "pass"), Line(1, 0, "else:")]

  lemma IfOnlyLines()
    ensures BodyLines([IF_ONLY], 0) == IF_ONLY_LINES
  {
    assert BodyLines([Simple("pass")], 1) == [Line(1, 1, "pass")];
    assert ElseLines([], 0) == [Line(1, 0, "else:")];
    assert TestHeader("if ", Name("x")) == "if x:";
    assert Lines(IF_ONLY, 0) == IF_ONLY_LINES;
    assert [IF_ONLY][1..] == [];
  }

  lemma MoreOf(l: Line, rest: seq<Line>)
    ensures More([l] + rest, "    ") == Repeat("\n", l.gap) + (Repeat("    ", l.depth) + l.text + More(rest, "    "))
  {
    assert ([l] + rest)[1..] == rest;
  }

  lemma IfOnlyText()
    ensures Render(IF_ONLY_LINES, "    ") == "if x:\n    pass\nelse:"
  {
    var a, b, c := IF_ONLY_LINES[0], IF_ONLY_LINES[1], IF_ONLY_LINES[2];
    assert Repeat("\n", 1) == "\n" && Repeat("    ", 1) == "    " && Repeat("    ", 0) == "";
    assert IF_ONLY_LINES[1..] == [b] + ([c] + []) && More([], "    ") == "";
    hide More, Repeat;
    MoreOf(c, []);
    MoreOf(b, [c] + []);
  }
}
