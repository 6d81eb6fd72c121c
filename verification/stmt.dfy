/** The statements of `codegen`: the lines they are laid out on, and a reader of such lines. */
module Statements {
  import opened Options
  import opened Expressions

  /** The parameters of a function; the defaults belong to the last ones. */
  datatype Signature = Signature(args: seq<string>, defaults: seq<Expr>, vararg: Option<string>, kwarg: Option<string>)

  /** `Simple` stands for every statement on one line of its own. */
  datatype Stmt =
    | Simple(text: string)
    | If(test: Expr, body: seq<Stmt>, orelse: seq<Stmt>)
    | For(target: Expr, iter: Expr, body: seq<Stmt>, orelse: seq<Stmt>)
    | While(test: Expr, body: seq<Stmt>, orelse: seq<Stmt>)
    | With(context: Expr, vars: Option<Expr>, body: seq<Stmt>)
    | FunctionDef(name: string, params: Signature, decorators: seq<Expr>, body: seq<Stmt>)
    | ClassDef(name: string, bases: Arguments, decorators: seq<Expr>, body: seq<Stmt>)

  // ---- headers --------------------------------------------------------------------------------

  function Names(ids: seq<string>): seq<Expr> {
    if ids == [] then [] else [Name(ids[0])] + Names(ids[1..])
  }

  function Defaults(ids: seq<string>, es: seq<Expr>): seq<Keyword> {
    if ids == [] || es == [] then [] else [Keyword(ids[0], es[0])] + Defaults(ids[1..], es[1..])
  }

  /** How many parameters have no default. */
  function Padding(p: Signature): (n: nat)
    ensures n <= |p.args|
  {
    if |p.args| < |p.defaults| then 0 else |p.args| - |p.defaults|
  }

  function NameOption(id: Option<string>): Option<Expr> { if id.Some? then Some(Name(id.value)) else None }

  /** A parameter list has the text of an argument list. */
  function AsArguments(p: Signature): Arguments {
    var n := Padding(p);
    Arguments(Names(p.args[..n]), Defaults(p.args[n..], p.defaults), NameOption(p.vararg), NameOption(p.kwarg))
  }

  const NO_ARGUMENTS := Arguments([], [], None, None)

  function TestHeader(word: string, test: Expr): string { word + Print(test) + ":" }

  function ForHeader(target: Expr, iter: Expr): string { "for " + Print(target) + " in " + Print(iter) + ":" }

  function WithHeader(context: Expr, vars: Option<Expr>): string {
    "with " + Print(context) + (if vars.Some? then " as " + Print(vars.value) else "") + ":"
  }

  function DefHeader(name: string, p: Signature): string { "def " + name + "(" + PrintArguments(AsArguments(p)) + "):" }

  function ClassHeader(name: string, a: Arguments): string {
    "class " + name + if a == NO_ARGUMENTS then ":" else "(" + PrintArguments(a) + "):"
  }

  // ---- lines ----------------------------------------------------------------------------------

  /** A line: the newlines before it, its indentation and its text. */
  datatype Line = Line(gap: nat, depth: nat, text: string)

  function Lines(s: Stmt, d: nat): seq<Line>
    decreases s
  {
    match s
    case Simple(t) => [Line(1, d, t)]
    case If(t, b, o) => [Line(1, d, TestHeader("if ", t))] + BodyLines(b, d + 1) + ElseLines(o, d)
    case For(t, i, b, o) => [Line(1, d, ForHeader(t, i))] + BodyLines(b, d + 1) + OrElseLines(o, d)
    case While(t, b, o) => [Line(1, d, TestHeader("while ", t))] + BodyLines(b, d + 1) + OrElseLines(o, d)
    case With(c, v, b) => [Line(1, d, WithHeader(c, v))] + BodyLines(b, d + 1)
    case FunctionDef(n, p, ds, b) => DefLines(2, ds, DefHeader(n, p), d) + BodyLines(b, d + 1)
    case ClassDef(n, a, ds, b) => DefLines(3, ds, ClassHeader(n, a), d) + BodyLines(b, d + 1)
  }

  function BodyLines(ss: seq<Stmt>, d: nat): seq<Line>
    decreases ss, 0
  {
    if ss == [] then [] else Lines(ss[0], d) + BodyLines(ss[1..], d)
  }

  /** After the body of an `if`: an `else` whose only statement is an `if` is an `elif`, and an `else` is
      written even when there is none. */
  function ElseLines(o: seq<Stmt>, d: nat): seq<Line>
    decreases o, 1
  {
    if |o| == 1 && o[0].If? then
      [Line(1, d, TestHeader("elif ", o[0].test))] + BodyLines(o[0].body, d + 1) + ElseLines(o[0].orelse, d)
    else [Line(1, d, "else:")] + BodyLines(o, d + 1)
  }

  function OrElseLines(o: seq<Stmt>, d: nat): seq<Line>
    decreases o, 1
  {
    if o == [] then [] else [Line(1, d, "else:")] + BodyLines(o, d + 1)
  }

  /** Decorators, and then the header they belong to. */
  function DefLines(gap: nat, ds: seq<Expr>, header: string, d: nat): seq<Line>
    decreases |ds|
  {
    if ds == [] then [Line(gap, d, header)]
    else [Line(gap, d, "@" + Print(ds[0]))] + DefLines(1, ds[1..], header, d)
  }

  function Repeat(s: string, n: nat): (r: string)
    ensures |r| == |s| * n
  {
    if n == 0 then "" else s + Repeat(s, n - 1)
  }

  /** The text of lines that follow others. */
  function More(ls: seq<Line>, indent: string): string {
    if ls == [] then ""
    else Repeat("\n", ls[0].gap) + (Repeat(indent, ls[0].depth) + ls[0].text + More(ls[1..], indent))
  }

  /** The text of lines at the top: nothing comes before the first. */
  function Render(ls: seq<Line>, indent: string): string {
    if ls == [] then "" else Repeat(indent, ls[0].depth) + ls[0].text + More(ls[1..], indent)
  }

  function Source(ss: seq<Stmt>, indent: string): string { Render(BodyLines(ss, 0), indent) }

  // ---- what is meant --------------------------------------------------------------------------

  predicate Blank(c: char) { c == ' ' || c == '\t' }

  predicate Clean(text: string) { text != "" && !Blank(text[0]) && '\n' !in text }

  predicate SimpleText(text: string) { Clean(text) && text[|text| - 1] != ':' && text[0] != '@' }

  predicate Identifiers(ids: seq<string>) { forall i :: 0 <= i < |ids| ==> Identifier(ids[i]) }

  predicate ValidSignature(p: Signature) {
    && Identifiers(p.args) && ValidSeq(p.defaults)
    && (p.vararg.Some? ==> Identifier(p.vararg.value)) && (p.kwarg.Some? ==> Identifier(p.kwarg.value))
  }

  predicate ValidStmt(s: Stmt) {
    match s
    case Simple(t) => SimpleText(t)
    case If(t, b, o) => Valid(t) && ValidStmts(b) && ValidStmts(o)
    case For(t, i, b, o) => Valid(t) && Valid(i) && ValidStmts(b) && ValidStmts(o)
    case While(t, b, o) => Valid(t) && ValidStmts(b) && ValidStmts(o)
    case With(c, v, b) => Valid(c) && ValidOption(v) && ValidStmts(b)
    case FunctionDef(n, p, ds, b) => Identifier(n) && ValidSignature(p) && ValidSeq(ds) && ValidStmts(b)
    case ClassDef(n, a, ds, b) => Identifier(n) && ValidArguments(a) && ValidSeq(ds) && ValidStmts(b)
  }

  predicate ValidStmts(ss: seq<Stmt>) { ss == [] || (ValidStmt(ss[0]) && ValidStmts(ss[1..])) }

  function NormSignature(p: Signature): Signature {
    var es := NormSeq(p.defaults);
    p.(defaults := if |p.args| < |es| then es[..|p.args|] else es)
  }

  /** What a statement reads as: its expressions do, and defaults beyond the parameters are lost. */
  function NormStmt(s: Stmt): Stmt {
    match s
    case Simple(t) => s
    case If(t, b, o) => If(Norm(t), NormStmts(b), NormStmts(o))
    case For(t, i, b, o) => For(Norm(t), Norm(i), NormStmts(b), NormStmts(o))
    case While(t, b, o) => While(Norm(t), NormStmts(b), NormStmts(o))
    case With(c, v, b) => With(Norm(c), NormOption(v), NormStmts(b))
    case FunctionDef(n, p, ds, b) => FunctionDef(n, NormSignature(p), NormSeq(ds), NormStmts(b))
    case ClassDef(n, a, ds, b) => ClassDef(n, NormArguments(a), NormSeq(ds), NormStmts(b))
  }

  function NormStmts(ss: seq<Stmt>): (ns: seq<Stmt>)
    ensures |ns| == |ss|
  {
    if ss == [] then [] else [NormStmt(ss[0])] + NormStmts(ss[1..])
  }

  /** No block is empty: no body and, unless the reader is lax about it, no `else` of an `if`, which is always
      written. */
  predicate Filled(lax: bool, s: Stmt) {
    match s
    case Simple(_) => true
    case If(_, b, o) => b != [] && FilledAll(lax, b) && (lax || o != []) && FilledAll(lax, o)
    case For(_, _, b, o) => b != [] && FilledAll(lax, b) && FilledAll(lax, o)
    case While(_, b, o) => b != [] && FilledAll(lax, b) && FilledAll(lax, o)
    case With(_, _, b) => b != [] && FilledAll(lax, b)
    case FunctionDef(_, _, _, b) => b != [] && FilledAll(lax, b)
    case ClassDef(_, _, _, b) => b != [] && FilledAll(lax, b)
  }

  predicate FilledAll(lax: bool, ss: seq<Stmt>) { ss == [] || (Filled(lax, ss[0]) && FilledAll(lax, ss[1..])) }

  // ---- a reader of headers --------------------------------------------------------------------

  datatype Header =
    | Plainly(text: string)
    | Iffy(word: string, test: Expr)
    | Else
    | Forly(target: Expr, iter: Expr)
    | Withly(context: Expr, vars: Option<Expr>)
    | Defly(name: string, params: Signature)
    | Classy(name: string, bases: Arguments)
    | Decorator(e: Expr)
    | Bad

  function ReadTest(word: string, s: string): Header {
    var e := ReadExpr(s);
    if e.Ok? && e.rest == ":" then Iffy(word, e.value) else Bad
  }

  function ReadFor(s: string): Header {
    var t := ReadExpr(s);
    if t.Fail? || !(" in " <= t.rest) then Bad
    else
      var i := ReadExpr(t.rest[4..]);
      if i.Ok? && i.rest == ":" then Forly(t.value, i.value) else Bad
  }

  function ReadWith(s: string): Header {
    var c := ReadExpr(s);
    if c.Fail? then Bad
    else if c.rest == ":" then Withly(c.value, None)
    else if !(" as " <= c.rest) then Bad
    else
      var v := ReadExpr(c.rest[4..]);
      if v.Ok? && v.rest == ":" then Withly(c.value, Some(v.value)) else Bad
  }

  /** Arguments in parentheses and a colon. */
  function ReadCall(s: string): Option<Arguments> {
    if !At(s, '(') then None
    else
      var ps := ReadPieces(s[1..], true);
      if ps.Ok? && ps.rest == ":" then Assemble(ps.value) else None
  }

  function ReadClass(s: string): Header {
    var n := Word(s);
    if s[n..] == ":" then Classy(s[..n], NO_ARGUMENTS)
    else
      var a := ReadCall(s[n..]);
      if a.Some? then Classy(s[..n], a.value) else Bad
  }

  function ReadDef(s: string): Header {
    var n := Word(s);
    var a := ReadCall(s[n..]);
    if a.None? then Bad
    else
      var p := SignatureOf(a.value);
      if p.Some? then Defly(s[..n], p.value) else Bad
  }

  predicate AllNames(es: seq<Expr>) { forall i :: 0 <= i < |es| ==> es[i].Name? }

  function Ids(es: seq<Expr>): seq<string>
    requires AllNames(es)
  {
    if es == [] then [] else [es[0].id] + Ids(es[1..])
  }

  function KeywordIds(ks: seq<Keyword>): seq<string> { if ks == [] then [] else [ks[0].arg] + KeywordIds(ks[1..]) }

  function KeywordValues(ks: seq<Keyword>): seq<Expr> { if ks == [] then [] else [ks[0].value] + KeywordValues(ks[1..]) }

  function SignatureOf(a: Arguments): Option<Signature> {
    if AllNames(a.args) && (a.starargs.Some? ==> a.starargs.value.Name?) && (a.kwargs.Some? ==> a.kwargs.value.Name?)
    then
      Some(Signature(Ids(a.args) + KeywordIds(a.keywords), KeywordValues(a.keywords),
                     if a.starargs.Some? then Some(a.starargs.value.id) else None,
                     if a.kwargs.Some? then Some(a.kwargs.value.id) else None))
    else None
  }

  function ReadHeader(t: string): Header {
    if t == "" then Bad
    else if t[0] == '@' then var e := ReadExpr(t[1..]); if e.Ok? && e.rest == "" then Decorator(e.value) else Bad
    else if t[|t| - 1] != ':' then Plainly(t)
    else if t == "else:" then Else
    else if "if " <= t then ReadTest("if ", t[3..])
    else if "elif " <= t then ReadTest("elif ", t[5..])
    else if "while " <= t then ReadTest("while ", t[6..])
    else if "for " <= t then ReadFor(t[4..])
    else if "with " <= t then ReadWith(t[5..])
    else if "def " <= t then ReadDef(t[4..])
    else if "class " <= t then ReadClass(t[6..])
    else Bad
  }

  // ---- a reader of blocks ---------------------------------------------------------------------

  datatype Row = Row(depth: nat, text: string)

  datatype Rest<T> = Got(value: T, rest: seq<Row>) | Lost

  predicate Starts(rows: seq<Row>, d: nat) { rows != [] && rows[0].depth == d }

  // As in Python a block has at least one statement. A lax reader takes an `else:` of an `if` without a block below
  // it for an `else` that is not there.

  /** One or more statements at a depth. */
  function ReadBlock(lax: bool, rows: seq<Row>, d: nat): (r: Rest<seq<Stmt>>)
    ensures r.Got? ==> |r.rest| <= |rows|
    decreases |rows|, 4
  {
    if Starts(rows, d) then ReadStmts(lax, rows, d) else Lost
  }

  /** Statements at a depth, up to the end or to a line that is less deep. */
  function ReadStmts(lax: bool, rows: seq<Row>, d: nat): (r: Rest<seq<Stmt>>)
    ensures r.Got? ==> |r.rest| <= |rows|
    decreases |rows|, 3
  {
    if rows == [] || rows[0].depth < d then Got([], rows)
    else
      var s := ReadStmt(lax, rows, d);
      if s.Lost? then Lost
      else
        var ss := ReadStmts(lax, s.rest, d);
        if ss.Lost? then Lost else Got([s.value] + ss.value, ss.rest)
  }

  function ReadStmt(lax: bool, rows: seq<Row>, d: nat): (r: Rest<Stmt>)
    ensures r.Got? ==> |r.rest| < |rows|
    decreases |rows|, 2
  {
    if !Starts(rows, d) then Lost
    else
      match ReadHeader(rows[0].text)
      case Plainly(t) => Got(Simple(t), rows[1..])
      case Iffy(word, t) =>
        if word == "elif " then Lost
        else
          var b := ReadBlock(lax, rows[1..], d + 1);
          if b.Lost? then Lost
          else
            var o := if word == "if " then ReadElse(lax, b.rest, d) else ReadOrElse(lax, b.rest, d);
            if o.Lost? then Lost
            else Got(if word == "if " then If(t, b.value, o.value) else While(t, b.value, o.value), o.rest)
      case Forly(t, i) =>
        var b := ReadBlock(lax, rows[1..], d + 1);
        if b.Lost? then Lost
        else
          var o := ReadOrElse(lax, b.rest, d);
          if o.Lost? then Lost else Got(For(t, i, b.value, o.value), o.rest)
      case Withly(c, v) =>
        var b := ReadBlock(lax, rows[1..], d + 1);
        if b.Lost? then Lost else Got(With(c, v, b.value), b.rest)
      case _ => ReadDefinition(lax, rows, d, [])
  }

  /** A definition and the decorators that came before it. */
  function ReadDefinition(lax: bool, rows: seq<Row>, d: nat, ds: seq<Expr>): (r: Rest<Stmt>)
    ensures r.Got? ==> |r.rest| < |rows|
    decreases |rows|, 1
  {
    if !Starts(rows, d) then Lost
    else
      match ReadHeader(rows[0].text)
      case Decorator(e) => ReadDefinition(lax, rows[1..], d, ds + [e])
      case Defly(n, p) =>
        var b := ReadBlock(lax, rows[1..], d + 1);
        if b.Lost? then Lost else Got(FunctionDef(n, p, ds, b.value), b.rest)
      case Classy(n, a) =>
        var b := ReadBlock(lax, rows[1..], d + 1);
        if b.Lost? then Lost else Got(ClassDef(n, a, ds, b.value), b.rest)
      case _ => Lost
  }

  /** An `elif` with what follows it, or an `else`, or neither. */
  function ReadElse(lax: bool, rows: seq<Row>, d: nat): (r: Rest<seq<Stmt>>)
    ensures r.Got? ==> |r.rest| <= |rows|
    decreases |rows|, 1
  {
    if !Starts(rows, d) then Got([], rows)
    else
      var h := ReadHeader(rows[0].text);
      if h.Iffy? && h.word == "elif " then
        var b := ReadBlock(lax, rows[1..], d + 1);
        if b.Lost? then Lost
        else
          var o := ReadElse(lax, b.rest, d);
          if o.Lost? then Lost else Got([If(h.test, b.value, o.value)], o.rest)
      else if h == Else then
        if lax && !Starts(rows[1..], d + 1) then Got([], rows[1..]) else ReadBlock(lax, rows[1..], d + 1)
      else Got([], rows)
  }

  function ReadOrElse(lax: bool, rows: seq<Row>, d: nat): (r: Rest<seq<Stmt>>)
    ensures r.Got? ==> |r.rest| <= |rows|
    decreases |rows|, 1
  {
    if Starts(rows, d) && ReadHeader(rows[0].text) == Else then ReadBlock(lax, rows[1..], d + 1) else Got([], rows)
  }

  // ---- a reader of text -----------------------------------------------------------------------

  /** The length of the first line. */
  function Eol(s: string): (n: nat)
    ensures n <= |s| && (n < |s| ==> s[n] == '\n')
  {
    if s == "" || s[0] == '\n' then 0 else 1 + Eol(s[1..])
  }

  function ReadRow(line: string, indent: string): Row
    requires indent != ""
    decreases |line|
  {
    if indent <= line then var r := ReadRow(line[|indent|..], indent); Row(r.depth + 1, r.text) else Row(0, line)
  }

  /** The lines that are not empty. */
  function ReadRows(s: string, indent: string): seq<Row>
    requires indent != ""
    decreases |s|
  {
    if s == "" then []
    else
      var n := Eol(s);
      (if n == 0 then [] else [ReadRow(s[..n], indent)]) + if n == |s| then [] else ReadRows(s[n + 1..], indent)
  }

  /** The statements a text stands for, if it is the text of a module. */
  function ReadSource(s: string, indent: string): Option<seq<Stmt>>
    requires indent != ""
  {
    var r := ReadStmts(false, ReadRows(s, indent), 0);
    if r.Got? && r.rest == [] then Some(r.value) else None
  }
}
