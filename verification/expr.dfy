/** The expressions of `codegen`: how they are printed, and a reader that undoes the printing. */
module Expressions {
  import opened Options

  datatype BoolOp = And | Or

  datatype UnaryOp = Invert | Not | UAdd | USub

  datatype Keyword = Keyword(arg: string, value: Expr)

  /** The arguments of a call, or the bases of a class. */
  datatype Arguments = Arguments(args: seq<Expr>, keywords: seq<Keyword>, starargs: Option<Expr>, kwargs: Option<Expr>)

  /** One entry of a dictionary display. */
  datatype Item = Item(key: Expr, value: Expr)

  datatype Index = Index(e: Expr) | Slice(lower: Option<Expr>, upper: Option<Expr>, step: Option<Expr>)

  datatype Expr =
    | Name(id: string)
    | Attribute(value: Expr, attr: string)
    | Subscript(value: Expr, slice: Index)
    | Call(func: Expr, arguments: Arguments)
    | Bool(op: BoolOp, operands: seq<Expr>)
    | Unary(uop: UnaryOp, operand: Expr)
    | Tuple(elts: seq<Expr>)
    | List(elts: seq<Expr>)
    | Set(elts: seq<Expr>)
    | Dict(items: seq<Item>)

  // ---- printing -------------------------------------------------------------------------------

  function BoolSymbol(op: BoolOp): string { if op.And? then " and " else " or " }

  function UnarySymbol(op: UnaryOp): string {
    match op case Invert => "~" case Not => "not " case UAdd => "+" case USub => "-"
  }

  function Print(e: Expr): string {
    match e
    case Name(id) => id
    case Attribute(v, a) => Print(v) + "." + a
    case Subscript(v, i) => Print(v) + "[" + PrintIndex(i) + "]"
    case Call(f, a) => Print(f) + "(" + PrintArguments(a) + ")"
    case Bool(op, es) => "(" + PrintSeq(es, BoolSymbol(op)) + ")"
    case Unary(op, x) => "(" + UnarySymbol(op) + Print(x) + ")"
    case Tuple(es) => "(" + PrintSeq(es, ", ") + if |es| == 1 then ",)" else ")"
    case List(es) => "[" + PrintSeq(es, ", ") + "]"
    case Set(es) => "{" + PrintSeq(es, ", ") + "}"
    case Dict(ps) => "{" + PrintItems(ps) + "}"
  }

  function PrintSeq(es: seq<Expr>, sep: string): string {
    if es == [] then "" else if |es| == 1 then Print(es[0]) else Print(es[0]) + sep + PrintSeq(es[1..], sep)
  }

  function PrintItem(p: Item): string { Print(p.key) + ": " + Print(p.value) }

  function PrintItems(ps: seq<Item>): string {
    if ps == [] then "" else PrintItem(ps[0]) + if |ps| == 1 then "" else ", " + PrintItems(ps[1..])
  }

  function PrintOption(e: Option<Expr>): string { if e.Some? then Print(e.value) else "" }

  function PrintIndex(i: Index): string {
    match i
    case Index(e) => Print(e)
    case Slice(l, u, s) =>
      PrintOption(l) + ":" + PrintOption(u) + PrintStep(s)
  }

  function PrintStep(e: Option<Expr>): string {
    if e.None? then "" else ":" + if e.value == Name("None") then "" else Print(e.value)
  }

  function Comma(first: bool): string { if first then "" else ", " }

  function PrintArgs(es: seq<Expr>, first: bool): string {
    if es == [] then "" else Comma(first) + Print(es[0]) + PrintArgs(es[1..], false)
  }

  function PrintKeywords(ks: seq<Keyword>, first: bool): string {
    if ks == [] then "" else Comma(first) + ks[0].arg + "=" + Print(ks[0].value) + PrintKeywords(ks[1..], false)
  }

  function PrintArguments(a: Arguments): string {
    var first1 := a.args == [];
    var first2 := first1 && a.keywords == [];
    var first3 := first2 && a.starargs.None?;
    PrintArgs(a.args, true) + PrintKeywords(a.keywords, first1) +
    PrintStar(a.starargs, "*", first2) + PrintStar(a.kwargs, "**", first3)
  }

  function PrintStar(e: Option<Expr>, stars: string, first: bool): string {
    if e.Some? then Comma(first) + stars + Print(e.value) else ""
  }

  // ---- the trees meant ------------------------------------------------------------------------

  const KEYWORDS: set<string> := {
    "and", "as", "assert", "break", "class", "continue", "def", "del", "elif", "else", "except", "exec", "finally",
    "for", "from", "global", "if", "import", "in", "is", "lambda", "not", "or", "pass", "print", "raise", "return",
    "try", "while", "with", "yield", "nonlocal"
  }

  predicate IdChar(c: char) {
    'a' <= c <= 'z' || 'A' <= c <= 'Z' || '0' <= c <= '9' || c == '_' || 128 <= c as int
  }

  predicate Identifier(s: string) {
    s != "" && !('0' <= s[0] <= '9') && s !in KEYWORDS && forall i :: 0 <= i < |s| ==> IdChar(s[i])
  }

  /** Every name in the tree is an identifier. */
  predicate Valid(e: Expr) {
    match e
    case Name(id) => Identifier(id)
    case Attribute(v, a) => Valid(v) && Identifier(a)
    case Subscript(v, i) => Valid(v) && ValidIndex(i)
    case Call(f, a) => Valid(f) && ValidArguments(a)
    case Bool(_, es) => ValidSeq(es)
    case Unary(_, x) => Valid(x)
    case Tuple(es) => ValidSeq(es)
    case List(es) => ValidSeq(es)
    case Set(es) => ValidSeq(es)
    case Dict(ps) => ValidItems(ps)
  }

  predicate ValidSeq(es: seq<Expr>) { es == [] || (Valid(es[0]) && ValidSeq(es[1..])) }

  predicate ValidItems(ps: seq<Item>) {
    ps == [] || (ValidItem(ps[0]) && ValidItems(ps[1..]))
  }

  predicate ValidItem(p: Item) { Valid(p.key) && Valid(p.value) }

  predicate ValidOption(e: Option<Expr>) { e.None? || Valid(e.value) }

  predicate ValidIndex(i: Index) {
    match i
    case Index(e) => Valid(e)
    case Slice(l, u, s) => ValidOption(l) && ValidOption(u) && ValidOption(s)
  }

  predicate ValidKeywords(ks: seq<Keyword>) {
    ks == [] || (Identifier(ks[0].arg) && Valid(ks[0].value) && ValidKeywords(ks[1..]))
  }

  predicate ValidArguments(a: Arguments) {
    ValidSeq(a.args) && ValidKeywords(a.keywords) && ValidOption(a.starargs) && ValidOption(a.kwargs)
  }

  /** What the text of a tree reads as: an `and` of nothing is the empty tuple, an `and` of one thing is that
      thing, and the empty set is the empty dictionary. */
  function Norm(e: Expr): Expr {
    match e
    case Name(id) => e
    case Attribute(v, a) => Attribute(Norm(v), a)
    case Subscript(v, i) => Subscript(Norm(v), NormIndex(i))
    case Call(f, a) => Call(Norm(f), NormArguments(a))
    case Bool(op, es) => if es == [] then Tuple([]) else if |es| == 1 then Norm(es[0]) else Bool(op, NormSeq(es))
    case Unary(op, x) => Unary(op, Norm(x))
    case Tuple(es) => Tuple(NormSeq(es))
    case List(es) => List(NormSeq(es))
    case Set(es) => if es == [] then Dict([]) else Set(NormSeq(es))
    case Dict(ps) => Dict(NormItems(ps))
  }

  function NormSeq(es: seq<Expr>): (ns: seq<Expr>)
    ensures |ns| == |es|
  {
    if es == [] then [] else [Norm(es[0])] + NormSeq(es[1..])
  }

  function NormItems(ps: seq<Item>): seq<Item> {
    if ps == [] then [] else [NormItem(ps[0])] + NormItems(ps[1..])
  }

  function NormItem(p: Item): Item { Item(Norm(p.key), Norm(p.value)) }

  function NormOption(e: Option<Expr>): Option<Expr> { if e.Some? then Some(Norm(e.value)) else None }

  function NormIndex(i: Index): Index {
    match i
    case Index(e) => Index(Norm(e))
    case Slice(l, u, s) => Slice(NormOption(l), NormOption(u), NormOption(s))
  }

  function NormKeywords(ks: seq<Keyword>): seq<Keyword> {
    if ks == [] then [] else [Keyword(ks[0].arg, Norm(ks[0].value))] + NormKeywords(ks[1..])
  }

  function NormArguments(a: Arguments): Arguments {
    Arguments(NormSeq(a.args), NormKeywords(a.keywords), NormOption(a.starargs), NormOption(a.kwargs))
  }

  // ---- a reader -------------------------------------------------------------------------------

  datatype Read<T> = Ok(value: T, rest: string) | Fail

  datatype Piece = Pos(e: Expr) | Key(name: string, e: Expr) | Star(e: Expr) | Stars(e: Expr)

  /** The length of the word at the head of the text. */
  function Word(s: string): (n: nat)
    ensures n <= |s|
  {
    if s == "" || !IdChar(s[0]) then 0 else 1 + Word(s[1..])
  }

  predicate At(s: string, c: char) { s != "" && s[0] == c }

  function ReadExpr(s: string): (r: Read<Expr>)
    ensures r.Ok? ==> |r.rest| < |s|
    decreases |s|, 3
  {
    var a := ReadAtom(s);
    if a.Fail? then Fail else ReadTail(a.value, a.rest)
  }

  /** `.name`, `(...)` and `[...]`, as many as follow. */
  function ReadTail(e: Expr, s: string): (r: Read<Expr>)
    ensures r.Ok? ==> |r.rest| <= |s|
    decreases |s|, 0
  {
    if At(s, '.') then
      var n := Word(s[1..]);
      if n == 0 then Fail else ReadTail(Attribute(e, s[1..][..n]), s[1..][n..])
    else if At(s, '(') then
      var ps := ReadPieces(s[1..], true);
      if ps.Fail? then Fail
      else
        var a := Assemble(ps.value);
        if a.None? then Fail else ReadTail(Call(e, a.value), ps.rest)
    else if At(s, '[') then
      var i := ReadIndex(s[1..]);
      if i.Fail? then Fail else ReadTail(Subscript(e, i.value), i.rest)
    else Ok(e, s)
  }

  function ReadAtom(s: string): (r: Read<Expr>)
    ensures r.Ok? ==> |r.rest| < |s|
    decreases |s|, 2
  {
    if At(s, '(') then ReadParen(s[1..])
    else if At(s, '[') then
      if At(s[1..], ']') then Ok(List([]), s[2..])
      else var es := ReadSeq(s[1..], ", ", ']'); if es.Fail? then Fail else Ok(List(es.value), es.rest)
    else if At(s, '{') then ReadBrace(s[1..])
    else var n := Word(s); if n == 0 then Fail else Ok(Name(s[..n]), s[n..])
  }

  /** One or more expressions, separated and then closed. */
  function ReadSeq(s: string, sep: string, close: char): (r: Read<seq<Expr>>)
    ensures r.Ok? ==> |r.rest| < |s|
    decreases |s|, 4
  {
    var e := ReadExpr(s);
    if e.Fail? then Fail
    else if At(e.rest, close) then Ok([e.value], e.rest[1..])
    else if sep <= e.rest then
      var es := ReadSeq(e.rest[|sep|..], sep, close);
      if es.Fail? then Fail else Ok([e.value] + es.value, es.rest)
    else Fail
  }

  function ReadUnary(op: UnaryOp, s: string): (r: Read<Expr>)
    ensures r.Ok? ==> |r.rest| < |s|
    decreases |s|, 4
  {
    var e := ReadExpr(s);
    if e.Ok? && At(e.rest, ')') then Ok(Unary(op, e.value), e.rest[1..]) else Fail
  }

  /** After an opening parenthesis. */
  function ReadParen(s: string): (r: Read<Expr>)
    ensures r.Ok? ==> |r.rest| < |s|
    decreases |s|, 5
  {
    if At(s, ')') then Ok(Tuple([]), s[1..])
    else if At(s, '~') then ReadUnary(Invert, s[1..])
    else if At(s, '+') then ReadUnary(UAdd, s[1..])
    else if At(s, '-') then ReadUnary(USub, s[1..])
    else if "not " <= s then ReadUnary(Not, s[4..])
    else
      var e := ReadExpr(s);
      if e.Fail? then Fail else ReadParenRest(e.value, e.rest)
  }

  function ReadParenRest(e: Expr, s: string): (r: Read<Expr>)
    ensures r.Ok? ==> |r.rest| < |s|
    decreases |s|, 5
  {
    if At(s, ')') then Ok(e, s[1..])
    else if ",)" <= s then Ok(Tuple([e]), s[2..])
    else if ", " <= s then
      var es := ReadSeq(s[2..], ", ", ')'); if es.Fail? then Fail else Ok(Tuple([e] + es.value), es.rest)
    else if " and " <= s then
      var es := ReadSeq(s[5..], " and ", ')'); if es.Fail? then Fail else Ok(Bool(And, [e] + es.value), es.rest)
    else if " or " <= s then
      var es := ReadSeq(s[4..], " or ", ')'); if es.Fail? then Fail else Ok(Bool(Or, [e] + es.value), es.rest)
    else Fail
  }

  /** After an opening brace. */
  function ReadBrace(s: string): (r: Read<Expr>)
    ensures r.Ok? ==> |r.rest| < |s|
    decreases |s|, 5
  {
    if At(s, '}') then Ok(Dict([]), s[1..])
    else
      var e := ReadExpr(s);
      if e.Fail? then Fail
      else if At(e.rest, '}') then Ok(Set([e.value]), e.rest[1..])
      else if ", " <= e.rest then
        var es := ReadSeq(e.rest[2..], ", ", '}'); if es.Fail? then Fail else Ok(Set([e.value] + es.value), es.rest)
      else
        var ps := ReadItems(s); if ps.Fail? then Fail else Ok(Dict(ps.value), ps.rest)
  }

  function ReadItems(s: string): (r: Read<seq<Item>>)
    ensures r.Ok? ==> |r.rest| < |s|
    decreases |s|, 4
  {
    var k := ReadExpr(s);
    if k.Fail? || !(": " <= k.rest) then Fail
    else
      var v := ReadExpr(k.rest[2..]);
      if v.Fail? then Fail
      else if At(v.rest, '}') then Ok([Item(k.value, v.value)], v.rest[1..])
      else if ", " <= v.rest then
        var ps := ReadItems(v.rest[2..]);
        if ps.Fail? then Fail else Ok([Item(k.value, v.value)] + ps.value, ps.rest)
      else Fail
  }

  /** An expression, or nothing if a colon or a bracket follows. */
  function ReadOption(s: string): (r: Read<Option<Expr>>)
    ensures r.Ok? ==> |r.rest| <= |s|
    decreases |s|, 4
  {
    if At(s, ':') || At(s, ']') then Ok(None, s)
    else var e := ReadExpr(s); if e.Fail? then Fail else Ok(Some(e.value), e.rest)
  }

  /** After an opening bracket of a subscript. */
  function ReadIndex(s: string): (r: Read<Index>)
    ensures r.Ok? ==> |r.rest| < |s|
    decreases |s|, 5
  {
    var l := ReadOption(s);
    if l.Fail? then Fail
    else if At(l.rest, ']') then if l.value.Some? then Ok(Index(l.value.value), l.rest[1..]) else Fail
    else if !At(l.rest, ':') then Fail
    else
      var u := ReadOption(l.rest[1..]);
      if u.Fail? then Fail
      else if At(u.rest, ']') then Ok(Slice(l.value, u.value, None), u.rest[1..])
      else if !At(u.rest, ':') then Fail
      else
        var t := ReadOption(u.rest[1..]);
        if t.Fail? || !At(t.rest, ']') then Fail
        else Ok(Slice(l.value, u.value, Some(if t.value.Some? then t.value.value else Name("None"))), t.rest[1..])
  }

  function ReadPiece(s: string): (r: Read<Piece>)
    ensures r.Ok? ==> |r.rest| < |s|
    decreases |s|, 4
  {
    if "**" <= s then var e := ReadExpr(s[2..]); if e.Fail? then Fail else Ok(Stars(e.value), e.rest)
    else if "*" <= s then var e := ReadExpr(s[1..]); if e.Fail? then Fail else Ok(Star(e.value), e.rest)
    else
      var e := ReadExpr(s);
      if e.Fail? then Fail
      else if At(e.rest, '=') && e.value.Name? then
        var v := ReadExpr(e.rest[1..]);
        if v.Fail? then Fail else Ok(Key(e.value.id, v.value), v.rest)
      else Ok(Pos(e.value), e.rest)
  }

  /** Arguments up to the closing parenthesis. */
  function ReadPieces(s: string, first: bool): (r: Read<seq<Piece>>)
    ensures r.Ok? ==> |r.rest| < |s|
    decreases |s|, 5
  {
    if At(s, ')') then Ok([], s[1..])
    else if !first && !(", " <= s) then Fail
    else
      var p := ReadPiece(if first then s else s[2..]);
      if p.Fail? then Fail
      else
        var ps := ReadPieces(p.rest, false);
        if ps.Fail? then Fail else Ok([p.value] + ps.value, ps.rest)
  }

  /** Positional arguments, then keywords, then at most one `*` and one `**`. */
  function Assemble(ps: seq<Piece>): Option<Arguments> {
    if ps == [] then Some(Arguments([], [], None, None))
    else
      var rest := Assemble(ps[1..]);
      if rest.None? then None
      else
        var a := rest.value;
        match ps[0]
        case Pos(e) => Some(a.(args := [e] + a.args))
        case Key(n, e) => if a.args == [] then Some(a.(keywords := [Keyword(n, e)] + a.keywords)) else None
        case Star(e) =>
          if a.args == [] && a.keywords == [] && a.starargs.None? then Some(a.(starargs := Some(e))) else None
        case Stars(e) =>
          if a == Arguments([], [], None, None) then Some(a.(kwargs := Some(e))) else None
  }
}
