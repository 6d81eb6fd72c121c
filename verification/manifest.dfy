/** The file that `find_dependencies` writes, read back as a tree. */
module Manifests {
  import opened Options
  import opened Dependencies

  datatype Tree = Tree(name: string, kids: seq<Tree>)

  /** A recipe at an indentation, what is below it, and the line it ends with. */
  function ReadTree(ls: seq<Line>, order: nat): (r: Option<(Tree, seq<Line>)>)
    ensures r.Some? ==> |r.value.1| < |ls|
    decreases |ls|, 0
  {
    if ls == [] || !ls[0].Entry? || ls[0].order != order then None
    else
      var (kids, rest) := ReadKids(ls[1..], order + 1);
      if rest != [] && rest[0] == Errors(order) && ls[0].alone == (kids == []) then Some((Tree(ls[0].name, kids), rest[1..]))
      else None
  }

  /** As many recipes as follow at an indentation. */
  function ReadKids(ls: seq<Line>, order: nat): (r: (seq<Tree>, seq<Line>))
    ensures |r.1| <= |ls|
    decreases |ls|, 1
  {
    var t := ReadTree(ls, order);
    if t.None? then ([], ls)
    else
      var (kids, rest) := ReadKids(t.value.1, order);
      ([t.value.0] + kids, rest)
  }

  function NamesOf(ts: seq<Tree>): (ns: seq<string>)
    ensures |ns| == |ts| && forall i :: 0 <= i < |ts| ==> ns[i] == ts[i].name
  {
    seq(|ts|, i requires 0 <= i < |ts| => ts[i].name)
  }

  /** Below every recipe are those it depends on that are not provided anyway, in order. */
  predicate Shows(g: Graph, t: Tree) {
    NamesOf(t.kids) == DependsOf(g, t.name) && forall i :: 0 <= i < |t.kids| ==> Shows(g, t.kids[i])
  }

  predicate AllShow(g: Graph, ts: seq<Tree>) { forall i :: 0 <= i < |ts| ==> Shows(g, ts[i]) }

  /** The lines of a recipe read as a tree that shows it. */
  lemma {:induction false} ReadsTree(g: Graph, rank: string -> nat, rn: string, order: nat, k: seq<Line>) returns (t: Tree)
    requires Ranked(g, rank) && order > 1
    ensures ReadTree(Unfolded(g, rank, rn, order) + k, order) == Some((t, k)) && t.name == rn && Shows(g, t)
    decreases rank(rn), 1, 0
  {
    hide Ranked;
    var ds, end := DependsOf(g, rn), [Errors(order)] + k;
    BelowBound(g, rank, rn);
    var kids := ReadsKids(g, rank, ds, rank(rn), order + 1, end);
    t := Tree(rn, kids);
    var head := Entry(order, rn, ds == []);
    UnfoldedLines(head, Branches(g, rank, ds, rank(rn), order + 1), Errors(order), k);
  }

  lemma UnfoldedLines(head: Line, inner: seq<Line>, last: Line, k: seq<Line>)
    ensures var s := [head] + inner + [last] + k;
            s != [] && s[0] == head && s[1..] == inner + ([last] + k) && ([last] + k)[0] == last && ([last] + k)[1..] == k
  {
  }

  lemma BelowBound(g: Graph, rank: string -> nat, rn: string)
    requires Ranked(g, rank)
    ensures forall d :: d in DependsOf(g, rn) ==> rank(d) < rank(rn)
  {
    forall d | d in DependsOf(g, rn) ensures rank(d) < rank(rn) { DependsOfIs(g, rn, d); }
  }

  lemma {:induction false} ReadsKids(g: Graph, rank: string -> nat, ds: seq<string>, bound: nat, order: nat, k: seq<Line>)
    returns (ts: seq<Tree>)
    requires Ranked(g, rank) && order > 1 && (forall d :: d in ds ==> rank(d) < bound)
    requires k == [] || k[0].Errors?
    ensures ReadKids(Branches(g, rank, ds, bound, order) + k, order) == (ts, k) && NamesOf(ts) == ds && AllShow(g, ts)
    decreases bound, 0, |ds|
  {
    hide Ranked, Unfolded, Shows;
    if ds == [] {
      ts := [];
      assert [] + k == k;
      hide *;
    } else {
      var first, others := Unfolded(g, rank, ds[0], order), Branches(g, rank, ds[1..], bound, order);
      assert forall d :: d in ds[1..] ==> d in ds;
      var t := ReadsTree(g, rank, ds[0], order, others + k);
      var us := ReadsKids(g, rank, ds[1..], bound, order, k);
      ts := [t] + us;
      BranchesAre(g, rank, ds, bound, order);
      Regrouped(first, others, k);
      OneMoreKid(first + (others + k), order, t, others + k, us, k);
      FirstShown(g, t, us, ds);
      hide *;
    }
  }

  lemma BranchesAre(g: Graph, rank: string -> nat, ds: seq<string>, bound: nat, order: nat)
    requires Ranked(g, rank) && ds != [] && rank(ds[0]) < bound
    ensures Branches(g, rank, ds, bound, order) == Unfolded(g, rank, ds[0], order) + Branches(g, rank, ds[1..], bound, order)
  {
  }

  lemma Regrouped(a: seq<Line>, b: seq<Line>, c: seq<Line>)
    ensures a + b + c == a + (b + c)
  {
  }

  lemma OneMoreKid(ls: seq<Line>, order: nat, t: Tree, ls': seq<Line>, ts: seq<Tree>, rest: seq<Line>)
    requires ReadTree(ls, order) == Some((t, ls')) && ReadKids(ls', order) == (ts, rest)
    ensures ReadKids(ls, order) == ([t] + ts, rest)
  {
  }

  lemma FirstShown(g: Graph, t: Tree, ts: seq<Tree>, ds: seq<string>)
    requires ds != [] && t.name == ds[0] && Shows(g, t) && NamesOf(ts) == ds[1..] && AllShow(g, ts)
    ensures NamesOf([t] + ts) == ds && AllShow(g, [t] + ts)
  {
    hide Shows;
    assert ds == [ds[0]] + ds[1..];
  }

  /** The whole file reads as the trees of what the recipe at the top depends on. */
  lemma FileIsRead(g: Graph, rank: string -> nat, root: string) returns (ts: seq<Tree>)
    requires Ranked(g, rank)
    ensures ReadKids(Unfolded(g, rank, root, 1), 2) == (ts, []) && NamesOf(ts) == DependsOf(g, root) && AllShow(g, ts)
  {
    BelowBound(g, rank, root);
    ts := ReadsKids(g, rank, DependsOf(g, root), rank(root), 2, []);
    var b := Branches(g, rank, DependsOf(g, root), rank(root), 2);
    assert Unfolded(g, rank, root, 1) == [] + b + [] == b + [];
  }
}
