/** What `add_watch` watches, said through the names in the tree. */
module WatchedTrees {
  import opened Options
  import opened Paths
  import opened PathMeaning
  import opened Inotify
  import opened Drain
  import opened AutoAdd

  // ---- the walk -------------------------------------------------------------------------------

  /** Following the names leads from a node to a directory. */
  predicate DirBelow(node: Node, rel: seq<string>) {
    Lookup(node, rel).Some? && Lookup(node, rel).value.Dir?
  }

  /** ... which is the path. */
  ghost predicate WalkedFrom(node: Node, p: string, x: string) {
    exists rel :: DirBelow(node, rel) && x == JoinAll(p, rel)
  }

  lemma DirBelowCons(node: Node, i: nat, rel: seq<string>)
    requires GoodNames(node) && node.Dir? && i < |node.entries|
    ensures DirBelow(node, [node.entries[i].name] + rel) <==> DirBelow(node.entries[i].node, rel)
    ensures forall p :: JoinAll(p, [node.entries[i].name] + rel) == JoinAll(Join(p, node.entries[i].name), rel)
  {
    ChildEntry(node.entries, i);
    assert ([node.entries[i].name] + rel)[1..] == rel;
  }

  lemma {:induction false} WalkedIs(node: Node, p: string, x: string)
    requires GoodNames(node)
    ensures x in Walk(node, p) <==> WalkedFrom(node, p, x)
    decreases node
  {
    if node.Dir? {
      WalkOf(node, p, x);
      if x != p && x in WalkEntries(node.entries, p) {
        var i := WalkedAt(node.entries, p, x);
        var n := node.entries[i];
        WalkedIs(n.node, Join(p, n.name), x);
        var rel :| DirBelow(n.node, rel) && x == JoinAll(Join(p, n.name), rel);
        DirBelowCons(node, i, rel);
      }
      hide Walk, WalkEntries;
      if rel :| DirBelow(node, rel) && x == JoinAll(p, rel) && rel != [] {
        var i := FirstBelow(node, rel);
        DirBelowCons(node, i, rel[1..]);
        WalkedIs(node.entries[i].node, Join(p, rel[0]), x);
        WalkedHolds(node.entries, p, i, x);
      }
    }
  }

  lemma WalkOf(node: Node, p: string, x: string)
    requires node.Dir?
    ensures x in Walk(node, p) <==> x == p || x in WalkEntries(node.entries, p)
    ensures DirBelow(node, []) && JoinAll(p, []) == p
  {
  }

  lemma FirstBelow(node: Node, rel: seq<string>) returns (i: nat)
    requires node.Dir? && rel != [] && Lookup(node, rel).Some?
    ensures i < |node.entries| && node.entries[i].name == rel[0] && rel == [node.entries[i].name] + rel[1..]
  {
    i := ChildIn(node.entries, rel[0]);
  }

  lemma {:induction false} WalkedAt(entries: seq<Entry>, p: string, x: string) returns (i: nat)
    requires x in WalkEntries(entries, p)
    ensures i < |entries| && x in Walk(entries[i].node, Join(p, entries[i].name))
    decreases |entries|
  {
    if x in Walk(entries[0].node, Join(p, entries[0].name)) {
      i := 0;
    } else {
      var j := WalkedAt(entries[1..], p, x);
      i := j + 1;
    }
  }

  lemma {:induction false} WalkedHolds(entries: seq<Entry>, p: string, i: nat, x: string)
    requires i < |entries| && x in Walk(entries[i].node, Join(p, entries[i].name))
    ensures x in WalkEntries(entries, p)
    decreases |entries|
  {
    if i > 0 { WalkedHolds(entries[1..], p, i - 1, x); }
  }

  // ---- where the paths of a walk lead ---------------------------------------------------------

  lemma {:induction false} JoinAllLeads(cwd: seq<string>, p: string, rel: seq<string>)
    requires Proper(rel)
    ensures Leads(cwd, JoinAll(p, rel)) == Leads(cwd, p) + rel
    decreases |rel|
  {
    if rel == [] {
      assert Leads(cwd, p) + [] == Leads(cwd, p);
    } else {
      JoinLeads(cwd, p, rel[0]);
      JoinAllLeads(cwd, Join(p, rel[0]), rel[1..]);
      assert (Leads(cwd, p) + [rel[0]]) + rel[1..] == Leads(cwd, p) + rel;
    }
  }

  lemma {:induction false} BelowIsProper(node: Node, rel: seq<string>)
    requires GoodNames(node) && Lookup(node, rel).Some?
    ensures Proper(rel)
    decreases |rel|
  {
    if rel != [] {
      var i := ChildIn(node.entries, rel[0]);
      BelowIsProper(node.entries[i].node, rel[1..]);
    }
  }

  lemma {:induction false} LookupAppend(node: Node, a: seq<string>, b: seq<string>)
    requires Lookup(node, a).Some?
    ensures Lookup(node, a + b) == Lookup(Lookup(node, a).value, b)
    decreases |a|
  {
    if a == [] {
      assert a + b == b;
    } else {
      assert (a + b)[1..] == a[1..] + b && (a + b)[0] == a[0];
      LookupAppend(Child(node.entries, a[0]).value, a[1..], b);
    }
  }

  /** A path of a walk leads the kernel to the directory it was made for, also in its normalised form. */
  lemma WalkedLeads(k: Kernel, top: string, rel: seq<string>)
    requires GoodNames(k.root) && NodeAt(k, top).Some? && Lookup(NodeAt(k, top).value, rel).Some?
    ensures var x := JoinAll(top, rel);
            && NodeAt(k, x) == Lookup(NodeAt(k, top).value, rel) == NodeAt(k, NormPath(x))
            && Resolve(k.cwd, x) == Resolve(k.cwd, top) + rel == Resolve(k.cwd, NormPath(x))
  {
    var x := JoinAll(top, rel);
    ResolveLeads(k.cwd, top);
    ResolveLeads(k.cwd, x);
    ResolveLeads(k.cwd, NormPath(x));
    GoodBelow(k.root, Resolve(k.cwd, top));
    BelowIsProper(NodeAt(k, top).value, rel);
    JoinAllLeads(k.cwd, top, rel);
    NormLeads(k.cwd, x);
    LookupAppend(k.root, Resolve(k.cwd, top), rel);
  }

  predicate NoTwice(ps: seq<string>) { forall i, j :: 0 <= i < j < |ps| ==> ps[i] != ps[j] }

  lemma NoTwiceAppend(a: seq<string>, b: seq<string>)
    requires NoTwice(a) && NoTwice(b) && forall x :: x in a ==> x !in b
    ensures NoTwice(a + b)
  {
    var s := a + b;
    forall i, j | 0 <= i < j < |s| ensures s[i] != s[j] {
      if i < |a| <= j { assert s[i] in a && s[j] == b[j - |a|] && s[j] in b; }
    }
  }

  /** A walk yields no path twice. */
  lemma {:induction false} WalkNoTwice(node: Node, p: string)
    requires GoodNames(node)
    ensures NoTwice(Walk(node, p))
    decreases node, 1
  {
    if node.Dir? {
      assert node.entries[0..] == node.entries;
      WalkEntriesNoTwice(node, p, 0);
      forall x | x in WalkEntries(node.entries, p) ensures x != p {
        var i := WalkedAt(node.entries, p, x);
        var rel := WalkedRel(node, p, i, x);
        JoinAllLeads([], p, rel);
      }
      NoTwiceAppend([p], WalkEntries(node.entries, p));
    }
  }

  /** The names that lead to a path of the walk below an entry. */
  lemma WalkedRel(node: Node, p: string, i: nat, x: string) returns (rel: seq<string>)
    requires GoodNames(node) && node.Dir? && i < |node.entries| && x in Walk(node.entries[i].node, Join(p, node.entries[i].name))
    ensures rel != [] && rel[0] == node.entries[i].name && x == JoinAll(p, rel) && Proper(rel)
  {
    var n := node.entries[i];
    WalkedIs(n.node, Join(p, n.name), x);
    var r :| DirBelow(n.node, r) && x == JoinAll(Join(p, n.name), r);
    DirBelowCons(node, i, r);
    rel := [n.name] + r;
    BelowIsProper(node, rel);
  }

  lemma {:induction false} WalkEntriesNoTwice(node: Node, p: string, i: nat)
    requires GoodNames(node) && node.Dir? && i <= |node.entries|
    ensures NoTwice(WalkEntries(node.entries[i..], p))
    decreases node, 0, |node.entries| - i
  {
    if i < |node.entries| {
      var n := node.entries[i];
      EntriesOf(node.entries, p, i);
      EntriesApart(node, p, i);
      WalkNoTwice(n.node, Join(p, n.name));
      WalkEntriesNoTwice(node, p, i + 1);
      hide NoTwice, Walk, WalkEntries;
      NoTwiceAppend(Walk(n.node, Join(p, n.name)), WalkEntries(node.entries[i + 1..], p));
    }
  }

  lemma EntriesOf(entries: seq<Entry>, p: string, i: nat)
    requires i < |entries|
    ensures WalkEntries(entries[i..], p) == Walk(entries[i].node, Join(p, entries[i].name)) + WalkEntries(entries[i + 1..], p)
  {
    assert entries[i..][1..] == entries[i + 1..];
  }

  /** The walks below different entries have no path in common. */
  lemma EntriesApart(node: Node, p: string, i: nat)
    requires GoodNames(node) && node.Dir? && i < |node.entries|
    ensures forall x :: x in Walk(node.entries[i].node, Join(p, node.entries[i].name)) ==>
                          x !in WalkEntries(node.entries[i + 1..], p)
  {
    hide Walk, WalkEntries;
    var rest := node.entries[i + 1..];
    forall x | x in Walk(node.entries[i].node, Join(p, node.entries[i].name)) ensures x !in WalkEntries(rest, p) {
      if x in WalkEntries(rest, p) {
        var j := WalkedAt(rest, p, x);
        SameEntry(node, p, i, i + 1 + j, x);
      }
    }
  }

  /** A path is of one entry only. */
  lemma SameEntry(node: Node, p: string, i: nat, j: nat, x: string)
    requires GoodNames(node) && node.Dir? && i < |node.entries| && j < |node.entries|
    requires x in Walk(node.entries[i].node, Join(p, node.entries[i].name))
    requires x in Walk(node.entries[j].node, Join(p, node.entries[j].name))
    ensures i == j
  {
    var a := WalkedRel(node, p, i, x);
    var b := WalkedRel(node, p, j, x);
    JoinAllLeads([], p, a);
    JoinAllLeads([], p, b);
    SameRel(Leads([], p), a, b);
  }

  lemma SameRel(at: seq<string>, a: seq<string>, b: seq<string>)
    requires at + a == at + b
    ensures a == b
  {
    assert (at + a)[|at|..] == a && (at + b)[|at|..] == b;
  }

  // ---- what is watched ------------------------------------------------------------------------

  /** The mask that is asked for, with IN_CREATE (0x100) if new directories are to be watched. */
  function AskedMask(mask: nat, autoAdd: bool): nat {
    if autoAdd && mask / 0x100 % 2 == 0 then mask + 0x100 else mask
  }

  /** The path has its own watch, on the inode it leads to, with what was asked for. */
  ghost predicate WatchedAs(t: State, x: string, wd: int, mask: nat, procFun: Option<nat>, autoAdd: bool,
                            filter: string -> bool) {
    && NodeAt(t.k, NormPath(x)).Some? && wd in t.m.wmd && wd > 0
    && var n := NodeAt(t.k, NormPath(x)).value;
       && n.ino in t.k.live && t.k.live[n.ino] == wd
       && t.m.wmd[wd] == WatchRec(wd, NormPath(x), AskedMask(mask, autoAdd), procFun, autoAdd, filter, IsDirAt(t.k, NormPath(x)))
  }

  /** Paths that are there, and of which those let through by the filter lead to different inodes. */
  ghost predicate Watchable(k: Kernel, paths: seq<string>, filter: string -> bool) {
    && NoTwice(paths) && (forall i :: 0 <= i < |paths| ==> NodeAt(k, NormPath(paths[i])).Some?)
    && forall i, j :: 0 <= i < j < |paths| && !filter(paths[i]) && !filter(paths[j]) ==>
         NodeAt(k, NormPath(paths[i])).value.ino != NodeAt(k, NormPath(paths[j])).value.ino
  }

  /** From `s` to `t` the tree stayed, watches of the kernel were only added, and so were those of the manager but for
      the descriptors of the paths. */
  ghost predicate OnlyThese(s: State, t: State, paths: seq<string>, filter: string -> bool, ret: map<string, int>) {
    && t.k.root == s.k.root && t.k.cwd == s.k.cwd && SoundKernel(t.k)
    && (forall i :: i in s.k.live ==> i in t.k.live && t.k.live[i] == s.k.live[i])
    && (forall wd :: wd in s.m.wmd ==> wd in t.m.wmd)
    && forall wd :: wd in t.m.wmd ==>
         (wd in s.m.wmd && t.m.wmd[wd] == s.m.wmd[wd]) ||
         exists x :: x in paths && !filter(x) && x in ret && ret[x] == wd
  }

  lemma AddOneIs(s: State, x: string, mask: nat, procFun: Option<nat>, autoAdd: bool, filter: string -> bool)
    requires SoundKernel(s.k) && NodeAt(s.k, NormPath(x)).Some?
    ensures var (t, wd) := AddOne(s, x, mask, procFun, autoAdd, filter);
            && WatchedAs(t, x, wd, mask, procFun, autoAdd, filter) && SoundKernel(t.k)
            && t.k.root == s.k.root && t.k.cwd == s.k.cwd
            && (forall i :: i in s.k.live ==> i in t.k.live && t.k.live[i] == s.k.live[i])
            && t.m.wmd == s.m.wmd[wd := t.m.wmd[wd]]
  {
    hide NormPath, Resolve, Lookup;
  }

  lemma SameTree(k: Kernel, t: Kernel)
    requires t.root == k.root && t.cwd == k.cwd
    ensures forall p :: NodeAt(t, p) == NodeAt(k, p) && IsDirAt(t, p) == IsDirAt(k, p)
  {
  }

  lemma RestWatchable(k: Kernel, u: Kernel, paths: seq<string>, filter: string -> bool)
    requires Watchable(k, paths, filter) && paths != [] && u.root == k.root && u.cwd == k.cwd
    ensures Watchable(u, paths[1..], filter)
    ensures forall y :: y in paths[1..] ==> y in paths && y != paths[0]
    ensures forall y :: y in paths ==> y == paths[0] || y in paths[1..]
  {
    SameTree(k, u);
    hide NodeAt, NormPath;
    assert paths == [paths[0]] + paths[1..];
  }

  /** A watch that was added is not touched by the others. */
  lemma FirstStays(u: State, t: State, paths: seq<string>, wd: int, mask: nat, procFun: Option<nat>, autoAdd: bool,
                   filter: string -> bool, ret: map<string, int>)
    requires paths != [] && Watchable(u.k, paths, filter) && !filter(paths[0])
    requires WatchedAs(u, paths[0], wd, mask, procFun, autoAdd, filter) && OnlyThese(u, t, paths[1..], filter, ret)
    requires forall y :: y in paths[1..] && !filter(y) ==> y in ret && WatchedAs(t, y, ret[y], mask, procFun, autoAdd, filter)
    ensures WatchedAs(t, paths[0], wd, mask, procFun, autoAdd, filter)
  {
    SameTree(u.k, t.k);
    hide NodeAt, NormPath, IsDirAt;
    var x := paths[0];
    forall y | y in paths[1..] && !filter(y) ensures ret[y] != wd {
      var j :| 0 <= j < |paths[1..]| && paths[1..][j] == y;
      assert paths[j + 1] == y;
      assert WatchedAs(t, y, ret[y], mask, procFun, autoAdd, filter);
    }
  }

  /** What one addition and then the others leave as it was. */
  lemma OnlyMore(s: State, u: State, t: State, paths: seq<string>, wd: int, filter: string -> bool, ret: map<string, int>)
    requires paths != [] && !filter(paths[0]) && paths[0] in ret && ret[paths[0]] == wd
    requires u.k.root == s.k.root && u.k.cwd == s.k.cwd && wd in u.m.wmd && u.m.wmd == s.m.wmd[wd := u.m.wmd[wd]]
    requires forall i :: i in s.k.live ==> i in u.k.live && u.k.live[i] == s.k.live[i]
    requires OnlyThese(u, t, paths[1..], filter, ret)
    ensures OnlyThese(s, t, paths, filter, ret)
  {
    hide SoundKernel;
    forall v | v in t.m.wmd && !(v in s.m.wmd && t.m.wmd[v] == s.m.wmd[v])
      ensures exists x :: x in paths && !filter(x) && x in ret && ret[x] == v
    {
      if v == wd {
        assert paths[0] in paths;
      } else {
        assert !(v in u.m.wmd && t.m.wmd[v] == u.m.wmd[v]);
        var x :| x in paths[1..] && !filter(x) && x in ret && ret[x] == v;
        assert x in paths;
      }
    }
  }

  lemma OnlyNone(s: State, t: State, paths: seq<string>, filter: string -> bool, ret: map<string, int>)
    requires paths != [] && OnlyThese(s, t, paths[1..], filter, ret)
    ensures OnlyThese(s, t, paths, filter, ret)
  {
    hide SoundKernel;
    assert forall x :: x in paths[1..] ==> x in paths;
  }

  /** Adding paths: each is in the result, with -2 if the filter excludes it and else with the descriptor of its own
      watch. */
  lemma {:induction false} AddAllIs(s: State, paths: seq<string>, mask: nat, procFun: Option<nat>, autoAdd: bool,
                                    filter: string -> bool, ret: map<string, int>)
    requires SoundKernel(s.k) && Watchable(s.k, paths, filter)
    ensures var (t, r) := AddAll(s, paths, mask, procFun, autoAdd, filter, ret);
            && OnlyThese(s, t, paths, filter, r)
            && (forall x :: x in r <==> x in ret || x in paths) && (forall x :: x in ret && x !in paths ==> r[x] == ret[x])
            && forall x :: x in paths ==>
                 if filter(x) then r[x] == -2 else WatchedAs(t, x, r[x], mask, procFun, autoAdd, filter)
    decreases |paths|
  {
    if paths != [] {
      var x, rest := paths[0], paths[1..];
      hide NodeAt, NormPath, SoundKernel, AddOne;
      if filter(x) {
        RestWatchable(s.k, s.k, paths, filter);
        hide WatchedAs, Watchable;
        AddAllIs(s, rest, mask, procFun, autoAdd, filter, ret[x := -2]);
        var (t, r) := AddAll(s, paths, mask, procFun, autoAdd, filter, ret);
        OnlyNone(s, t, paths, filter, r);
        hide OnlyThese;
      } else {
        WatchableAt(s.k, paths, filter);
        AddOneIs(s, x, mask, procFun, autoAdd, filter);
        var (u, wd) := AddOne(s, x, mask, procFun, autoAdd, filter);
        RestWatchable(s.k, u.k, paths, filter);
        WatchableSame(s.k, u.k, paths, filter);
        hide WatchedAs, Watchable;
        AddAllIs(u, rest, mask, procFun, autoAdd, filter, ret[x := wd]);
        var (t, r) := AddAll(s, paths, mask, procFun, autoAdd, filter, ret);
        FirstStays(u, t, paths, wd, mask, procFun, autoAdd, filter, r);
        OnlyMore(s, u, t, paths, wd, filter, r);
        hide OnlyThese;
      }
    }
  }

  lemma WatchableAt(k: Kernel, paths: seq<string>, filter: string -> bool)
    requires Watchable(k, paths, filter) && paths != []
    ensures NodeAt(k, NormPath(paths[0])).Some?
  {
  }

  lemma WatchableSame(k: Kernel, u: Kernel, paths: seq<string>, filter: string -> bool)
    requires Watchable(k, paths, filter) && u.root == k.root && u.cwd == k.cwd
    ensures Watchable(u, paths, filter)
  {
    SameTree(k, u);
    hide NodeAt, NormPath;
  }

  // ---- main results ---------------------------------------------------------------------------

  lemma WalkWatchable(k: Kernel, top: string, filter: string -> bool)
    requires SoundKernel(k) && IsDirAt(k, top)
    ensures Watchable(k, Walk(NodeAt(k, top).value, top), filter)
  {
    var node := NodeAt(k, top).value;
    var paths := Walk(node, top);
    GoodBelow(k.root, Resolve(k.cwd, top));
    WalkNoTwice(node, top);
    hide NormPath, Resolve, Lookup, Walk;
    forall i | 0 <= i < |paths| ensures NodeAt(k, NormPath(paths[i])).Some? {
      var rel := WalkedHere(k, top, paths[i]);
    }
    forall i, j | 0 <= i < j < |paths|
      ensures NodeAt(k, NormPath(paths[i])).value.ino != NodeAt(k, NormPath(paths[j])).value.ino
    {
      var a := WalkedHere(k, top, paths[i]);
      var b := WalkedHere(k, top, paths[j]);
      DifferentPlaces(Resolve(k.cwd, top), a, b);
    }
  }

  lemma WalkedHere(k: Kernel, top: string, x: string) returns (rel: seq<string>)
    requires SoundKernel(k) && IsDirAt(k, top) && x in Walk(NodeAt(k, top).value, top)
    ensures x == JoinAll(top, rel) && Resolve(k.cwd, NormPath(x)) == Resolve(k.cwd, top) + rel
    ensures IsDirAt(k, NormPath(x)) && Lookup(k.root, Resolve(k.cwd, top) + rel) == NodeAt(k, NormPath(x))
  {
    var node := NodeAt(k, top).value;
    GoodBelow(k.root, Resolve(k.cwd, top));
    WalkedIs(node, top, x);
    rel :| DirBelow(node, rel) && x == JoinAll(top, rel);
    WalkedLeads(k, top, rel);
    NormIsNot(x);
  }

  lemma NormIsNot(x: string)
    ensures NormPath(x) != ""
  {
  }

  lemma DifferentPlaces(at: seq<string>, a: seq<string>, b: seq<string>)
    ensures at + a == at + b ==> a == b
  {
    assert (at + a)[|at|..] == a && (at + b)[|at|..] == b;
  }

  /** `add_watch(top, rec=True)`: the result has exactly the directories reached from `top` by the names of entries, or
      `top` itself if it is no directory, each once. Those the filter lets through have a watch of their own with the
      mask, handler and filter that were asked for, the others the number -2; every other watch stays. */
  lemma RecursiveAddIs(s: State, top: string, mask: nat, procFun: Option<nat>, autoAdd: bool, filter: string -> bool)
    requires SoundKernel(s.k) && NodeAt(s.k, top).Some?
    ensures var paths := WalkRec(s.k, top, true);
            var (t, r) := AddAll(s, paths, mask, procFun, autoAdd, filter, map[]);
            && NoTwice(paths)
            && (forall x :: x in r <==> if IsDirAt(s.k, top) then WalkedFrom(NodeAt(s.k, top).value, top, x) else x == top)
            && (forall x :: x in r ==> if filter(x) then r[x] == -2 else WatchedAs(t, x, r[x], mask, procFun, autoAdd, filter))
            && t.k.root == s.k.root && (forall wd :: wd in s.m.wmd ==> wd in t.m.wmd)
            && forall wd :: wd in t.m.wmd ==>
                 (wd in s.m.wmd && t.m.wmd[wd] == s.m.wmd[wd]) || exists x :: x in r && !filter(x) && r[x] == wd
  {
    var paths := WalkRec(s.k, top, true);
    var (t, r) := AddAll(s, paths, mask, procFun, autoAdd, filter, map[]);
    NormNode(s.k, top);
    if IsDirAt(s.k, top) {
      WalkWatchable(s.k, top, filter);
      GoodBelow(s.k.root, Resolve(s.k.cwd, top));
      hide Walk, NodeAt, NormPath, AddAll, WatchedAs;
      AddAllIs(s, paths, mask, procFun, autoAdd, filter, map[]);
      forall x ensures x in r <==> WalkedFrom(NodeAt(s.k, top).value, top, x) { WalkedIs(NodeAt(s.k, top).value, top, x); }
    } else {
      hide NodeAt, NormPath, AddAll, WatchedAs;
      AddAllIs(s, paths, mask, procFun, autoAdd, filter, map[]);
    }
  }

  /** A path that is not there gets no watch. */
  lemma MissingAddIs(s: State, top: string, mask: nat, procFun: Option<nat>, autoAdd: bool, filter: string -> bool)
    requires SoundKernel(s.k) && NodeAt(s.k, top).None?
    ensures var (t, r) := AddAll(s, WalkRec(s.k, top, true), mask, procFun, autoAdd, filter, map[]);
            t == s && r == map[top := if filter(top) then -2 else -1]
  {
    NormNode(s.k, top);
    hide NormPath, Resolve;
    assert WalkRec(s.k, top, true) == [top] && [top][1..] == [];
    var u := AddOne(s, top, mask, procFun, autoAdd, filter).0;
    assert AddAll(s, [top], mask, procFun, autoAdd, filter, map[]) ==
           if filter(top) then AddAll(s, [], mask, procFun, autoAdd, filter, map[top := -2])
           else AddAll(u, [], mask, procFun, autoAdd, filter, map[top := -1]);
  }

  /** A directory moved in from an unwatched place: exactly the directories reached from it by the names of entries, but
      for those the filter excludes, are watched with the mask, handler and filter of the directory it came to. */
  lemma MovedInTreeIsWatched(s: State, e: RawEvent)
    requires SoundKernel(s.k) && e.wd in s.m.wmd && e.cookie !in s.m.mvCookie && IsDirAt(s.k, EventPath(s, e))
    requires HasIsDir(e.mask) && s.m.wmd[e.wd].autoAdd && !s.m.wmd[e.wd].filter(EventPath(s, e))
    ensures var w, top, t := s.m.wmd[e.wd], EventPath(s, e), MovedIn(s, e); var node := NodeAt(s.k, top).value;
            && (forall x :: WalkedFrom(node, top, x) && !w.filter(x) ==>
                  exists wd :: WatchedAs(t, x, wd, w.mask, w.procFun, true, w.filter))
            && (forall wd :: wd in s.m.wmd ==> wd in t.m.wmd)
            && forall wd :: wd in t.m.wmd ==>
                 || (wd in s.m.wmd && t.m.wmd[wd] == s.m.wmd[wd])
                 || exists x :: WalkedFrom(node, top, x) && !w.filter(x) && WatchedAs(t, x, wd, w.mask, w.procFun, true, w.filter)
  {
    var w, top := s.m.wmd[e.wd], EventPath(s, e);
    RecursiveAddIs(s, top, w.mask, w.procFun, true, w.filter);
    var (t, r) := AddAll(s, WalkRec(s.k, top, true), w.mask, w.procFun, true, w.filter, map[]);
    assert MovedIn(s, e) == t;
    hide *;
    TreeIsWatched(s, t, r, NodeAt(s.k, top).value, top, w.mask, w.procFun, w.filter);
  }

  lemma TreeIsWatched(s: State, t: State, r: map<string, int>, node: Node, top: string, mask: nat, procFun: Option<nat>,
                      filter: string -> bool)
    requires forall x :: x in r <==> WalkedFrom(node, top, x)
    requires forall x :: x in r && !filter(x) ==> WatchedAs(t, x, r[x], mask, procFun, true, filter)
    requires forall wd :: wd in t.m.wmd ==>
               (wd in s.m.wmd && t.m.wmd[wd] == s.m.wmd[wd]) || exists x :: x in r && !filter(x) && r[x] == wd
    ensures forall x :: WalkedFrom(node, top, x) && !filter(x) ==> exists wd :: WatchedAs(t, x, wd, mask, procFun, true, filter)
    ensures forall wd :: wd in t.m.wmd ==>
              || (wd in s.m.wmd && t.m.wmd[wd] == s.m.wmd[wd])
              || exists x :: WalkedFrom(node, top, x) && !filter(x) && WatchedAs(t, x, wd, mask, procFun, true, filter)
  {
    hide WalkedFrom, WatchedAs;
    forall x | WalkedFrom(node, top, x) && !filter(x) ensures exists wd :: WatchedAs(t, x, wd, mask, procFun, true, filter) {
      assert x in r && WatchedAs(t, x, r[x], mask, procFun, true, filter);
    }
    forall wd | wd in t.m.wmd && !(wd in s.m.wmd && t.m.wmd[wd] == s.m.wmd[wd])
      ensures exists x :: WalkedFrom(node, top, x) && !filter(x) && WatchedAs(t, x, wd, mask, procFun, true, filter)
    {
      var x :| x in r && !filter(x) && r[x] == wd;
      assert WalkedFrom(node, top, x) && WatchedAs(t, x, wd, mask, procFun, true, filter);
    }
  }

  /** A path and its normal form name the same node. */
  lemma NormNode(k: Kernel, p: string)
    ensures NodeAt(k, NormPath(p)) == NodeAt(k, p)
  {
    ResolveLeads(k.cwd, p);
    ResolveLeads(k.cwd, NormPath(p));
    NormLeads(k.cwd, p);
  }
}
