/** Draining the event queue against a fixed, finite, symlink-free file tree. */
module Drain {
  import opened Options
  import opened Paths
  import opened Inotify

  // ---- normalised absolute paths --------------------------------------------------------------

  function Comps(p: string): seq<string> { Collapse(SplitSep(p), true, []) }

  predicate NormalPath(p: string) { Proper(Comps(p)) && p == Render(Comps(p)) }

  lemma NormalRender(cwd: seq<string>, cs: seq<string>)
    requires Proper(cs)
    ensures Comps(Render(cs)) == cs && NormalPath(Render(cs))
    ensures Resolve(cwd, Render(cs)) == cs && NormPath(Render(cs)) == Render(cs)
  {
    NormRender(cs);
    if cs == [] {
      assert SplitSep("/") == ["", ""] by { assert SplitSep("/"[1..]) == [""]; }
      assert Collapse(["", ""], true, []) == [] by {
        assert ["", ""][1..] == [""];
        assert Collapse([""], true, []) == [] by { assert [""][1..] == []; }
      }
    } else {
      SplitSlashed(cs);
      CollapseProper(cs, true, []);
      assert ([""] + cs)[1..] == cs;
      assert Collapse([""] + cs, true, []) == [] + cs == cs;
    }
  }

  lemma NormalJoin(cwd: seq<string>, p: string, n: string)
    requires NormalPath(p) && ProperName(n)
    ensures NormalPath(Join(p, n)) && Comps(Join(p, n)) == Comps(p) + [n]
    ensures NormPath(Join(p, n)) == Join(p, n)
    ensures Resolve(cwd, p) == Comps(p) && Resolve(cwd, Join(p, n)) == Comps(p) + [n]
    ensures NormPath(p) == p
  {
    JoinRender(Comps(p), n);
    NormalRender(cwd, Comps(p) + [n]);
    NormalRender(cwd, Comps(p));
  }

  // ---- the tree -------------------------------------------------------------------------------

  /** Directory entries have proper, distinct names. */
  ghost predicate GoodNames(node: Node)
    decreases node
  {
    node.Dir? ==>
      && (forall i :: 0 <= i < |node.entries| ==> ProperName(node.entries[i].name) && GoodNames(node.entries[i].node))
      && (forall i, j :: 0 <= i < j < |node.entries| ==> node.entries[i].name != node.entries[j].name)
  }

  /** No hard links to directories: a directory's inode number occurs at one place only. */
  ghost predicate UniqueDirs(root: Node) {
    forall a, b :: Lookup(root, a).Some? && Lookup(root, b).Some? && a != b && Lookup(root, a).value.Dir? ==>
      Lookup(root, a).value.ino != Lookup(root, b).value.ino
  }

  function ChildOf(node: Option<Node>, name: string): Option<Node> {
    if node.Some? && node.value.Dir? then Child(node.value.entries, name) else None
  }

  lemma {:induction false} LookupSnoc(node: Node, cs: seq<string>, n: string)
    ensures Lookup(node, cs + [n]) == ChildOf(Lookup(node, cs), n)
    decreases |cs|
  {
    if cs == [] {
      assert (cs + [n])[1..] == [];
    } else if node.Dir? {
      assert (cs + [n])[1..] == cs[1..] + [n];
      match Child(node.entries, cs[0])
      case None =>
      case Some(c) => LookupSnoc(c, cs[1..], n);
    }
  }

  lemma {:induction false} ChildEntry(entries: seq<Entry>, i: nat)
    requires i < |entries|
    requires forall i, j :: 0 <= i < j < |entries| ==> entries[i].name != entries[j].name
    ensures Child(entries, entries[i].name) == Some(entries[i].node)
  {
    if i > 0 {
      ChildEntry(entries[1..], i - 1);
      assert entries[0].name != entries[i].name;
    }
  }

  lemma {:induction false} ChildIn(entries: seq<Entry>, n: string) returns (i: nat)
    requires Child(entries, n).Some?
    ensures i < |entries| && entries[i] == Entry(n, Child(entries, n).value)
  {
    if entries[0].name == n {
      i := 0;
    } else {
      var j := ChildIn(entries[1..], n);
      i := j + 1;
    }
  }

  lemma {:induction false} GoodBelow(node: Node, cs: seq<string>)
    requires GoodNames(node) && Lookup(node, cs).Some?
    ensures GoodNames(Lookup(node, cs).value)
    decreases |cs|
  {
    if cs != [] {
      var i := ChildIn(node.entries, cs[0]);
      GoodBelow(node.entries[i].node, cs[1..]);
    }
  }

  // ---- what keeps a drain finite --------------------------------------------------------------

  predicate NamedEvent(e: RawEvent) {
    KindOf(e.mask) in {Create, MovedFrom, MovedTo} ==> ProperName(e.name)
  }

  ghost predicate SoundKernel(k: Kernel) {
    && GoodNames(k.root) && UniqueDirs(k.root)
    && k.nextWd > 0
    && (forall i :: i in k.live ==> 0 < k.live[i] < k.nextWd)
    && (forall i, j :: i in k.live && j in k.live && i != j ==> k.live[i] != k.live[j])
  }

  /** The facts about kernel and manager that a drain starts from and keeps: descriptors are handed
      out once, stored paths are normalised and absolute, and events carry the names they should. */
  ghost predicate Sound(s: State) {
    && SoundKernel(s.k)
    && (forall wd :: wd in s.m.wmd ==> wd < s.k.nextWd && NormalPath(s.m.wmd[wd].path))
    && (forall i :: 0 <= i < |s.m.eventq| ==> s.m.eventq[i].wd < s.k.nextWd && NamedEvent(s.m.eventq[i]))
    && (forall p :: p in s.m.mv ==> NormalPath(s.m.mv[p]) && Comps(s.m.mv[p]) != [])
  }

  /** Events that can change the path a descriptor stands for; handlers never make any. */
  predicate Disturbing(e: RawEvent) { KindOf(e.mask) in {MoveSelf, Ignored} }

  function Disturbances(q: seq<RawEvent>): nat {
    if q == [] then 0 else (if Disturbing(q[0]) then 1 else 0) + Disturbances(q[1..])
  }

  /** `wd` is stored with a path of the inode that the kernel watches under `wd`. */
  predicate UpToDate(k: Kernel, wmd: map<int, WatchRec>, wd: int) {
    wd in wmd &&
    var n := NodeAt(k, wmd[wd].path);
    n.Some? && n.value.ino in k.live && k.live[n.value.ino] == wd
  }

  function Stale(k: Kernel, wmd: map<int, WatchRec>): set<int> {
    set i | i in k.live && !UpToDate(k, wmd, k.live[i]) :: k.live[i]
  }

  function SizeOf(node: Node): nat
    decreases node, 0
  {
    if node.Dir? then SizeOfEntries(node.entries) else 0
  }

  /** Number of nodes strictly below a directory with these entries. */
  function SizeOfEntries(entries: seq<Entry>): nat
    decreases entries, 1
  {
    if entries == [] then 0 else 1 + SizeOf(entries[0].node) + SizeOfEntries(entries[1..])
  }

  /** One for the event, plus the nodes it can still bring in. */
  function Weight(k: Kernel, wmd: map<int, WatchRec>, e: RawEvent): nat {
    if KindOf(e.mask) == Create && HasIsDir(e.mask) && e.wd in wmd then
      match ChildOf(NodeAt(k, wmd[e.wd].path), e.name)
      case Some(n) => 1 + SizeOf(n)
      case None => 1
    else 1
  }

  function Weights(k: Kernel, wmd: map<int, WatchRec>, q: seq<RawEvent>): nat {
    if q == [] then 0 else Weight(k, wmd, q[0]) + Weights(k, wmd, q[1..])
  }

  lemma {:induction false} WeightsAppend(k: Kernel, wmd: map<int, WatchRec>, a: seq<RawEvent>, b: seq<RawEvent>)
    ensures Weights(k, wmd, a + b) == Weights(k, wmd, a) + Weights(k, wmd, b)
  {
    if a == [] {
      assert a + b == b;
    } else {
      assert (a + b)[1..] == a[1..] + b;
      WeightsAppend(k, wmd, a[1..], b);
    }
  }

  lemma {:induction false} DisturbancesAppend(a: seq<RawEvent>, b: seq<RawEvent>)
    requires forall i :: 0 <= i < |b| ==> !Disturbing(b[i])
    ensures Disturbances(a + b) == Disturbances(a)
  {
    if a == [] {
      assert a + b == b;
      if b != [] {
        assert [] + b[1..] == b[1..];
        DisturbancesAppend([], b[1..]);
      }
    } else {
      assert (a + b)[1..] == a[1..] + b;
      DisturbancesAppend(a[1..], b);
    }
  }

  /** Two snapshots between which only watches were added: nothing gets stale, and either something
      stale was repaired or no queued event became heavier. */
  ghost predicate Refreshed(s: State, t: State) {
    && t.k.root == s.k.root && t.k.cwd == s.k.cwd && s.k.nextWd <= t.k.nextWd
    && t.m == s.m.(wmd := t.m.wmd)
    && Stale(t.k, t.m.wmd) <= Stale(s.k, s.m.wmd)
    && (Stale(t.k, t.m.wmd) == Stale(s.k, s.m.wmd) ==>
          forall e: RawEvent :: e.wd < s.k.nextWd ==> Weight(t.k, t.m.wmd, e) == Weight(s.k, s.m.wmd, e))
  }

  lemma SameInode(s: State, a: string, b: string)
    requires UniqueDirs(s.k.root)
    requires NodeAt(s.k, a).Some? && NodeAt(s.k, b).Some? && NodeAt(s.k, a).value.ino == NodeAt(s.k, b).value.ino
    ensures forall n :: ChildOf(NodeAt(s.k, a), n) == ChildOf(NodeAt(s.k, b), n)
  {
    if Resolve(s.k.cwd, a) != Resolve(s.k.cwd, b) {
      assert !NodeAt(s.k, a).value.Dir? && !NodeAt(s.k, b).value.Dir?;
    }
  }

  lemma EnterStale(k: Kernel, wmd: map<int, WatchRec>, t: Kernel, ino: nat, w: WatchRec)
    requires t.root == k.root && t.cwd == k.cwd && t.live == k.live[ino := w.wd]
    requires forall i :: i in k.live && i != ino ==> k.live[i] != w.wd
    requires ino in k.live ==> k.live[ino] == w.wd
    requires NodeAt(k, w.path).Some? && NodeAt(k, w.path).value.ino == ino
    ensures Stale(t, wmd[w.wd := w]) == Stale(k, wmd) - {w.wd}
  {
    hide Lookup, Resolve;
    var wmd' := wmd[w.wd := w];
    assert t.live[ino] == w.wd && UpToDate(t, wmd', w.wd);
    forall i | i in k.live && k.live[i] != w.wd
      ensures i in t.live && t.live[i] == k.live[i]
      ensures UpToDate(t, wmd', k.live[i]) <==> UpToDate(k, wmd, k.live[i])
    {
    }
  }

  /** After a successful add the watched inode's descriptor is up to date and all others are as before. */
  lemma AddOneStale(s: State, path: string, mask: nat, procFun: Option<nat>, autoAdd: bool, filter: string -> bool)
    requires SoundKernel(s.k) && NormalPath(path) && NodeAt(s.k, path).Some?
    ensures var (t, wd) := AddOne(s, path, mask, procFun, autoAdd, filter);
            Stale(t.k, t.m.wmd) == Stale(s.k, s.m.wmd) - {wd} &&
            0 < wd < t.k.nextWd && wd in t.m.wmd && t.m.wmd[wd].path == path
  {
    NormalRender(s.k.cwd, Comps(path));
    hide NormPath, Comps, Render, Resolve, Lookup, AddMask, Stale;
    var (t, wd) := AddOne(s, path, mask, procFun, autoAdd, filter);
    var ino := NodeAt(s.k, path).value.ino;
    assert t.k.live == s.k.live[ino := wd];
    EnterStale(s.k, s.m.wmd, t.k, ino, t.m.wmd[wd]);
  }

  lemma AddOneSound(s: State, path: string, mask: nat, procFun: Option<nat>, autoAdd: bool, filter: string -> bool)
    requires Sound(s) && NormalPath(path)
    ensures var t := AddOne(s, path, mask, procFun, autoAdd, filter).0;
            Sound(t) && t.k.root == s.k.root && t.k.cwd == s.k.cwd && s.k.nextWd <= t.k.nextWd &&
            t.m == s.m.(wmd := t.m.wmd)
  {
    NormalRender(s.k.cwd, Comps(path));
    hide NormPath, Comps, Render, Resolve, AddMask, Lookup;
  }

  lemma WeightSame(k: Kernel, wmd: map<int, WatchRec>, k': Kernel, wmd': map<int, WatchRec>, e: RawEvent)
    requires e.wd in wmd <==> e.wd in wmd'
    requires e.wd in wmd ==>
               ChildOf(NodeAt(k, wmd[e.wd].path), e.name) == ChildOf(NodeAt(k', wmd'[e.wd].path), e.name)
    ensures Weight(k, wmd, e) == Weight(k', wmd', e)
  {
  }

  lemma AddOneWeight(s: State, path: string, mask: nat, procFun: Option<nat>, autoAdd: bool, filter: string -> bool,
                     e: RawEvent)
    requires SoundKernel(s.k) && NormalPath(path) && NodeAt(s.k, path).Some? && e.wd < s.k.nextWd
    requires AddOne(s, path, mask, procFun, autoAdd, filter).1 !in Stale(s.k, s.m.wmd)
    ensures var t := AddOne(s, path, mask, procFun, autoAdd, filter).0;
            Weight(t.k, t.m.wmd, e) == Weight(s.k, s.m.wmd, e)
  {
    NormalRender(s.k.cwd, Comps(path));
    var (t, wd) := AddOne(s, path, mask, procFun, autoAdd, filter);
    var ino := NodeAt(s.k, path).value.ino;
    if e.wd == wd {
      assert ino in s.k.live && s.k.live[ino] == wd;
      assert UpToDate(s.k, s.m.wmd, wd);
      SameInode(s, s.m.wmd[wd].path, path);
      assert t.m.wmd[wd].path == path;
    }
    WeightSame(s.k, s.m.wmd, t.k, t.m.wmd, e);
  }

  lemma AddOneRefreshes(s: State, path: string, mask: nat, procFun: Option<nat>, autoAdd: bool, filter: string -> bool)
    requires Sound(s) && NormalPath(path)
    ensures var t := AddOne(s, path, mask, procFun, autoAdd, filter).0; Sound(t) && Refreshed(s, t)
  {
    NormalRender(s.k.cwd, Comps(path));
    AddOneSound(s, path, mask, procFun, autoAdd, filter);
    var (t, wd) := AddOne(s, path, mask, procFun, autoAdd, filter);
    if NodeAt(s.k, path).Some? {
      AddOneStale(s, path, mask, procFun, autoAdd, filter);
      forall e: RawEvent | Stale(t.k, t.m.wmd) == Stale(s.k, s.m.wmd) && e.wd < s.k.nextWd
        ensures Weight(t.k, t.m.wmd, e) == Weight(s.k, s.m.wmd, e)
      {
        AddOneWeight(s, path, mask, procFun, autoAdd, filter, e);
      }
    }
  }

  lemma RefreshedTransitive(s: State, t: State, u: State)
    requires Refreshed(s, t) && Refreshed(t, u)
    ensures Refreshed(s, u)
  {
  }

  lemma {:induction false} AddAllRefreshes(s: State, paths: seq<string>, mask: nat, procFun: Option<nat>, autoAdd: bool,
                                           filter: string -> bool, ret: map<string, int>)
    requires Sound(s) && forall i :: 0 <= i < |paths| ==> NormalPath(paths[i])
    ensures var t := AddAll(s, paths, mask, procFun, autoAdd, filter, ret).0; Sound(t) && Refreshed(s, t)
    decreases |paths|
  {
    if paths != [] {
      if filter(paths[0]) {
        AddAllRefreshes(s, paths[1..], mask, procFun, autoAdd, filter, ret[paths[0] := -2]);
      } else {
        AddOneRefreshes(s, paths[0], mask, procFun, autoAdd, filter);
        var (s1, wd) := AddOne(s, paths[0], mask, procFun, autoAdd, filter);
        AddAllRefreshes(s1, paths[1..], mask, procFun, autoAdd, filter, ret[paths[0] := wd]);
        var u := AddAll(s1, paths[1..], mask, procFun, autoAdd, filter, ret[paths[0] := wd]).0;
        RefreshedTransitive(s, s1, u);
      }
    }
  }

  lemma {:induction false} WalkNormal(node: Node, p: string)
    requires GoodNames(node) && NormalPath(p)
    ensures forall i :: 0 <= i < |Walk(node, p)| ==> NormalPath(Walk(node, p)[i])
    decreases node, 0
  {
    if node.Dir? { WalkEntriesNormal(node.entries, p); }
  }

  lemma {:induction false} WalkEntriesNormal(entries: seq<Entry>, p: string)
    requires NormalPath(p)
    requires forall i :: 0 <= i < |entries| ==> ProperName(entries[i].name) && GoodNames(entries[i].node)
    ensures forall i :: 0 <= i < |WalkEntries(entries, p)| ==> NormalPath(WalkEntries(entries, p)[i])
    decreases entries, 1
  {
    if entries != [] {
      assert ProperName(entries[0].name);
      NormalJoin([], p, entries[0].name);
      WalkNormal(entries[0].node, Join(p, entries[0].name));
      WalkEntriesNormal(entries[1..], p);
    }
  }

  lemma SimulatedForWeight(k: Kernel, wmd: map<int, WatchRec>, d: string, wd: int, node: Node, i: nat)
    requires wd in wmd && wmd[wd].path == d && NodeAt(k, d) == Some(node) && node.Dir?
    requires GoodNames(node) && i < |node.entries|
    ensures var q := SimulatedFor(k, wmd, d, wd, node.entries[i].name);
            && Weights(k, wmd, q) <= 1 + SizeOf(node.entries[i].node)
            && (forall j :: 0 <= j < |q| ==> q[j].wd == wd && NamedEvent(q[j]) && !Disturbing(q[j]))
  {
    ChildEntry(node.entries, i);
    assert ProperName(node.entries[i].name);
    var q := SimulatedFor(k, wmd, d, wd, node.entries[i].name);
    if q != [] {
      WeightsOne(k, wmd, q[0]);
      assert q == [q[0]];
    }
  }

  lemma WeightsOne(k: Kernel, wmd: map<int, WatchRec>, e: RawEvent)
    ensures Weights(k, wmd, [e]) == Weight(k, wmd, e)
  {
    assert [e][1..] == [];
  }

  /** The made-up events of a directory weigh no more than what lies below it. */
  lemma {:induction false} SimulatedWeight(k: Kernel, wmd: map<int, WatchRec>, d: string, wd: int, node: Node, i: nat)
    requires wd in wmd && wmd[wd].path == d && NodeAt(k, d) == Some(node) && node.Dir?
    requires GoodNames(node) && i <= |node.entries|
    ensures var q := Simulated(k, wmd, d, wd, node.entries[i..]);
            && Weights(k, wmd, q) <= SizeOfEntries(node.entries[i..])
            && (forall j :: 0 <= j < |q| ==> q[j].wd == wd && NamedEvent(q[j]) && !Disturbing(q[j]))
    decreases |node.entries| - i
  {
    var rest := node.entries[i..];
    if i < |node.entries| {
      assert rest[1..] == node.entries[i + 1..] && rest[0] == node.entries[i];
      SimulatedWeight(k, wmd, d, wd, node, i + 1);
      SimulatedForWeight(k, wmd, d, wd, node, i);
      WeightsAppend(k, wmd, SimulatedFor(k, wmd, d, wd, rest[0].name), Simulated(k, wmd, d, wd, rest[1..]));
    }
  }

  lemma {:induction false} WeightsRefreshed(s: State, t: State, q: seq<RawEvent>)
    requires Refreshed(s, t) && Stale(t.k, t.m.wmd) == Stale(s.k, s.m.wmd)
    requires forall i :: 0 <= i < |q| ==> q[i].wd < s.k.nextWd
    ensures Weights(t.k, t.m.wmd, q) == Weights(s.k, s.m.wmd, q)
  {
    if q != [] { WeightsRefreshed(s, t, q[1..]); }
  }

  // ---- one event keeps the facts and makes progress -------------------------------------------

  /** From `s`, handling `e` led to `t`, and the lexicographic measure went down by it. */
  ghost predicate Progress(s: State, e: RawEvent, t: State) {
    if Disturbing(e) then Disturbances(t.m.eventq) <= Disturbances(s.m.eventq)
    else
      && Disturbances(t.m.eventq) == Disturbances(s.m.eventq)
      && Stale(t.k, t.m.wmd) <= Stale(s.k, s.m.wmd)
      && (Stale(t.k, t.m.wmd) == Stale(s.k, s.m.wmd) ==>
            Weights(t.k, t.m.wmd, t.m.eventq) < Weight(s.k, s.m.wmd, e) + Weights(s.k, s.m.wmd, s.m.eventq))
  }

  ghost predicate Handleable(s: State, e: RawEvent) {
    Sound(s) && e.wd < s.k.nextWd && NamedEvent(e) && e.wd in s.m.wmd
  }

  /** What `process_IN_CREATE` does for a directory that is to be watched. */
  lemma CreatedIs(s: State, e: RawEvent)
    requires e.wd in s.m.wmd
    ensures var w := s.m.wmd[e.wd]; var d := Join(w.path, e.name);
            if HasIsDir(e.mask) && w.autoAdd && !w.filter(d) then
              var (t, wd) := AddOne(s, d, w.mask, w.procFun, w.autoAdd, w.filter);
              Created(s, e) ==
              if wd > 0 && IsDirAt(t.k, d) then
                t.(m := t.m.(eventq := t.m.eventq + Simulated(t.k, t.m.wmd, d, wd, NodeAt(t.k, d).value.entries)))
              else t
            else Created(s, e) == s
  {
    var w := s.m.wmd[e.wd];
    var d := Join(w.path, e.name);
    var (t, wd) := AddOne(s, d, w.mask, w.procFun, w.autoAdd, w.filter);
    assert [d][1..] == [];
    assert AddAll(t, [], w.mask, w.procFun, w.autoAdd, w.filter, map[d := wd]) == (t, map[d := wd]);
    assert !w.filter(d) ==> AddAll(s, [d], w.mask, w.procFun, w.autoAdd, w.filter, map[]) == (t, map[d := wd]);
  }

  /** Queueing the made-up events of the new directory `d` uses up less than the weight of its own event. */
  lemma SimulatedProgress(s: State, d: string, wd: int, node: Node)
    requires Sound(s) && wd in s.m.wmd && s.m.wmd[wd].path == d && wd < s.k.nextWd
    requires NodeAt(s.k, d) == Some(node) && node.Dir? && GoodNames(node)
    ensures var q := Simulated(s.k, s.m.wmd, d, wd, node.entries);
            var t := s.(m := s.m.(eventq := s.m.eventq + q));
            && Sound(t) && Disturbances(t.m.eventq) == Disturbances(s.m.eventq)
            && Weights(s.k, s.m.wmd, t.m.eventq) <= Weights(s.k, s.m.wmd, s.m.eventq) + SizeOf(node)
  {
    var q := Simulated(s.k, s.m.wmd, d, wd, node.entries);
    assert node.entries[0..] == node.entries;
    SimulatedWeight(s.k, s.m.wmd, d, wd, node, 0);
    WeightsAppend(s.k, s.m.wmd, s.m.eventq, q);
    DisturbancesAppend(s.m.eventq, q);
  }

  lemma CreatedProgress(s: State, e: RawEvent)
    requires Handleable(s, e) && KindOf(e.mask) == Create
    ensures Sound(Created(s, e)) && Progress(s, e, Created(s, e))
  {
    CreatedIs(s, e);
    var w := s.m.wmd[e.wd];
    var d := Join(w.path, e.name);
    if HasIsDir(e.mask) && w.autoAdd && !w.filter(d) {
      NormalJoin(s.k.cwd, w.path, e.name);
      LookupSnoc(s.k.root, Comps(w.path), e.name);
      var (t, wd) := AddOne(s, d, w.mask, w.procFun, w.autoAdd, w.filter);
      AddOneRefreshes(s, d, w.mask, w.procFun, w.autoAdd, w.filter);
      if Stale(t.k, t.m.wmd) == Stale(s.k, s.m.wmd) {
        WeightsRefreshed(s, t, s.m.eventq);
      }
      if wd > 0 && IsDirAt(t.k, d) {
        AddOneStale(s, d, w.mask, w.procFun, w.autoAdd, w.filter);
        GoodBelow(s.k.root, Comps(d));
        SimulatedProgress(t, d, wd, NodeAt(t.k, d).value);
      }
    }
  }

  lemma MovedInWatched(s: State, e: RawEvent)
    requires Handleable(s, e) && KindOf(e.mask) == MovedTo && e.cookie !in s.m.mvCookie && HasIsDir(e.mask)
    requires var w := s.m.wmd[e.wd]; w.autoAdd && !w.filter(EventPath(s, e))
    ensures var t := MovedIn(s, e); Sound(t) && Refreshed(s, t) && t.m.eventq == s.m.eventq
  {
    var w := s.m.wmd[e.wd];
    NormalJoin(s.k.cwd, w.path, e.name);
    var dst := EventPath(s, e);
    if IsDirAt(s.k, dst) {
      GoodBelow(s.k.root, Comps(dst));
      WalkNormal(NodeAt(s.k, dst).value, dst);
    }
    AddAllRefreshes(s, WalkRec(s.k, dst, true), w.mask, w.procFun, true, w.filter, map[]);
  }

  lemma MovedInRecorded(s: State, e: RawEvent)
    requires Handleable(s, e) && KindOf(e.mask) == MovedTo && e.cookie in s.m.mvCookie
    ensures var t := MovedIn(s, e); Sound(t) && t.m.eventq == s.m.eventq && t.k == s.k && t.m.wmd == s.m.wmd
  {
    NormalJoin(s.k.cwd, s.m.wmd[e.wd].path, e.name);
  }

  lemma MovedInSound(s: State, e: RawEvent)
    requires Handleable(s, e) && KindOf(e.mask) == MovedTo
    ensures Sound(MovedIn(s, e))
    ensures MovedIn(s, e).m.eventq == s.m.eventq
    ensures Refreshed(s, MovedIn(s, e)) || (MovedIn(s, e).k == s.k && MovedIn(s, e).m.wmd == s.m.wmd)
  {
    hide Sound, Refreshed;
    var w := s.m.wmd[e.wd];
    if e.cookie in s.m.mvCookie {
      MovedInRecorded(s, e);
    } else if HasIsDir(e.mask) && w.autoAdd && !w.filter(EventPath(s, e)) {
      MovedInWatched(s, e);
    }
  }

  lemma MovedInProgress(s: State, e: RawEvent)
    requires Handleable(s, e) && KindOf(e.mask) == MovedTo
    ensures Sound(MovedIn(s, e)) && Progress(s, e, MovedIn(s, e))
  {
    MovedInSound(s, e);
    var t := MovedIn(s, e);
    if Refreshed(s, t) && Stale(t.k, t.m.wmd) == Stale(s.k, s.m.wmd) {
      WeightsRefreshed(s, t, s.m.eventq);
    }
  }

  lemma SlashedOne(n: string)
    ensures Slashed([n]) == "/" + n
  {
    assert [n][1..] == [];
  }

  lemma UnknownNormal(p: string)
    requires NormalPath(p)
    ensures NormalPath(p + UNKNOWN)
  {
    var cs := Comps(p);
    if cs == [] {
      SlashedOne(UNKNOWN);
      NormalRender([], [UNKNOWN]);
    } else {
      var k := |cs| - 1;
      var last := cs[k] + UNKNOWN;
      assert ProperName(cs[k]);
      assert last[|cs[k]|] == '-' && |last| > 2;
      assert cs == cs[..k] + [cs[k]];
      SlashedAppend(cs[..k], [cs[k]]);
      SlashedAppend(cs[..k], [last]);
      SlashedOne(cs[k]);
      SlashedOne(last);
      var ds := cs[..k] + [last];
      assert p + UNKNOWN == Render(ds) by {
        assert Slashed(cs[..k]) + ("/" + (cs[k] + UNKNOWN)) == (Slashed(cs[..k]) + ("/" + cs[k])) + UNKNOWN;
      }
      NormalRender([], ds);
    }
  }

  lemma NoDoubleSep(p: string)
    requires NormalPath(p)
    ensures !("//" <= p)
  {
    var cs := Comps(p);
    if cs != [] {
      assert ProperName(cs[0]);
      assert p[1] == cs[0][0] && cs[0][0] in cs[0];
    }
  }

  lemma ReprefixNormal(p: string, src: string, dst: string)
    requires NormalPath(p) && NormalPath(src) && NormalPath(dst) && Comps(dst) != []
    ensures NormalPath(Reprefix(p, src, dst))
  {
    var a, b, c := Comps(src), Comps(dst), Comps(p);
    NoDoubleSep(p);
    assert "/" + "/" == "//";
    if src + "/" <= p {
      StartsWithIsStrictlyUnder(a, c);
      ReprefixRender(a, b, c);
      NormalRender([], b + c[|a|..]);
    }
  }

  lemma RenamedSound(s: State, e: RawEvent)
    requires Handleable(s, e)
    ensures Sound(s.(m := s.m.(wmd := Renamed(s.m.wmd, e.wd, s.m.mv))))
  {
    var src := s.m.wmd[e.wd].path;
    if src !in s.m.mv { UnknownNormal(src); }
    var moved := s.m.wmd[e.wd := s.m.wmd[e.wd].(path := MovedSelfPath(s.m.mv, src))];
    var r := Renamed(s.m.wmd, e.wd, s.m.mv);
    forall w | w in r
      ensures w < s.k.nextWd && NormalPath(r[w].path)
    {
      if src in s.m.mv { ReprefixNormal(moved[w].path, src, s.m.mv[src]); }
    }
  }

  /** Handlers that touch neither watches, kernel nor queue. */
  lemma QuietProgress(s: State, e: RawEvent, t: State)
    requires t.k == s.k && t.m.wmd == s.m.wmd && t.m.eventq == s.m.eventq
    ensures Progress(s, e, t)
  {
  }

  lemma LogKeeps(s: State, e: RawEvent, t: State, u: State)
    requires Sound(t) && Progress(s, e, t)
    requires u.k == t.k && u.m == t.m.(log := u.m.log)
    ensures Sound(u) && Progress(s, e, u)
  {
  }

  lemma IgnoredProgress(s: State, e: RawEvent)
    requires Handleable(s, e) && KindOf(e.mask) == Ignored
    ensures Sound(Dispatch(s, e)) && Progress(s, e, Dispatch(s, e))
  {
    hide Default;
  }

  lemma DispatchProgress(s: State, e: RawEvent)
    requires Handleable(s, e)
    ensures Sound(Dispatch(s, e)) && Progress(s, e, Dispatch(s, e))
  {
    hide Created, MovedIn, Default, Renamed;
    match KindOf(e.mask)
    case Create =>
      CreatedProgress(s, e);
      LogKeeps(s, e, Created(s, e), Dispatch(s, e));
    case MovedFrom => QuietProgress(s, e, Dispatch(s, e));
    case MovedTo =>
      MovedInProgress(s, e);
      LogKeeps(s, e, MovedIn(s, e), Dispatch(s, e));
    case MoveSelf =>
      RenamedSound(s, e);
      var t := s.(m := s.m.(wmd := Renamed(s.m.wmd, e.wd, s.m.mv)));
      LogKeeps(s, e, t, Dispatch(s, e));
    case Ignored => IgnoredProgress(s, e);
    case Overflow => QuietProgress(s, e, Dispatch(s, e));
    case Plain => QuietProgress(s, e, Dispatch(s, e));
    case Nameless => QuietProgress(s, e, Dispatch(s, e));
  }

  lemma HandleProgress(s: State, e: RawEvent)
    requires Sound(s) && e.wd < s.k.nextWd && NamedEvent(e)
    ensures Sound(Handle(s, e)) && Progress(s, e, Handle(s, e))
  {
    QuietProgress(s, e, s);
    if !s.m.ignore {
      if e.wd in s.m.wmd {
        DispatchProgress(s, e);
        assert Handle(s, e) == Dispatch(s, e);
      } else if HasOverflow(e.mask) {
        LogKeeps(s, e, s, Deliver(s, OverflowDelivery(None, e.mask)));
        QuietProgress(s, e, s.(m := s.m.(raised := true)));
      }
    }
  }

  lemma StepProgress(s: State)
    requires Sound(s) && s.m.eventq != []
    ensures Sound(Step(s))
    ensures Disturbances(Step(s).m.eventq) <= Disturbances(s.m.eventq)
    ensures Disturbances(Step(s).m.eventq) == Disturbances(s.m.eventq) ==>
              |Stale(Step(s).k, Step(s).m.wmd)| <= |Stale(s.k, s.m.wmd)|
    ensures Disturbances(Step(s).m.eventq) == Disturbances(s.m.eventq) &&
            |Stale(Step(s).k, Step(s).m.wmd)| == |Stale(s.k, s.m.wmd)| ==>
              Weights(Step(s).k, Step(s).m.wmd, Step(s).m.eventq) < Weights(s.k, s.m.wmd, s.m.eventq)
  {
    var e := s.m.eventq[0];
    var popped := s.(m := s.m.(eventq := s.m.eventq[1..]));
    HandleProgress(popped, e);
    if !Disturbing(e) {
      SubsetSize(Stale(Step(s).k, Step(s).m.wmd), Stale(s.k, s.m.wmd));
    }
  }

  lemma SubsetSize(a: set<int>, b: set<int>)
    requires a <= b
    ensures |a| <= |b| && (|a| == |b| ==> a == b)
  {
    assert b == a + (b - a);
    assert |b| == |a| + |b - a|;
  }

  /** `process_events`: take events off the queue until none is left or the dispatcher raised. */
  ghost function Drained(s: State): (r: State)
    requires Sound(s)
    ensures Sound(r) && (r.m.eventq == [] || r.m.raised)
    decreases Disturbances(s.m.eventq), |Stale(s.k, s.m.wmd)|, Weights(s.k, s.m.wmd, s.m.eventq)
  {
    if s.m.eventq == [] || s.m.raised then s
    else
      StepProgress(s);
      Drained(Step(s))
  }
}
