/** What the smaller operations of manager and notifier do, stated outright. */
module Managing {
  import opened Options
  import opened Paths
  import opened Inotify
  import opened Reading
  import opened Agreement

  // ---- adding without recursion ---------------------------------------------------------------

  /** Without recursion every path is added on its own, whatever is below it. */
  lemma {:induction false} PathsAlone(s: State, paths: seq<string>, mask: nat, procFun: Option<nat>, autoAdd: bool,
                                      filter: string -> bool, ret: map<string, int>)
    ensures AddPaths(s, paths, mask, procFun, false, autoAdd, filter) == AddAll(s, paths, mask, procFun, autoAdd, filter, ret).0
    decreases |paths|
  {
    hide AddOne;
    if paths != [] {
      var p := paths[0];
      OneAlone(s, p, mask, procFun, autoAdd, filter);
      if filter(p) {
        PathsAlone(s, paths[1..], mask, procFun, autoAdd, filter, ret[p := -2]);
      } else {
        var (s1, wd) := AddOne(s, p, mask, procFun, autoAdd, filter);
        PathsAlone(s1, paths[1..], mask, procFun, autoAdd, filter, ret[p := wd]);
      }
    }
  }

  /** The dictionary then has this path only. */
  lemma OneAlone(s: State, p: string, mask: nat, procFun: Option<nat>, autoAdd: bool, filter: string -> bool)
    ensures var (t, r) := AddAll(s, WalkRec(s.k, p, false), mask, procFun, autoAdd, filter, map[]);
            if filter(p) then t == s && r == map[p := -2]
            else var (u, wd) := AddOne(s, p, mask, procFun, autoAdd, filter); t == u && r == map[p := wd]
  {
    hide AddOne;
    assert WalkRec(s.k, p, false) == [p] && [p][1..] == [];
  }

  // ---- new entries that are not followed ------------------------------------------------------

  /** What is no directory, comes where new directories are not asked for, or is excluded, adds no watch. */
  lemma NotFollowed(s: State, e: RawEvent)
    requires e.wd in s.m.wmd
    ensures var w := s.m.wmd[e.wd];
            var p, isDir := Join(w.path, e.name), e.mask / 0x4000_0000 % 2 == 1;
            && (!isDir || !w.autoAdd || w.filter(p) ==> Created(s, e) == s)
            && (e.cookie !in s.m.mvCookie && (!isDir || !w.autoAdd || w.filter(NormPath(p))) ==> MovedIn(s, e) == s)
  {
    hide AddAll, NormPath;
  }

  /** The event can be made up for an entry of a new directory: a file or a directory that no watch is on yet. */
  ghost predicate MadeUp(k: Kernel, wmd: map<int, WatchRec>, d: string, wd: int, name: string, e: RawEvent) {
    var p := Join(d, name);
    && e.wd == wd && e.cookie == 0 && e.name == name && !(exists w :: w in wmd && wmd[w].path == NormPath(p))
    && ((e.mask == 0x100 && IsFileAt(k, p)) || (e.mask == 0x4000_0100 && IsDirAt(k, p)))
  }

  lemma {:induction false} MadeUpEvents(k: Kernel, wmd: map<int, WatchRec>, d: string, wd: int, entries: seq<Entry>, e: RawEvent)
    ensures e in Simulated(k, wmd, d, wd, entries) <==>
            exists i :: 0 <= i < |entries| && MadeUp(k, wmd, d, wd, entries[i].name, e)
    decreases |entries|
  {
    hide MadeUp, SimulatedFor;
    if entries != [] {
      MadeUpEvent(k, wmd, d, wd, entries[0].name, e);
      MadeUpEvents(k, wmd, d, wd, entries[1..], e);
      assert forall i :: 1 <= i < |entries| ==> entries[i] == entries[1..][i - 1];
      if i :| 0 <= i < |entries[1..]| && MadeUp(k, wmd, d, wd, entries[1..][i].name, e) {
        assert entries[1..][i] == entries[i + 1];
      }
    }
  }

  lemma MadeUpEvent(k: Kernel, wmd: map<int, WatchRec>, d: string, wd: int, name: string, e: RawEvent)
    ensures e in SimulatedFor(k, wmd, d, wd, name) <==> MadeUp(k, wmd, d, wd, name, e)
  {
    hide NormPath, NodeAt, Join;
  }

  // ---- removing -------------------------------------------------------------------------------

  /** Removing a live descriptor takes it from kernel and map, and the kernel says so; nothing else changes. */
  lemma RmIs(s: State, wd: int, ino: nat)
    requires KernelOk(s.k) && ino in s.k.live && s.k.live[ino] == wd
    ensures var (t, ok) := RmOne(s, wd);
            && ok && t.m == s.m.(wmd := s.m.wmd - {wd}) && wd !in t.m.wmd
            && t.k == s.k.(live := t.k.live, queue := t.k.queue)
            && t.k.queue == s.k.queue + [RawEvent(wd, 0x8000, 0, "")]
            && (forall i :: i in t.k.live <==> i in s.k.live && i != ino)
            && forall i :: i in t.k.live ==> t.k.live[i] == s.k.live[i]
  {
    assert forall j :: j in s.k.live && s.k.live[j] == wd ==> j == ino;
  }

  /** Any other is refused, and nothing changes. */
  lemma RmRefused(s: State, wd: int)
    requires wd !in s.k.live.Values
    ensures RmOne(s, wd) == (s, false)
  {
  }

  // ---- batches --------------------------------------------------------------------------------

  /** Reading everything empties the kernel's queue into the notifier's. */
  lemma {:induction false} ReadAllIs(s: State, n: nat)
    requires |s.k.queue| <= n
    ensures ReadSome(s, n) == State(s.k.(queue := []), EnqueueAll(s.m, s.k.queue))
    decreases n
  {
    if s.k.queue != [] { ReadAllIs(ReadOne(s), n - 1); }
  }

  /** A batch of events is coalesced on its own: what was read before the end of the last batch counts no more, and with
      coalescing off nothing is dropped at all. */
  lemma BatchesAreApart(s: State, cookies: set<nat>, paths: set<string>, n: nat)
    requires |s.k.queue| <= n
    ensures var t := Next(Next(s, EndBatch(cookies, paths)), Read(n));
            && t.m.eventq == s.m.eventq + (if s.m.coalesce then FirstOccurrences(s.k.queue, {}) else s.k.queue)
            && t.k == s.k.(queue := [])
  {
    var m := Finish(s.m, cookies, paths);
    EnqueueAllIs(m, s.k.queue);
    ReadAllIs(s.(m := m), n);
    hide FirstOccurrences, EnqueueAll;
  }

  /** A move record is kept over the end of a batch exactly if it has not expired. */
  lemma ExpiredAreDropped(s: State, cookies: set<nat>, paths: set<string>)
    ensures var m := Next(s, EndBatch(cookies, paths)).m;
            && (forall c :: c in m.mvCookie <==> c in s.m.mvCookie && c !in cookies)
            && (forall c :: c in m.mvCookie ==> m.mvCookie[c] == s.m.mvCookie[c])
            && (forall p :: p in m.mv <==> p in s.m.mv && p !in paths) && (forall p :: p in m.mv ==> m.mv[p] == s.m.mv[p])
            && m.wmd == s.m.wmd && m.eventq == s.m.eventq && m.log == s.m.log
  {
  }

  /** Reading a whole batch with the coalescing switched as it is. */
  lemma ReadSwitched(s: State, m: Manager, n: nat)
    requires |s.k.queue| <= n
    ensures Next(s.(m := m), Read(n)).m.eventq ==
            m.eventq + if m.coalesce then FirstOccurrences(s.k.queue, m.eventset) else s.k.queue
  {
    EnqueueAllIs(m, s.k.queue);
    ReadAllIs(s.(m := m), n);
    hide FirstOccurrences, EnqueueAll, ReadSome;
  }

  /** Switching coalescing off and on again makes it start afresh, while switching it on twice does not. */
  lemma CoalescingAgain(s: State, n: nat)
    requires |s.k.queue| <= n
    ensures Next(Next(Next(s, SetCoalesce(false)), SetCoalesce(true)), Read(n)).m.eventq ==
            s.m.eventq + FirstOccurrences(s.k.queue, {})
    ensures Next(Next(s, SetCoalesce(true)), Read(n)).m.eventq == s.m.eventq + FirstOccurrences(s.k.queue, s.m.eventset)
    ensures Next(Next(s, SetCoalesce(false)), Read(n)).m.eventq == s.m.eventq + s.k.queue
  {
    ReadSwitched(s, s.m.(coalesce := false, eventset := {}), n);
    ReadSwitched(s, s.m.(coalesce := true, eventset := {}), n);
    ReadSwitched(s, s.m.(coalesce := true), n);
    hide FirstOccurrences, ReadSome;
  }
}
