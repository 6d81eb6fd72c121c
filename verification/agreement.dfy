/** Agreement between the manager's table of watches and the kernel's, over every interleaving. */
module Agreement {
  import opened Options
  import opened Paths
  import opened Inotify
  import opened Printing
  import opened Reading
  import opened Drain

  // ---- steps ----------------------------------------------------------------------------------

  /** What the kernel, the file system, the user and the notifier can do next. */
  datatype Action =
    | ChangeTree(root: Node)
    | Occur(e: RawEvent)
    | InodeGone(ino: nat)
    | AddWatch(paths: seq<string>, mask: nat, procFun: Option<nat>, rec: bool, autoAdd: bool, filter: string -> bool)
    | RmWatch(wd: int)
    | Read(n: nat)
    | Process
    | EndBatch(cookies: set<nat>, paths': set<string>)
    | SetCoalesce(on: bool)
    | SetIgnore(on: bool)

  function LiveWds(k: Kernel): set<int> {
    set i | i in k.live :: k.live[i]
  }

  predicate IsIgnored(e: RawEvent) { KindOf(e.mask) == Ignored }

  /** The kernel forgets the watch of an inode and says so. */
  function Drop(k: Kernel, ino: nat): Kernel
    requires ino in k.live
  {
    k.(live := k.live - {ino}, queue := k.queue + [RawEvent(k.live[ino], IN_IGNORED, 0, "")])
  }

  /** `rm_watch` of one descriptor; the result is what it reports. */
  ghost function RmOne(s: State, wd: int): (State, bool) {
    if i :| i in s.k.live && s.k.live[i] == wd then (State(Drop(s.k, i), s.m.(wmd := s.m.wmd - {wd})), true)
    else (s, false)
  }

  /** `add_watch` for several paths. */
  function AddPaths(s: State, paths: seq<string>, mask: nat, procFun: Option<nat>, rec: bool, autoAdd: bool,
                    filter: string -> bool): State
    decreases |paths|
  {
    if paths == [] then s
    else
      var s1 := AddAll(s, WalkRec(s.k, paths[0], rec), mask, procFun, autoAdd, filter, map[]).0;
      AddPaths(s1, paths[1..], mask, procFun, rec, autoAdd, filter)
  }

  /** Reading the first event of the kernel's queue. */
  function ReadOne(s: State): State
    requires s.k.queue != []
  {
    State(s.k.(queue := s.k.queue[1..]), Enqueue(s.m, s.k.queue[0]))
  }

  function ReadSome(s: State, n: nat): State
    decreases n
  {
    if n == 0 || s.k.queue == [] then s else ReadSome(ReadOne(s), n - 1)
  }

  /** The end of `process_events`: expired move records go, and the next batch starts afresh. */
  function Finish(m: Manager, cookies: set<nat>, paths: set<string>): Manager {
    m.(mvCookie := m.mvCookie - cookies, mv := m.mv - paths, eventset := if m.coalesce then {} else m.eventset)
  }

  ghost function Next(s: State, a: Action): State {
    match a
    case ChangeTree(root) => s.(k := s.k.(root := root))
    case Occur(e) =>
      if e.wd in LiveWds(s.k) && !IsIgnored(e) then s.(k := s.k.(queue := s.k.queue + [e])) else s
    case InodeGone(ino) => if ino in s.k.live then s.(k := Drop(s.k, ino)) else s
    case AddWatch(paths, mask, procFun, rec, autoAdd, filter) => AddPaths(s, paths, mask, procFun, rec, autoAdd, filter)
    case RmWatch(wd) => RmOne(s, wd).0
    case Read(n) => ReadSome(s, n)
    case Process => if s.m.eventq != [] then Step(s) else s
    case EndBatch(cookies, paths) => s.(m := Finish(s.m, cookies, paths))
    case SetCoalesce(on) => s.(m := s.m.(coalesce := on, eventset := if on then s.m.eventset else {}))
    case SetIgnore(on) => s.(m := s.m.(ignore := on))
  }

  // ---- the invariant --------------------------------------------------------------------------

  ghost predicate KernelOk(k: Kernel) {
    && k.nextWd > 0
    && (forall i :: i in k.live ==> 0 < k.live[i] < k.nextWd)
    && (forall i, j :: i in k.live && j in k.live && i != j ==> k.live[i] != k.live[j])
  }

  /** Events name descriptors already handed out; IN_IGNORED comes for dead ones only, and last. */
  ghost predicate StreamOk(live: set<int>, next: int, q: seq<RawEvent>) {
    && (forall i :: 0 <= i < |q| ==> q[i].wd < next && (IsIgnored(q[i]) ==> q[i].wd !in live))
    && (forall i, j :: 0 <= i < j < |q| && IsIgnored(q[i]) ==> q[j].wd != q[i].wd)
  }

  /** What was seen in this batch: no more events can come for a descriptor seen ignored. */
  ghost predicate SeenOk(k: Kernel, seen: set<string>) {
    forall x: RawEvent :: Printed(x) in seen && IsIgnored(x) ==>
      x.wd < k.nextWd && x.wd !in LiveWds(k) && forall i :: 0 <= i < |k.queue| ==> k.queue[i].wd != x.wd
  }

  /** Events not handled yet, oldest first. */
  function Stream(s: State): seq<RawEvent> { s.m.eventq + s.k.queue }

  ghost predicate InFlight(q: seq<RawEvent>, wd: int) {
    exists i :: 0 <= i < |q| && q[i].wd == wd && IsIgnored(q[i])
  }

  /** Every entry of the map is live or about to be ignored, and every live descriptor is in the map. */
  ghost predicate MapOk(live: set<int>, next: int, wmd: map<int, WatchRec>, q: seq<RawEvent>) {
    && live <= wmd.Keys
    && (forall wd :: wd in wmd ==> wd < next && wmd[wd].wd == wd && (wd in live || InFlight(q, wd)))
  }

  /** The invariant; `past` holds the events handled so far. */
  ghost predicate Agree(s: State, past: seq<RawEvent>) {
    && KernelOk(s.k)
    && StreamOk(LiveWds(s.k), s.k.nextWd, past + Stream(s))
    && SeenOk(s.k, s.m.eventset)
    && MapOk(LiveWds(s.k), s.k.nextWd, s.m.wmd, Stream(s))
  }

  // ---- adding watches -------------------------------------------------------------------------

  lemma LiveAfterAdd(k: Kernel, p: string)
    requires KernelOk(k) && NodeAt(k, p).Some?
    ensures var (t, wd) := KernelAdd(k, p);
            && KernelOk(t) && LiveWds(t) == LiveWds(k) + {wd} && t.queue == k.queue && 0 < wd < t.nextWd
            && if wd in LiveWds(k) then t.nextWd == k.nextWd else wd == k.nextWd && t.nextWd == k.nextWd + 1
  {
    var (t, wd) := KernelAdd(k, p);
    var ino := NodeAt(k, p).value.ino;
    assert t.live[ino] == wd;
    assert forall i :: i in k.live ==> i in t.live && t.live[i] == k.live[i];
    assert ino in k.live ==> wd in LiveWds(k);
    assert ino !in k.live ==> wd !in LiveWds(k);
  }

  /** A descriptor that is new, or live already, can be entered in the map. */
  lemma EnterAgrees(past: seq<RawEvent>, s: State, k: Kernel, w: WatchRec)
    requires Agree(s, past) && KernelOk(k) && LiveWds(k) == LiveWds(s.k) + {w.wd} && k.queue == s.k.queue && w.wd < k.nextWd
    requires if w.wd in LiveWds(s.k) then k.nextWd == s.k.nextWd else w.wd == s.k.nextWd && k.nextWd == s.k.nextWd + 1
    ensures Agree(State(k, s.m.(wmd := s.m.wmd[w.wd := w])), past)
  {
    hide KindOf;
    assert Stream(State(k, s.m.(wmd := s.m.wmd[w.wd := w]))) == Stream(s);
  }

  lemma AddOneAgrees(past: seq<RawEvent>, s: State, path: string, mask: nat, procFun: Option<nat>, autoAdd: bool, filter: string -> bool)
    requires Agree(s, past)
    ensures var (t, wd) := AddOne(s, path, mask, procFun, autoAdd, filter);
            Agree(t, past) && t.m.eventq == s.m.eventq && t.m.ignore == s.m.ignore && (wd > 0 ==> wd in LiveWds(t.k))
  {
    var p := NormPath(path);
    if NodeAt(s.k, p).Some? {
      LiveAfterAdd(s.k, p);
      var (k, wd) := KernelAdd(s.k, p);
      EnterAgrees(past, s, k, WatchRec(wd, p, AddMask(mask, autoAdd), procFun, autoAdd, filter, IsDirAt(k, p)));
    }
  }

  lemma {:induction false} AddAllAgrees(past: seq<RawEvent>, s: State, paths: seq<string>, mask: nat, procFun: Option<nat>, autoAdd: bool,
                                        filter: string -> bool, ret: map<string, int>)
    requires Agree(s, past)
    ensures var t := AddAll(s, paths, mask, procFun, autoAdd, filter, ret).0;
            Agree(t, past) && t.m.eventq == s.m.eventq && t.m.ignore == s.m.ignore
    decreases |paths|
  {
    if paths != [] {
      if filter(paths[0]) {
        AddAllAgrees(past, s, paths[1..], mask, procFun, autoAdd, filter, ret[paths[0] := -2]);
      } else {
        AddOneAgrees(past, s, paths[0], mask, procFun, autoAdd, filter);
        var (s1, wd) := AddOne(s, paths[0], mask, procFun, autoAdd, filter);
        AddAllAgrees(past, s1, paths[1..], mask, procFun, autoAdd, filter, ret[paths[0] := wd]);
      }
    }
  }

  lemma {:induction false} AddPathsAgrees(past: seq<RawEvent>, s: State, paths: seq<string>, mask: nat, procFun: Option<nat>, rec: bool,
                                          autoAdd: bool, filter: string -> bool)
    requires Agree(s, past)
    ensures Agree(AddPaths(s, paths, mask, procFun, rec, autoAdd, filter), past)
    decreases |paths|
  {
    hide Agree;
    if paths != [] {
      AddAllAgrees(past, s, WalkRec(s.k, paths[0], rec), mask, procFun, autoAdd, filter, map[]);
      var s1 := AddAll(s, WalkRec(s.k, paths[0], rec), mask, procFun, autoAdd, filter, map[]).0;
      AddPathsAgrees(past, s1, paths[1..], mask, procFun, rec, autoAdd, filter);
    }
  }

  // ---- kernel events and reading --------------------------------------------------------------

  lemma InFlightAppend(q: seq<RawEvent>, e: RawEvent, wd: int)
    ensures InFlight(q + [e], wd) <==> InFlight(q, wd) || (IsIgnored(e) && e.wd == wd)
  {
    if InFlight(q, wd) {
      var i :| 0 <= i < |q| && q[i].wd == wd && IsIgnored(q[i]);
      assert (q + [e])[i] == q[i];
    }
    if IsIgnored(e) && e.wd == wd { assert (q + [e])[|q|] == e; }
  }

  lemma OccurAgrees(past: seq<RawEvent>, s: State, e: RawEvent)
    requires Agree(s, past) && e.wd in LiveWds(s.k) && !IsIgnored(e)
    ensures Agree(s.(k := s.k.(queue := s.k.queue + [e])), past)
  {
    var t := s.(k := s.k.(queue := s.k.queue + [e]));
    assert Stream(t) == Stream(s) + [e];
    assert past + Stream(t) == (past + Stream(s)) + [e];
    assert LiveWds(t.k) == LiveWds(s.k);
    forall wd ensures InFlight(Stream(s), wd) ==> InFlight(Stream(t), wd) { InFlightAppend(Stream(s), e, wd); }
  }

  lemma DropAgrees(past: seq<RawEvent>, s: State, ino: nat)
    requires Agree(s, past) && ino in s.k.live
    ensures Agree(s.(k := Drop(s.k, ino)), past)
    ensures LiveWds(Drop(s.k, ino)) == LiveWds(s.k) - {s.k.live[ino]}
    ensures InFlight(Stream(s.(k := Drop(s.k, ino))), s.k.live[ino])
  {
    var t := s.(k := Drop(s.k, ino));
    var wd := s.k.live[ino];
    var e := RawEvent(wd, IN_IGNORED, 0, "");
    assert IsIgnored(e);
    hide KindOf, InFlight;
    assert Stream(t) == Stream(s) + [e];
    assert past + Stream(t) == (past + Stream(s)) + [e];
    LiveAfterDrop(s.k, ino);
    forall v ensures InFlight(Stream(t), v) <==> InFlight(Stream(s), v) || v == wd { InFlightAppend(Stream(s), e, v); }
  }

  lemma LiveAfterDrop(k: Kernel, ino: nat)
    requires KernelOk(k) && ino in k.live
    ensures LiveWds(Drop(k, ino)) == LiveWds(k) - {k.live[ino]} && KernelOk(Drop(k, ino))
  {
    assert forall i :: i in Drop(k, ino).live <==> i in k.live && i != ino;
  }

  lemma RmAgrees(past: seq<RawEvent>, s: State, wd: int)
    requires Agree(s, past)
    ensures Agree(RmOne(s, wd).0, past)
    ensures RmOne(s, wd).1 <==> wd in LiveWds(s.k)
    ensures wd in LiveWds(s.k) ==> wd !in RmOne(s, wd).0.m.wmd && wd !in LiveWds(RmOne(s, wd).0.k)
  {
    if i :| i in s.k.live && s.k.live[i] == wd {
      DropAgrees(past, s, i);
      assert forall j :: j in s.k.live && s.k.live[j] == wd ==> j == i;
      var t := RmOne(s, wd).0;
      assert t.k == Drop(s.k, i) && t.m == s.m.(wmd := s.m.wmd - {wd});
      assert Stream(t) == Stream(s.(k := Drop(s.k, i)));
    }
  }

  lemma StreamDelete(live: set<int>, next: int, a: seq<RawEvent>, e: RawEvent, b: seq<RawEvent>)
    ensures StreamOk(live, next, a + [e] + b) ==> StreamOk(live, next, a + b)
    ensures !IsIgnored(e) ==> forall wd :: InFlight(a + [e] + b, wd) ==> InFlight(a + b, wd)
  {
    var p, q := a + [e] + b, a + b;
    assert forall i :: 0 <= i < |q| ==> q[i] == p[if i < |a| then i else i + 1];
    forall wd | !IsIgnored(e) && InFlight(p, wd)
      ensures InFlight(q, wd)
    {
      var i :| 0 <= i < |p| && p[i].wd == wd && IsIgnored(p[i]);
      assert q[if i < |a| then i else i - 1] == p[i];
    }
  }

  lemma ReadOneAgrees(past: seq<RawEvent>, s: State)
    requires Agree(s, past) && s.k.queue != []
    ensures Agree(ReadOne(s), past) && ReadOne(s).m.ignore == s.m.ignore
  {
    hide Printed;
    var e := s.k.queue[0];
    var rest := s.k.queue[1..];
    var t := ReadOne(s);
    assert Stream(s) == s.m.eventq + [e] + rest;
    assert LiveWds(t.k) == LiveWds(s.k);
    NoneAfterHead(past, s);
    SeenAgrees(s.k, t.k, s.m.eventset, e);
    if s.m.coalesce && Printed(e) in s.m.eventset {
      SkipAgrees(past, s, t);
    } else {
      assert Stream(t) == Stream(s);
    }
  }

  lemma SeenAgrees(k: Kernel, t: Kernel, seen: set<string>, e: RawEvent)
    requires k.queue != [] && e == k.queue[0] && t == k.(queue := k.queue[1..]) && SeenOk(k, seen)
    requires e.wd < k.nextWd &&
             (IsIgnored(e) ==> e.wd !in LiveWds(k) && forall i :: 1 <= i < |k.queue| ==> k.queue[i].wd != e.wd)
    ensures SeenOk(t, seen) && SeenOk(t, seen + {Printed(e)})
    ensures IsIgnored(e) ==> Printed(e) !in seen
  {
    hide Printed, KindOf;
    assert LiveWds(t) == LiveWds(k);
    assert forall i :: 0 <= i < |t.queue| ==> t.queue[i] == k.queue[i + 1];
    forall x: RawEvent | Printed(x) == Printed(e) ensures x.wd == e.wd && IsIgnored(x) == IsIgnored(e) {
      PrintedAlike(x, e);
    }
  }

  /** An event that coalescing drops leaves the stream from the middle. */
  lemma SkipAgrees(past: seq<RawEvent>, s: State, t: State)
    requires Agree(s, past) && s.k.queue != [] && !IsIgnored(s.k.queue[0])
    requires t == State(s.k.(queue := s.k.queue[1..]), s.m) && SeenOk(t.k, t.m.eventset)
    ensures Agree(t, past)
  {
    hide Printed, SeenOk, KindOf;
    var e := s.k.queue[0];
    var rest := s.k.queue[1..];
    assert LiveWds(t.k) == LiveWds(s.k);
    assert Stream(s) == s.m.eventq + [e] + rest && Stream(t) == s.m.eventq + rest;
    StreamDelete(LiveWds(s.k), s.k.nextWd, s.m.eventq, e, rest);
    var a := past + s.m.eventq;
    assert past + Stream(s) == a + [e] + rest && past + Stream(t) == a + rest;
    StreamDelete(LiveWds(s.k), s.k.nextWd, a, e, rest);
  }

  lemma NoneAfterHead(past: seq<RawEvent>, s: State)
    requires Agree(s, past) && s.k.queue != []
    ensures var e := s.k.queue[0];
            e.wd < s.k.nextWd &&
            (IsIgnored(e) ==> e.wd !in LiveWds(s.k) && forall i :: 1 <= i < |s.k.queue| ==> s.k.queue[i].wd != e.wd)
  {
    var q := past + Stream(s);
    var n := |past| + |s.m.eventq|;
    assert q[n] == s.k.queue[0];
    assert forall i :: 1 <= i < |s.k.queue| ==> s.k.queue[i] == q[n + i];
  }

  lemma {:induction false} ReadSomeAgrees(past: seq<RawEvent>, s: State, n: nat)
    requires Agree(s, past)
    ensures Agree(ReadSome(s, n), past)
    decreases n
  {
    hide Agree, ReadOne;
    if n > 0 && s.k.queue != [] {
      ReadOneAgrees(past, s);
      ReadSomeAgrees(past, ReadOne(s), n - 1);
    }
  }

  // ---- handling -------------------------------------------------------------------------------

  /** Agreement once the event `e` at the head of the stream is taken away, but for its own descriptor. */
  ghost predicate AgreeBut(s: State, e: RawEvent, past: seq<RawEvent>) {
    && KernelOk(s.k)
    && StreamOk(LiveWds(s.k), s.k.nextWd, past + [e] + Stream(s))
    && SeenOk(s.k, s.m.eventset)
    && MapOk(LiveWds(s.k), s.k.nextWd, s.m.wmd, [e] + Stream(s))
  }

  lemma StreamGroups(past: seq<RawEvent>, e: RawEvent, rest: seq<RawEvent>)
    ensures past + ([e] + rest) == past + [e] + rest && [] + [e] + rest == [e] + rest && [] + rest == rest
  {
  }

  lemma PopAgrees(past: seq<RawEvent>, s: State)
    requires Agree(s, past) && s.m.eventq != []
    ensures var t := s.(m := s.m.(eventq := s.m.eventq[1..]));
            var e := s.m.eventq[0];
            AgreeBut(t, e, past) && (!IsIgnored(e) ==> Agree(t, past + [e]))
  {
    var t := s.(m := s.m.(eventq := s.m.eventq[1..]));
    var e := s.m.eventq[0];
    assert Stream(s) == [e] + Stream(t);
    StreamGroups(past, e, Stream(t));
    StreamDelete(LiveWds(s.k), s.k.nextWd, [], e, Stream(t));
  }

  /** Taking IN_IGNORED off the queue keeps agreement exactly when its descriptor leaves the map. */
  lemma IgnoredAgrees(past: seq<RawEvent>, t: State, e: RawEvent, u: State)
    requires AgreeBut(t, e, past) && IsIgnored(e)
    requires u.k == t.k && u.m.eventq == t.m.eventq && u.m.eventset == t.m.eventset
    requires u.m.wmd == t.m.wmd || u.m.wmd == t.m.wmd - {e.wd}
    ensures Agree(u, past + [e]) <==> e.wd !in u.m.wmd
  {
    hide KindOf;
    assert Stream(u) == Stream(t);
    InFlightTail(LiveWds(t.k), t.k.nextWd, past, e, Stream(t));
    assert past + [e] + Stream(t) == (past + [e]) + Stream(u);
    if e.wd !in u.m.wmd {
      assert forall wd :: wd in u.m.wmd ==> wd in t.m.wmd && u.m.wmd[wd] == t.m.wmd[wd];
    }
  }

  lemma InFlightTail(live: set<int>, next: int, past: seq<RawEvent>, e: RawEvent, b: seq<RawEvent>)
    requires StreamOk(live, next, past + [e] + b) && IsIgnored(e)
    ensures e.wd !in live && !InFlight(b, e.wd)
    ensures forall wd :: wd != e.wd && InFlight([e] + b, wd) ==> InFlight(b, wd)
  {
    hide KindOf;
    var h, n := past + [e] + b, |past|;
    assert h[n] == e;
    assert forall i :: 0 <= i < |b| ==> h[n + 1 + i] == b[i];
    forall wd | InFlight([e] + b, wd) && wd != e.wd
      ensures InFlight(b, wd)
    {
      var i :| 0 <= i < |[e] + b| && ([e] + b)[i].wd == wd && IsIgnored(([e] + b)[i]);
      assert b[i - 1] == ([e] + b)[i];
    }
  }

  lemma RenamedAgrees(past: seq<RawEvent>, s: State, e: RawEvent)
    requires Agree(s, past) && e.wd in s.m.wmd
    ensures Agree(s.(m := s.m.(wmd := Renamed(s.m.wmd, e.wd, s.m.mv))), past)
  {
    var t := s.(m := s.m.(wmd := Renamed(s.m.wmd, e.wd, s.m.mv)));
    assert Stream(t) == Stream(s) && t.m.wmd.Keys == s.m.wmd.Keys;
  }

  lemma StreamInsert(live: set<int>, next: int, a: seq<RawEvent>, e: RawEvent, b: seq<RawEvent>)
    requires e.wd in live && e.wd < next && !IsIgnored(e)
    ensures StreamOk(live, next, a + b) ==> StreamOk(live, next, (a + [e]) + b)
    ensures forall wd :: InFlight(a + b, wd) ==> InFlight((a + [e]) + b, wd)
  {
    var p, q := a + b, (a + [e]) + b;
    assert forall i :: 0 <= i < |q| && i != |a| ==> q[i] == p[if i < |a| then i else i - 1];
    assert q[|a|] == e;
    forall wd | InFlight(p, wd)
      ensures InFlight(q, wd)
    {
      var i :| 0 <= i < |p| && p[i].wd == wd && IsIgnored(p[i]);
      assert q[if i < |a| then i else i + 1] == p[i];
    }
  }

  lemma AppendAgrees(past: seq<RawEvent>, s: State, e: RawEvent)
    requires Agree(s, past) && e.wd in LiveWds(s.k) && !IsIgnored(e)
    ensures Agree(s.(m := s.m.(eventq := s.m.eventq + [e])), past)
  {
    var t := s.(m := s.m.(eventq := s.m.eventq + [e]));
    assert e.wd < s.k.nextWd;
    assert KernelOk(t.k) && SeenOk(t.k, t.m.eventset);
    hide KernelOk, SeenOk, StreamOk, InFlight, KindOf;
    Regrouped(past, s.m.eventq, e, s.k.queue);
    StreamInsert(LiveWds(s.k), s.k.nextWd, s.m.eventq, e, s.k.queue);
    StreamInsert(LiveWds(s.k), s.k.nextWd, past + s.m.eventq, e, s.k.queue);
  }

  lemma Regrouped(past: seq<RawEvent>, q: seq<RawEvent>, e: RawEvent, rest: seq<RawEvent>)
    ensures past + (q + rest) == (past + q) + rest && past + ((q + [e]) + rest) == ((past + q) + [e]) + rest
  {
  }

  lemma {:induction false} AppendAllAgrees(past: seq<RawEvent>, s: State, es: seq<RawEvent>)
    requires Agree(s, past) && forall i :: 0 <= i < |es| ==> es[i].wd in LiveWds(s.k) && !IsIgnored(es[i])
    ensures Agree(s.(m := s.m.(eventq := s.m.eventq + es)), past)
    decreases |es|
  {
    hide Agree;
    if es == [] {
      assert s.m.eventq + es == s.m.eventq;
    } else {
      AppendAgrees(past, s, es[0]);
      var t := s.(m := s.m.(eventq := s.m.eventq + [es[0]]));
      AppendAllAgrees(past, t, es[1..]);
      assert t.m.eventq + es[1..] == s.m.eventq + es;
    }
  }

  predicate CreationsOf(wd: int, q: seq<RawEvent>) {
    forall i :: 0 <= i < |q| ==> q[i].wd == wd && KindOf(q[i].mask) == Create
  }

  lemma {:induction false} SimulatedWds(k: Kernel, wmd: map<int, WatchRec>, d: string, wd: int, entries: seq<Entry>)
    ensures CreationsOf(wd, Simulated(k, wmd, d, wd, entries))
  {
    if entries != [] {
      SimulatedWds(k, wmd, d, wd, entries[1..]);
      SimulatedForWds(k, wmd, d, wd, entries[0].name);
    }
  }

  lemma SimulatedForWds(k: Kernel, wmd: map<int, WatchRec>, d: string, wd: int, name: string)
    ensures CreationsOf(wd, SimulatedFor(k, wmd, d, wd, name))
  {
    hide NodeAt, Join, PathWatched;
  }

  lemma CreatedAgrees(past: seq<RawEvent>, s: State, e: RawEvent)
    requires Agree(s, past) && e.wd in s.m.wmd
    ensures Agree(Created(s, e), past)
  {
    hide Agree, KindOf, NodeAt, AddOne;
    CreatedIs(s, e);
    var w := s.m.wmd[e.wd];
    var d := Join(w.path, e.name);
    if HasIsDir(e.mask) && w.autoAdd && !w.filter(d) {
      AddOneAgrees(past, s, d, w.mask, w.procFun, w.autoAdd, w.filter);
      var (t, wd) := AddOne(s, d, w.mask, w.procFun, w.autoAdd, w.filter);
      if wd > 0 && IsDirAt(t.k, d) {
        var q := Simulated(t.k, t.m.wmd, d, wd, NodeAt(t.k, d).value.entries);
        SimulatedWds(t.k, t.m.wmd, d, wd, NodeAt(t.k, d).value.entries);
        AppendAllAgrees(past, t, q);
      }
    }
  }

  /** Agreement does not depend on the move tables, the log or the error flag. */
  lemma QuietAgrees(past: seq<RawEvent>, s: State, t: State)
    requires Agree(s, past) && t.k == s.k && t.m.wmd == s.m.wmd && t.m.eventq == s.m.eventq && t.m.eventset == s.m.eventset
    ensures Agree(t, past)
  {
    assert Stream(t) == Stream(s);
  }

  lemma DispatchAgrees(past: seq<RawEvent>, s: State, e: RawEvent)
    requires Agree(s, past) && e.wd in s.m.wmd && !IsIgnored(e)
    ensures Agree(Dispatch(s, e), past)
  {
    hide Agree, Created, MovedIn, Default, Renamed;
    match KindOf(e.mask)
    case Create =>
      CreatedAgrees(past, s, e);
      QuietAgrees(past, Created(s, e), Dispatch(s, e));
    case MovedTo =>
      MovedInAgrees(past, s, e);
      QuietAgrees(past, MovedIn(s, e), Dispatch(s, e));
    case MoveSelf =>
      RenamedAgrees(past, s, e);
      QuietAgrees(past, s.(m := s.m.(wmd := Renamed(s.m.wmd, e.wd, s.m.mv))), Dispatch(s, e));
    case MovedFrom => QuietAgrees(past, s, Dispatch(s, e));
    case Overflow => QuietAgrees(past, s, Dispatch(s, e));
    case Plain => QuietAgrees(past, s, Dispatch(s, e));
    case Nameless => QuietAgrees(past, s, Dispatch(s, e));
    case Ignored =>
  }

  lemma MovedInAgrees(past: seq<RawEvent>, s: State, e: RawEvent)
    requires Agree(s, past) && e.wd in s.m.wmd
    ensures Agree(MovedIn(s, e), past)
  {
    hide Agree, AddAll, WalkRec;
    var w := s.m.wmd[e.wd];
    var dst := EventPath(s, e);
    if e.cookie in s.m.mvCookie {
      QuietAgrees(past, s, MovedIn(s, e));
    } else {
      AddAllAgrees(past, s, WalkRec(s.k, dst, true), w.mask, w.procFun, true, w.filter, map[]);
    }
  }

  /** One turn of the loop keeps agreement unless it drops, on the user's request to ignore events, the
      IN_IGNORED of a watch that is still in the map; that is the only way to lose it. */
  lemma StepAgrees(past: seq<RawEvent>, s: State)
    requires Agree(s, past) && s.m.eventq != []
    ensures var e := s.m.eventq[0];
            Agree(Step(s), past + [e]) <==> !(s.m.ignore && IsIgnored(e) && e.wd in s.m.wmd)
  {
    var e := s.m.eventq[0];
    var t := s.(m := s.m.(eventq := s.m.eventq[1..]));
    PopAgrees(past, s);
    if IsIgnored(e) {
      IgnoredStep(t, e);
      IgnoredAgrees(past, t, e, Handle(t, e));
    } else {
      OtherStep(past + [e], t, e);
    }
  }

  lemma IgnoredStep(t: State, e: RawEvent)
    requires IsIgnored(e)
    ensures var u := Handle(t, e);
            && u.k == t.k && u.m.eventq == t.m.eventq && u.m.eventset == t.m.eventset
            && u.m.wmd == if t.m.ignore then t.m.wmd else t.m.wmd - {e.wd}
  {
    if e.wd !in t.m.wmd { assert t.m.wmd - {e.wd} == t.m.wmd; }
  }

  lemma OtherStep(past: seq<RawEvent>, t: State, e: RawEvent)
    requires Agree(t, past) && !IsIgnored(e)
    ensures Agree(Handle(t, e), past)
  {
    hide Agree, Dispatch, KindOf;
    if !t.m.ignore && e.wd in t.m.wmd {
      DispatchAgrees(past, t, e);
      assert Handle(t, e) == Dispatch(t, e);
    } else {
      QuietAgrees(past, t, Handle(t, e));
    }
  }

  // ---- runs -----------------------------------------------------------------------------------

  /** The step does not throw away the IN_IGNORED of a watch that is in the map. */
  ghost predicate Attentive(s: State, a: Action) {
    a.Process? && s.m.ignore && s.m.eventq != [] ==> !(IsIgnored(s.m.eventq[0]) && s.m.eventq[0].wd in s.m.wmd)
  }

  /** The events that a step takes off the queue. */
  function Taken(s: State, a: Action): seq<RawEvent> {
    if a.Process? && s.m.eventq != [] then [s.m.eventq[0]] else []
  }

  lemma NextAgrees(past: seq<RawEvent>, s: State, a: Action)
    requires Agree(s, past) && Attentive(s, a)
    ensures Agree(Next(s, a), past + Taken(s, a))
  {
    assert past + [] == past;
    match a
    case ChangeTree(root) => assert Stream(Next(s, a)) == Stream(s);
    case Occur(e) => if e.wd in LiveWds(s.k) && !IsIgnored(e) { OccurAgrees(past, s, e); }
    case InodeGone(ino) => if ino in s.k.live { DropAgrees(past, s, ino); }
    case AddWatch(paths, mask, procFun, rec, autoAdd, filter) =>
      AddPathsAgrees(past, s, paths, mask, procFun, rec, autoAdd, filter);
    case RmWatch(wd) => RmAgrees(past, s, wd);
    case Read(n) => ReadSomeAgrees(past, s, n);
    case Process => if s.m.eventq != [] { StepAgrees(past, s); }
    case EndBatch(_, _) => assert Stream(Next(s, a)) == Stream(s);
    case SetCoalesce(_) => assert Stream(Next(s, a)) == Stream(s);
    case SetIgnore(_) => assert Stream(Next(s, a)) == Stream(s);
  }

  ghost function Run(s: State, run: seq<Action>): State
    decreases |run|
  {
    if run == [] then s else Run(Next(s, run[0]), run[1..])
  }

  ghost predicate AttentiveRun(s: State, run: seq<Action>)
    decreases |run|
  {
    run == [] || (Attentive(s, run[0]) && AttentiveRun(Next(s, run[0]), run[1..]))
  }

  /** A manager that was just made. */
  function Start(root: Node, cwd: seq<string>): State {
    State(Kernel(root, cwd, map[], 1, []), Manager(map[], false, [], {}, false, map[], map[], [], false))
  }

  /** The events handled during a run, in order. */
  ghost function Handled(s: State, run: seq<Action>): seq<RawEvent>
    decreases |run|
  {
    if run == [] then [] else Taken(s, run[0]) + Handled(Next(s, run[0]), run[1..])
  }

  /** Over every interleaving of kernel, user and notifier steps the two tables agree up to the events in
      flight: every entry of the map is live or about to be ignored, and every live watch is in the map. */
  lemma {:induction false} RunAgrees(past: seq<RawEvent>, s: State, run: seq<Action>)
    requires Agree(s, past) && AttentiveRun(s, run)
    ensures Agree(Run(s, run), past + Handled(s, run))
    decreases |run|
  {
    hide Agree, Next, Attentive, Taken;
    if run == [] {
      assert past + [] == past;
    } else {
      NextAgrees(past, s, run[0]);
      RunAgrees(past + Taken(s, run[0]), Next(s, run[0]), run[1..]);
      assert (past + Taken(s, run[0])) + Handled(Next(s, run[0]), run[1..]) == past + Handled(s, run);
    }
  }

  lemma StartAgrees(root: Node, cwd: seq<string>, run: seq<Action>)
    requires AttentiveRun(Start(root, cwd), run)
    ensures Agree(Run(Start(root, cwd), run), Handled(Start(root, cwd), run))
  {
    RunAgrees([], Start(root, cwd), run);
    assert [] + Handled(Start(root, cwd), run) == Handled(Start(root, cwd), run);
  }

  /** Once everything is read and handled, the map holds exactly the watches that are live; and at all
      times each entry is the watch of its own descriptor. */
  lemma QuiescentTablesAreEqual(root: Node, cwd: seq<string>, run: seq<Action>)
    requires AttentiveRun(Start(root, cwd), run)
    ensures var t := Run(Start(root, cwd), run);
            && (t.m.eventq == [] && t.k.queue == [] ==> t.m.wmd.Keys == LiveWds(t.k))
            && (forall wd :: wd in t.m.wmd ==> t.m.wmd[wd].wd == wd)
  {
    StartAgrees(root, cwd, run);
    var t := Run(Start(root, cwd), run);
    if t.m.eventq == [] && t.k.queue == [] {
      assert Stream(t) == [];
      assert forall wd :: wd in t.m.wmd ==> wd in LiveWds(t.k);
    }
  }

  /** After IN_IGNORED was handled, no event of that descriptor is handled, queued, or raised any more. */
  lemma IgnoredIsFinal(root: Node, cwd: seq<string>, run: seq<Action>, i: nat, j: nat)
    requires AttentiveRun(Start(root, cwd), run)
    ensures var t := Run(Start(root, cwd), run);
            var all := Handled(Start(root, cwd), run) + Stream(t);
            i < j < |all| && IsIgnored(all[i]) ==> all[j].wd != all[i].wd && all[i].wd !in LiveWds(t.k)
  {
    StartAgrees(root, cwd, run);
  }

  // ---- a run that loses the agreement ---------------------------------------------------------

  const WITH_A := Dir(1, [Entry("a", Dir(2, []))])
  const WITHOUT_A := Dir(1, [])

  /** The user watches /a, which is removed; the kernel's IN_IGNORED is read, and handled after the user has switched
      ignoring on. */
  function IgnoringRun(filter: string -> bool): seq<Action> {
    [AddWatch(["/a"], 2, None, false, false, filter), ChangeTree(WITHOUT_A), InodeGone(2), Read(1), SetIgnore(true),
     Process]
  }

  lemma PathOfA()
    ensures NormPath("/a") == "/a" && Resolve([], "/a") == ["a"] && Lookup(WITH_A, ["a"]) == Some(Dir(2, []))
  {
    assert Render(["a"]) == "/a";
    NormalRender([], ["a"]);
    assert ["a"][1..] == [];
  }

  lemma AIsWatched(filter: string -> bool)
    requires !filter("/a")
    ensures var t := AddPaths(Start(WITH_A, []), ["/a"], 2, None, false, false, filter);
            && t.k == Kernel(WITH_A, [], map[2 := 1], 2, [])
            && t.m.wmd.Keys == {1} && t.m.eventq == [] && !t.m.coalesce
  {
    PathOfA();
    var s := Start(WITH_A, []);
    var t := AddOne(s, "/a", 2, None, false, filter).0;
    hide NormPath, Resolve, Lookup;
    assert t.m.wmd.Keys == {1};
    assert ["/a"][1..] == [] && WalkRec(s.k, "/a", false) == ["/a"];
    assert AddAll(s, ["/a"], 2, None, false, filter, map[]).0 == t;
    assert AddPaths(s, ["/a"], 2, None, false, false, filter) == AddPaths(t, [], 2, None, false, false, filter) == t;
  }

  lemma RunCons(s: State, a: Action, rest: seq<Action>)
    ensures Run(s, [a] + rest) == Run(Next(s, a), rest)
  {
    assert ([a] + rest)[1..] == rest;
  }

  /** At the end of that run nothing is in flight, and the map still holds a watch that is dead. */
  lemma IgnoringLosesAgreement(filter: string -> bool)
    requires !filter("/a")
    ensures var t := Run(Start(WITH_A, []), IgnoringRun(filter));
            t.m.eventq == [] && t.k.queue == [] && t.m.wmd.Keys == {1} && LiveWds(t.k) == {}
  {
    var a := IgnoringRun(filter);
    var s := Start(WITH_A, []);
    AIsWatched(filter);
    hide AddPaths;
    var s1 := Next(s, a[0]);
    RunCons(s, a[0], [a[1], a[2], a[3], a[4], a[5]]);
    RunCons(s1, a[1], [a[2], a[3], a[4], a[5]]);
    AfterRemoval(Next(s1, a[1]), [a[2], a[3], a[4], a[5]]);
  }

  lemma AfterRemoval(s: State, a: seq<Action>)
    requires s.k == Kernel(WITHOUT_A, [], map[2 := 1], 2, []) && s.m.wmd.Keys == {1} && s.m.eventq == [] && !s.m.coalesce
    requires a == [InodeGone(2), Read(1), SetIgnore(true), Process]
    ensures var t := Run(s, a); t.m.eventq == [] && t.k.queue == [] && t.m.wmd.Keys == {1} && LiveWds(t.k) == {}
  {
    hide Run, ReadSome, Step, AddPaths, RmOne, KindOf, Drop;
    var e := RawEvent(1, IN_IGNORED, 0, "");
    OneGone(s.k, e);
    var s1 := s.(k := Kernel(WITHOUT_A, [], map[], 2, [e]));
    var s2 := s1.(k := s1.k.(queue := []), m := s1.m.(eventq := [e]));
    var s3 := s2.(m := s2.m.(ignore := true));
    ReadTheOne(s1, e);
    IgnoredPop(s3, e);
    assert Next(s, a[0]) == s1 && Next(s1, a[1]) == s2 && Next(s2, a[2]) == s3;
    RunOn(s, a, 0);
    RunOn(s1, a, 1);
    RunOn(s2, a, 2);
    assert a[0..] == a && a[3..] == [Process];
    hide Next;
  }

  lemma RunOn(s: State, a: seq<Action>, i: nat)
    requires i < |a|
    ensures Run(s, a[i..]) == Run(Next(s, a[i]), a[i + 1..])
  {
    assert a[i..] == [a[i]] + a[i + 1..];
  }

  lemma OneGone(k: Kernel, e: RawEvent)
    requires k == Kernel(WITHOUT_A, [], map[2 := 1], 2, []) && e == RawEvent(1, IN_IGNORED, 0, "")
    ensures Drop(k, 2) == Kernel(WITHOUT_A, [], map[], 2, [e])
  {
  }

  lemma ReadTheOne(s: State, e: RawEvent)
    requires s.k.queue == [e] && s.m.eventq == [] && !s.m.coalesce
    ensures ReadSome(s, 1) == s.(k := s.k.(queue := []), m := s.m.(eventq := [e]))
  {
    assert ReadSome(s, 1) == ReadSome(ReadOne(s), 0) == ReadOne(s);
  }

  lemma IgnoredPop(s: State, e: RawEvent)
    requires s.m.eventq == [e] && s.m.ignore
    ensures Run(s, [Process]) == s.(m := s.m.(eventq := []))
  {
  }
}
