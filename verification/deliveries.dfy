/** What the user is told: every event that is handled, once and in order. */
module Deliveries {
  import opened Options
  import opened Paths
  import opened Inotify
  import opened Drain

  // ---- masks in numbers -----------------------------------------------------------------------

  /** The mask without IN_ISDIR, 0x4000_0000. */
  function Stripped(mask: nat): nat { if mask / 0x4000_0000 % 2 == 1 then mask - 0x4000_0000 else mask }

  /** Each handler by the number of its event. */
  lemma KindsInNumbers(mask: nat)
    ensures KindOf(mask) == MovedFrom <==> Stripped(mask) == 0x40
    ensures KindOf(mask) == MovedTo <==> Stripped(mask) == 0x80
    ensures KindOf(mask) == Create <==> Stripped(mask) == 0x100
    ensures KindOf(mask) == MoveSelf <==> Stripped(mask) == 0x800
    ensures KindOf(mask) == Overflow <==> Stripped(mask) == 0x4000
    ensures KindOf(mask) == Ignored <==> Stripped(mask) == 0x8000
  {
  }

  function Bit(i: nat): nat { if i == 0 then 1 else 2 * Bit(i - 1) }

  /** No event that the kernel sends is without a name: IN_ACCESS to IN_MOVE_SELF, IN_UNMOUNT, IN_Q_OVERFLOW and
      IN_IGNORED, on a file or on a directory. */
  lemma KernelEventsAreNamed(i: nat, mask: nat)
    requires (i < 12 || 13 <= i < 16) && (mask == Bit(i) || mask == Bit(i) + 0x4000_0000)
    ensures KindOf(mask) != Nameless
  {
    Bits();
  }

  lemma Bits()
    ensures Bit(0) == 0x1 && Bit(1) == 0x2 && Bit(2) == 0x4 && Bit(3) == 0x8
    ensures Bit(4) == 0x10 && Bit(5) == 0x20 && Bit(6) == 0x40 && Bit(7) == 0x80
    ensures Bit(8) == 0x100 && Bit(9) == 0x200 && Bit(10) == 0x400 && Bit(11) == 0x800
    ensures Bit(13) == 0x2000 && Bit(14) == 0x4000 && Bit(15) == 0x8000
  {
    assert Bit(4) == 2 * Bit(3);
    assert Bit(8) == 2 * Bit(7) && Bit(12) == 2 * Bit(11);
  }

  // ---- one event ------------------------------------------------------------------------------

  /** The directory flag: of the watched inode itself for IN_DELETE_SELF (0x400) and IN_MOVE_SELF (0x800), and otherwise
      IN_ISDIR of the event. */
  function IsDirEvent(w: WatchRec, mask: nat): bool {
    if mask / 0x400 % 2 == 1 || mask / 0x800 % 2 == 1 then w.dir else mask / 0x4000_0000 % 2 == 1
  }

  /** The delivery of an event on a known watch, handled between `s` and `t`. */
  ghost predicate Tells(s: State, e: RawEvent, t: State, d: Delivery)
    requires e.wd in s.m.wmd
  {
    var w := if e.wd in t.m.wmd then t.m.wmd[e.wd] else s.m.wmd[e.wd];
    var kind := Stripped(e.mask);
    if kind == 0x4000 then d == OverflowDelivery(s.m.wmd[e.wd].procFun, e.mask)
    else
      && d.Delivery? && d.handler == s.m.wmd[e.wd].procFun && d.wd == e.wd && d.mask == e.mask && d.name == e.name
      && d.path == w.path && d.dir == IsDirEvent(w, e.mask)
      && d.cookie == (if kind == 0x40 || kind == 0x80 then Some(e.cookie) else None)
      && d.src == if kind == 0x80 && e.cookie in s.m.mvCookie then Some(s.m.mvCookie[e.cookie]) else None
  }

  /** An event on a known watch is delivered once, as it was, unless its mask has no name. */
  lemma DispatchTells(s: State, e: RawEvent)
    requires e.wd in s.m.wmd
    ensures var t := Dispatch(s, e);
            if KindOf(e.mask) == Nameless then t == s.(m := s.m.(raised := true))
            else
              && |t.m.log| == |s.m.log| + 1 && t.m.log[..|s.m.log|] == s.m.log && Tells(s, e, t, t.m.log[|s.m.log|])
              && t.m.raised == s.m.raised && t.m.ignore == s.m.ignore
  {
    KindsInNumbers(e.mask);
    CreatedTells(s, e);
    MovedInTells(s, e);
    match KindOf(e.mask)
    case Create => DeliversDefault(s, Created(s, e), e, None, None);
    case MovedFrom =>
      DeliversDefault(s, s.(m := s.m.(mvCookie := s.m.mvCookie[e.cookie := EventPath(s, e)])), e, Some(e.cookie), None);
    case MovedTo =>
      var src := if e.cookie in s.m.mvCookie then Some(s.m.mvCookie[e.cookie]) else None;
      DeliversDefault(s, MovedIn(s, e), e, Some(e.cookie), src);
    case MoveSelf => DeliversDefault(s, s.(m := s.m.(wmd := Renamed(s.m.wmd, e.wd, s.m.mv))), e, None, None);
    case Ignored => DeliversDefault(s, s, e, None, None);
    case Plain => DeliversDefault(s, s, e, None, None);
    case _ =>
    hide Created, MovedIn, EventPath, Renamed, KindOf, Stripped, Default;
  }

  /** A delivery of the event as it was. */
  lemma DeliversDefault(s: State, s1: State, e: RawEvent, cookie: Option<nat>, src: Option<string>)
    requires e.wd in s.m.wmd && e.wd in s1.m.wmd
    ensures var w := s1.m.wmd[e.wd];
            Default(s1, e, s.m.wmd[e.wd].procFun, cookie, src)
            == Delivery(s.m.wmd[e.wd].procFun, e.wd, e.mask, w.path, e.name, IsDirEvent(w, e.mask), cookie, src)
  {
  }

  /** Adding watches says nothing. */
  lemma {:induction false} AddAllTells(s: State, paths: seq<string>, mask: nat, procFun: Option<nat>, autoAdd: bool,
                                       filter: string -> bool, ret: map<string, int>)
    ensures var t := AddAll(s, paths, mask, procFun, autoAdd, filter, ret).0;
            t.m == s.m.(wmd := t.m.wmd) && s.m.wmd.Keys <= t.m.wmd.Keys
    decreases |paths|
  {
    hide KernelAdd, NormPath, IsDirAt;
    if paths != [] {
      if filter(paths[0]) {
        AddAllTells(s, paths[1..], mask, procFun, autoAdd, filter, ret[paths[0] := -2]);
      } else {
        var (s1, wd) := AddOne(s, paths[0], mask, procFun, autoAdd, filter);
        AddAllTells(s1, paths[1..], mask, procFun, autoAdd, filter, ret[paths[0] := wd]);
      }
    }
  }

  lemma CreatedTells(s: State, e: RawEvent)
    requires e.wd in s.m.wmd
    ensures var t := Created(s, e);
            t.m.log == s.m.log && t.m.raised == s.m.raised && t.m.ignore == s.m.ignore && t.m.mvCookie == s.m.mvCookie
  {
    var w := s.m.wmd[e.wd];
    var d := Join(w.path, e.name);
    AddAllTells(s, [d], w.mask, w.procFun, w.autoAdd, w.filter, map[]);
    hide AddAll, Simulated, IsDirAt;
  }

  lemma MovedInTells(s: State, e: RawEvent)
    requires e.wd in s.m.wmd
    ensures var t := MovedIn(s, e);
            t.m.log == s.m.log && t.m.raised == s.m.raised && t.m.ignore == s.m.ignore && t.m.mvCookie == s.m.mvCookie
  {
    var w := s.m.wmd[e.wd];
    AddAllTells(s, WalkRec(s.k, EventPath(s, e), true), w.mask, w.procFun, true, w.filter, map[]);
    hide AddAll, WalkRec, EventPath;
  }

  // ---- a drain --------------------------------------------------------------------------------

  /** The next event is one that the user is told of: on a known watch with a named mask, or an overflow. */
  predicate Announced(s: State) {
    s.m.eventq != [] && !s.m.ignore &&
    var e := s.m.eventq[0];
    if e.wd in s.m.wmd then KindOf(e.mask) != Nameless else Stripped(e.mask) == 0x4000
  }

  /** The delivery is of the event that is next in this state, as it was when it was handled. */
  ghost predicate Of(d: Delivery, s: State) {
    s.m.eventq != [] &&
    var e := s.m.eventq[0];
    if e.wd in s.m.wmd then Tells(s, e, Step(s), d) else d == OverflowDelivery(None, e.mask)
  }

  lemma StepTells(s: State)
    requires s.m.eventq != []
    ensures var t := Step(s);
            if Announced(s) then
              && |t.m.log| == |s.m.log| + 1 && t.m.log[..|s.m.log|] == s.m.log && Of(t.m.log[|s.m.log|], s)
              && t.m.raised == s.m.raised
            else t.m.log == s.m.log
    ensures Step(s).m.ignore == s.m.ignore
  {
    var e, s0 := s.m.eventq[0], s.(m := s.m.(eventq := s.m.eventq[1..]));
    KindsInNumbers(e.mask);
    OverflowBit(e.mask);
    if e.wd in s.m.wmd { DispatchTells(s0, e); }
    hide Dispatch, KindOf, Stripped, HasOverflow;
  }

  lemma OverflowBit(mask: nat)
    ensures Stripped(mask) == 0x4000 ==> HasOverflow(mask)
  {
  }

  /** The turns of a drain at which the user is told of an event, one that was made up on the way included. */
  ghost function AnnouncedIn(s: State): seq<State>
    requires Sound(s)
    decreases Disturbances(s.m.eventq), |Stale(s.k, s.m.wmd)|, Weights(s.k, s.m.wmd, s.m.eventq)
  {
    if s.m.eventq == [] || s.m.raised then []
    else
      StepProgress(s);
      (if Announced(s) then [s] else []) + AnnouncedIn(Step(s))
  }

  /** From one log to the next, one delivery for each of the turns, in order. */
  ghost predicate Told(before: seq<Delivery>, after: seq<Delivery>, turns: seq<State>) {
    && |after| == |before| + |turns| && after[..|before|] == before
    && forall i :: 0 <= i < |turns| ==> Of(after[|before|..][i], turns[i])
  }

  lemma ToldNone(log: seq<Delivery>)
    ensures Told(log, log, [])
  {
  }

  lemma ToldFirst(a: seq<Delivery>, b: seq<Delivery>, c: seq<Delivery>, s: State, turns: seq<State>)
    requires |b| == |a| + 1 && b[..|a|] == a && Of(b[|a|], s) && Told(b, c, turns)
    ensures Told(a, c, [s] + turns)
  {
    hide Of;
    var all := [s] + turns;
    assert c[..|a|] == c[..|b|][..|a|];
    forall i | 0 <= i < |all| ensures Of(c[|a|..][i], all[i]) {
      if i == 0 {
        assert c[|a|] == c[..|b|][|a|];
      } else {
        assert c[|a|..][i] == c[|b|..][i - 1];
      }
    }
  }

  /** Draining the queue, with whatever it adds to it, delivers every event it tells of once, with the path, the name and the
      directory flag it had when it was handled, in the order of handling, and nothing else. */
  lemma {:induction false} DrainTells(s: State)
    requires Sound(s)
    ensures Told(s.m.log, Drained(s).m.log, AnnouncedIn(s))
    decreases Disturbances(s.m.eventq), |Stale(s.k, s.m.wmd)|, Weights(s.k, s.m.wmd, s.m.eventq)
  {
    hide Step, Sound, Told, Of, Announced;
    if s.m.eventq == [] || s.m.raised {
      ToldNone(s.m.log);
    } else {
      StepProgress(s);
      StepTells(s);
      DrainTells(Step(s));
      if Announced(s) {
        ToldFirst(s.m.log, Step(s).m.log, Drained(Step(s)).m.log, s, AnnouncedIn(Step(s)));
      } else {
        assert [] + AnnouncedIn(Step(s)) == AnnouncedIn(Step(s));
      }
    }
  }

  // ---- a move to an unknown place -------------------------------------------------------------

  /** A watch that moved to where nothing is known of says so in its path, once however often it moves, and no other
      watch is touched. */
  lemma UnknownPlace(s: State, e: RawEvent)
    requires e.wd in s.m.wmd && !s.m.ignore && Stripped(e.mask) == 0x800 && s.m.wmd[e.wd].path !in s.m.mv
    ensures var t := Handle(s, e); var p, q := s.m.wmd[e.wd].path, t.m.wmd[e.wd].path; var mark := "-unknown-path";
            && t.m.wmd == s.m.wmd[e.wd := s.m.wmd[e.wd].(path := q)]
            && (if |p| >= |mark| && p[|p| - |mark|..] == mark then q == p else q == p + mark)
  {
    KindsInNumbers(e.mask);
    hide KindOf, Stripped;
    assert Handle(s, e) == Dispatch(s, e);
  }
}
