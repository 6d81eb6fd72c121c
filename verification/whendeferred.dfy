/** `b.when` over deferreds: the barrier's promises are the deferreds themselves, and its callbacks are registered
    with them like any others. */
module WhenDeferreds {
  import opened Options
  import opened CallbackLists
  import opened Deferreds
  import Barriers

  type Arg = Barriers.Arg
  type Barrier = Barriers.Barrier

  // ---- one deferred ---------------------------------------------------------------------------

  /** What the callback for an argument hears of a list that fires. */
  function SettlementOf(w: Which, xs: seq<nat>): Barriers.Settlement {
    if w.Done? then Barriers.ResolvedWith(xs) else Barriers.RejectedWith(xs)
  }

  /** The function that a step calls, if it calls one. */
  function Called(d: Deferred, e: Deferred): Option<Ran> {
    if |e.log| > |d.log| then Some(e.log[|e.log| - 1]) else None
  }

  predicate OneMore(log: seq<Ran>, more: seq<Ran>) { log <= more && |more| <= |log| + 1 }

  /** A step calls at most one function of a user. */
  lemma {:induction false} ProceedCallsOne(d: Deferred)
    requires d.frames != []
    ensures OneMore(d.log, Proceed(d).log)
    decreases Postponed(Top(d)), Top(d).length - Top(d).index
  {
    var n := |d.frames| - 1;
    var frame := d.frames[n];
    var c := Top(d);
    if Running(c) && 0 <= c.index < |c.list.value| {
      var f := c.list.value[c.index];
      if !f.User? {
        EffectTop(d, f);
        EffectLog(d, f);
        hide Effect, Finish;
        var e := Effect(d, f);
        ProceedCallsOne(e.Put(frame.w, Step(e.Get(frame.w))));
      }
    } else {
      hide Effect;
      var (c', next) := Finish(c);
      var e := d.Put(frame.w, c').(frames := d.frames[..n]);
      if next.Some? && c'.list.Some? { ProceedCallsOne(Enter(e, frame.w, next.value)); }
    }
  }

  lemma EffectLog(d: Deferred, f: Fn)
    ensures Effect(d, f).log == d.log
  {
  }

  lemma NextCallsOne(d: Deferred, a: Action)
    ensures OneMore(d.log, Next(d, a).log)
  {
    hide Proceed, Add, FireWith;
    match a
    case AddTo(w, ids) =>
      var (c, go) := Add(d.Get(w), Funcs(Users(ids)));
      var e := Register(d.Put(w, c), w, ids);
      if go.Some? && c.list.Some? { ProceedCallsOne(Enter(e, w, go.value)); }
    case FireAt(w, call) =>
      var (c, go) := FireWith(d.Get(w), call);
      var e := d.Put(w, c);
      if go.Some? && c.list.Some? {
        ProceedCallsOne(Enter(e.(noted := if w.Progress? && d.progress.stack.Some? then d.noted + {call} else d.noted), w, go.value));
      }
    case Return =>
      if d.frames != [] {
        var w := d.frames[|d.frames| - 1].w;
        ProceedCallsOne(d.Put(w, Step(d.Get(w))));
      }
  }

  // ---- the callbacks of `when` ----------------------------------------------------------------

  /** A callback of `when` is registered with a list at most once. */
  ghost predicate Once(regs: seq<nat>, n: nat) {
    forall j, k :: 0 <= j < k < |regs| && regs[j] == regs[k] ==> regs[j] >= n
  }

  /** With a list those for the first `n` arguments are registered that are this deferred. */
  ghost predicate ListFits(args: seq<Arg>, n: nat, p: nat, regs: seq<nat>) {
    && Once(regs, |args|)
    && forall i: nat :: i < |args| ==> (i in regs <==> i < n && args[i] == Barriers.Promised(p))
  }

  /** The numbers of the arguments are the callbacks of `when`: `nd` of them are registered for resolving, and `nf`
      for rejecting. */
  ghost predicate RegsFit(args: seq<Arg>, nd: nat, nf: nat, p: nat, d: Deferred) {
    nf <= nd <= |args| && ListFits(args, nd, p, d.doneRegs) && ListFits(args, nf, p, d.failRegs)
  }

  /** A step of other code, which has functions of its own, or of the loop of `when`. */
  predicate Admits(args: seq<Arg>, p: nat, nd: nat, nf: nat, a: Action, nd': nat, nf': nat) {
    || (nd' == nd && nf' == nf && (a.AddTo? && !a.w.Progress? ==> forall i :: 0 <= i < |a.ids| ==> a.ids[i] >= |args|))
    || (nd < |args| && args[nd] == Barriers.Promised(p) && a == AddTo(Done, [nd]) && nd' == nd + 1 && nf' == nf)
    || (nf < nd <= |args| && args[nf] == Barriers.Promised(p) && a == AddTo(Fail, [nf]) && nd' == nd && nf' == nf + 1)
  }

  lemma OthersFit(args: seq<Arg>, n: nat, p: nat, regs: seq<nat>, ids: seq<nat>)
    requires ListFits(args, n, p, regs) && forall i :: 0 <= i < |ids| ==> ids[i] >= |args|
    ensures ListFits(args, n, p, regs + ids)
  {
  }

  lemma OwnFits(args: seq<Arg>, n: nat, p: nat, regs: seq<nat>)
    requires ListFits(args, n, p, regs) && n < |args| && args[n] == Barriers.Promised(p)
    ensures ListFits(args, n + 1, p, regs + [n])
  {
    assert n !in regs;
  }

  lemma RegsStep(args: seq<Arg>, p: nat, nd: nat, nf: nat, d: Deferred, a: Action, nd': nat, nf': nat, e: Deferred)
    requires RegsFit(args, nd, nf, p, d) && Moves(d, a, e) && Admits(args, p, nd, nf, a, nd', nf')
    ensures RegsFit(args, nd', nf', p, e)
  {
    hide ListFits, Won, Undecided, Inv;
    if a.AddTo? && !a.w.Progress? {
      if nd' == nd + 1 {
        OwnFits(args, nd, p, d.doneRegs);
      } else if nf' == nf + 1 {
        OwnFits(args, nf, p, d.failRegs);
      } else {
        OthersFit(args, nd, p, d.doneRegs, a.ids);
        OthersFit(args, nf, p, d.failRegs, a.ids);
      }
    }
  }

  /** The barrier knows what a deferred was settled with. */
  ghost predicate Tells(vals: Call -> seq<nat>, p: nat, d: Deferred, settled: map<nat, Barriers.Settlement>) {
    && (d.status == Pending <==> p !in settled)
    && forall w, call :: Won(d, w, call) ==> p in settled && settled[p] == SettlementOf(w, vals(call))
  }

  /** ... and which of its own callbacks it has called. */
  ghost predicate HeardFits(args: seq<Arg>, p: nat, d: Deferred, heard: seq<nat>) {
    forall i: nat :: i < |args| && args[i] == Barriers.Promised(p) ==>
      (i in heard <==> i in RanOf(d.log, Done) || i in RanOf(d.log, Fail))
  }

  /** What the barrier sees of a step of a deferred: that it is settled, and a call of one of its callbacks. */
  function SeesSettling(b: Barrier, vals: Call -> seq<nat>, p: nat, d: Deferred, a: Action, e: Deferred): Barrier {
    if d.status == Pending && e.status != Pending && a.FireAt?
    then Barriers.Next(b, Barriers.Settle(p, SettlementOf(a.w, vals(a.call)))) else b
  }

  function SeesCall(b: Barrier, d: Deferred, e: Deferred): Barrier {
    var r := Called(d, e);
    if r.Some? && !r.value.w.Progress? && r.value.id < |b.args| then Barriers.Next(b, Barriers.Hear(r.value.id)) else b
  }

  lemma SettlingIsSeen(b: Barrier, vals: Call -> seq<nat>, p: nat, d: Deferred, a: Action, e: Deferred)
    requires Inv(d) && Moves(d, a, e) && Tells(vals, p, d, b.settled)
    ensures var b1 := SeesSettling(b, vals, p, d, a, e);
            && Tells(vals, p, e, b1.settled) && b1 == b.(settled := b1.settled)
            && (b1 == b || (a.FireAt? && b1.settled == b.settled[p := SettlementOf(a.w, vals(a.call))] && p !in b.settled))
  {
    hide Settled, Open, Closed, RanOf, RanWith, Progressing, Nested;
    if Undecided(d) {
      if a.FireAt? && !a.w.Progress? {
        WonOnly(e, a.w, a.call);
        assert Won(e, a.w, a.call);
      } else {
        NotBoth(e);
      }
    } else {
      var w, call :| Won(d, w, call);
      assert Won(e, w, call);
      WonOnly(e, w, call);
    }
  }

  /** A call that the deferred makes is the first of that callback, and by the list that won. */
  lemma CallIsNew(args: seq<Arg>, p: nat, nd: nat, nf: nat, d: Deferred, e: Deferred, r: Ran)
    requires Inv(e) && RegsFit(args, nd, nf, p, e) && e.log == d.log + [r] && !r.w.Progress? && r.id < |args|
    ensures args[r.id] == Barriers.Promised(p) && r.id < nd && e.status != Pending
    ensures r.id !in RanOf(d.log, Done) && r.id !in RanOf(d.log, Fail)
  {
    RanOfSnoc(d.log, r, Done);
    RanOfSnoc(d.log, r, Fail);
    var w, call :| Won(e, w, call);
    assert r.w == w;
    var ran := RanOf(d.log, w);
    SettledPrefix(e.Get(w), w, call, e.Regs(w), ran + [r.id]);
    LastIsNew(ran, r.id, e.Regs(w), |args|);
  }

  lemma LastIsNew(ran: seq<nat>, id: nat, regs: seq<nat>, n: nat)
    requires ran + [id] <= regs && Once(regs, n) && id < n
    ensures id in regs && id !in ran
  {
    assert (ran + [id])[|ran|] == id && regs[|ran|] == id;
    assert forall i :: 0 <= i < |ran| ==> (ran + [id])[i] == ran[i] == regs[i];
  }

  lemma CallIsSeen(args: seq<Arg>, p: nat, nf: nat, b: Barrier, d: Deferred, e: Deferred)
    requires Barriers.Inv(b) && b.args == args && Inv(e) && RegsFit(args, b.next, nf, p, e) && OneMore(d.log, e.log)
    requires (e.status == Pending <==> p !in b.settled) && HeardFits(args, p, d, b.heard)
    ensures var c := SeesCall(b, d, e);
            && HeardFits(args, p, e, c.heard) && c.args == args && c.settled == b.settled && c.next == b.next
            && c.closed == b.closed
            && (c.heard == b.heard || exists i: nat :: i < |args| && args[i] == Barriers.Promised(p) && c.heard == b.heard + [i])
  {
    hide Inv, RegsFit, Barriers.Inv;
    if |e.log| > |d.log| {
      var r := e.log[|d.log|];
      assert e.log == d.log + [r];
      RanOfSnoc(d.log, r, Done);
      RanOfSnoc(d.log, r, Fail);
      if !r.w.Progress? && r.id < |args| {
        CallIsNew(args, p, b.next, nf, d, e, r);
        CanHear(b, r.id);
        assert SeesCall(b, d, e).heard == b.heard + [r.id];
      }
    } else {
      assert e.log == d.log;
    }
  }

  lemma CanHear(b: Barrier, i: nat)
    requires Barriers.Inv(b) && i < b.next && i < |b.args| && b.args[i].Promised? && b.args[i].p in b.settled && i !in b.heard
    ensures Barriers.Due(b, i) && var c := Barriers.Next(b, Barriers.Hear(i)); c == b.(heard := b.heard + [i], values := c.values, count := c.count, master := c.master)
  {
  }

  // ---- all of them ----------------------------------------------------------------------------

  /** The deferreds, the barrier, and for how many arguments the loop of `when` is through. */
  datatype World = World(ds: seq<Deferred>, b: Barrier, nf: nat)

  /** Other code acts on a deferred; or the loop of `when` registers a callback for resolving, and then the one for
      rejecting; or it ends. */
  datatype Deed = Other(p: nat, a: Action) | RegisterDone | RegisterFail | EndLoop

  predicate ArgsFit(args: seq<Arg>, n: nat) { forall i :: 0 <= i < |args| && args[i].Promised? ==> args[i].p < n }

  function Act(vals: Call -> seq<nat>, s: World, p: nat, a: Action): World
    requires p < |s.ds|
  {
    var d := s.ds[p];
    var e := Next(d, a);
    s.(ds := s.ds[p := e], b := SeesCall(SeesSettling(s.b, vals, p, d, a, e), d, e))
  }

  function Does(vals: Call -> seq<nat>, s: World, x: Deed): World {
    var args := s.b.args;
    match x
    case Other(p, a) =>
      if p < |s.ds| && Admits(args, p, s.b.next, s.nf, a, s.b.next, s.nf) then Act(vals, s, p, a) else s
    case RegisterDone =>
      if s.nf != s.b.next || s.b.next >= |args| || s.b.closed then s
      else
        var i := s.b.next;
        var t := s.(b := Barriers.Next(s.b, Barriers.Attend));
        if args[i].Plain? then t.(nf := i + 1) else if args[i].p < |s.ds| then Act(vals, t, args[i].p, AddTo(Done, [i])) else s
    case RegisterFail =>
      if s.nf >= s.b.next || s.nf >= |args| || args[s.nf].Plain? || args[s.nf].p >= |s.ds| then s
      else Act(vals, s, args[s.nf].p, AddTo(Fail, [s.nf])).(nf := s.nf + 1)
    case EndLoop =>
      if s.nf == |args| then s.(b := Barriers.Next(s.b, Barriers.Close)) else s
  }

  function DoesAll(vals: Call -> seq<nat>, s: World, xs: seq<Deed>): World
    decreases |xs|
  {
    if xs == [] then s else DoesAll(vals, Does(vals, s, xs[0]), xs[1..])
  }

  /** `n` new deferreds, and a call of `when` that is about to begin. */
  function Begins(args: seq<Arg>, n: nat): World { World(seq(n, _ => Start()), Barriers.Start(args), 0) }

  ghost predicate Fits(args: seq<Arg>, vals: Call -> seq<nat>, b: Barrier, nd: nat, nf: nat, p: nat, d: Deferred) {
    Inv(d) && RegsFit(args, nd, nf, p, d) && Tells(vals, p, d, b.settled) && HeardFits(args, p, d, b.heard)
  }

  ghost predicate LoopFits(b: Barrier, nf: nat) {
    && nf <= b.next <= |b.args| && b.next <= nf + 1 && (b.closed ==> nf == |b.args|)
    && (nf < b.next ==> b.args[nf].Promised?)
  }

  ghost predicate WorldFits(args: seq<Arg>, vals: Call -> seq<nat>, s: World) {
    && s.b.args == args && ArgsFit(args, |s.ds|) && Barriers.Inv(s.b) && LoopFits(s.b, s.nf)
    && forall p :: 0 <= p < |s.ds| ==> Fits(args, vals, s.b, s.b.next, s.nf, p, s.ds[p])
  }

  lemma ActKeeps(args: seq<Arg>, vals: Call -> seq<nat>, s: World, p: nat, a: Action, nd: nat, nf: nat, nf': nat)
    requires s.b.args == args && Barriers.Inv(s.b) && p < |s.ds| && Admits(args, p, nd, nf, a, s.b.next, nf')
    requires Fits(args, vals, s.b, nd, nf, p, s.ds[p])
    requires forall q :: 0 <= q < |s.ds| && q != p ==> Fits(args, vals, s.b, s.b.next, nf', q, s.ds[q])
    ensures var t := Act(vals, s, p, a);
            && t.b.args == args && Barriers.Inv(t.b) && t.b.next == s.b.next && t.b.closed == s.b.closed && t.nf == s.nf
            && |t.ds| == |s.ds| && forall q :: 0 <= q < |t.ds| ==> Fits(args, vals, t.b, t.b.next, nf', q, t.ds[q])
  {
    var d := s.ds[p];
    var e := Next(d, a);
    NextMoves(d, a);
    NextCallsOne(d, a);
    RegsStep(args, p, nd, nf, d, a, s.b.next, nf', e);
    SettlingIsSeen(s.b, vals, p, d, a, e);
    var b1 := SeesSettling(s.b, vals, p, d, a, e);
    SeesKeep(s.b, vals, p, d, a, e);
    MovesInv(d, a, e);
    CallIsSeen(args, p, nf', b1, d, e);
    var b2 := SeesCall(b1, d, e);
    hide Next, SeesSettling, SeesCall, Inv, RegsFit, Barriers.Inv, Moves, Won, Admits;
    forall q | 0 <= q < |s.ds| && q != p ensures Fits(args, vals, b2, s.b.next, nf', q, s.ds[q]) {
      OtherFits(args, vals, s.b, b2, p, a, q, s.ds[q], s.b.next, nf');
    }
  }

  lemma MovesInv(d: Deferred, a: Action, e: Deferred)
    requires Moves(d, a, e)
    ensures Inv(e)
  {
  }

  lemma SeesKeep(b: Barrier, vals: Call -> seq<nat>, p: nat, d: Deferred, a: Action, e: Deferred)
    requires Barriers.Inv(b)
    ensures var b1 := SeesSettling(b, vals, p, d, a, e); Barriers.Inv(b1) && Barriers.Inv(SeesCall(b1, d, e))
  {
    hide Barriers.Inv, Barriers.Next;
    if a.FireAt? { Barriers.NextKeeps(b, Barriers.Settle(p, SettlementOf(a.w, vals(a.call)))); }
    var b1 := SeesSettling(b, vals, p, d, a, e);
    if Called(d, e).Some? { Barriers.NextKeeps(b1, Barriers.Hear(Called(d, e).value.id)); }
  }

  /** What one deferred does leaves the others as they were seen. */
  lemma OtherFits(args: seq<Arg>, vals: Call -> seq<nat>, b: Barrier, c: Barrier, p: nat, a: Action, q: nat, d: Deferred, nd: nat, nf: nat)
    requires Fits(args, vals, b, nd, nf, q, d) && q != p
    requires c.settled == b.settled || (a.FireAt? && c.settled == b.settled[p := SettlementOf(a.w, vals(a.call))])
    requires c.heard == b.heard || exists i: nat :: i < |args| && args[i] == Barriers.Promised(p) && c.heard == b.heard + [i]
    ensures Fits(args, vals, c, nd, nf, q, d)
  {
    hide Inv, RegsFit, Won, RanOf;
    assert Tells(vals, q, d, c.settled);
    assert HeardFits(args, q, d, c.heard);
  }

  /** The next argument is not this deferred. */
  lemma SkipsDone(args: seq<Arg>, nd: nat, nf: nat, p: nat, d: Deferred)
    requires RegsFit(args, nd, nf, p, d) && nd < |args| && args[nd] != Barriers.Promised(p)
    ensures RegsFit(args, nd + 1, nf, p, d)
  {
  }

  lemma SkipsFail(args: seq<Arg>, nd: nat, nf: nat, p: nat, d: Deferred)
    requires RegsFit(args, nd, nf, p, d) && nf < nd && args[nf] != Barriers.Promised(p)
    ensures RegsFit(args, nd, nf + 1, p, d)
  {
  }

  lemma AttendIs(b: Barrier)
    requires Barriers.Inv(b) && b.next < |b.args| && !b.closed
    ensures var c := Barriers.Next(b, Barriers.Attend);
            c.next == b.next + 1 && c.args == b.args && c.closed == b.closed && c.settled == b.settled && c.heard == b.heard &&
            Barriers.Inv(c)
  {
    Barriers.NextKeeps(b, Barriers.Attend);
  }

  lemma OtherKeeps(args: seq<Arg>, vals: Call -> seq<nat>, s: World, p: nat, a: Action)
    requires WorldFits(args, vals, s)
    ensures WorldFits(args, vals, Does(vals, s, Other(p, a)))
  {
    hide Fits, Act, Admits, Barriers.Inv;
    if p < |s.ds| && Admits(args, p, s.b.next, s.nf, a, s.b.next, s.nf) {
      ActKeeps(args, vals, s, p, a, s.b.next, s.nf, s.nf);
    }
  }

  lemma RegisterDoneKeeps(args: seq<Arg>, vals: Call -> seq<nat>, s: World)
    requires WorldFits(args, vals, s)
    ensures WorldFits(args, vals, Does(vals, s, RegisterDone))
  {
    hide Act, RegsFit, Tells, HeardFits, Inv, Barriers.Inv, Barriers.Next;
    var i := s.b.next;
    if s.nf == i && i < |args| && !s.b.closed {
      AttendIs(s.b);
      var t := s.(b := Barriers.Next(s.b, Barriers.Attend));
      forall q | 0 <= q < |s.ds| && args[i] != Barriers.Promised(q) ensures Fits(args, vals, t.b, i + 1, i, q, s.ds[q]) {
        SkipsDone(args, i, i, q, s.ds[q]);
      }
      if args[i].Plain? {
        forall q | 0 <= q < |s.ds| ensures Fits(args, vals, t.b, i + 1, i + 1, q, s.ds[q]) {
          SkipsFail(args, i + 1, i, q, s.ds[q]);
        }
      } else {
        ActKeeps(args, vals, t, args[i].p, AddTo(Done, [i]), i, i, i);
      }
    }
  }

  lemma RegisterFailKeeps(args: seq<Arg>, vals: Call -> seq<nat>, s: World)
    requires WorldFits(args, vals, s)
    ensures WorldFits(args, vals, Does(vals, s, RegisterFail))
  {
    hide Act, RegsFit, Tells, HeardFits, Inv, Barriers.Inv, Barriers.Next;
    var i := s.nf;
    if i < s.b.next {
      var p := args[i].p;
      forall q | 0 <= q < |s.ds| && q != p ensures Fits(args, vals, s.b, s.b.next, i + 1, q, s.ds[q]) {
        SkipsFail(args, s.b.next, i, q, s.ds[q]);
      }
      ActKeeps(args, vals, s, p, AddTo(Fail, [i]), s.b.next, i, i + 1);
    }
  }

  lemma EndLoopKeeps(args: seq<Arg>, vals: Call -> seq<nat>, s: World)
    requires WorldFits(args, vals, s)
    ensures WorldFits(args, vals, Does(vals, s, EndLoop))
  {
    hide Inv, RegsFit, Barriers.Inv;
    if s.nf == |args| {
      Barriers.NextKeeps(s.b, Barriers.Close);
      var c := Barriers.Next(s.b, Barriers.Close);
      assert c.settled == s.b.settled && c.heard == s.b.heard && c.next == s.b.next;
    }
  }

  lemma DoesKeeps(args: seq<Arg>, vals: Call -> seq<nat>, s: World, x: Deed)
    requires WorldFits(args, vals, s)
    ensures WorldFits(args, vals, Does(vals, s, x))
  {
    hide WorldFits, Does;
    match x
    case Other(p, a) => OtherKeeps(args, vals, s, p, a);
    case RegisterDone => RegisterDoneKeeps(args, vals, s);
    case RegisterFail => RegisterFailKeeps(args, vals, s);
    case EndLoop => EndLoopKeeps(args, vals, s);
  }

  lemma {:induction false} DoesAllKeeps(args: seq<Arg>, vals: Call -> seq<nat>, s: World, xs: seq<Deed>)
    requires WorldFits(args, vals, s)
    ensures WorldFits(args, vals, DoesAll(vals, s, xs))
    decreases |xs|
  {
    hide WorldFits, Does;
    if xs != [] {
      DoesKeeps(args, vals, s, xs[0]);
      DoesAllKeeps(args, vals, Does(vals, s, xs[0]), xs[1..]);
    }
  }

  lemma BeginsFits(args: seq<Arg>, vals: Call -> seq<nat>, n: nat)
    requires ArgsFit(args, n)
    ensures WorldFits(args, vals, Begins(args, n))
  {
    Barriers.StartInv(args);
    hide Fits, Barriers.Inv, Start;
    forall p: nat ensures Fits(args, vals, Barriers.Start(args), 0, 0, p, Start()) { FreshFits(args, vals, p); }
  }

  lemma FreshFits(args: seq<Arg>, vals: Call -> seq<nat>, p: nat)
    ensures Fits(args, vals, Barriers.Start(args), 0, 0, p, Start())
  {
    StartInv();
    NotBoth(Start());
    hide Inv, Fresh;
  }

  // ---- main results ---------------------------------------------------------------------------

  /** What a deferred is settled with. */
  function SettledWith(vals: Call -> seq<nat>, d: Deferred): Option<Barriers.Settlement> {
    if d.status == Resolved && d.done.memory.Args? then Some(Barriers.ResolvedWith(vals(d.done.memory.call)))
    else if d.status == Rejected && d.fail.memory.Args? then Some(Barriers.RejectedWith(vals(d.fail.memory.call)))
    else None
  }

  /** What argument `i` is settled with. */
  function ArgSettled(vals: Call -> seq<nat>, s: World, i: nat): Option<Barriers.Settlement> {
    if i < |s.b.args| && s.b.args[i].Promised? && s.b.args[i].p < |s.ds| then SettledWith(vals, s.ds[s.b.args[i].p]) else None
  }

  lemma SettledIsTold(args: seq<Arg>, vals: Call -> seq<nat>, s: World, i: nat)
    requires WorldFits(args, vals, s) && i < |args| && args[i].Promised?
    ensures var p := args[i].p;
            p < |s.ds| && ArgSettled(vals, s, i) == if p in s.b.settled then Some(s.b.settled[p]) else None
    ensures (s.ds[args[i].p].status == Pending <==> ArgSettled(vals, s, i).None?)
  {
    var p := args[i].p;
    var d := s.ds[p];
    assert Fits(args, vals, s.b, s.b.next, s.nf, p, d);
    hide Barriers.Inv, RegsFit, HeardFits;
    if !Undecided(d) {
      var w, call :| Won(d, w, call);
    }
  }

  /** No callback of a deciding list is running. */
  predicate Quiet(s: World) { forall p :: 0 <= p < |s.ds| ==> !s.ds[p].done.firing && !s.ds[p].fail.firing }

  /** Then every callback of `when` that is due has run. */
  lemma QuietIsHeard(args: seq<Arg>, vals: Call -> seq<nat>, s: World, i: nat)
    requires WorldFits(args, vals, s) && s.b.closed && Quiet(s)
    requires i < |args| && args[i].Promised? && args[i].p in s.b.settled
    ensures i in s.b.heard
  {
    var p := args[i].p;
    var d := s.ds[p];
    assert Fits(args, vals, s.b, s.b.next, s.nf, p, d);
    hide Barriers.Inv;
    var w, call :| Won(d, w, call);
    assert RanOf(d.log, w) == d.Regs(w) && i in d.Regs(w);
  }

  ghost predicate AllResolve(vals: Call -> seq<nat>, s: World) {
    forall i: nat :: i < |s.b.args| && s.b.args[i].Promised? ==>
      ArgSettled(vals, s, i).Some? && ArgSettled(vals, s, i).value.ResolvedWith?
  }

  ghost predicate SomeRejects(vals: Call -> seq<nat>, s: World) {
    exists i: nat :: ArgSettled(vals, s, i).Some? && ArgSettled(vals, s, i).value.RejectedWith?
  }

  /** The value that `when` hands on for an argument. */
  function ValueOf(vals: Call -> seq<nat>, s: World, i: nat): Barriers.Value
    requires i < |s.b.args|
  {
    var x := ArgSettled(vals, s, i);
    if x.None? || x.value.RejectedWith? then Barriers.Itself(s.b.args[i])
    else
      match |x.value.xs|
      case 0 => Barriers.Undefined
      case 1 => Barriers.One(x.value.xs[0])
      case _ => Barriers.Several(x.value.xs)
  }

  /** In the barrier an argument is as its deferred is. */
  lemma ArgsAreTold(args: seq<Arg>, vals: Call -> seq<nat>, s: World)
    requires WorldFits(args, vals, s)
    ensures forall i: nat :: Barriers.ResolvedAt(s.b, i) <==>
                               ArgSettled(vals, s, i).Some? && ArgSettled(vals, s, i).value.ResolvedWith?
    ensures forall i: nat :: Barriers.RejectedAt(s.b, i) <==>
                               ArgSettled(vals, s, i).Some? && ArgSettled(vals, s, i).value.RejectedWith?
    ensures forall i: nat :: (Barriers.ResolvedAt(s.b, i) || Barriers.RejectedAt(s.b, i)) ==>
                               ArgSettled(vals, s, i) == Some(s.b.settled[args[i].p])
    ensures forall i: nat :: i < |args| ==> ValueOf(vals, s, i) == Barriers.Expected(s.b, i)
  {
    forall i: nat | i < |args| && args[i].Promised?
      ensures ArgSettled(vals, s, i) == if args[i].p in s.b.settled then Some(s.b.settled[args[i].p]) else None
    {
      SettledIsTold(args, vals, s, i);
    }
    hide Fits, Barriers.Inv;
  }

  /** `when` over deferreds that anybody may act on, before, during and after its loop: it resolves only once every
      promise has, with the values that each was resolved with at its own place, and rejects only with what some
      promise was rejected with. */
  lemma WhenIsRight(args: seq<Arg>, vals: Call -> seq<nat>, n: nat, xs: seq<Deed>)
    requires |args| > 1 && ArgsFit(args, n)
    ensures var s := DoesAll(vals, Begins(args, n), xs); var m := s.b.master;
            && s.b.args == args
            && (m.AllResolved? ==>
                  AllResolve(vals, s) && |m.values| == |args| && forall i: nat :: i < |args| ==> m.values[i] == ValueOf(vals, s, i))
            && (m.OneRejected? ==> exists i: nat :: ArgSettled(vals, s, i) == Some(Barriers.RejectedWith(m.xs)))
  {
    BeginsFits(args, vals, n);
    DoesAllKeeps(args, vals, Begins(args, n), xs);
    var s := DoesAll(vals, Begins(args, n), xs);
    hide *;
    EndsRight(args, vals, s);
  }

  lemma EndsRight(args: seq<Arg>, vals: Call -> seq<nat>, s: World)
    requires WorldFits(args, vals, s)
    ensures var m := s.b.master;
            && s.b.args == args
            && (m.AllResolved? ==>
                  AllResolve(vals, s) && |m.values| == |args| && forall i: nat :: i < |args| ==> m.values[i] == ValueOf(vals, s, i))
            && (m.OneRejected? ==> exists i: nat :: ArgSettled(vals, s, i) == Some(Barriers.RejectedWith(m.xs)))
  {
    ArgsAreTold(args, vals, s);
    hide Fits, ArgSettled, ValueOf, Barriers.Expected;
    MasterIs(s.b);
    hide Barriers.Inv;
    if s.b.master.OneRejected? {
      var i: nat :| Barriers.RejectedAt(s.b, i) && s.b.settled[args[i].p].xs == s.b.master.xs;
      assert ArgSettled(vals, s, i) == Some(Barriers.RejectedWith(s.b.master.xs));
    }
  }

  /** When its loop is over and nothing is being called, it is rejected exactly if some promise is, and resolved
      exactly if all are. */
  lemma WhenIsReached(args: seq<Arg>, vals: Call -> seq<nat>, n: nat, xs: seq<Deed>)
    requires |args| > 1 && ArgsFit(args, n)
    ensures var s := DoesAll(vals, Begins(args, n), xs); var m := s.b.master;
            s.b.closed && Quiet(s) ==> (m.OneRejected? <==> SomeRejects(vals, s)) && (m.AllResolved? <==> AllResolve(vals, s))
  {
    BeginsFits(args, vals, n);
    DoesAllKeeps(args, vals, Begins(args, n), xs);
    var s := DoesAll(vals, Begins(args, n), xs);
    hide DoesAll, Fits, Barriers.Inv;
    if s.b.closed && Quiet(s) { QuietOutcomeIs(args, vals, s); }
  }

  lemma QuietOutcomeIs(args: seq<Arg>, vals: Call -> seq<nat>, s: World)
    requires WorldFits(args, vals, s) && s.b.closed && Quiet(s)
    ensures s.b.master.OneRejected? <==> SomeRejects(vals, s)
    ensures s.b.master.AllResolved? <==> AllResolve(vals, s)
  {
    hide Fits, Barriers.Inv, Quiet;
    ArgsAreTold(args, vals, s);
    MasterIs(s.b);
    forall i: nat | i < |args| && args[i].Promised? && args[i].p in s.b.settled ensures i in s.b.heard {
      QuietIsHeard(args, vals, s, i);
    }
    assert forall i :: !Barriers.Due(s.b, i);
    Barriers.QuietOutcome(s.b);
    hide ArgSettled, ValueOf, Barriers.FirstRejection;
    if AllResolve(vals, s) {
      forall i: nat ensures !Barriers.RejectedAt(s.b, i) && !Barriers.Waiting(s.b, i) {
        assert i < |args| && args[i].Promised? ==> Barriers.ResolvedAt(s.b, i);
      }
    }
  }

  /** The two ways in which a barrier ends. */
  lemma MasterIs(b: Barrier)
    requires Barriers.Inv(b)
    ensures b.master.AllResolved? ==>
              b.master.values == Barriers.AllExpected(b) && forall i: nat :: i < |b.args| ==> b.args[i].Plain? || Barriers.ResolvedAt(b, i)
    ensures b.master.OneRejected? ==>
              exists i: nat :: Barriers.RejectedAt(b, i) && b.settled[b.args[i].p].xs == b.master.xs
  {
    Barriers.FirstRejectionIs(b, b.heard);
    if b.master.AllResolved? { Barriers.ZeroIsFinal(b, Barriers.Close); }
    if b.master.OneRejected? { FirstRejectionAt(b, b.heard); }
  }

  lemma {:induction false} FirstRejectionAt(b: Barrier, heard: seq<nat>)
    ensures var f := Barriers.FirstRejection(b, heard);
            f.OneRejected? ==> exists i: nat :: Barriers.RejectedAt(b, i) && b.settled[b.args[i].p].xs == f.xs
    decreases |heard|
  {
    if heard != [] { FirstRejectionAt(b, heard[..|heard| - 1]); }
  }
}
