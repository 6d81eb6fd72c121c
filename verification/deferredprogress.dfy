/** Notifications: whom an accepted `notify` reaches. */
module DeferredProgress {
  import opened Options
  import opened CallbackLists
  import opened Deferreds

  // ---- what is due ----------------------------------------------------------------------------

  /** The function was called with `call`, or has its turn in a pass with `call` that is under way, from the entry
      `ahead` behind the cursor on. */
  ghost predicate Due(c: Cbs<Fn>, log: seq<Ran>, call: Call, id: nat, ahead: nat) {
    || Ran(Progress, id, call) in log
    || (c.firing && c.memory == Args(call) && c.list.Some? &&
        exists i :: 0 <= i < |c.list.value| && c.index + ahead <= i && c.list.value[i] == User(id))
  }

  /** The function is listed, and a pass with `call` is postponed. */
  ghost predicate Waits(c: Cbs<Fn>, call: Call, id: nat) {
    c.stack.Some? && c.list.Some? && call in c.stack.value && User(id) in c.list.value
  }

  /** What is owed is due, or waits and will until it is due or the list is locked. */
  ghost predicate Owed(d: Deferred, call: Call, id: nat, ahead: nat) {
    Due(d.progress, d.log, call, id, ahead) || Waits(d.progress, call, id)
  }

  /** From `d` to `e` nothing that is due is forgotten, and nothing that waits unless the list was locked. */
  ghost predicate Remembers(d: Deferred, e: Deferred, ahead: nat) {
    forall call, id ::
      && (Due(d.progress, d.log, call, id, ahead) ==> Due(e.progress, e.log, call, id, 1))
      && (Waits(d.progress, call, id) && e.progress.stack.Some? ==> Owed(e, call, id, 1))
  }

  // ---- passes of the progress list ------------------------------------------------------------

  lemma LogGrows(log: seq<Ran>, r: Ran)
    ensures r in log + [r] && forall x :: x in log ==> x in log + [r]
  {
  }

  /** One turn. */
  lemma TellsOneMore(d: Deferred)
    requires Telling(d) && d.progress.index < d.progress.length
    ensures Remembers(d, Proceed(d), 0) && Proceed(d).progress == d.progress
  {
    var c := d.progress;
    var frame := d.frames[|d.frames| - 1];
    TellingCall(d);
    assert c.list.value[c.index].User?;
    var r := Ran(Progress, c.list.value[c.index].id, frame.call);
    assert Proceed(d) == d.(log := d.log + [r]);
    hide Proceed, Nested, Progressing, RanWith;
    LogGrows(d.log, r);
  }

  /** Behind the last entry nothing is due but what is done. */
  lemma PassedIsDone(c: Cbs<Fn>, log: seq<Ran>, call: Call, id: nat)
    requires Due(c, log, call, id, 0) && c.list.Some? && |c.list.value| <= c.index
    ensures Ran(Progress, id, call) in log
  {
  }

  /** The next pass, with a call that waited. */
  lemma PassedOn(c: Cbs<Fn>, log: seq<Ran>, call: Call, id: nat)
    requires c.flags == MEMORY && c.start == 0 && Waits(c, call, id)
    ensures var (d, next) := Finish(c);
            && next.Some? && d.list.Some?
            && (Due(Begin(d, next.value), log, call, id, 0) || Waits(Begin(d, next.value), call, id))
  {
    var (d, next) := Finish(c);
    var b := Begin(d, next.value);
    assert c.stack.value == [c.stack.value[0]] + c.stack.value[1..];
    if call == next.value {
      var i :| 0 <= i < |c.list.value| && c.list.value[i] == User(id);
      assert b.index + 0 <= i && b.list.value[i] == User(id);
    }
  }

  lemma {:induction false} TellingRemembers(d: Deferred)
    requires Telling(d) && Decision(d)
    ensures Remembers(d, Proceed(d), 0)
    decreases Postponed(d.progress)
  {
    hide Proceed, Undecided, Won, Nested, RanWith, RanOf, Due, Waits;
    if d.progress.index < d.progress.length {
      TellsOneMore(d);
    } else {
      var (c, next) := Finish(d.progress);
      var out := d.Put(Progress, c).(frames := d.frames[..|d.frames| - 1]);
      var e, more := TellsNext(d);
      forall call, id | Due(d.progress, d.log, call, id, 0) ensures Ran(Progress, id, call) in d.log {
        PassedIsDone(d.progress, d.log, call, id);
      }
      forall call, id | Waits(d.progress, call, id)
        ensures next.Some? && c.list.Some?
        ensures Due(Begin(c, next.value), d.log, call, id, 0) || Waits(Begin(c, next.value), call, id)
      {
        PassedOn(d.progress, d.log, call, id);
      }
      if more {
        SameDecision(d, e);
        TellingRemembers(e);
        Later(d, e, Proceed(e));
      } else {
        DoneIsDue(d.log, out);
      }
    }
  }

  lemma DoneIsDue(log: seq<Ran>, e: Deferred)
    requires forall r :: r in log ==> r in e.log
    ensures forall call, id, ahead :: Ran(Progress, id, call) in log ==> Due(e.progress, e.log, call, id, ahead)
  {
  }

  /** What is owed at the end of a pass is owed at the start of the next. */
  lemma Later(d: Deferred, e: Deferred, f: Deferred)
    requires forall call, id :: Due(d.progress, d.log, call, id, 0) ==> Ran(Progress, id, call) in d.log
    requires forall call, id :: Waits(d.progress, call, id) ==> Owed(e, call, id, 0)
    requires e.log == d.log && Remembers(e, f, 0)
    ensures Remembers(d, f, 0)
  {
    hide Waits;
  }

  // ---- passes of the other lists --------------------------------------------------------------

  /** What is in the lists of `done` and `fail` touches the progress list only to lock it. */
  predicate Harmless(f: Fn) {
    match f
    case User(_) => true
    case Become(_) => true
    case DisableOf(w) => !w.Progress?
    case LockOf(w) => w.Progress?
  }

  predicate HarmlessList(c: Cbs<Fn>) { c.list.Some? ==> forall i :: 0 <= i < |c.list.value| ==> Harmless(c.list.value[i]) }

  /** The progress list stays as it is, or is locked, and calls are only added. */
  ghost predicate Aside(d: Deferred, e: Deferred) {
    && (e.progress == d.progress || e.progress == Lock(d.progress))
    && d.log <= e.log
  }

  lemma AsideTwice(d: Deferred, e: Deferred, f: Deferred)
    requires Aside(d, e) && Aside(e, f)
    ensures Aside(d, f)
  {
  }

  /** From one user's function to the next, or out of the pass. */
  lemma {:induction false} ProceedAside(d: Deferred)
    requires d.frames != [] && !d.frames[|d.frames| - 1].w.Progress?
    requires HarmlessList(d.Get(d.frames[|d.frames| - 1].w))
    ensures Aside(d, Proceed(d))
    decreases Postponed(Top(d)), Top(d).length - Top(d).index
  {
    var n := |d.frames| - 1;
    var frame := d.frames[n];
    var c := Top(d);
    if Running(c) && 0 <= c.index < |c.list.value| {
      var f := c.list.value[c.index];
      if !f.User? {
        EffectTop(d, f);
        var e := Effect(d, f);
        var e' := e.Put(frame.w, Step(e.Get(frame.w)));
        EffectAside(d, f, frame.w);
        ProceedAside(e');
        AsideTwice(d, e', Proceed(e'));
      }
    } else {
      var (c', next) := Finish(c);
      var e := d.Put(frame.w, c').(frames := d.frames[..n]);
      if next.Some? && c'.list.Some? {
        var e' := Enter(e, frame.w, next.value);
        ProceedAside(e');
        AsideTwice(d, e', Proceed(e'));
      }
    }
  }

  lemma EffectAside(d: Deferred, f: Fn, w: Which)
    requires Harmless(f) && !w.Progress? && HarmlessList(d.Get(w))
    ensures var e := Effect(d, f); var e' := e.Put(w, Step(e.Get(w)));
            Aside(d, e') && HarmlessList(e'.Get(w))
  {
  }

  lemma AsideRemembers(d: Deferred, e: Deferred)
    requires Aside(d, e) && Progressing(d.progress, d.noted, 0)
    ensures Remembers(d, e, 1)
  {
    assert forall r :: r in d.log ==> r in e.log;
  }

  lemma UsersAreHarmless(pre: seq<Fn>, ids: seq<nat>)
    requires forall i :: 0 <= i < |pre| ==> Harmless(pre[i])
    ensures forall i :: 0 <= i < |pre + Users(ids)| ==> Harmless((pre + Users(ids))[i])
  {
  }

  lemma ListsAreHarmless(d: Deferred, w: Which)
    requires Inv(d) && !w.Progress?
    ensures HarmlessList(d.Get(w))
  {
    if Undecided(d) {
      UsersAreHarmless(Wiring(w), d.Regs(w));
    } else {
      hide HarmlessList, Settled, RanOf;
      var v, call :| Won(d, v, call);
      if v == w { SettledIsHarmless(d.Get(w), w, call, d.Regs(w), RanOf(d.log, w)); } else { NoListIsHarmless(d.Get(w)); }
    }
  }

  lemma NoListIsHarmless(c: Cbs<Fn>)
    ensures c.list.None? ==> HarmlessList(c)
  {
  }

  lemma SettledIsHarmless(c: Cbs<Fn>, w: Which, call: Call, regs: seq<nat>, ran: seq<nat>)
    requires Settled(c, w, call, regs, ran)
    ensures HarmlessList(c)
  {
    if c.firing {
      var pre: seq<Fn>, k: nat :| InTurn(c, w, pre, k, regs, 1, ran);
      UsersAreHarmless(pre, regs[k..]);
    }
  }

  // ---- every step -----------------------------------------------------------------------------

  lemma RegistersAside(d: Deferred, w: Which, ids: seq<nat>)
    requires Inv(d) && !w.Progress?
    ensures Aside(d, Next(d, AddTo(w, ids)))
  {
    hide Proceed, Inv;
    ListsAreHarmless(d, w);
    var c := d.Get(w);
    if c.list.Some? {
      NotUnique(d, w);
      AddUsers(c, ids);
      UsersAreHarmless(c.list.value, ids);
      var (c', go) := Add(c, Funcs(Users(ids)));
      var e := Register(d.Put(w, c'), w, ids);
      if go.Some? {
        var e' := Enter(e, w, go.value);
        ProceedAside(e');
        AsideTwice(d, e', Proceed(e'));
      }
    } else {
      AddNothing(c, Funcs(Users(ids)));
    }
  }

  lemma NotUnique(d: Deferred, w: Which)
    requires Inv(d) && d.Get(w).list.Some?
    ensures !d.Get(w).flags.unique
  {
    if !Undecided(d) {
      var v, call :| Won(d, v, call);
    }
  }

  lemma FiresAside(d: Deferred, w: Which, call: Call)
    requires Inv(d) && !w.Progress?
    ensures Aside(d, Next(d, FireAt(w, call)))
  {
    hide Proceed, Inv;
    ListsAreHarmless(d, w);
    var (c, go) := FireWith(d.Get(w), call);
    var e := d.Put(w, c);
    if go.Some? && c.list.Some? {
      var e' := Enter(e, w, go.value);
      ProceedAside(e');
      AsideTwice(d, e', Proceed(e'));
    }
  }

  lemma ReturnsAside(d: Deferred)
    requires Inv(d) && d.frames != [] && !d.frames[|d.frames| - 1].w.Progress?
    ensures Aside(d, Next(d, Return))
  {
    hide Proceed, Inv;
    var w := d.frames[|d.frames| - 1].w;
    ListsAreHarmless(d, w);
    var e := d.Put(w, Step(d.Get(w)));
    ProceedAside(e);
    AsideTwice(d, e, Proceed(e));
  }

  /** Returning from a progress callback. */
  lemma ProgressReturnRemembers(d: Deferred)
    requires Inv(d) && d.frames != [] && d.frames[|d.frames| - 1].w.Progress?
    ensures Remembers(d, Next(d, Return), 1)
  {
    hide Proceed, Undecided, Won;
    InFrames(d, Progress);
    var e := d.Put(Progress, Step(d.progress));
    SameDecision(d, e);
    TellingRemembers(e);
    SteppedRemembers(d, e, Proceed(e));
  }

  lemma SteppedRemembers(d: Deferred, e: Deferred, f: Deferred)
    requires e == d.(progress := Step(d.progress)) && Remembers(e, f, 0)
    ensures Remembers(d, f, 1)
  {
    assert forall call, id :: Due(d.progress, d.log, call, id, 1) ==> Due(e.progress, e.log, call, id, 0);
    assert forall call, id :: Waits(d.progress, call, id) ==> Waits(e.progress, call, id);
  }

  /** Registering a progress callback; what is told then is not new. */
  lemma ProgressRegistrationRemembers(d: Deferred, ids: seq<nat>)
    requires Inv(d)
    ensures Remembers(d, Next(d, AddTo(Progress, ids)), 1)
  {
    hide Proceed, Add, Undecided, Won;
    var c := d.progress;
    if c.list.None? {
      AddNothing(c, Funcs(Users(ids)));
      Unchanged(d, Next(d, AddTo(Progress, ids)));
    } else {
      AddUsers(c, ids);
      if !c.firing && c.memory.Args? {
        CatchingUpRemembers(d, ids);
      } else {
        ListGrows(d, Next(d, AddTo(Progress, ids)), ids);
      }
    }
  }

  lemma Unchanged(d: Deferred, e: Deferred)
    requires e.progress == d.progress && e.log == d.log
    ensures Remembers(d, e, 1)
  {
  }

  lemma ListGrows(d: Deferred, e: Deferred, ids: seq<nat>)
    requires d.progress.list.Some? && e.log == d.log
    requires var c := d.progress; var l := c.list.value + Users(ids);
             e.progress == if c.firing then c.(list := Some(l), length := |l|) else c.(list := Some(l))
    ensures Remembers(d, e, 1)
  {
    var l := d.progress.list.value;
    assert forall i :: 0 <= i < |l| ==> e.progress.list.value[i] == l[i];
  }

  /** Outside a pass what is owed has been done. */
  lemma IdleOwesNothing(d: Deferred, e: Deferred, f: Deferred)
    requires Progressing(d.progress, d.noted, 0) && !d.progress.firing && e.log == d.log && Remembers(e, f, 0)
    ensures Remembers(d, f, 1)
  {
    hide Progressing;
    NothingWaits(d);
    assert forall call, id :: Due(d.progress, d.log, call, id, 1) ==> Due(e.progress, e.log, call, id, 0);
  }

  lemma NothingWaits(d: Deferred)
    requires Progressing(d.progress, d.noted, 0) && !d.progress.firing
    ensures forall call, id :: !Waits(d.progress, call, id)
  {
  }

  lemma CatchingUpRemembers(d: Deferred, ids: seq<nat>)
    requires Inv(d) && d.progress.list.Some? && !d.progress.firing && d.progress.memory.Args?
    ensures Remembers(d, Next(d, AddTo(Progress, ids)), 1)
  {
    hide Proceed, Add, Undecided, Won;
    var c := d.progress;
    AddUsers(c, ids);
    var e := d.(progress := c.(list := Some(c.list.value + Users(ids)), start := |c.list.value|));
    NestedEnter(e, Progress, c.memory.call);
    var t := Enter(e, Progress, c.memory.call);
    assert Next(d, AddTo(Progress, ids)) == Proceed(t);
    SameDecision(d, t);
    TellingRemembers(t);
    IdleOwesNothing(d, t, Proceed(t));
  }

  /** A notification that is accepted is owed to every function listed then. */
  lemma NotificationIsOwed(d: Deferred, call: Call)
    requires Inv(d)
    ensures var e := Next(d, FireAt(Progress, call));
            && Remembers(d, e, 1)
            && forall id :: d.progress.stack.Some? && User(id) in d.progress.list.value ==>
                 if d.progress.firing then Waits(e.progress, call, id) else Due(e.progress, e.log, call, id, 1)
  {
    hide Proceed, Undecided, Won;
    var c := d.progress;
    if c.stack.None? {
      Unchanged(d, Next(d, FireAt(Progress, call)));
    } else if c.firing {
      StackGrows(d, Next(d, FireAt(Progress, call)), call);
    } else {
      var e := d.(noted := d.noted + {call});
      Noted(d, e);
      NestedEnter(e, Progress, call);
      var t := Enter(e, Progress, call);
      SameDecision(e, t);
      TellingRemembers(t);
      IdleOwesNothing(d, t, Proceed(t));
      EnteredIsDue(e, call);
    }
  }

  lemma StackGrows(d: Deferred, e: Deferred, call: Call)
    requires d.progress.stack.Some? && e.log == d.log
    requires e.progress == d.progress.(stack := Some(d.progress.stack.value + [call]))
    ensures Remembers(d, e, 1)
    ensures forall id :: d.progress.list.Some? && User(id) in d.progress.list.value ==> Waits(e.progress, call, id)
  {
    var s := d.progress.stack.value;
    assert (s + [call])[|s|] == call && forall x :: x in s ==> x in s + [call];
  }

  lemma EnteredIsDue(d: Deferred, call: Call)
    requires d.progress.list.Some? && d.progress.flags == MEMORY && d.progress.start == 0
    ensures var t := Enter(d, Progress, call);
            forall id :: User(id) in d.progress.list.value ==> Due(t.progress, t.log, call, id, 0)
  {
  }

  /** No step forgets what is owed, but for what waits when the list is locked. */
  lemma NextRemembers(d: Deferred, a: Action)
    requires Inv(d)
    ensures Remembers(d, Next(d, a), 1)
  {
    hide Proceed, Next, Remembers, Aside, Nested;
    match a
    case AddTo(w, ids) =>
      if w.Progress? {
        ProgressRegistrationRemembers(d, ids);
      } else {
        RegistersAside(d, w, ids);
        AsideRemembers(d, Next(d, a));
      }
    case FireAt(w, call) =>
      if w.Progress? {
        NotificationIsOwed(d, call);
      } else {
        FiresAside(d, w, call);
        AsideRemembers(d, Next(d, a));
      }
    case Return =>
      if d.frames == [] {
        NothingReturns(d);
        Unchanged(d, Next(d, a));
      } else if d.frames[|d.frames| - 1].w.Progress? {
        ProgressReturnRemembers(d);
      } else {
        ReturnsAside(d);
        AsideRemembers(d, Next(d, a));
      }
  }

  lemma NothingReturns(d: Deferred)
    requires d.frames == []
    ensures Next(d, Return) == d
  {
  }

  // ---- runs -----------------------------------------------------------------------------------

  /** Locking is for good. */
  lemma {:induction false} RunRemembers(d: Deferred, acts: seq<Action>)
    requires Inv(d)
    ensures Inv(Run(d, acts)) && Remembers(d, Run(d, acts), 1)
    ensures Run(d, acts).progress.stack.Some? ==> d.progress.stack.Some?
    decreases |acts|
  {
    hide Next, Inv, Remembers;
    if acts == [] {
      Unchanged(d, d);
    } else {
      var e := Next(d, acts[0]);
      NextRemembers(d, acts[0]);
      NextMoves(d, acts[0]);
      MovesInv(d, acts[0], e);
      RunRemembers(e, acts[1..]);
      RemembersTwice(d, e, Run(e, acts[1..]));
    }
  }

  lemma MovesInv(d: Deferred, a: Action, e: Deferred)
    requires Inv(d) && Moves(d, a, e)
    ensures Inv(e) && (e.progress.stack.Some? ==> d.progress.stack.Some?)
  {
    if !Undecided(d) {
      var w, call :| Won(d, w, call);
      assert Won(e, w, call);
    }
  }

  lemma RemembersTwice(d: Deferred, e: Deferred, f: Deferred)
    requires Remembers(d, e, 1) && Remembers(e, f, 1) && (f.progress.stack.Some? ==> e.progress.stack.Some?)
    ensures Remembers(d, f, 1)
  {
    hide Due, Waits;
  }

  /** Whatever happens afterwards, a notification that is accepted reaches every progress callback listed then: for
      certain once no progress callback is running if none was when it came; and otherwise once none is, unless
      the deferred was settled in between, which drops what waits. */
  lemma NotifiedAreTold(before: seq<Action>, call: Call, after: seq<Action>, id: nat)
    ensures var d := Run(Start(), before);
            var e := Run(Next(d, FireAt(Progress, call)), after);
            d.status == Pending ==>
              d.progress.list.Some? &&
              (User(id) in d.progress.list.value && !e.progress.firing && (!d.progress.firing || e.status == Pending) ==>
                 Ran(Progress, id, call) in e.log)
  {
    hide Next, Run, Remembers, Due, Waits, Undecided, Won;
    StartInv();
    RunKeeps(Start(), before);
    var d := Run(Start(), before);
    var n := Next(d, FireAt(Progress, call));
    NotificationIsOwed(d, call);
    NextMoves(d, FireAt(Progress, call));
    MovesInv(d, FireAt(Progress, call), n);
    RunRemembers(n, after);
    var e := Run(n, after);
    AcceptsWhilePending(d);
    AcceptsWhilePending(e);
    if !e.progress.firing { OwedIsDone(n, e, call, id); }
  }

  /** Notifications count exactly until the deferred is settled. */
  lemma AcceptsWhilePending(d: Deferred)
    requires Inv(d)
    ensures d.status == Pending <==> d.progress.stack.Some?
    ensures d.status == Pending ==> d.progress.list.Some?
  {
  }

  lemma OwedIsDone(n: Deferred, e: Deferred, call: Call, id: nat)
    requires Inv(e) && Remembers(n, e, 1) && !e.progress.firing
    ensures Due(n.progress, n.log, call, id, 1) || (Waits(n.progress, call, id) && e.progress.stack.Some?) ==>
              Ran(Progress, id, call) in e.log
  {
  }

  // ---- callbacks that come late ---------------------------------------------------------------

  /** A pass of the progress list that starts at its end, or at a user's function. */
  lemma FirstTurn(t: Deferred)
    requires Telling(t) && (t.progress.stack.Some? ==> t.progress.stack.value == [])
    ensures var e := Proceed(t); var c := t.progress;
            && (c.index < c.length ==>
                  c.list.value[c.index].User? && c.memory.Args? &&
                  e == t.(log := t.log + [Ran(Progress, c.list.value[c.index].id, c.memory.call)]))
            && (c.index >= c.length ==> e.log == t.log && !e.progress.firing)
            && e.progress.memory == c.memory && e.progress.list == c.list && e.progress.index == c.index
  {
    TellingCall(t);
    var c := t.progress;
    if c.index < c.length {
      assert c.list.value[c.index].User?;
    } else {
      LeavesProgress(t);
    }
  }

  /** A notification that is accepted outside a pass is the one that is remembered. */
  lemma LastIsRemembered(d: Deferred, call: Call)
    requires Inv(d) && d.status == Pending && !d.progress.firing
    ensures Next(d, FireAt(Progress, call)).progress.memory == Args(call)
  {
    hide Proceed, Undecided, Won;
    AcceptsWhilePending(d);
    var e := d.(noted := d.noted + {call});
    Noted(d, e);
    NestedEnter(e, Progress, call);
    var t := Enter(e, Progress, call);
    FirstTurn(t);
  }

  /** Progress callbacks that are registered outside a pass, after a notification: the first is called at once with the
      one that is remembered, and the pass goes on from there, over the new ones only. */
  lemma LateProgressIsTold(d: Deferred, ids: seq<nat>, call: Call)
    requires Inv(d) && !d.progress.firing && d.progress.memory == Args(call) && d.progress.list.Some?
    ensures var e := Next(d, AddTo(Progress, ids)); var l := d.progress.list.value;
            && e.log == d.log + (if ids == [] then [] else [Ran(Progress, ids[0], call)])
            && e.progress.list == Some(l + Users(ids)) && e.progress.memory == Args(call)
            && (e.progress.firing <==> ids != []) && e.progress.index == |l|
  {
    hide Proceed, Add, Undecided, Won;
    var c := d.progress;
    AddUsers(c, ids);
    var e := d.(progress := c.(list := Some(c.list.value + Users(ids)), start := |c.list.value|));
    NestedEnter(e, Progress, call);
    var t := Enter(e, Progress, call);
    assert Next(d, AddTo(Progress, ids)) == Proceed(t);
    FirstTurn(t);
    assert ids != [] ==> t.progress.list.value[|c.list.value|] == User(ids[0]);
    assert d.log + [] == d.log;
  }
}
