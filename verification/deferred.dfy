/** `b.Deferred`: three callback lists wired together, as a state machine whose steps are taken by user code. */
module Deferreds {
  import opened Options
  import opened CallbackLists

  datatype Which = Done | Fail | Progress

  datatype Status = Pending | Resolved | Rejected

  /** A function in one of the lists: a user's, or one of those the constructor registers. */
  datatype Fn = User(id: nat) | Become(status: Status) | DisableOf(w: Which) | LockOf(w: Which)

  /** A pass that is under way: one of its callbacks is running. */
  datatype Frame = Frame(w: Which, call: Call)

  /** A user's function that was called, from which list and with what. */
  datatype Ran = Ran(w: Which, id: nat, call: Call)

  /** The lists, the state variable, the passes under way (innermost last), and what happened so far:
      the calls made, the registrations, and the notifications that were accepted. */
  datatype Deferred = Deferred(done: Cbs<Fn>, fail: Cbs<Fn>, progress: Cbs<Fn>, status: Status,
                               frames: seq<Frame>, log: seq<Ran>,
                               doneRegs: seq<nat>, failRegs: seq<nat>, noted: set<Call>)
  {
    function Get(w: Which): Cbs<Fn> {
      match w case Done => done case Fail => fail case Progress => progress
    }

    function Put(w: Which, c: Cbs<Fn>): Deferred {
      match w
      case Done => this.(done := c)
      case Fail => this.(fail := c)
      case Progress => this.(progress := c)
    }

    function Regs(w: Which): seq<nat> {
      match w case Done => doneRegs case Fail => failRegs case Progress => []
    }
  }

  const ONCE_MEMORY := Flags(true, true, false, false)
  const MEMORY := Flags(false, true, false, false)

  function Outcome(w: Which): Status {
    match w case Done => Resolved case Fail => Rejected case Progress => Pending
  }

  function Other(w: Which): Which {
    match w case Done => Fail case Fail => Done case Progress => Progress
  }

  /** The functions the constructor registers first. */
  function Wiring(w: Which): seq<Fn> {
    if w.Progress? then [] else [Become(Outcome(w)), DisableOf(Other(w)), LockOf(Progress)]
  }

  function Fresh(w: Which): Cbs<Fn> {
    Add(New(if w.Progress? then MEMORY else ONCE_MEMORY), Funcs(Wiring(w))).0
  }

  function Start(): Deferred {
    Deferred(Fresh(Done), Fresh(Fail), Fresh(Progress), Pending, [], [], [], [], {})
  }

  function Funcs(fs: seq<Fn>): seq<Arg<Fn>> {
    if fs == [] then [] else [Func(fs[0])] + Funcs(fs[1..])
  }

  function Users(ids: seq<nat>): (r: seq<Fn>)
    ensures |r| == |ids| && forall i :: 0 <= i < |ids| ==> r[i] == User(ids[i])
  {
    if ids == [] then [] else [User(ids[0])] + Users(ids[1..])
  }

  // ---- running --------------------------------------------------------------------------------

  /** What one of the constructor's functions does. */
  function Effect(d: Deferred, f: Fn): Deferred {
    match f
    case User(_) => d
    case Become(status) => d.(status := status)
    case DisableOf(w) => d.Put(w, Disable(d.Get(w)))
    case LockOf(w) => d.Put(w, Lock(d.Get(w)))
  }

  function Step(c: Cbs<Fn>): Cbs<Fn> { c.(index := c.index + 1) }

  function Postponed(c: Cbs<Fn>): nat { if c.stack.Some? then |c.stack.value| else 0 }

  function Top(d: Deferred): Cbs<Fn>
    requires d.frames != []
  {
    d.Get(d.frames[|d.frames| - 1].w)
  }

  lemma EffectTop(d: Deferred, f: Fn)
    requires d.frames != []
    ensures Effect(d, f).frames == d.frames && Postponed(Top(Effect(d, f))) <= Postponed(Top(d))
    ensures Top(Effect(d, f)).length == Top(d).length && Top(Effect(d, f)).index == Top(d).index
  {
  }

  /** From a loop head of the innermost pass to the next call of a user's function, or out of the pass. */
  function Proceed(d: Deferred): Deferred
    requires d.frames != []
    decreases Postponed(Top(d)), Top(d).length - Top(d).index
  {
    var n := |d.frames| - 1;
    var frame := d.frames[n];
    var c := Top(d);
    if Running(c) && 0 <= c.index < |c.list.value| then
      var f := c.list.value[c.index];
      if f.User? then d.(log := d.log + [Ran(frame.w, f.id, frame.call)])
      else
        EffectTop(d, f);
        var e := Effect(d, f);
        Proceed(e.Put(frame.w, Step(e.Get(frame.w))))
    else
      var (c', next) := Finish(c);
      var e := d.Put(frame.w, c').(frames := d.frames[..n]);
      if next.None? || c'.list.None? then e else Proceed(Enter(e, frame.w, next.value))
  }

  /** The start of a pass. */
  function Enter(d: Deferred, w: Which, call: Call): (r: Deferred)
    requires d.Get(w).list.Some?
    ensures r.frames != []
  {
    d.Put(w, Begin(d.Get(w), call)).(frames := d.frames + [Frame(w, call)])
  }

  /** What user code can do: register functions, resolve, reject or notify, and return from a callback. */
  datatype Action = AddTo(w: Which, ids: seq<nat>) | FireAt(w: Which, call: Call) | Return

  function Register(d: Deferred, w: Which, ids: seq<nat>): Deferred {
    match w
    case Done => d.(doneRegs := d.doneRegs + ids)
    case Fail => d.(failRegs := d.failRegs + ids)
    case Progress => d
  }

  function Next(d: Deferred, a: Action): Deferred {
    match a
    case AddTo(w, ids) =>
      var (c, go) := Add(d.Get(w), Funcs(Users(ids)));
      var e := Register(d.Put(w, c), w, ids);
      if go.Some? && c.list.Some? then Proceed(Enter(e, w, go.value)) else e
    case FireAt(w, call) =>
      var (c, go) := FireWith(d.Get(w), call);
      var e := d.Put(w, c).(noted := if w.Progress? && d.progress.stack.Some? then d.noted + {call} else d.noted);
      if go.Some? && c.list.Some? then Proceed(Enter(e, w, go.value)) else e
    case Return =>
      if d.frames == [] then d
      else
        var w := d.frames[|d.frames| - 1].w;
        Proceed(d.Put(w, Step(d.Get(w))))
  }

  function Run(d: Deferred, acts: seq<Action>): Deferred
    decreases |acts|
  {
    if acts == [] then d else Run(Next(d, acts[0]), acts[1..])
  }

  // ---- the invariant --------------------------------------------------------------------------

  /** The users' functions called from list `w`, in order. */
  function RanOf(log: seq<Ran>, w: Which): seq<nat> {
    if log == [] then []
    else
      var n := |log| - 1;
      RanOf(log[..n], w) + if log[n].w == w then [log[n].id] else []
  }

  ghost predicate RanWith(log: seq<Ran>, w: Which, calls: set<Call>) {
    forall i :: 0 <= i < |log| && log[i].w == w ==> log[i].call in calls
  }

  /** A list that neither fired nor was disabled. */
  ghost predicate Open(c: Cbs<Fn>, w: Which, regs: seq<nat>) {
    && c.flags == ONCE_MEMORY && c.list == Some(Wiring(w) + Users(regs)) && c.stack == Some([])
    && c.memory == Unset && !c.firing && c.start == 0
  }

  /** A list that was disabled before it fired. */
  ghost predicate Closed(c: Cbs<Fn>) {
    c.list.None? && c.stack.None? && c.memory == Unset && !c.firing
  }

  /** The list in a pass: `pre` is what the constructor registered, or nothing in a later pass; the first
      `k` registrations had their turn in earlier passes, and the entries before the cursor, with `now` the
      one at the cursor too, have had theirs in this one. */
  ghost predicate InTurn(c: Cbs<Fn>, w: Which, pre: seq<Fn>, k: nat, regs: seq<nat>, now: nat, ran: seq<nat>) {
    && c.firing && (pre == Wiring(w) || pre == []) && k <= |regs|
    && c.list == Some(pre + Users(regs[k..])) && c.length == |c.list.value|
    && |pre| <= c.index + now <= c.length && 0 <= c.index && ran == regs[..k + c.index + now - |pre|]
  }

  /** A list that fired with `call`: what it called is a prefix of the registrations, and all of them
      once no pass is under way. */
  ghost predicate Settled(c: Cbs<Fn>, w: Which, call: Call, regs: seq<nat>, ran: seq<nat>) {
    && c.flags == ONCE_MEMORY && c.memory == Args(call) && c.start == 0 && c.stack == Some([])
    && (if c.firing then c.index < c.length && exists pre, k :: InTurn(c, w, pre, k, regs, 1, ran)
        else c.list == Some([]) && ran == regs)
  }

  /** `w` won: its list fired, the other is disabled and never called anything, notifying is over. */
  ghost predicate Won(d: Deferred, w: Which, call: Call) {
    && d.status == Outcome(w) && !w.Progress?
    && Settled(d.Get(w), w, call, d.Regs(w), RanOf(d.log, w)) && RanWith(d.log, w, {call})
    && Closed(d.Get(Other(w))) && RanOf(d.log, Other(w)) == []
    && d.progress.stack.None?
  }

  ghost predicate Undecided(d: Deferred) {
    && d.status == Pending
    && Open(d.done, Done, d.doneRegs) && Open(d.fail, Fail, d.failRegs)
    && RanOf(d.log, Done) == [] && RanOf(d.log, Fail) == []
    && d.progress.stack.Some?
  }

  predicate AllUsers(fs: seq<Fn>) { forall i :: 0 <= i < |fs| ==> fs[i].User? }

  /** The progress list, with its cursor between `lo` and `hi` while a pass is under way; everything it
      has to tell was notified. */
  ghost predicate Progressing(c: Cbs<Fn>, noted: set<Call>, slack: int) {
    && c.flags == MEMORY && c.start == 0 && c.memory != Fired
    && (c.stack.Some? ==> c.list.Some?) && (c.list.Some? ==> AllUsers(c.list.value))
    && (c.firing ==> c.list.Some? && c.memory.Args? && c.length == |c.list.value| && 0 <= c.index < c.length + slack)
    && (!c.firing && c.stack.Some? ==> c.stack.value == [])
    && (c.memory.Args? ==> c.memory.call in noted)
    && (c.stack.Some? ==> forall i :: 0 <= i < |c.stack.value| ==> c.stack.value[i] in noted)
  }

  /** The calls with which passes of list `w` are under way. */
  function CallsOf(frames: seq<Frame>, w: Which): seq<Call> {
    if frames == [] then []
    else
      var n := |frames| - 1;
      CallsOf(frames[..n], w) + if frames[n].w == w then [frames[n].call] else []
  }

  /** A list is firing, with its memory, exactly while one pass of it is under way. */
  predicate Matches(c: Cbs<Fn>, frames: seq<Frame>, w: Which) {
    if c.firing then c.memory.Args? && CallsOf(frames, w) == [c.memory.call] else CallsOf(frames, w) == []
  }

  predicate Nested(d: Deferred) {
    Matches(d.done, d.frames, Done) && Matches(d.fail, d.frames, Fail) && Matches(d.progress, d.frames, Progress)
  }

  ghost predicate Inv(d: Deferred) {
    && Nested(d) && Progressing(d.progress, d.noted, 0) && RanWith(d.log, Progress, d.noted) && Decision(d)
  }

  ghost predicate Decision(d: Deferred) { Undecided(d) || exists w, call :: Won(d, w, call) }

  // ---- lists of functions ---------------------------------------------------------------------

  lemma {:induction false} FlattenFuncs(fs: seq<Fn>)
    ensures Flatten(Funcs(fs)) == fs
  {
    if fs != [] {
      FlattenFuncs(fs[1..]);
      assert Funcs(fs)[1..] == Funcs(fs[1..]);
    }
  }

  lemma AddUsers(c: Cbs<Fn>, ids: seq<nat>)
    requires c.list.Some? && !c.flags.unique
    ensures var l := c.list.value + Users(ids);
            Add(c, Funcs(Users(ids))) ==
            if c.firing then (c.(list := Some(l), length := |l|), None)
            else if c.memory.Args? then (c.(list := Some(l), start := |c.list.value|), Some(c.memory.call))
            else (c.(list := Some(l)), None)
  {
    FlattenFuncs(Users(ids));
    PushAllPlain(c.list.value, Users(ids));
  }

  lemma UsersAppend(a: seq<nat>, b: seq<nat>)
    ensures Users(a + b) == Users(a) + Users(b)
  {
  }

  lemma RanOfSnoc(log: seq<Ran>, r: Ran, w: Which)
    ensures RanOf(log + [r], w) == RanOf(log, w) + if r.w == w then [r.id] else []
  {
    assert (log + [r])[..|log|] == log;
  }

  lemma RanWithSnoc(log: seq<Ran>, r: Ran, w: Which, calls: set<Call>)
    requires RanWith(log, w, calls) && (r.w == w ==> r.call in calls)
    ensures RanWith(log + [r], w, calls)
  {
  }

  // ---- passes ---------------------------------------------------------------------------------

  lemma CallsOfSnoc(frames: seq<Frame>, f: Frame, w: Which)
    ensures CallsOf(frames + [f], w) == CallsOf(frames, w) + if f.w == w then [f.call] else []
  {
    assert (frames + [f])[..|frames|] == frames;
  }

  /** Leaving the innermost pass. */
  lemma NestedPop(d: Deferred, c: Cbs<Fn>)
    requires Nested(d) && d.frames != [] && !c.firing
    ensures var n := |d.frames| - 1;
            Nested(d.Put(d.frames[n].w, c).(frames := d.frames[..n]))
  {
    var n := |d.frames| - 1;
    var f := d.frames[n];
    assert d.frames == d.frames[..n] + [f];
    CallsOfSnoc(d.frames[..n], f, Done);
    CallsOfSnoc(d.frames[..n], f, Fail);
    CallsOfSnoc(d.frames[..n], f, Progress);
  }

  /** Entering a pass of a list that is not firing. */
  lemma NestedEnter(d: Deferred, w: Which, call: Call)
    requires Nested(d) && !d.Get(w).firing && d.Get(w).list.Some? && d.Get(w).flags.memory
    ensures Nested(Enter(d, w, call))
  {
    CallsOfSnoc(d.frames, Frame(w, call), Done);
    CallsOfSnoc(d.frames, Frame(w, call), Fail);
    CallsOfSnoc(d.frames, Frame(w, call), Progress);
  }

  // ---- the winning list -----------------------------------------------------------------------

  /** `w` won and its pass is at a loop head, past what the constructor registered. */
  ghost predicate AtTurn(d: Deferred, w: Which, call: Call, pre: seq<Fn>, k: nat) {
    && d.status == Outcome(w) && !w.Progress?
    && d.frames != [] && d.frames[|d.frames| - 1] == Frame(w, call)
    && Turning(d.Get(w), w, call, pre, k, d.Regs(w), RanOf(d.log, w)) && RanWith(d.log, w, {call})
    && Closed(d.Get(Other(w))) && RanOf(d.log, Other(w)) == []
    && d.progress.stack.None?
    && Nested(d) && Progressing(d.progress, d.noted, 0) && RanWith(d.log, Progress, d.noted)
  }

  ghost predicate Turning(c: Cbs<Fn>, w: Which, call: Call, pre: seq<Fn>, k: nat, regs: seq<nat>, ran: seq<nat>) {
    && c.flags == ONCE_MEMORY && c.memory == Args(call) && c.start == 0 && c.stack == Some([])
    && InTurn(c, w, pre, k, regs, 0, ran)
  }

  /** The next registration has its turn. */
  lemma TurnTaken(c: Cbs<Fn>, w: Which, call: Call, pre: seq<Fn>, k: nat, regs: seq<nat>, ran: seq<nat>) returns (id: nat)
    requires Turning(c, w, call, pre, k, regs, ran) && c.index < c.length
    ensures Running(c) && 0 <= c.index < |c.list.value| && c.list.value[c.index] == User(id)
    ensures Settled(c, w, call, regs, ran + [id])
  {
    var j := c.index - |pre|;
    id := regs[k + j];
    assert c.list.value[c.index] == Users(regs[k..])[j] == User(id);
    assert regs[..k + j] + [id] == regs[..k + j + 1];
    assert InTurn(c, w, pre, k, regs, 1, ran + [id]);
  }

  /** All registrations have had their turn. */
  lemma TurnsOver(c: Cbs<Fn>, w: Which, call: Call, pre: seq<Fn>, k: nat, regs: seq<nat>, ran: seq<nat>)
    requires Turning(c, w, call, pre, k, regs, ran) && !(c.index < c.length)
    ensures !Running(c) && Finish(c) == (c.(firing := false, list := Some([])), None)
    ensures Settled(c.(firing := false, list := Some([])), w, call, regs, ran)
  {
    assert k + c.length - |pre| == |regs| && regs[..|regs|] == regs;
  }

  lemma TurnProceeds(d: Deferred, w: Which, call: Call, pre: seq<Fn>, k: nat)
    requires AtTurn(d, w, call, pre, k)
    ensures Inv(Proceed(d)) && Won(Proceed(d), w, call)
    ensures Proceed(d).doneRegs == d.doneRegs && Proceed(d).failRegs == d.failRegs && Proceed(d).noted == d.noted
  {
    hide Turning, Settled, Closed, Progressing;
    var c := d.Get(w);
    var n := |d.frames| - 1;
    if c.index < c.length {
      var id := TurnTaken(c, w, call, pre, k, d.Regs(w), RanOf(d.log, w));
      var r := Ran(w, id, call);
      assert Proceed(d) == d.(log := d.log + [r]);
      RanOfSnoc(d.log, r, w);
      RanOfSnoc(d.log, r, Other(w));
      RanWithSnoc(d.log, r, w, {call});
      RanWithSnoc(d.log, r, Progress, d.noted);
      assert Won(Proceed(d), w, call);
    } else {
      TurnsOver(c, w, call, pre, k, d.Regs(w), RanOf(d.log, w));
      var e := d.Put(w, c.(firing := false, list := Some([]))).(frames := d.frames[..n]);
      assert Proceed(d) == e;
      NestedPop(d, c.(firing := false, list := Some([])));
      assert e.Get(w) == c.(firing := false, list := Some([])) && e.Get(Other(w)) == d.Get(Other(w));
      assert e.progress == d.progress && e.Regs(w) == d.Regs(w);
      assert Won(e, w, call);
      assert Nested(e) && Progressing(e.progress, e.noted, 0);
    }
  }

  // ---- the decision ---------------------------------------------------------------------------

  lemma RunsWiring(d: Deferred, w: Which, f: Fn)
    requires d.frames != [] && d.frames[|d.frames| - 1].w == w
    requires Running(d.Get(w)) && 0 <= d.Get(w).index < |d.Get(w).list.value| && d.Get(w).list.value[d.Get(w).index] == f
    requires !f.User?
    ensures var e := Effect(d, f); Proceed(d) == Proceed(e.Put(w, Step(e.Get(w))))
  {
    hide Effect;
  }

  /** The state when the constructor's three functions have run. */
  function Decided(d: Deferred, w: Which): Deferred {
    var c := d.Get(w);
    d.Put(w, c.(index := 3)).Put(Other(w), Disable(d.Get(Other(w)))).(status := Outcome(w), progress := Lock(d.progress))
  }

  /** The first functions of a list that fires change the state, disable the other list, and lock notifying. */
  lemma WiringProceeds(d: Deferred, w: Which)
    requires !w.Progress? && d.frames != [] && d.frames[|d.frames| - 1].w == w
    requires var c := d.Get(w);
             c.list.Some? && Wiring(w) <= c.list.value && c.index == 0 && c.length == |c.list.value|
    ensures Proceed(d) == Proceed(Decided(d, w))
  {
    hide *;
    var d1, d2 := WiringRuns(d, w);
    RunsBecome(d, w);
    RunsDisable(d1, w);
    RunsLock(d2, w);
  }

  /** The states between these three calls. */
  lemma WiringRuns(d: Deferred, w: Which) returns (d1: Deferred, d2: Deferred)
    requires !w.Progress? && d.frames != [] && d.frames[|d.frames| - 1].w == w
    requires var c := d.Get(w);
             c.list.Some? && Wiring(w) <= c.list.value && c.index == 0 && c.length == |c.list.value|
    ensures Runs(d, w, Become(Outcome(w))) && d1 == d.(status := Outcome(w)).Put(w, Step(d.Get(w)))
    ensures Runs(d1, w, DisableOf(Other(w)))
    ensures d2 == d1.Put(Other(w), Disable(d1.Get(Other(w)))).Put(w, Step(d1.Get(w)))
    ensures Runs(d2, w, LockOf(Progress))
    ensures Decided(d, w) == d2.(progress := Lock(d2.progress)).Put(w, Step(d2.Get(w)))
  {
    var c := d.Get(w);
    var fs := Wiring(w);
    assert c.list.value[0] == fs[0] && c.list.value[1] == fs[1] && c.list.value[2] == fs[2];
    d1 := d.(status := Outcome(w)).Put(w, Step(c));
    d2 := d.(status := Outcome(w)).Put(Other(w), Disable(d.Get(Other(w)))).Put(w, c.(index := 2));
  }

  ghost predicate Runs(d: Deferred, w: Which, f: Fn) {
    && d.frames != [] && d.frames[|d.frames| - 1].w == w
    && Running(d.Get(w)) && 0 <= d.Get(w).index < |d.Get(w).list.value| && d.Get(w).list.value[d.Get(w).index] == f
  }

  lemma RunsBecome(d: Deferred, w: Which)
    requires Runs(d, w, Become(Outcome(w)))
    ensures Proceed(d) == Proceed(d.(status := Outcome(w)).Put(w, Step(d.Get(w))))
  {
    hide Proceed;
    RunsWiring(d, w, Become(Outcome(w)));
  }

  lemma RunsDisable(d: Deferred, w: Which)
    requires Runs(d, w, DisableOf(Other(w))) && !w.Progress?
    ensures Proceed(d) == Proceed(d.Put(Other(w), Disable(d.Get(Other(w)))).Put(w, Step(d.Get(w))))
  {
    hide Proceed;
    RunsWiring(d, w, DisableOf(Other(w)));
  }

  lemma RunsLock(d: Deferred, w: Which)
    requires Runs(d, w, LockOf(Progress)) && !w.Progress?
    ensures Proceed(d) == Proceed(d.(progress := Lock(d.progress)).Put(w, Step(d.Get(w))))
  {
    hide Proceed;
    RunsWiring(d, w, LockOf(Progress));
  }

  /** The first `resolve` or `reject` decides; every registration so far has its turn next. */
  lemma FiringDecides(d: Deferred, w: Which, call: Call)
    requires Inv(d) && Undecided(d) && !w.Progress?
    ensures var e := Proceed(Enter(d, w, call));
            Inv(e) && Won(e, w, call) && e.doneRegs == d.doneRegs && e.failRegs == d.failRegs && e.noted == d.noted
  {
    hide Proceed;
    var b := Enter(d, w, call);
    NestedEnter(d, w, call);
    WiringProceeds(b, w);
    DecidedAtTurn(b, w, call);
    TurnProceeds(Decided(b, w), w, call, Wiring(w), 0);
  }

  lemma DecidedAtTurn(b: Deferred, w: Which, call: Call)
    requires !w.Progress? && b.frames != [] && b.frames[|b.frames| - 1] == Frame(w, call)
    requires Nested(b) && Progressing(b.progress, b.noted, 0) && RanWith(b.log, Progress, b.noted)
    requires var c := b.Get(w);
             c.flags == ONCE_MEMORY && c.list == Some(Wiring(w) + Users(b.Regs(w))) && c.stack == Some([]) &&
             c.memory == Args(call) && c.firing && c.start == 0 && c.index == 0 && c.length == |c.list.value|
    requires Open(b.Get(Other(w)), Other(w), b.Regs(Other(w)))
    requires RanOf(b.log, Done) == [] && RanOf(b.log, Fail) == []
    ensures AtTurn(Decided(b, w), w, call, Wiring(w), 0)
  {
    hide Proceed;
    WiringTurn(b.Get(w), w, b.Regs(w), RanOf(b.log, w));
    NoneRan(b.log, w, {call});
    DecidedParts(b, w);
    assert Nested(Decided(b, w));
    hide InTurn, Nested, Decided, RanOf, RanWith;
  }

  lemma DecidedParts(d: Deferred, w: Which)
    requires !w.Progress?
    ensures var e := Decided(d, w);
            && e.Get(w) == d.Get(w).(index := 3) && e.Get(Other(w)) == Disable(d.Get(Other(w)))
            && e.progress == Lock(d.progress) && e.status == Outcome(w)
            && e.log == d.log && e.noted == d.noted && e.frames == d.frames && e.Regs(w) == d.Regs(w)
  {
  }

  lemma WiringTurn(c: Cbs<Fn>, w: Which, regs: seq<nat>, ran: seq<nat>)
    requires !w.Progress? && c.firing && c.list == Some(Wiring(w) + Users(regs)) && c.length == |c.list.value| && ran == []
    ensures InTurn(c.(index := 3), w, Wiring(w), 0, regs, 0, ran)
  {
    assert regs[0..] == regs && regs[..0] == [];
  }

  lemma {:induction false} NoneRan(log: seq<Ran>, w: Which, calls: set<Call>)
    requires RanOf(log, w) == []
    ensures RanWith(log, w, calls)
  {
    if log != [] {
      var n := |log| - 1;
      NoneRan(log[..n], w, calls);
      assert forall i :: 0 <= i < n ==> log[..n][i] == log[i];
      assert log[n].w != w;
    }
  }

  /** A registration after the decision, outside a pass of the winning list, has its turn at once. */
  lemma LateRegistrationRuns(d: Deferred, w: Which, call: Call, ids: seq<nat>)
    requires Inv(d) && Won(d, w, call) && !d.Get(w).firing
    ensures var e := Next(d, AddTo(w, ids));
            Inv(e) && Won(e, w, call) && e.noted == d.noted &&
            e.Regs(w) == d.Regs(w) + ids && e.Regs(Other(w)) == d.Regs(Other(w))
  {
    hide Proceed, AtTurn, Won;
    LateAtTurn(d, w, call, ids);
    var e := Register(d.Put(w, d.Get(w).(list := Some(Users(ids)))), w, ids);
    TurnProceeds(Enter(e, w, call), w, call, [], |d.Regs(w)|);
  }

  lemma LateAtTurn(d: Deferred, w: Which, call: Call, ids: seq<nat>)
    requires Inv(d) && Won(d, w, call) && !d.Get(w).firing
    ensures var e := Register(d.Put(w, d.Get(w).(list := Some(Users(ids)))), w, ids);
            var b := Enter(e, w, call);
            && Next(d, AddTo(w, ids)) == Proceed(b) && AtTurn(b, w, call, [], |d.Regs(w)|)
            && b.noted == d.noted && b.Regs(w) == d.Regs(w) + ids && b.Regs(Other(w)) == d.Regs(Other(w))
    ensures !w.Progress?
  {
    LateRegistration(d, w, call, ids);
    var e := Register(d.Put(w, d.Get(w).(list := Some(Users(ids)))), w, ids);
    var b := Enter(e, w, call);
    assert !w.Progress? && Nested(e);
    hide Proceed, InTurn, Closed, Progressing, Nested, Next;
    NestedEnter(e, w, call);
    LateParts(d, w, call, ids);
    hide Register, Enter;
    LateTurn(b.Get(w), w, d.Regs(w), ids, RanOf(b.log, w));
  }

  /** What a registration after settling leaves as it was. */
  lemma LateParts(d: Deferred, w: Which, call: Call, ids: seq<nat>)
    requires d.Get(w).list.Some? && !w.Progress?
    ensures var e := Register(d.Put(w, d.Get(w).(list := Some(Users(ids)))), w, ids);
            var b := Enter(e, w, call);
            && b.Get(w) == Begin(d.Get(w).(list := Some(Users(ids))), call)
            && b.Get(Other(w)) == d.Get(Other(w)) && b.progress == d.progress
            && b.status == d.status && b.log == d.log && b.noted == d.noted && b.frames == d.frames + [Frame(w, call)]
            && b.Regs(w) == d.Regs(w) + ids && b.Regs(Other(w)) == d.Regs(Other(w))
  {
  }

  lemma LateRegistration(d: Deferred, w: Which, call: Call, ids: seq<nat>)
    requires Won(d, w, call) && !d.Get(w).firing
    ensures var e := Register(d.Put(w, d.Get(w).(list := Some(Users(ids)))), w, ids);
            Next(d, AddTo(w, ids)) == Proceed(Enter(e, w, call))
    ensures d.Get(w).start == 0 && d.Get(w).memory == Args(call) && d.Get(w).flags == ONCE_MEMORY
    ensures d.Get(w).stack == Some([]) && RanOf(d.log, w) == d.Regs(w)
  {
    hide Proceed, Add;
    AddUsers(d.Get(w), ids);
    assert [] + Users(ids) == Users(ids);
  }

  lemma LateTurn(c: Cbs<Fn>, w: Which, regs: seq<nat>, ids: seq<nat>, ran: seq<nat>)
    requires c.firing && c.list == Some(Users(ids)) && c.length == |ids| && c.index == 0 && ran == regs
    ensures InTurn(c, w, [], |regs|, regs + ids, 0, ran)
  {
    var k := |regs|;
    assert (regs + ids)[k..] == ids && (regs + ids)[..k] == regs;
    assert [] + Users(ids) == Users(ids);
  }

  lemma TurnJoined(c: Cbs<Fn>, w: Which, pre: seq<Fn>, k: nat, regs: seq<nat>, ran: seq<nat>, ids: seq<nat>)
    requires InTurn(c, w, pre, k, regs, 1, ran)
    ensures var l := c.list.value + Users(ids);
            InTurn(c.(list := Some(l), length := |l|), w, pre, k, regs + ids, 1, ran)
  {
    JoinedList(pre, regs, k, ids);
    PrefixKept(regs, ids, k + c.index + 1 - |pre|);
  }

  lemma JoinedList(pre: seq<Fn>, regs: seq<nat>, k: nat, ids: seq<nat>)
    requires k <= |regs|
    ensures (pre + Users(regs[k..])) + Users(ids) == pre + Users((regs + ids)[k..])
  {
    var x := regs[k..];
    assert x + ids == (regs + ids)[k..];
    UsersAppend(x, ids);
    Associative(pre, Users(x), Users(ids));
  }

  lemma Associative<T>(a: seq<T>, b: seq<T>, c: seq<T>)
    ensures (a + b) + c == a + (b + c)
  {
  }

  lemma PrefixKept(a: seq<nat>, b: seq<nat>, n: nat)
    requires n <= |a|
    ensures (a + b)[..n] == a[..n]
  {
  }

  /** A registration made by a callback of the winning list joins the pass that is under way. */
  lemma NestedRegistrationJoins(d: Deferred, w: Which, call: Call, ids: seq<nat>)
    requires Inv(d) && Won(d, w, call) && d.Get(w).firing
    ensures var e := Next(d, AddTo(w, ids));
            Inv(e) && Won(e, w, call) && e.noted == d.noted &&
            e.Regs(w) == d.Regs(w) + ids && e.Regs(Other(w)) == d.Regs(Other(w))
  {
    JoinedSettled(d, w, call, ids);
    var c := d.Get(w);
    var l := c.list.value + Users(ids);
    var c' := c.(list := Some(l), length := |l|);
    var e := Register(d.Put(w, c'), w, ids);
    hide Settled, InTurn, Closed, Progressing, Next;
    assert e.Get(w) == c' && e.Get(Other(w)) == d.Get(Other(w)) && e.Regs(w) == d.Regs(w) + ids;
    assert Won(e, w, call);
    assert Nested(e);
  }

  lemma JoinedSettled(d: Deferred, w: Which, call: Call, ids: seq<nat>)
    requires Won(d, w, call) && d.Get(w).firing
    ensures var c := d.Get(w);
            c.list.Some? &&
            var l := c.list.value + Users(ids);
            var c' := c.(list := Some(l), length := |l|);
            && Next(d, AddTo(w, ids)) == Register(d.Put(w, c'), w, ids)
            && Settled(c', w, call, d.Regs(w) + ids, RanOf(d.log, w))
  {
    hide Proceed, Add;
    var c := d.Get(w);
    AddUsers(c, ids);
    var pre, k :| InTurn(c, w, pre, k, d.Regs(w), 1, RanOf(d.log, w));
    TurnJoined(c, w, pre, k, d.Regs(w), RanOf(d.log, w), ids);
  }

  // ---- everything else ------------------------------------------------------------------------

  /** From `d` to `e` the deciding lists, registrations, notifications and the state stayed as they are. */
  ghost predicate Same(d: Deferred, e: Deferred) {
    && e.done == d.done && e.fail == d.fail && e.status == d.status
    && e.doneRegs == d.doneRegs && e.failRegs == d.failRegs && e.noted == d.noted
    && RanOf(e.log, Done) == RanOf(d.log, Done) && RanOf(e.log, Fail) == RanOf(d.log, Fail)
    && (forall w: Which, calls: set<Call> :: !w.Progress? && RanWith(d.log, w, calls) ==> RanWith(e.log, w, calls))
    && e.progress.stack.Some? == d.progress.stack.Some?
  }

  lemma SameDecision(d: Deferred, e: Deferred)
    requires Same(d, e)
    ensures Undecided(d) ==> Undecided(e)
    ensures forall w, call :: Won(d, w, call) ==> Won(e, w, call)
  {
  }

  /** The pass of the progress list is at a loop head. */
  ghost predicate Telling(d: Deferred) {
    && Nested(d) && d.frames != [] && d.frames[|d.frames| - 1].w == Progress
    && Progressing(d.progress, d.noted, 1) && d.progress.firing && RanWith(d.log, Progress, d.noted)
  }

  lemma TellingCall(d: Deferred)
    requires Telling(d)
    ensures d.progress.memory == Args(d.frames[|d.frames| - 1].call) && d.frames[|d.frames| - 1].call in d.noted
  {
    TopCall(d.frames, Progress, d.progress.memory.call);
  }

  lemma TopCall(frames: seq<Frame>, w: Which, call: Call)
    requires frames != [] && frames[|frames| - 1].w == w && CallsOf(frames, w) == [call]
    ensures frames[|frames| - 1].call == call
  {
    var n := |frames| - 1;
    var calls := CallsOf(frames[..n], w) + [frames[n].call];
    assert calls[|calls| - 1] == frames[n].call;
  }

  /** One user's function is called. */
  lemma TellsOne(d: Deferred)
    requires Telling(d) && d.progress.index < d.progress.length
    ensures Nested(Proceed(d)) && Progressing(Proceed(d).progress, d.noted, 0) && RanWith(Proceed(d).log, Progress, d.noted)
    ensures Same(d, Proceed(d))
  {
    var c := d.progress;
    var frame := d.frames[|d.frames| - 1];
    TellingCall(d);
    assert c.list.value[c.index].User?;
    var r := Ran(Progress, c.list.value[c.index].id, frame.call);
    assert Proceed(d) == d.(log := d.log + [r]);
    RanOfSnoc(d.log, r, Done);
    RanOfSnoc(d.log, r, Fail);
    RanWithSnoc(d.log, r, Progress, d.noted);
  }

  /** The pass is over, or a postponed notification starts the next one. */
  lemma TellsNext(d: Deferred) returns (e: Deferred, more: bool)
    requires Telling(d) && !(d.progress.index < d.progress.length)
    ensures Same(d, e) && e.log == d.log
    ensures var (c, next) := Finish(d.progress);
            var out := d.Put(Progress, c).(frames := d.frames[..|d.frames| - 1]);
            more == next.Some? && (more ==> c.list.Some?) && e == if more then Enter(out, Progress, next.value) else out
    ensures if more then Telling(e) && Proceed(d) == Proceed(e) && Postponed(e.progress) < Postponed(d.progress)
            else Proceed(d) == e && Nested(e) && Progressing(e.progress, e.noted, 0)
  {
    hide Proceed, Nested, RanOf, RanWith;
    var n := |d.frames| - 1;
    var (c, next) := Finish(d.progress);
    var out := d.Put(Progress, c).(frames := d.frames[..n]);
    NestedPop(d, c);
    LeavesProgress(d);
    more := next.Some?;
    if next.None? {
      e := out;
    } else {
      NestedEnter(out, Progress, next.value);
      e := Enter(out, Progress, next.value);
    }
  }

  lemma LeavesProgress(d: Deferred)
    requires Telling(d) && !(d.progress.index < d.progress.length)
    ensures var (c, next) := Finish(d.progress);
            var out := d.Put(Progress, c).(frames := d.frames[..|d.frames| - 1]);
            (next.Some? ==> c.list.Some?) &&
            Proceed(d) == if next.None? then out else Proceed(Enter(out, Progress, next.value))
  {
  }

  lemma {:induction false} TellingProceeds(d: Deferred)
    requires Telling(d) && Decision(d)
    ensures Inv(Proceed(d)) && Same(d, Proceed(d))
    decreases Postponed(d.progress)
  {
    hide Proceed, Undecided, Won, Progressing, Nested;
    if d.progress.index < d.progress.length {
      TellsOne(d);
      SameDecision(d, Proceed(d));
    } else {
      var e, more := TellsNext(d);
      SameDecision(d, e);
      if more {
        TellingProceeds(e);
        SameTransitive(d, e, Proceed(e));
      }
    }
  }

  lemma SameTransitive(d: Deferred, e: Deferred, f: Deferred)
    requires Same(d, e) && Same(e, f)
    ensures Same(d, f)
  {
  }

  /** Returning from a callback of the winning list gives the next registration its turn. */
  lemma WinnerReturns(d: Deferred, w: Which, call: Call)
    requires Inv(d) && Won(d, w, call) && d.frames != [] && d.frames[|d.frames| - 1].w == w
    ensures Inv(Next(d, Return)) && Won(Next(d, Return), w, call)
    ensures Next(d, Return).doneRegs == d.doneRegs && Next(d, Return).failRegs == d.failRegs && Next(d, Return).noted == d.noted
  {
    hide Proceed, InTurn, Closed, Progressing, Nested, Settled, AtTurn, Won;
    var pre, k := WinnerTurn(d, w, call);
    TurnProceeds(d.Put(w, Step(d.Get(w))), w, call, pre, k);
  }

  /** The cursor moves on to the next turn. */
  lemma WinnerTurn(d: Deferred, w: Which, call: Call) returns (pre: seq<Fn>, k: nat)
    requires Inv(d) && Won(d, w, call) && d.frames != [] && d.frames[|d.frames| - 1].w == w
    ensures AtTurn(d.Put(w, Step(d.Get(w))), w, call, pre, k)
  {
    hide Closed, Progressing, Settled, Turning, Nested, InTurn;
    InFrames(d, w);
    pre, k := NextTurn(d.Get(w), w, call, d.Regs(w), RanOf(d.log, w));
    TopCall(d.frames, w, call);
    StillNested(d, w);
  }

  lemma NextTurn(c: Cbs<Fn>, w: Which, call: Call, regs: seq<nat>, ran: seq<nat>) returns (pre: seq<Fn>, k: nat)
    requires Settled(c, w, call, regs, ran) && c.firing
    ensures c.memory == Args(call) && Turning(Step(c), w, call, pre, k, regs, ran)
  {
    pre, k :| InTurn(c, w, pre, k, regs, 1, ran);
    assert InTurn(Step(c), w, pre, k, regs, 0, ran);
  }

  lemma StillNested(d: Deferred, w: Which)
    requires Nested(d)
    ensures Nested(d.Put(w, Step(d.Get(w))))
  {
  }

  lemma InFrames(d: Deferred, w: Which)
    requires Nested(d) && d.frames != [] && d.frames[|d.frames| - 1].w == w
    ensures d.Get(w).firing && CallsOf(d.frames, w) == [d.Get(w).memory.call]
  {
    var n := |d.frames| - 1;
    CallsOfSnoc(d.frames[..n], d.frames[n], w);
    assert d.frames == d.frames[..n] + [d.frames[n]];
  }

  lemma ProgressReturns(d: Deferred)
    requires Inv(d) && d.frames != [] && d.frames[|d.frames| - 1].w == Progress
    ensures Inv(Next(d, Return)) && Same(d, Next(d, Return))
  {
    hide Proceed, Undecided, Won;
    InFrames(d, Progress);
    var e := d.Put(Progress, Step(d.progress));
    SameDecision(d, e);
    TellingProceeds(e);
    SameTransitive(d, e, Proceed(e));
  }

  lemma ProgressRegisters(d: Deferred, ids: seq<nat>)
    requires Inv(d)
    ensures Inv(Next(d, AddTo(Progress, ids))) && Same(d, Next(d, AddTo(Progress, ids)))
  {
    hide Proceed, Add, Undecided, Won;
    var c := d.progress;
    if c.list.None? {
      AddNothing(c, Funcs(Users(ids)));
    } else {
      AddUsers(c, ids);
      if !c.firing && c.memory.Args? {
        ProgressCatchesUp(d, ids);
      } else {
        ProgressJoins(d, ids);
      }
    }
  }

  lemma ProgressJoins(d: Deferred, ids: seq<nat>)
    requires Inv(d) && d.progress.list.Some? && (d.progress.firing || !d.progress.memory.Args?)
    ensures Inv(Next(d, AddTo(Progress, ids))) && Same(d, Next(d, AddTo(Progress, ids)))
  {
    hide Proceed, Add, Undecided, Won;
    var c := d.progress;
    AddUsers(c, ids);
    var l := c.list.value + Users(ids);
    var e := d.(progress := if c.firing then c.(list := Some(l), length := |l|) else c.(list := Some(l)));
    assert Next(d, AddTo(Progress, ids)) == e;
    hide Next;
    SameDecision(d, e);
  }

  /** A progress callback registered after a notification is told the last one at once. */
  lemma ProgressCatchesUp(d: Deferred, ids: seq<nat>)
    requires Inv(d) && d.progress.list.Some? && !d.progress.firing && d.progress.memory.Args?
    ensures Inv(Next(d, AddTo(Progress, ids))) && Same(d, Next(d, AddTo(Progress, ids)))
  {
    hide Proceed, Add, Undecided, Won;
    var c := d.progress;
    AddUsers(c, ids);
    var e := d.(progress := c.(list := Some(c.list.value + Users(ids)), start := |c.list.value|));
    NestedEnter(e, Progress, c.memory.call);
    var t := Enter(e, Progress, c.memory.call);
    assert Next(d, AddTo(Progress, ids)) == Proceed(t);
    assert Same(d, t);
    SameDecision(d, t);
    TellingProceeds(t);
    SameTransitive(d, t, Proceed(t));
  }

  lemma AddNothing(c: Cbs<Fn>, args: seq<Arg<Fn>>)
    requires c.list.None?
    ensures Add(c, args) == (c, None)
  {
  }

  lemma Notifies(d: Deferred, call: Call)
    requires Inv(d)
    ensures var e := Next(d, FireAt(Progress, call));
            Inv(e) && (if d.progress.stack.Some? then e.noted == d.noted + {call} && Same(d.(noted := e.noted), e) else e == d)
  {
    hide Proceed, Undecided, Won;
    var c := d.progress;
    if c.stack.Some? {
      var e := d.(noted := d.noted + {call});
      Noted(d, e);
      if c.firing {
        SameDecision(e, Next(d, FireAt(Progress, call)));
      } else {
        NestedEnter(e, Progress, call);
        var t := Enter(e, Progress, call);
        SameDecision(e, t);
        TellingProceeds(t);
        SameTransitive(e, t, Proceed(t));
      }
    }
  }

  lemma Noted(d: Deferred, e: Deferred)
    requires Inv(d) && e == d.(noted := e.noted) && d.noted <= e.noted
    ensures Inv(e)
  {
    assert Undecided(d) ==> Undecided(e);
    assert forall w, call :: Won(d, w, call) ==> Won(e, w, call);
  }

  // ---- every step -----------------------------------------------------------------------------

  /** What a step may do to the outcome: nothing, or decide it; and the registrations grow by `ids`. */
  ghost predicate Moves(d: Deferred, a: Action, e: Deferred) {
    && Inv(e)
    && e.doneRegs == (if a.AddTo? && a.w.Done? then d.doneRegs + a.ids else d.doneRegs)
    && e.failRegs == (if a.AddTo? && a.w.Fail? then d.failRegs + a.ids else d.failRegs)
    && (forall w, call :: Won(d, w, call) ==> Won(e, w, call) && e.noted == d.noted)
    && (Undecided(d) ==> if a.FireAt? && !a.w.Progress? then Won(e, a.w, a.call) else Undecided(e))
  }

  /** A late registration with the list that lost goes nowhere. */
  lemma LoserRegisters(d: Deferred, w: Which, call: Call, ids: seq<nat>)
    requires Inv(d) && Won(d, w, call)
    ensures var e := Next(d, AddTo(Other(w), ids));
            Inv(e) && Won(e, w, call) && e.noted == d.noted && e.Regs(w) == d.Regs(w) &&
            e.Regs(Other(w)) == d.Regs(Other(w)) + ids && e.log == d.log
  {
    hide Proceed, Add;
    AddNothing(d.Get(Other(w)), Funcs(Users(ids)));
    var e := Next(d, AddTo(Other(w), ids));
    assert e == Register(d, Other(w), ids);
    assert Won(e, w, call);
  }

  /** Once one side has won, resolving, rejecting and notifying again do nothing at all. */
  lemma LateFiringIsInert(d: Deferred, w: Which, call: Call, v: Which, again: Call)
    requires Inv(d) && Won(d, w, call)
    ensures Next(d, FireAt(v, again)) == d
  {
    hide Proceed;
    if v == w { assert d.Get(w).stack == Some([]) && d.Get(w).flags == ONCE_MEMORY && d.Get(w).memory != Unset; }
    else { assert d.Get(v).stack.None?; }
    assert d.Put(v, d.Get(v)) == d;
  }

  lemma UndecidedRegisters(d: Deferred, w: Which, ids: seq<nat>)
    requires Inv(d) && Undecided(d) && !w.Progress?
    ensures Moves(d, AddTo(w, ids), Next(d, AddTo(w, ids))) && Undecided(Next(d, AddTo(w, ids)))
  {
    hide Proceed, Add;
    var c := d.Get(w);
    AddUsers(c, ids);
    UsersAppend(d.Regs(w), ids);
    Associative(Wiring(w), Users(d.Regs(w)), Users(ids));
    var e := Next(d, AddTo(w, ids));
    assert e == Register(d.Put(w, c.(list := Some(Wiring(w) + Users(d.Regs(w) + ids)))), w, ids);
    assert Undecided(e);
    NotBoth(d);
  }

  /** Nothing is decided while it is undecided. */
  lemma NotBoth(d: Deferred)
    requires Undecided(d)
    ensures forall w, call :: !Won(d, w, call)
  {
  }

  /** One step of user code keeps the invariant, and decides the outcome if it is the first to. */
  lemma NextMoves(d: Deferred, a: Action)
    requires Inv(d)
    ensures Moves(d, a, Next(d, a))
  {
    hide Proceed, Next, Undecided, Won, Nested, Progressing;
    if Undecided(d) {
      UndecidedMoves(d, a);
    } else {
      var w, call :| Won(d, w, call);
      WonMoves(d, a, w, call);
    }
  }

  /** A step that leaves the deciding lists alone. */
  lemma SameMoves(d: Deferred, a: Action, e: Deferred)
    requires Same(d, e) && Inv(e) && (a.AddTo? || a.FireAt? ==> a.w.Progress?)
    ensures Moves(d, a, e)
  {
    SameDecision(d, e);
  }

  lemma NotifyMoves(d: Deferred, call: Call)
    requires Inv(d)
    ensures Moves(d, FireAt(Progress, call), Next(d, FireAt(Progress, call)))
  {
    hide Proceed, Next;
    Notifies(d, call);
    var e := Next(d, FireAt(Progress, call));
    if d.progress.stack.Some? {
      assert forall w, call :: !Won(d, w, call);
      var f := d.(noted := e.noted);
      SameDecision(f, e);
      assert Undecided(d) ==> Undecided(f);
    }
  }

  lemma ReturnMoves(d: Deferred)
    requires Inv(d)
    ensures Moves(d, Return, Next(d, Return))
  {
    hide Proceed;
    if d.frames != [] {
      var w := d.frames[|d.frames| - 1].w;
      InFrames(d, w);
      if w.Progress? {
        ProgressReturns(d);
        hide Next, Same;
        SameMoves(d, Return, Next(d, Return));
      } else {
        assert !Undecided(d);
        var v, call :| Won(d, v, call);
        assert v == w;
        WinnerReturns(d, w, call);
        hide Next;
        WonOnly(d, w, call);
      }
    }
  }

  lemma WonOnly(d: Deferred, w: Which, call: Call)
    requires Won(d, w, call)
    ensures !Undecided(d) && !w.Progress? && forall v, again :: Won(d, v, again) ==> v == w && again == call
  {
  }

  lemma UndecidedMoves(d: Deferred, a: Action)
    requires Inv(d) && Undecided(d)
    ensures Moves(d, a, Next(d, a))
  {
    hide Proceed, Moves, Inv;
    match a
    case AddTo(w, ids) =>
      if w.Progress? {
        ProgressRegisters(d, ids);
        SameMoves(d, a, Next(d, a));
      } else {
        UndecidedRegisters(d, w, ids);
      }
    case FireAt(w, call) =>
      if w.Progress? { NotifyMoves(d, call); } else { FiringMoves(d, w, call); }
    case Return => ReturnMoves(d);
  }

  lemma FiringMoves(d: Deferred, w: Which, call: Call)
    requires Inv(d) && Undecided(d) && !w.Progress?
    ensures Moves(d, FireAt(w, call), Next(d, FireAt(w, call)))
  {
    hide Proceed;
    FiringDecides(d, w, call);
    assert d.Put(w, d.Get(w)) == d;
    assert Next(d, FireAt(w, call)) == Proceed(Enter(d, w, call));
    NotBoth(d);
  }

  lemma WonMoves(d: Deferred, a: Action, w: Which, call: Call)
    requires Inv(d) && Won(d, w, call)
    ensures Moves(d, a, Next(d, a))
  {
    hide Proceed, Next, Won, Inv;
    WonOnly(d, w, call);
    match a
    case AddTo(v, ids) =>
      if v.Progress? {
        ProgressRegisters(d, ids);
        SameMoves(d, a, Next(d, a));
      } else if v == w {
        WinnerRegisters(d, w, call, ids);
      } else {
        LoserRegisters(d, w, call, ids);
      }
    case FireAt(v, again) => LateFiringIsInert(d, w, call, v, again);
    case Return => ReturnMoves(d);
  }

  lemma WinnerRegisters(d: Deferred, w: Which, call: Call, ids: seq<nat>)
    requires Inv(d) && Won(d, w, call)
    ensures var e := Next(d, AddTo(w, ids));
            Inv(e) && Won(e, w, call) && e.noted == d.noted &&
            e.Regs(w) == d.Regs(w) + ids && e.Regs(Other(w)) == d.Regs(Other(w))
  {
    hide Inv, Next, Won;
    if d.Get(w).firing { NestedRegistrationJoins(d, w, call, ids); } else { LateRegistrationRuns(d, w, call, ids); }
  }

  // ---- runs -----------------------------------------------------------------------------------

  lemma StartInv()
    ensures Inv(Start()) && Undecided(Start())
  {
    FreshIs(Done);
    FreshIs(Fail);
    FreshIs(Progress);
    assert Wiring(Done) + Users([]) == Wiring(Done) && Wiring(Fail) + Users([]) == Wiring(Fail);
  }

  lemma FreshIs(w: Which)
    ensures Fresh(w) == New(if w.Progress? then MEMORY else ONCE_MEMORY).(list := Some(Wiring(w)))
  {
    FlattenFuncs(Wiring(w));
    PushAllPlain([], Wiring(w));
    assert [] + Wiring(w) == Wiring(w);
  }

  /** The registrations that a run makes with list `w`. */
  function Registered(acts: seq<Action>, w: Which): seq<nat>
    decreases |acts|
  {
    if acts == [] then []
    else (if acts[0].AddTo? && acts[0].w == w then acts[0].ids else []) + Registered(acts[1..], w)
  }

  /** The first `resolve` or `reject` of a run. */
  datatype Firing = NoFiring | Firing(w: Which, call: Call)

  function FirstFiring(acts: seq<Action>): Firing
    decreases |acts|
  {
    if acts == [] then NoFiring
    else if acts[0].FireAt? && !acts[0].w.Progress? then Firing(acts[0].w, acts[0].call)
    else FirstFiring(acts[1..])
  }

  lemma {:induction false} RunKeeps(d: Deferred, acts: seq<Action>)
    requires Inv(d)
    ensures var e := Run(d, acts);
            && Inv(e)
            && e.doneRegs == d.doneRegs + Registered(acts, Done) && e.failRegs == d.failRegs + Registered(acts, Fail)
            && (forall w, call :: Won(d, w, call) ==> Won(e, w, call) && e.noted == d.noted)
            && (Undecided(d) ==>
                  if FirstFiring(acts).NoFiring? then Undecided(e)
                  else Won(e, FirstFiring(acts).w, FirstFiring(acts).call))
    decreases |acts|
  {
    hide Next, Inv, Undecided, Won;
    if acts == [] {
      assert d.doneRegs + [] == d.doneRegs && d.failRegs + [] == d.failRegs;
    } else {
      NextMoves(d, acts[0]);
      MovesRegs(d, acts[0], Next(d, acts[0]), acts[1..]);
      assert acts == [acts[0]] + acts[1..];
      RunKeeps(Next(d, acts[0]), acts[1..]);
    }
  }

  lemma MovesRegs(d: Deferred, a: Action, e: Deferred, rest: seq<Action>)
    requires Moves(d, a, e)
    ensures Inv(e)
    ensures e.doneRegs + Registered(rest, Done) == d.doneRegs + Registered([a] + rest, Done)
    ensures e.failRegs + Registered(rest, Fail) == d.failRegs + Registered([a] + rest, Fail)
  {
    RegisteredCons(d.doneRegs, a, rest, Done);
    RegisteredCons(d.failRegs, a, rest, Fail);
  }

  lemma RegisteredCons(regs: seq<nat>, a: Action, rest: seq<Action>, w: Which)
    ensures regs + Registered([a] + rest, w) ==
            (if a.AddTo? && a.w == w then regs + a.ids else regs) + Registered(rest, w)
  {
    assert ([a] + rest)[1..] == rest;
    var own := if a.AddTo? && a.w == w then a.ids else [];
    Associative(regs, own, Registered(rest, w));
    assert regs + [] == regs;
  }

  /** Under every re-entrant mix of resolving, rejecting, notifying and registering:
      nothing is decided before the first `resolve` or `reject`; from then on the state is its outcome; only
      its list ever calls anything, always with its call; and what it has called is a prefix of everything
      ever registered with it, in order - all of it whenever no pass of that list is under way. */
  lemma DeferredIsOneShot(acts: seq<Action>)
    ensures var e := Run(Start(), acts);
            var f := FirstFiring(acts);
            if f.NoFiring? then e.status == Pending && RanOf(e.log, Done) == [] && RanOf(e.log, Fail) == []
            else
              && e.status == (if f.w.Done? then Resolved else Rejected)
              && RanOf(e.log, if f.w.Done? then Fail else Done) == [] && RanWith(e.log, f.w, {f.call})
              && RanOf(e.log, f.w) <= Registered(acts, f.w)
              && (!e.Get(f.w).firing ==> RanOf(e.log, f.w) == Registered(acts, f.w))
  {
    hide Run, FirstFiring, RanOf, RanWith, Registered;
    StartInv();
    RunKeeps(Start(), acts);
    var e := Run(Start(), acts);
    assert [] + Registered(acts, Done) == Registered(acts, Done) && [] + Registered(acts, Fail) == Registered(acts, Fail);
    if FirstFiring(acts).Firing? {
      var Firing(w, call) := FirstFiring(acts);
      SettledPrefix(e.Get(w), w, call, e.Regs(w), RanOf(e.log, w));
    }
  }

  lemma SettledPrefix(c: Cbs<Fn>, w: Which, call: Call, regs: seq<nat>, ran: seq<nat>)
    requires Settled(c, w, call, regs, ran)
    ensures ran <= regs && (!c.firing ==> ran == regs)
  {
  }

  /** Once decided, it stays decided the same way; and notifications no longer count: every progress
      callback, even one still called later, is told something notified before the decision. */
  lemma DecisionIsFinal(acts: seq<Action>, more: seq<Action>)
    requires FirstFiring(acts).Firing?
    ensures var d, e := Run(Start(), acts), Run(Run(Start(), acts), more);
            e.status == d.status && RanWith(e.log, Progress, d.noted)
  {
    StartInv();
    RunKeeps(Start(), acts);
    RunKeeps(Run(Start(), acts), more);
    var Firing(w, call) := FirstFiring(acts);
    assert Won(Run(Start(), acts), w, call);
  }
}
