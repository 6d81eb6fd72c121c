/** `b.when`: one deferred for several, counting down as they resolve. */
module Barriers {
  /** An argument of `when`: a plain value, or something with a `promise` method; promises are numbered. */
  datatype Arg = Plain(v: nat) | Promised(p: nat)

  /** How a promise was settled, and with which arguments. */
  datatype Settlement = ResolvedWith(xs: seq<nat>) | RejectedWith(xs: seq<nat>)

  /** A collected value: an argument itself, the one value a promise resolved with (or none), or several. */
  datatype Value = Itself(a: Arg) | Undefined | One(x: nat) | Several(xs: seq<nat>)

  /** The state of the deferred that `when` returns. */
  datatype Master = Open | AllResolved(values: seq<Value>) | OneRejected(xs: seq<nat>)

  function Pack(xs: seq<nat>): Value {
    if |xs| > 1 then Several(xs) else if |xs| == 1 then One(xs[0]) else Undefined
  }

  /** The variables of a call of `when`, how the promises were settled, and whose callbacks have run. */
  datatype Barrier = Barrier(args: seq<Arg>, values: seq<Value>, count: int, next: nat, closed: bool, master: Master,
                             settled: map<nat, Settlement>, heard: seq<nat>)

  function Start(args: seq<Arg>): Barrier {
    Barrier(args, seq(|args|, i requires 0 <= i < |args| => Itself(args[i])), |args|, 0, false, Open, map[], [])
  }

  /** A settled deferred stays settled. */
  function Resolve(m: Master, values: seq<Value>): Master { if m.Open? then AllResolved(values) else m }

  function Reject(m: Master, xs: seq<nat>): Master { if m.Open? then OneRejected(xs) else m }

  datatype Action =
    | Attend                             // one turn of the loop over the arguments
    | Close                              // the test after the loop
    | Settle(p: nat, s: Settlement)      // some promise is resolved or rejected, at any time
    | Hear(i: nat)                       // the callback attached for argument `i` runs

  /** The callback for argument `i` is attached, its promise is settled, and it has not run yet. */
  predicate Due(b: Barrier, i: nat) {
    i < b.next <= |b.args| == |b.values| && b.args[i].Promised? && b.args[i].p in b.settled && i !in b.heard
  }

  function Next(b: Barrier, a: Action): Barrier {
    match a
    case Attend =>
      if b.next >= |b.args| || b.closed then b
      else if b.args[b.next].Plain? then b.(count := b.count - 1, next := b.next + 1)
      else b.(next := b.next + 1)
    case Close =>
      if b.next < |b.args| || b.closed then b
      else b.(closed := true, master := if b.count == 0 then Resolve(b.master, b.values) else b.master)
    case Settle(p, s) => if p in b.settled then b else b.(settled := b.settled[p := s])
    case Hear(i) =>
      if !Due(b, i) then b
      else
        var h := b.(heard := b.heard + [i]);
        match b.settled[b.args[i].p]
        case RejectedWith(xs) => h.(master := Reject(b.master, xs))
        case ResolvedWith(xs) =>
          var values := b.values[i := Pack(xs)];
          var count := b.count - 1;
          h.(values := values, count := count, master := if count == 0 then Resolve(b.master, values) else b.master)
  }

  function Run(b: Barrier, acts: seq<Action>): Barrier
    decreases |acts|
  {
    if acts == [] then b else Run(Next(b, acts[0]), acts[1..])
  }

  // ---- what the counter and the values stand for ----------------------------------------------

  predicate RejectedAt(b: Barrier, i: nat) {
    i < |b.args| && b.args[i].Promised? && b.args[i].p in b.settled && b.settled[b.args[i].p].RejectedWith?
  }

  predicate ResolvedAt(b: Barrier, i: nat) {
    i < |b.args| && b.args[i].Promised? && b.args[i].p in b.settled && b.settled[b.args[i].p].ResolvedWith?
  }

  /** Argument `i` no longer holds the counter up. */
  predicate Passed(b: Barrier, i: nat) {
    i < b.next <= |b.args| && (b.args[i].Plain? || (i in b.heard && ResolvedAt(b, i)))
  }

  function Holding(b: Barrier, n: nat): nat
    requires n <= |b.args|
  {
    if n == 0 then 0 else Holding(b, n - 1) + if Passed(b, n - 1) then 0 else 1
  }

  /** The value due at index `i`. */
  function Expected(b: Barrier, i: nat): Value
    requires i < |b.args|
  {
    if !ResolvedAt(b, i) then Itself(b.args[i])
    else
      match |b.settled[b.args[i].p].xs|
      case 0 => Undefined
      case 1 => One(b.settled[b.args[i].p].xs[0])
      case _ => Several(b.settled[b.args[i].p].xs)
  }

  /** The first heard rejection. */
  function FirstRejection(b: Barrier, heard: seq<nat>): Master {
    if heard == [] then Open
    else
      var f := FirstRejection(b, heard[..|heard| - 1]);
      var i := heard[|heard| - 1];
      if f.Open? && RejectedAt(b, i) then OneRejected(b.settled[b.args[i].p].xs) else f
  }

  function AllExpected(b: Barrier): seq<Value> {
    seq(|b.args|, i requires 0 <= i < |b.args| => Expected(b, i))
  }

  ghost predicate HeardRight(b: Barrier) {
    && b.next <= |b.args| == |b.values| && (b.closed ==> b.next == |b.args|)
    && (forall k :: 0 <= k < |b.heard| ==>
          b.heard[k] < b.next && (ResolvedAt(b, b.heard[k]) || RejectedAt(b, b.heard[k])))
    && (forall j, k :: 0 <= j < k < |b.heard| ==> b.heard[j] != b.heard[k])
  }

  /** A value was replaced exactly where a promise was heard to resolve. */
  ghost predicate ValuesRight(b: Barrier) {
    && |b.args| == |b.values|
    && forall i :: 0 <= i < |b.args| ==>
         b.values[i] == if i in b.heard then Expected(b, i) else Itself(b.args[i])
  }

  ghost predicate MasterRight(b: Barrier) {
    if FirstRejection(b, b.heard) != Open then b.master == FirstRejection(b, b.heard)
    else
      && (b.master == Open || (b.count == 0 && b.master == AllResolved(b.values)))
      && (b.closed && b.count == 0 ==> b.master != Open)
  }

  ghost predicate Inv(b: Barrier) {
    HeardRight(b) && b.count == Holding(b, |b.args|) && ValuesRight(b) && MasterRight(b)
  }

  /** Two states in which the same arguments no longer hold the counter up. */
  lemma {:induction false} HoldingSame(b: Barrier, c: Barrier, n: nat)
    requires n <= |b.args| == |c.args| && forall i :: 0 <= i < n ==> Passed(b, i) == Passed(c, i)
    ensures Holding(b, n) == Holding(c, n)
  {
    if n > 0 { HoldingSame(b, c, n - 1); }
  }

  /** ... or the same but one. */
  lemma {:induction false} HoldingLess(b: Barrier, c: Barrier, n: nat, k: nat)
    requires k < n <= |b.args| == |c.args| && !Passed(b, k) && Passed(c, k)
    requires forall i :: 0 <= i < n && i != k ==> Passed(b, i) == Passed(c, i)
    ensures Holding(b, n) == Holding(c, n) + 1
  {
    if n - 1 == k { HoldingSame(b, c, n - 1); } else { HoldingLess(b, c, n - 1, k); }
  }

  lemma {:induction false} NothingHolds(b: Barrier, n: nat, i: nat)
    requires i < n <= |b.args| && Holding(b, n) == 0
    ensures Passed(b, i)
  {
    if i < n - 1 { NothingHolds(b, n - 1, i); }
  }

  lemma {:induction false} AllHold(b: Barrier, n: nat)
    requires n <= |b.args| && forall i :: 0 <= i < n ==> !Passed(b, i)
    ensures Holding(b, n) == n
  {
    if n > 0 { AllHold(b, n - 1); }
  }

  /** The counter is at zero only when every argument was attended to and every promise was heard to
      resolve, and then it moves no more. */
  lemma ZeroIsFinal(b: Barrier, a: Action)
    requires Inv(b) && b.count == 0
    ensures b.next == |b.args| && Next(b, a).count == 0
    ensures forall i: nat :: i < |b.args| ==> b.args[i].Plain? || (i in b.heard && ResolvedAt(b, i))
    ensures b.values == AllExpected(b)
  {
    AllPassed(b);
    assert b.next < |b.args| ==> !Passed(b, b.next);
    forall i: nat | i < |b.args| ensures b.args[i].Plain? || (i in b.heard && ResolvedAt(b, i)) {
      assert Passed(b, i);
    }
    if a.Hear? && a.i < |b.args| { assert Passed(b, a.i); }
    forall i | 0 <= i < |b.args| ensures b.values[i] == AllExpected(b)[i] { assert Passed(b, i); }
  }

  lemma AllPassed(b: Barrier)
    requires Holding(b, |b.args|) == 0
    ensures forall i: nat :: i < |b.args| ==> Passed(b, i)
  {
    forall i: nat | i < |b.args| ensures Passed(b, i) { NothingHolds(b, |b.args|, i); }
  }

  lemma {:induction false} FirstRejectionSame(b: Barrier, c: Barrier, heard: seq<nat>)
    requires b.args == c.args
    requires forall k :: 0 <= k < |heard| ==>
               heard[k] < |b.args| && (RejectedAt(b, heard[k]) || ResolvedAt(b, heard[k])) &&
               (b.args[heard[k]].p in c.settled && c.settled[b.args[heard[k]].p] == b.settled[b.args[heard[k]].p])
    ensures FirstRejection(b, heard) == FirstRejection(c, heard)
    decreases |heard|
  {
    if heard != [] {
      var n := |heard| - 1;
      assert forall k :: 0 <= k < n ==> heard[..n][k] == heard[k];
      FirstRejectionSame(b, c, heard[..n]);
    }
  }

  lemma {:induction false} FirstRejectionIs(b: Barrier, heard: seq<nat>)
    ensures FirstRejection(b, heard).Open? <==> forall k :: 0 <= k < |heard| ==> !RejectedAt(b, heard[k])
    ensures !FirstRejection(b, heard).AllResolved?
    decreases |heard|
  {
    if heard != [] {
      var n := |heard| - 1;
      FirstRejectionIs(b, heard[..n]);
      assert forall k :: 0 <= k < n ==> heard[..n][k] == heard[k];
    }
  }

  lemma AttendKeeps(b: Barrier)
    requires Inv(b)
    ensures Inv(Next(b, Attend))
  {
    var c := Next(b, Attend);
    if b.next < |b.args| && !b.closed {
      FirstRejectionSame(b, c, b.heard);
      if b.count == 0 { ZeroIsFinal(b, Attend); }
      if b.args[b.next].Plain? {
        HoldingLess(b, c, |b.args|, b.next);
      } else {
        HoldingSame(b, c, |b.args|);
      }
    }
  }

  lemma CloseKeeps(b: Barrier)
    requires Inv(b)
    ensures Inv(Next(b, Close))
  {
    var c := Next(b, Close);
    HoldingSame(b, c, |b.args|);
    FirstRejectionSame(b, c, b.heard);
    if b.count == 0 { RejectionHolds(b); }
  }

  /** While a rejection was heard, the counter cannot be at zero. */
  lemma RejectionHolds(b: Barrier)
    requires Inv(b) && b.count == 0
    ensures FirstRejection(b, b.heard) == Open
  {
    ZeroIsFinal(b, Close);
    FirstRejectionIs(b, b.heard);
  }

  lemma SettleKeeps(b: Barrier, p: nat, s: Settlement)
    requires Inv(b)
    ensures Inv(Next(b, Settle(p, s)))
  {
    var c := Next(b, Settle(p, s));
    SettledSame(b, p, s);
    SettledHeard(b, c);
    SettledValues(b, c);
    hide HeardRight, ValuesRight, ResolvedAt, RejectedAt, Expected;
    HoldingSame(b, c, |b.args|);
    FirstRejectionSame(b, c, b.heard);
  }

  /** Settling changes nothing for what was heard. */
  lemma SettledSame(b: Barrier, p: nat, s: Settlement)
    requires HeardRight(b)
    ensures var c := Next(b, Settle(p, s));
            && c == b.(settled := c.settled)
            && (forall q :: q in b.settled ==> q in c.settled && c.settled[q] == b.settled[q])
            && (forall i: nat :: i in b.heard ==>
                  i < |b.args| && b.args[i].Promised? && b.args[i].p in b.settled
                  && (ResolvedAt(c, i) <==> ResolvedAt(b, i)) && (RejectedAt(c, i) <==> RejectedAt(b, i)))
  {
  }

  lemma SettledHeard(b: Barrier, c: Barrier)
    requires HeardRight(b) && c == b.(settled := c.settled)
    requires forall i: nat :: i in b.heard ==>
               (ResolvedAt(c, i) <==> ResolvedAt(b, i)) && (RejectedAt(c, i) <==> RejectedAt(b, i))
    ensures HeardRight(c)
  {
    hide ResolvedAt, RejectedAt;
  }

  lemma SettledValues(b: Barrier, c: Barrier)
    requires ValuesRight(b) && c == b.(settled := c.settled)
    requires forall q :: q in b.settled ==> q in c.settled && c.settled[q] == b.settled[q]
    requires forall i: nat :: i in b.heard ==> i < |b.args| && b.args[i].Promised? && b.args[i].p in b.settled
    ensures ValuesRight(c)
  {
    forall i | 0 <= i < |b.args| ensures i in b.heard ==> Expected(c, i) == Expected(b, i) {
    }
    hide Expected;
  }

  lemma HearKeeps(b: Barrier, i: nat)
    requires Inv(b)
    ensures Inv(Next(b, Hear(i)))
  {
    if Due(b, i) {
      if RejectedAt(b, i) { HearRejected(b, i); } else { HearResolved(b, i); }
    }
  }

  /** What hearing changes for every other argument: nothing. */
  lemma HeardIs(b: Barrier, i: nat)
    requires HeardRight(b) && Due(b, i)
    ensures var c := Next(b, Hear(i)); HeardRight(c) && forall j: nat :: j != i ==> Passed(c, j) == Passed(b, j)
  {
    var c := Next(b, Hear(i));
    assert c.heard == b.heard + [i];
    forall j: nat | j != i ensures Passed(c, j) == Passed(b, j) {
      assert j in c.heard <==> j in b.heard;
    }
  }

  lemma HeardRejection(b: Barrier, i: nat)
    requires HeardRight(b) && Due(b, i)
    ensures var c := Next(b, Hear(i));
            FirstRejection(c, c.heard) ==
            if FirstRejection(b, b.heard).Open? && RejectedAt(b, i) then OneRejected(b.settled[b.args[i].p].xs)
            else FirstRejection(b, b.heard)
  {
    var c := Next(b, Hear(i));
    FirstRejectionSame(b, c, b.heard);
    assert c.heard[..|b.heard|] == b.heard && c.heard[|b.heard|] == i;
  }

  lemma HeardValues(b: Barrier, i: nat)
    requires HeardRight(b) && ValuesRight(b) && Due(b, i)
    ensures ValuesRight(Next(b, Hear(i)))
  {
    var c := Next(b, Hear(i));
    assert forall j :: j in c.heard <==> j in b.heard || j == i;
  }

  lemma HearRejected(b: Barrier, i: nat)
    requires Inv(b) && Due(b, i) && RejectedAt(b, i)
    ensures Inv(Next(b, Hear(i)))
  {
    hide HeardRight, ValuesRight, FirstRejection;
    var c := Next(b, Hear(i));
    HeardIs(b, i);
    HeardRejection(b, i);
    HeardValues(b, i);
    assert HeardRight(c);
    HoldingSame(b, c, |b.args|);
    if b.count == 0 { ZeroIsFinal(b, Close); }
    FirstRejectionIs(b, b.heard);
  }

  lemma HearResolved(b: Barrier, i: nat)
    requires Inv(b) && Due(b, i) && ResolvedAt(b, i)
    ensures Inv(Next(b, Hear(i)))
  {
    hide HeardRight, ValuesRight, FirstRejection;
    var c := Next(b, Hear(i));
    HeardIs(b, i);
    HeardRejection(b, i);
    HeardValues(b, i);
    HoldingLess(b, c, |b.args|, i);
    FirstRejectionIs(b, b.heard);
    if c.count == 0 { HeardAll(b, c, i); }
  }

  /** When the last promise is heard to resolve, none was heard to be rejected. */
  lemma HeardAll(b: Barrier, c: Barrier, i: nat)
    requires Inv(b) && Due(b, i) && ResolvedAt(b, i) && c == Next(b, Hear(i))
    requires Holding(c, |c.args|) == 0
    ensures FirstRejection(b, b.heard) == Open && b.master == Open
  {
    AllPassed(c);
    FirstRejectionIs(b, b.heard);
    forall k | 0 <= k < |b.heard| ensures !RejectedAt(b, b.heard[k]) { assert Passed(c, b.heard[k]); }
    if b.count == 0 { ZeroIsFinal(b, Close); }
  }

  lemma {:induction false} RunKeeps(b: Barrier, acts: seq<Action>)
    requires Inv(b)
    ensures Inv(Run(b, acts)) && Run(b, acts).args == b.args
    decreases |acts|
  {
    hide Inv, Next;
    if acts != [] {
      NextKeeps(b, acts[0]);
      RunKeeps(Next(b, acts[0]), acts[1..]);
    }
  }

  lemma NextKeeps(b: Barrier, a: Action)
    requires Inv(b)
    ensures Inv(Next(b, a)) && Next(b, a).args == b.args
  {
    match a
    case Attend => AttendKeeps(b);
    case Close => CloseKeeps(b);
    case Settle(p, s) => SettleKeeps(b, p, s);
    case Hear(i) => HearKeeps(b, i);
  }

  lemma StartInv(args: seq<Arg>)
    ensures Inv(Start(args))
  {
    AllHold(Start(args), |args|);
  }

  // ---- main results ---------------------------------------------------------------------------

  /** For any mix of plain values and promises, settled before, during or after the loop and heard in any
      order: the deferred resolves only once every promise has resolved, with each value at its own index,
      and rejects only with the first rejection heard. */
  lemma OutcomeIsRight(args: seq<Arg>, acts: seq<Action>)
    requires |args| > 1
    ensures var b := Run(Start(args), acts);
            if b.master.AllResolved? then
              var vs := b.master.values;
              && b.args == args && |vs| == |args| && (forall i: nat :: i < |args| && args[i].Plain? ==> vs[i] == Itself(args[i]))
              && (forall i: nat :: i < |args| && args[i].Promised? ==>
                    ResolvedAt(b, i) &&
                    var xs := b.settled[b.args[i].p].xs;
                    && (|xs| == 0 ==> vs[i] == Undefined) && (|xs| == 1 ==> vs[i] == One(xs[0]))
                    && (|xs| > 1 ==> vs[i] == Several(xs)))
            else b.master == FirstRejection(b, b.heard)
  {
    StartInv(args);
    RunKeeps(Start(args), acts);
    var b := Run(Start(args), acts);
    FirstRejectionIs(b, b.heard);
    if b.master.AllResolved? { ZeroIsFinal(b, Close); }
  }

  /** What the deferred comes to: rejected if some promise is, pending if some promise is, and resolved with
      all values otherwise. */
  ghost function Outcome(b: Barrier): Master {
    if exists i :: RejectedAt(b, i) then FirstRejection(b, b.heard)
    else if exists i: nat :: Waiting(b, i) then Open
    else AllResolved(AllExpected(b))
  }

  predicate Waiting(b: Barrier, i: nat) {
    i < |b.args| && b.args[i].Promised? && b.args[i].p !in b.settled
  }

  /** Once the loop is over and every callback that can run has run, that outcome is reached. */
  lemma OutcomeIsReached(args: seq<Arg>, acts: seq<Action>)
    requires |args| > 1
    ensures var b := Run(Start(args), acts);
            b.closed && (forall i :: !Due(b, i)) ==>
              b.master == Outcome(b) && ((exists i :: RejectedAt(b, i)) ==> b.master.OneRejected?)
  {
    StartInv(args);
    RunKeeps(Start(args), acts);
    var b := Run(Start(args), acts);
    if b.closed && forall i :: !Due(b, i) { QuietOutcome(b); }
  }

  lemma QuietOutcome(b: Barrier)
    requires Inv(b) && b.closed && forall i :: !Due(b, i)
    ensures b.master == Outcome(b) && ((exists i :: RejectedAt(b, i)) ==> b.master.OneRejected?)
  {
    FirstRejectionIs(b, b.heard);
    if i :| RejectedAt(b, i) {
      assert !Due(b, i);
      assert i in b.heard;
    } else if i: nat :| Waiting(b, i) {
      if b.count == 0 { ZeroIsFinal(b, Close); }
    } else {
      forall i: nat | i < |b.args| ensures Passed(b, i) { assert !Due(b, i) && !Waiting(b, i); }
      NoneHolds(b, |b.args|);
      ZeroIsFinal(b, Close);
    }
  }

  lemma {:induction false} NoneHolds(b: Barrier, n: nat)
    requires n <= |b.args| && forall i :: 0 <= i < n ==> Passed(b, i)
    ensures Holding(b, n) == 0
  {
    if n > 0 { NoneHolds(b, n - 1); }
  }

  /** The deferred is settled at most once. */
  lemma {:induction false} OutcomeIsFinal(b: Barrier, acts: seq<Action>)
    requires b.master != Open
    ensures Run(b, acts).master == b.master
    decreases |acts|
  {
    if acts != [] { OutcomeIsFinal(Next(b, acts[0]), acts[1..]); }
  }

  /** Callbacks still due after one turn of the loop, after that turn's callback, and after the loop. */
  lemma QuietTurn(b: Barrier, i: nat)
    requires HeardRight(b)
    ensures (forall j :: !Due(b, j)) ==> forall j :: Due(Next(b, Attend), j) ==> j == b.next
    ensures Due(b, i) && (forall j :: Due(b, j) ==> j == i) ==> forall j :: !Due(Next(b, Hear(i)), j)
    ensures (forall j :: !Due(b, j)) ==> forall j :: !Due(Next(b, Close), j)
  {
    var c, d, e := Next(b, Attend), Next(b, Hear(i)), Next(b, Close);
    assert Due(b, i) ==> d.heard == b.heard + [i];
    assert forall j :: j in b.heard ==> j in d.heard;
    assert Due(b, i) ==> i in d.heard;
    assert forall j :: Due(c, j) ==> j == b.next || Due(b, j);
    assert forall j :: Due(d, j) ==> Due(b, j);
    assert forall j :: Due(e, j) ==> Due(b, j);
  }

  // ---- the variables updated in place ---------------------------------------------------------

  /** One call of `when` with several arguments. */
  class When {
    const args: seq<Arg>
    const values: array<Value>
    var count: int
    var next: nat
    var master: Master
    ghost var closed: bool
    ghost var settled: map<nat, Settlement>
    ghost var heard: seq<nat>

    ghost function View(): Barrier reads this, values {
      Barrier(args, values[..], count, next, closed, master, settled, heard)
    }

    constructor (args: seq<Arg>, ghost settled: map<nat, Settlement>)
      requires |args| > 1
      ensures View() == Start(args).(settled := settled) && Inv(View()) && fresh(values)
    {
      this.args := args;
      values := new Value[|args|](i requires 0 <= i < |args| => Itself(args[i]));
      count, next, master, closed := |args|, 0, Open, false;
      this.settled, heard := settled, [];
      new;
      assert values[..] == Start(args).values;
      AllHold(View(), |args|);
    }

    /** `resolveWith` on the deferred. */
    method ResolveWith()
      modifies this`master
      ensures View() == old(View()).(master := Resolve(old(master), values[..]))
    {
      if master.Open? { master := AllResolved(values[..]); }
    }

    method Attend() returns (attached: bool)
      requires next < |args| && !closed
      modifies this`next, this`count
      ensures View() == Next(old(View()), Action.Attend) && attached == args[old(next)].Promised?
    {
      attached := args[next].Promised?;
      if !attached { count := count - 1; }
      next := next + 1;
    }

    method Close()
      requires next == |args| && !closed
      modifies this`master, this`closed
      ensures View() == Next(old(View()), Action.Close)
    {
      closed := true;
      if count == 0 { ResolveWith(); }
    }

    /** The callback that fills index `i`. */
    method Fill(i: nat, xs: seq<nat>)
      requires Due(View(), i) && settled[args[i].p] == ResolvedWith(xs)
      modifies this`count, this`master, this`heard, values
      ensures View() == Next(old(View()), Hear(i))
    {
      heard := heard + [i];
      values[i] := Pack(xs);
      count := count - 1;
      if count == 0 { ResolveWith(); }
    }

    /** `reject` on the deferred, attached for argument `i`. */
    method RejectWith(ghost i: nat, xs: seq<nat>)
      requires Due(View(), i) && settled[args[i].p] == RejectedWith(xs)
      modifies this`master, this`heard
      ensures View() == Next(old(View()), Hear(i))
    {
      heard := heard + [i];
      if master.Open? { master := OneRejected(xs); }
    }

    /** The loop and the test after it, over promises that are settled (or not) when `when` is called: the
        callback attached to a settled one runs at once. */
    method Collect(known: map<nat, Settlement>)
      requires Inv(View()) && next == 0 && heard == [] && !closed && settled == known
      modifies this`count, this`next, this`master, this`closed, this`heard, values
      ensures Inv(View()) && closed && master == Outcome(View())
    {
      while next < |args|
        invariant Inv(View()) && next <= |args| && !closed && settled == known
        invariant forall i :: !Due(View(), i)
      {
        var i := next;
        AttendKeeps(View());
        QuietTurn(View(), i);
        var attached := Attend();
        if attached && args[i].p in known {
          assert i !in heard;
          HearKeeps(View(), i);
          QuietTurn(View(), i);
          match known[args[i].p]
          case ResolvedWith(xs) => Fill(i, xs);
          case RejectedWith(xs) => RejectWith(i, xs);
        }
      }
      CloseKeeps(View());
      QuietTurn(View(), 0);
      Close();
      QuietOutcome(View());
    }
  }
}
