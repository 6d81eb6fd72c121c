/** What the flags of a callback list promise, for callbacks that leave the list alone. */
module CallbackFlags {
  import opened Options
  import opened CallbackLists
  import opened CallbackObjects

  /** The callbacks do nothing to the list; some may return `false`. */
  predicate Silent<F>(script: seq<Behaviour<F>>) { forall i :: 0 <= i < |script| ==> script[i].ops == [] }

  /** How many of `n` callbacks are called: up to the first that stops the pass. */
  function MadeOf<F>(script: seq<Behaviour<F>>, stops: bool, n: nat): (k: nat)
    ensures k <= n
  {
    if n == 0 then 0 else if stops && Head(script).isFalse then 1 else 1 + MadeOf(Tail(script), stops, n - 1)
  }

  /** One of them stops it. */
  predicate Stopped<F>(script: seq<Behaviour<F>>, stops: bool, n: nat) {
    n > 0 && ((stops && Head(script).isFalse) || Stopped(Tail(script), stops, n - 1))
  }

  function CallsTo<F>(fs: seq<F>, call: Call): seq<Invocation<F>> {
    seq(|fs|, i requires 0 <= i < |fs| => Invocation(fs[i], call))
  }

  /** The loop calls as many as that and leaves everything else, but for the memory of a stopped pass. */
  ghost predicate LoopsSilently<F>(p: Pass<F>, call: Call)
    requires p.c.list.Some? && 0 <= p.c.index <= p.c.length == |p.c.list.value|
  {
    var q, n := Loop(p, call), p.c.length - p.c.index;
    && q.log == p.log + CallsFrom(p.c.list.value, p.c.index, MadeOf(p.script, p.c.flags.stopOnFalse, n), call)
    && q.c == p.c.(index := q.c.index,
                   memory := if Stopped(p.script, p.c.flags.stopOnFalse, n) then Fired else p.c.memory)
  }

  lemma {:induction false} SilentLoop<F>(p: Pass<F>, call: Call)
    requires p.c.list.Some? && 0 <= p.c.index <= p.c.length == |p.c.list.value| && Silent(p.script)
    ensures LoopsSilently(p, call)
    decreases p.c.length - p.c.index
  {
    hide LoopsSilently, Loop, Stopped, MadeOf, CallsFrom;
    if p.c.index == p.c.length {
      SilentEnd(p, call);
    } else {
      SilentTurn(p, call);
      if p.c.flags.stopOnFalse && Head(p.script).isFalse {
        SilentStop(p, call);
      } else {
        SilentLoop(AfterTurn(p, call), call);
        SilentMore(p, call);
      }
    }
  }

  /** The pass behind a turn that does not stop it. */
  function AfterTurn<F>(p: Pass<F>, call: Call): Pass<F>
    requires p.c.list.Some? && 0 <= p.c.index < |p.c.list.value|
  {
    Pass(p.c.(index := p.c.index + 1), p.log + [Invocation(p.c.list.value[p.c.index], call)], Tail(p.script))
  }

  lemma SilentEnd<F>(p: Pass<F>, call: Call)
    requires p.c.list.Some? && 0 <= p.c.index == p.c.length == |p.c.list.value|
    ensures LoopsSilently(p, call)
  {
    NoCall(p.log, p.c.list.value, p.c.index, call);
    hide CallsFrom;
  }

  lemma SilentStop<F>(p: Pass<F>, call: Call)
    requires Running(p.c) && 0 <= p.c.index < p.c.length == |p.c.list.value| && Silent(p.script)
    requires p.c.flags.stopOnFalse && Head(p.script).isFalse
    ensures LoopsSilently(p, call)
  {
    SilentTurn(p, call);
    MadeFirst(p.script, true, p.c.length - p.c.index);
    OneCall(p.log, p.c.list.value, p.c.index, 0, call);
    hide Loop, Stopped, MadeOf, CallsFrom, Head, Tail;
  }

  lemma SilentMore<F>(p: Pass<F>, call: Call)
    requires Running(p.c) && 0 <= p.c.index < p.c.length == |p.c.list.value| && Silent(p.script)
    requires !(p.c.flags.stopOnFalse && Head(p.script).isFalse) && LoopsSilently(AfterTurn(p, call), call)
    ensures LoopsSilently(p, call)
  {
    var stops, n := p.c.flags.stopOnFalse, p.c.length - p.c.index;
    SilentTurn(p, call);
    MadeFirst(p.script, stops, n);
    OneCall(p.log, p.c.list.value, p.c.index, MadeOf(Tail(p.script), stops, n - 1), call);
    hide Loop, Stopped, MadeOf, CallsFrom, Head, Tail;
  }

  lemma NoCall<F>(log: seq<Invocation<F>>, l: seq<F>, i: nat, call: Call)
    requires i <= |l|
    ensures log + CallsFrom(l, i, 0, call) == log
  {
  }

  lemma SilentTurn<F>(p: Pass<F>, call: Call)
    requires Running(p.c) && 0 <= p.c.index < |p.c.list.value| && Silent(p.script)
    ensures Silent(Tail(p.script))
    ensures var r := AfterTurn(p, call);
            if Head(p.script).isFalse && p.c.flags.stopOnFalse then
              Loop(p, call) == r.(c := p.c.(memory := Fired))
            else Loop(p, call) == Loop(r, call)
  {
    SilentInvoke(p, call);
    hide Invoke, Silent;
  }

  lemma MadeFirst<F>(script: seq<Behaviour<F>>, stops: bool, n: nat)
    requires n > 0
    ensures MadeOf(script, stops, n) == if stops && Head(script).isFalse then 1 else 1 + MadeOf(Tail(script), stops, n - 1)
    ensures Stopped(script, stops, n) <==> (stops && Head(script).isFalse) || Stopped(Tail(script), stops, n - 1)
  {
  }

  lemma SilentInvoke<F>(p: Pass<F>, call: Call)
    requires Running(p.c) && 0 <= p.c.index < |p.c.list.value| && Silent(p.script)
    ensures Invoke(p, call) == Pass(p.c, p.log + [Invocation(p.c.list.value[p.c.index], call)], Tail(p.script))
    ensures Silent(Tail(p.script))
  {
    assert Head(p.script).ops == [] && DoAll(p.c, []) == p.c;
  }

  /** `k` functions from the i-th on. */
  function CallsFrom<F>(l: seq<F>, i: nat, k: nat, call: Call): seq<Invocation<F>>
    requires i + k <= |l|
  {
    CallsTo(l[i..i + k], call)
  }

  lemma OneCall<F>(log: seq<Invocation<F>>, l: seq<F>, i: nat, k: nat, call: Call)
    requires i + 1 + k <= |l|
    ensures log + CallsFrom(l, i, 1 + k, call) == (log + [Invocation(l[i], call)]) + CallsFrom(l, i + 1, k, call)
    ensures k == 0 ==> log + CallsFrom(l, i, 1, call) == log + [Invocation(l[i], call)]
  {
    assert l[i..i + (1 + k)] == [l[i]] + l[i + 1..i + 1 + k];
  }

  /** A list that rests, with nothing postponed, and that a call can fire. */
  ghost predicate CanFire<F>(c: Cbs<F>) {
    AtRest(c) && c.list.Some? && c.stack == Some([]) && (c.flags.once ==> c.memory == Unset)
  }

  /** Firing calls what is listed, in order, up to the first that stops it. What is left: the memory of the call, if the
      list has one and was not stopped; the list, if it may fire again; and an empty one, or none, if it may not. */
  lemma FiringIs<F>(p: Pass<F>, call: Call)
    requires CanFire(p.c) && Silent(p.script)
    ensures var l, flags := p.c.list.value, p.c.flags; var stopped := Stopped(p.script, flags.stopOnFalse, |l|);
            var q := FireOutside(p, call); var remembers := flags.memory && !stopped;
            && q.log == p.log + CallsTo(l[..MadeOf(p.script, flags.stopOnFalse, |l|)], call)
            && q.c.flags == flags && AtRest(q.c)
            && q.c.list == (if !flags.once then Some(l) else if remembers then Some([]) else None)
            && (q.c.list.Some? ==> q.c.stack == Some([]) && q.c.memory == if remembers then Args(call) else Fired)
            && (q.c.list.None? ==> q.c.stack == None)
  {
    var b := p.(c := Begin(p.c, call));
    SilentLoop(b, call);
    LoopKeeps(b, call);
    FinishKeeps(b, Loop(b, call));
    FireAllIs(p, call);
  }

  /** A list with `once` fires once. */
  lemma OnceFiresOnce<F>(p: Pass<F>, call: Call, again: Call)
    requires CanFire(p.c) && Silent(p.script) && p.c.flags.once
    ensures var q := FireOutside(p, call); AtRest(q.c) && FireOutside(q, again) == q
  {
    FiringIs(p, call);
    hide FireAll;
    var q := FireOutside(p, call);
    assert FireWith(q.c, again) == (q.c, None);
  }

  /** Adding to a list that rests: it calls what is new, with the call it remembers if it does. */
  lemma AddingIs<F>(q: Pass<F>, args: seq<Arg<F>>)
    requires AtRest(q.c) && q.c.list.Some? && q.c.stack == Some([]) && q.script == []
    requires q.c.memory.Args? ==> q.c.flags.memory
    ensures var l := q.c.list.value; var more := PushAll(l, q.c.flags.unique, Flatten(args));
            l <= more &&
            AddOutside(q, args).log == q.log + if q.c.memory.Args? then CallsTo(more[|l|..], q.c.memory.call) else []
  {
    hide Loop, Flatten, PushAll, FireAll;
    var l := q.c.list.value;
    PushAllKeeps(l, q.c.flags.unique, Flatten(args));
    var (c, go) := Add(q.c, args);
    if go.Some? {
      var x, call := q.(c := c), go.value;
      var b := x.(c := Begin(x.c, call));
      SilentLoop(b, call);
      LoopKeeps(b, call);
      FinishKeeps(b, Loop(b, call));
      FireAllIs(x, call);
      var n := |c.list.value| - |l|;
      NoneStops<F>(q.c.flags.stopOnFalse, n);
      assert c.list.value[|l|..|l| + n] == c.list.value[|l|..];
    } else {
      assert q.log + [] == q.log;
    }
  }

  /** What is added later is called at once if the list remembers its call, with that call, and whatever was called
      before is not called again; after a pass that was stopped, or without memory, nothing is called. */
  lemma AddingLater<F>(p: Pass<F>, call: Call, args: seq<Arg<F>>)
    requires CanFire(p.c) && Silent(p.script)
    ensures var q := FireOutside(p, call).(script := []); var l := if p.c.flags.once then [] else p.c.list.value;
            AtRest(q.c) &&
            if p.c.flags.memory && !Stopped(p.script, p.c.flags.stopOnFalse, |p.c.list.value|) then
              l <= PushAll(l, p.c.flags.unique, Flatten(args)) &&
              AddOutside(q, args).log == q.log + CallsTo(PushAll(l, p.c.flags.unique, Flatten(args))[|l|..], call)
            else AddOutside(q, args).log == q.log
  {
    FiringIs(p, call);
    hide FireAll, Loop, Flatten, PushAll, CallsTo, MadeOf, Stopped;
    var q := FireOutside(p, call).(script := []);
    if q.c.list.Some? {
      AddingIs(q, args);
      assert q.log + [] == q.log;
    }
  }

  lemma {:induction false} NoneStops<F>(stops: bool, n: nat)
    ensures MadeOf<F>([], stops, n) == n && !Stopped<F>([], stops, n)
    decreases n
  {
    if n > 0 { NoneStops<F>(stops, n - 1); }
  }

  // ---- the end of a list ----------------------------------------------------------------------

  /** A disabled list has nothing left, and no sequence of operations brings anything back. */
  lemma {:induction false} DisabledForGood<F>(c: Cbs<F>, ops: seq<Op<F>>)
    ensures DoAll(Disable(c), ops) == Disable(c)
    ensures Disable(c) == c.(list := None, stack := None, memory := Unset)
    decreases |ops|
  {
    hide Add, Remove;
    if ops != [] {
      OnceDisabled(c, ops[0]);
      DisabledForGood(c, ops[1..]);
    }
  }

  lemma {:induction false} OnceDisabled<F>(c: Cbs<F>, op: Op<F>)
    ensures Do(Disable(c), op) == Disable(c)
  {
    if op.OpRemove? { NothingToRemove(Disable(c), op.fs); }
  }

  lemma {:induction false} NothingToRemove<F>(c: Cbs<F>, fs: seq<F>)
    requires c.list.None?
    ensures Remove(c, fs) == c
    decreases |fs|
  {
    if fs != [] { NothingToRemove(c, fs[1..]); }
  }

  /** A locked list is called no more from outside. If it holds a call it goes on answering additions with it; otherwise,
      because it never fired, or forgets what it is called with, it is disabled. */
  lemma LockedIs<F>(c: Cbs<F>, call: Call)
    ensures FireWith(Lock(c), call) == (Lock(c), None)
    ensures c.memory.Args? ==> Lock(c) == c.(stack := None)
    ensures !c.memory.Args? ==> Lock(c) == c.(list := None, stack := None, memory := Unset)
  {
  }

  // ---- nested arguments -----------------------------------------------------------------------

  /** Arguments are taken in order, a function as it is, an array as what is in it, and anything else as nothing. */
  lemma {:induction false} FlattenAppend<F>(a: seq<Arg<F>>, b: seq<Arg<F>>)
    ensures Flatten(a + b) == Flatten(a) + Flatten(b)
    decreases |a|
  {
    if a == [] {
      assert a + b == b;
    } else {
      FlattenFirst(a);
      FlattenFirst(a + b);
      hide Flatten;
      assert (a + b)[1..] == a[1..] + b && (a + b)[0] == a[0];
      FlattenAppend(a[1..], b);
      Grouped(Taken(a[0]), Flatten(a[1..]), Flatten(b));
    }
  }

  /** What one argument stands for. */
  function Taken<F>(x: Arg<F>): seq<F> {
    match x case Func(f) => [f] case Arr(items) => Flatten(items) case Skipped => []
  }

  lemma FlattenFirst<F>(a: seq<Arg<F>>)
    requires a != []
    ensures Flatten(a) == Taken(a[0]) + Flatten(a[1..])
  {
  }

  lemma Grouped<F>(a: seq<F>, b: seq<F>, c: seq<F>)
    ensures a + (b + c) == (a + b) + c
  {
  }

  lemma FlattenIs<F>(a: seq<Arg<F>>, f: F, items: seq<Arg<F>>)
    ensures Flatten(a + [Func(f)]) == Flatten(a) + [f] && Flatten(a + [Arr(items)]) == Flatten(a) + Flatten(items)
    ensures Flatten(a + [Skipped]) == Flatten(a) && Flatten<F>([]) == []
  {
    FlattenAppend(a, [Func(f)]);
    FlattenAppend(a, [Arr(items)]);
    FlattenAppend(a, [Skipped]);
    assert [Func(f)][1..] == [] && [Arr(items)][1..] == [] && [Arg<F>.Skipped][1..] == [];
  }
}
