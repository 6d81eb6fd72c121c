/** Passes that callbacks end early: by returning `false`, or by locking or disabling the list. */
module CallbackStops {
  import opened Options
  import opened CallbackLists

  /** Locking ends a pass only if the list has no memory. */
  predicate EndsPass<F>(op: Op<F>, flags: Flags) { op.OpDisable? || (op.OpLock? && !flags.memory) }

  predicate Stops<F>(b: Behaviour<F>, flags: Flags) {
    (b.isFalse && flags.stopOnFalse) || exists i :: 0 <= i < |b.ops| && EndsPass(b.ops[i], flags)
  }

  /** How many invocations come before the first that ends the pass; all of them if none does. */
  function FirstStop<F>(script: seq<Behaviour<F>>, flags: Flags): (k: nat)
    ensures k <= |script| && (k < |script| ==> Stops(script[k], flags)) && forall i :: 0 <= i < k ==> !Stops(script[i], flags)
  {
    if script == [] || Stops(script[0], flags) then 0 else 1 + FirstStop(script[1..], flags)
  }

  /** The script with everything left out that could end the pass. */
  function Undisturbed<F>(script: seq<Behaviour<F>>): seq<Behaviour<F>> {
    if script == [] then [] else [Behaviour(ListedOps(script[0].ops), false)] + Undisturbed(script[1..])
  }

  function ListedOps<F>(ops: seq<Op<F>>): seq<Op<F>> {
    if ops == [] then [] else (if Listed(ops[0]) then [ops[0]] else []) + ListedOps(ops[1..])
  }

  lemma {:induction false} ListedOpsAre<F>(ops: seq<Op<F>>)
    ensures forall j :: 0 <= j < |ListedOps(ops)| ==> Listed(ListedOps(ops)[j])
  {
    if ops != [] { ListedOpsAre(ops[1..]); }
  }

  lemma {:induction false} UndisturbedIs<F>(script: seq<Behaviour<F>>, stopOnFalse: bool)
    ensures |Undisturbed(script)| == |script| && ListedScript(Undisturbed(script), stopOnFalse)
  {
    if script != [] {
      ListedOpsAre(script[0].ops);
      UndisturbedIs(script[1..], stopOnFalse);
      var u, v := Undisturbed(script), Undisturbed(script[1..]);
      assert forall i :: 1 <= i < |u| ==> u[i] == v[i - 1];
    }
  }

  // ---- the same pass but for the postponed calls ----------------------------------------------

  /** Two lists in a pass that differ at most in the calls they have postponed. */
  ghost predicate Alike<F>(c: Cbs<F>, d: Cbs<F>) {
    c.firing && (c.memory.Args? <==> c.flags.memory) && d == c.(stack := d.stack)
  }

  lemma {:induction false} RemoveFromAlike<F>(c: Cbs<F>, d: Cbs<F>, f: F, g: nat)
    requires Alike(c, d)
    ensures Alike(RemoveFrom(c, f, g), RemoveFrom(d, f, g)) && RemoveFrom(c, f, g).flags == c.flags
    decreases if c.list.Some? then |c.list.value| - g else 0
  {
    if c.list.Some? && g < |c.list.value| {
      if c.list.value[g] != f {
        RemoveFromAlike(c, d, f, g + 1);
      } else if !c.flags.unique {
        var list := Without(c.list.value, g);
        var index := if g <= c.length && g <= c.index then c.index - 1 else c.index;
        var length := if g <= c.length then c.length - 1 else c.length;
        RemoveFromAlike(c.(list := Some(list), index := index, length := length),
                        d.(list := Some(list), index := index, length := length), f, g);
      }
    }
  }

  lemma {:induction false} RemoveAlike<F>(c: Cbs<F>, d: Cbs<F>, fs: seq<F>)
    requires Alike(c, d)
    ensures Alike(Remove(c, fs), Remove(d, fs)) && Remove(c, fs).flags == c.flags
    decreases |fs|
  {
    hide RemoveFrom;
    if fs != [] {
      RemoveFromAlike(c, d, fs[0], 0);
      RemoveAlike(RemoveFrom(c, fs[0], 0), RemoveFrom(d, fs[0], 0), fs[1..]);
    }
  }

  lemma DoAlike<F>(c: Cbs<F>, d: Cbs<F>, op: Op<F>)
    requires Alike(c, d) && !EndsPass(op, c.flags)
    ensures Alike(Do(c, op), if Listed(op) then Do(d, op) else d) && Do(c, op).flags == c.flags
  {
    hide Remove, PushAll, Flatten;
    if op.OpRemove? { RemoveAlike(c, d, op.fs); }
  }

  lemma {:induction false} DoAllAlike<F>(c: Cbs<F>, d: Cbs<F>, ops: seq<Op<F>>)
    requires Alike(c, d) && forall i :: 0 <= i < |ops| ==> !EndsPass(ops[i], c.flags)
    ensures Alike(DoAll(c, ops), DoAll(d, ListedOps(ops))) && DoAll(c, ops).flags == c.flags
    decreases |ops|
  {
    hide Do, Alike, EndsPass, Listed;
    if ops != [] {
      var e := if Listed(ops[0]) then Do(d, ops[0]) else d;
      DoAlike(c, d, ops[0]);
      DoAllAlike(Do(c, ops[0]), e, ops[1..]);
      assert ([ops[0]] + ListedOps(ops[1..]))[1..] == ListedOps(ops[1..]);
      assert [] + ListedOps(ops[1..]) == ListedOps(ops[1..]);
    }
  }

  // ---- a list that was disabled ---------------------------------------------------------------

  lemma {:induction false} StaysDisabled<F>(c: Cbs<F>, ops: seq<Op<F>>)
    requires c.list.None?
    ensures DoAll(c, ops).list.None?
    decreases |ops|
  {
    if ops != [] {
      if ops[0].OpRemove? { RemoveNothing(c, ops[0].fs); }
      StaysDisabled(Do(c, ops[0]), ops[1..]);
    }
  }

  lemma {:induction false} RemoveNothing<F>(c: Cbs<F>, fs: seq<F>)
    requires c.list.None?
    ensures Remove(c, fs) == c
    decreases |fs|
  {
    if fs != [] { RemoveNothing(c, fs[1..]); }
  }

  /** Whatever else a callback does, one such operation leaves no list. */
  lemma {:induction false} EndsPassDisables<F>(c: Cbs<F>, d: Cbs<F>, ops: seq<Op<F>>)
    requires Alike(c, d) && exists i :: 0 <= i < |ops| && EndsPass(ops[i], c.flags)
    ensures DoAll(c, ops).list.None?
    decreases |ops|
  {
    hide Remove, Add, FireWith;
    if EndsPass(ops[0], c.flags) {
      StaysDisabled(Do(c, ops[0]), ops[1..]);
    } else {
      DoAlike(c, d, ops[0]);
      var i :| 0 <= i < |ops| && EndsPass(ops[i], c.flags);
      assert ops[1..][i - 1] == ops[i];
      EndsPassDisables(Do(c, ops[0]), if Listed(ops[0]) then Do(d, ops[0]) else d, ops[1..]);
    }
  }

  // ---- the loop -------------------------------------------------------------------------------

  lemma {:induction false} LoopLogGrows<F>(p: Pass<F>, call: Call)
    ensures p.log <= Loop(p, call).log
    decreases |p.script|, p.c.length - p.c.index
  {
    if Running(p.c) && 0 <= p.c.index < |p.c.list.value| && !(Head(p.script).isFalse && p.c.flags.stopOnFalse) {
      var q := Invoke(p, call);
      LoopLogGrows(q.(c := q.c.(index := q.c.index + 1)), call);
    }
  }

  /** How much of the calls from `n` on are made. */
  function Made<F>(calls: seq<Invocation<F>>, n: nat, script: seq<Behaviour<F>>, flags: Flags): seq<Invocation<F>> {
    var k := FirstStop(script, flags);
    if k < |script| && n + k < |calls| then calls[..n + k + 1] else calls
  }

  lemma {:induction false} LoopStops<F>(p: Pass<F>, q: Pass<F>, call: Call)
    requires Alike(p.c, q.c) && p.log == q.log && q.script == Undisturbed(p.script)
    ensures Loop(p, call).log == Made(Loop(q, call).log, |p.log|, p.script, p.c.flags)
    decreases |p.script|, p.c.length - p.c.index
  {
    hide DoAll, Made, Stops, FirstStop;
    MadeOf(Loop(q, call).log, |p.log|, p.script, p.c.flags);
    if Running(p.c) && 0 <= p.c.index < |p.c.list.value| {
      var b := Head(p.script);
      var p1, q1 := Invoke(p, call), Invoke(q, call);
      var p2, q2 := p1.(c := p1.c.(index := p1.c.index + 1)), q1.(c := q1.c.(index := q1.c.index + 1));
      LoopLogGrows(q2, call);
      if Stops(b, p.c.flags) {
        StoppedLog(p, q.c, call);
      } else {
        NoneEndsPass(b, p.c.flags);
        DoAllAlike(p.c, q.c, b.ops);
        NoOps(p.c);
        LoopStops(p2, q2, call);
      }
    }
  }

  lemma NoneEndsPass<F>(b: Behaviour<F>, flags: Flags)
    requires !Stops(b, flags)
    ensures !(b.isFalse && flags.stopOnFalse) && forall i :: 0 <= i < |b.ops| ==> !EndsPass(b.ops[i], flags)
  {
  }

  /** One call after the other. */
  lemma MadeOf<F>(calls: seq<Invocation<F>>, n: nat, script: seq<Behaviour<F>>, flags: Flags)
    ensures |calls| <= n ==> Made(calls, n, script, flags) == calls
    ensures n < |calls| ==>
              Made(calls, n, script, flags) ==
              if Stops(Head(script), flags) then calls[..n + 1] else Made(calls, n + 1, Tail(script), flags)
  {
    hide Stops;
    if script == [] { NothingStops<F>(flags); }
  }

  lemma NothingStops<F>(flags: Flags)
    ensures !Stops(Head<F>([]), flags)
  {
  }

  lemma NoOps<F>(c: Cbs<F>)
    ensures DoAll(c, []) == c
  {
  }

  /** A pass that an invocation ends makes no call after it. */
  lemma StoppedLog<F>(p: Pass<F>, d: Cbs<F>, call: Call)
    requires Alike(p.c, d) && Running(p.c) && 0 <= p.c.index < |p.c.list.value| && Stops(Head(p.script), p.c.flags)
    ensures Loop(p, call).log == Invoke(p, call).log
  {
    hide DoAll;
    var b := Head(p.script);
    if !(b.isFalse && p.c.flags.stopOnFalse) { EndsPassDisables(p.c, d, b.ops); }
  }

  /** Any pass: it makes the calls that it would make if nothing ended it early, up to and including the first by
      which a callback returns `false` where that counts, disables the list, or locks one without memory. */
  lemma PassEndsAtStop<F>(c: Cbs<F>, call: Call, script: seq<Behaviour<F>>) returns (ran: seq<Occ<F>>)
    requires Consistent(c) && !c.firing && c.list.Some?
    ensures TakesTurns(c.list.value, c.start, c.flags.unique, Undisturbed(script), ran)
    ensures var k := FirstStop(script, c.flags);
            Loop(Pass(Begin(c, call), [], script), call).log ==
            Calls(if k < |script| && k < |ran| then ran[..k + 1] else ran, call)
  {
    hide Loop, TakesTurns, ListedScript, Consistent;
    UndisturbedIs(script, c.flags.stopOnFalse);
    ran := PassRunsEveryRegistrationOnce(c, call, Undisturbed(script));
    var b := Begin(c, call);
    LoopStops(Pass(b, [], script), Pass(b, [], Undisturbed(script)), call);
    CallsPrefix(ran, FirstStop(script, c.flags) + 1, call);
  }

  lemma {:induction false} CallsPrefix<F>(ran: seq<Occ<F>>, n: nat, call: Call)
    ensures |Calls(ran, call)| == |ran| && (n <= |ran| ==> Calls(ran[..n], call) == Calls(ran, call)[..n])
    decreases |ran|
  {
    if ran != [] {
      var most := ran[..|ran| - 1];
      CallsPrefix(most, n, call);
      if n < |ran| {
        assert most[..n] == ran[..n];
        assert Calls(ran, call)[..n] == Calls(most, call)[..n];
      } else {
        assert ran[..|ran|] == ran;
      }
    }
  }
}
