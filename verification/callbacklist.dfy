/** `b.Callbacks` as an object. */
module CallbackObjects {
  import opened Options
  import opened CallbackLists

  // ---- a pass and the passes it postponed -----------------------------------------------------

  /** Within a pass the cursor is at an entry of the list, or just in front of it. */
  ghost predicate InPass<F>(c: Cbs<F>) {
    && (c.stack.Some? ==> c.list.Some?)
    && (c.list.Some? ==>
          c.firing && c.start == 0 && c.length == |c.list.value| && -1 <= c.index < c.length &&
          (c.flags.unique ==> Distinct(c.list.value)))
  }

  lemma {:induction false} PushAllKeeps<F>(list: seq<F>, unique: bool, fs: seq<F>)
    requires unique ==> Distinct(list)
    ensures list <= PushAll(list, unique, fs) && (unique ==> Distinct(PushAll(list, unique, fs)))
    decreases |fs|
  {
    if fs != [] { PushAllKeeps(Push(list, unique, fs[0]), unique, fs[1..]); }
  }

  lemma {:induction false} RemoveKeeps<F>(c: Cbs<F>, fs: seq<F>)
    requires InPass(c)
    ensures InPass(Remove(c, fs))
    decreases |fs|
  {
    hide InPass;
    if fs != [] {
      RemoveFromKeeps(c, fs[0]);
      RemoveKeeps(RemoveFrom(c, fs[0], 0), fs[1..]);
    }
  }

  lemma RemoveFromKeeps<F>(c: Cbs<F>, f: F)
    requires InPass(c)
    ensures InPass(RemoveFrom(c, f, 0))
  {
    if c.list.Some? {
      var l := c.list.value;
      RemoveFromIs(c, f, 0);
      WholeFilter(l, f);
      RepairedIsWithin(l, f, c.index);
      if c.flags.unique { FilterOutDistinct(l, f); }
      hide RemoveFrom, FilterOut, Repaired;
    }
  }

  lemma WholeFilter<F>(l: seq<F>, f: F)
    ensures l[..0] + FilterOut(l[0..], f) == FilterOut(l, f)
  {
    hide FilterOut;
    assert l[0..] == l && l[..0] == [];
    assert [] + FilterOut(l, f) == FilterOut(l, f);
  }

  /** The cursor is repaired to an entry that is left, or just in front of the list. */
  lemma RepairedIsWithin<F>(l: seq<F>, f: F, index: int)
    requires -1 <= index < |l|
    ensures -1 <= Repaired(l, f, 0, index) < |FilterOut(l, f)|
  {
    var a, b := l[..index + 1], l[index + 1..];
    assert l[0..index + 1] == a && l == a + b;
    FilterOutSize(a, f);
    FilterOutAppend(a, b, f);
    hide FilterOut, Count;
  }

  lemma DoKeeps<F>(c: Cbs<F>, op: Op<F>)
    requires InPass(c)
    ensures InPass(Do(c, op))
  {
    match op
    case OpAdd(args) => if c.list.Some? { PushAllKeeps(c.list.value, c.flags.unique, Flatten(args)); }
    case OpRemove(fs) => RemoveKeeps(c, fs);
    case _ =>
  }

  lemma {:induction false} DoAllKeeps<F>(c: Cbs<F>, ops: seq<Op<F>>)
    requires InPass(c)
    ensures InPass(DoAll(c, ops))
    decreases |ops|
  {
    hide InPass;
    if ops != [] {
      DoKeeps(c, ops[0]);
      DoAllKeeps(Do(c, ops[0]), ops[1..]);
    }
  }

  /** At the loop head the cursor is at an entry, or behind the last. */
  ghost predicate AtLoopHead<F>(c: Cbs<F>) { InPass(c.(index := c.index - 1)) }

  /** What holds when the loop of a pass is left. */
  ghost predicate LoopDone<F>(p: Pass<F>, q: Pass<F>) {
    && (q.c.stack.Some? ==> q.c.list.Some?)
    && (q.c.list.Some? ==> q.c.start == 0 && (q.c.flags.unique ==> Distinct(q.c.list.value)))
    && q.c.flags == p.c.flags
    && |q.script| <= |p.script| && (|q.script| < |p.script| || q.c.stack == p.c.stack)
  }

  lemma {:induction false} DoAllFlags<F>(c: Cbs<F>, ops: seq<Op<F>>)
    ensures DoAll(c, ops).flags == c.flags
    decreases |ops|
  {
    if ops != [] {
      match ops[0] {
        case OpRemove(fs) => RemoveFlags(c, fs);
        case _ =>
      }
      DoAllFlags(Do(c, ops[0]), ops[1..]);
    }
  }

  lemma {:induction false} RemoveFlags<F>(c: Cbs<F>, fs: seq<F>)
    ensures Remove(c, fs).flags == c.flags
    decreases |fs|
  {
    if fs != [] {
      RemoveFromFlags(c, fs[0], 0);
      RemoveFlags(RemoveFrom(c, fs[0], 0), fs[1..]);
    }
  }

  lemma RemoveFromFlags<F>(c: Cbs<F>, f: F, g: nat)
    ensures RemoveFrom(c, f, g).flags == c.flags
    decreases if c.list.Some? then |c.list.value| - g else 0
  {
  }

  /** The loop leaves the list in order, and postpones calls only if some callback ran. */
  lemma {:induction false} LoopKeeps<F>(p: Pass<F>, call: Call)
    requires AtLoopHead(p.c)
    ensures LoopDone(p, Loop(p, call))
    decreases |p.script|, p.c.length - p.c.index
  {
    if Running(p.c) {
      var q := Invoke(p, call);
      DoAllKeeps(p.c, Head(p.script).ops);
      DoAllFlags(p.c, Head(p.script).ops);
      assert p.script == [] ==> q.c == p.c && q.script == [];
      if !(Head(p.script).isFalse && p.c.flags.stopOnFalse) {
        var r := q.(c := q.c.(index := q.c.index + 1));
        assert r.c.(index := r.c.index - 1) == q.c;
        LoopKeeps(r, call);
      }
    }
  }

  /** A list between passes, with no pass about to start. */
  ghost predicate AtRest<F>(c: Cbs<F>) { Consistent(c) && c.start == 0 && !c.firing }

  /** A pass, and then the passes for the calls that were postponed meanwhile. */
  ghost function FireAll<F>(p: Pass<F>, call: Call): Pass<F>
    requires Consistent(p.c) && !p.c.firing && p.c.list.Some?
    decreases |p.script|, if p.c.stack.Some? then |p.c.stack.value| else 0
  {
    var b := p.(c := Begin(p.c, call));
    LoopKeeps(b, call);
    var q := Loop(b, call);
    var (d, next) := Finish(q.c);
    match next
    case None => q.(c := d)
    case Some(postponed) => FireAll(q.(c := d), postponed)
  }

  ghost function FireOutside<F>(p: Pass<F>, call: Call): Pass<F>
    requires AtRest(p.c)
  {
    var (c, go) := FireWith(p.c, call);
    if go.Some? then FireAll(p.(c := c), go.value) else p.(c := c)
  }

  ghost function AddOutside<F>(p: Pass<F>, args: seq<Arg<F>>): Pass<F>
    requires AtRest(p.c)
  {
    var (c, go) := Add(p.c, args);
    if go.Some? then
      PushAllKeeps(p.c.list.value, p.c.flags.unique, Flatten(args));
      FireAll(p.(c := c), go.value)
    else p.(c := c)
  }

  // ---- the object -----------------------------------------------------------------------------

  class Callbacks<F(==)> {
    const flags: Flags
    var list: Option<seq<F>>
    var stack: Option<seq<Call>>
    var memory: Memory
    var firing: bool
    var start: nat
    var length: int
    var index: int
    /** The calls made so far: the effect on the outside. */
    var log: seq<Invocation<F>>

    constructor (flags: Flags)
      ensures Snapshot() == New(flags) && log == []
    {
      this.flags := flags;
      list, stack, memory := Some([]), Some([]), Unset;
      firing, start, length, index, log := false, 0, 0, 0, [];
    }

    function Snapshot(): Cbs<F>
      reads this
    {
      Cbs(flags, list, stack, memory, firing, start, length, index)
    }

    method Has(f: F) returns (found: bool)
      ensures found <==> list.Some? && f in list.value
    {
      if list.None? {
        return false;
      }
      for i := 0 to |list.value|
        invariant f !in list.value[..i]
      {
        if f == list.value[i] {
          return true;
        }
      }
      assert list.value[..|list.value|] == list.value;
      found := false;
    }

    /** Appends the functions among the arguments, descending into arrays. */
    method PushArgs(args: seq<Arg<F>>)
      requires list.Some?
      modifies this`list
      ensures list == Some(PushAll(old(list).value, flags.unique, Flatten(args)))
      decreases args
    {
      ghost var l := list.value;
      assert args[0..] == args && args[..0] == [];
      for i := 0 to |args|
        invariant list.Some? && list.value == PushAll(l, flags.unique, Flatten(args[..i]))
      {
        FlattenSnoc(args, i);
        match args[i] {
          case Arr(items) =>
            PushAllAppend(l, flags.unique, Flatten(args[..i]), Flatten(items));
            PushArgs(items);
          case Func(f) =>
            PushAllAppend(l, flags.unique, Flatten(args[..i]), [f]);
            PushOne(list.value, flags.unique, f);
            var known := false;
            if flags.unique {
              known := Has(f);
            }
            if !known {
              list := Some(list.value + [f]);
            }
          case Skipped =>
            assert Flatten(args[..i]) + [] == Flatten(args[..i]);
        }
      }
      assert args[..|args|] == args;
    }

    /** The scan of `remove` for one function; `g` steps back after a splice. */
    method RemoveOne(f: F)
      requires list.Some?
      modifies this`list, this`length, this`index
      ensures Snapshot() == RemoveFrom(old(Snapshot()), f, 0)
      ensures list.Some?
    {
      var g := 0;
      while g < |list.value|
        invariant list.Some? && 0 <= g <= |list.value|
        invariant RemoveFrom(old(Snapshot()), f, 0) == RemoveFrom(Snapshot(), f, g)
        decreases |list.value| - g
      {
        if f == list.value[g] {
          if firing {
            if g <= length {
              length := length - 1;
              if g <= index {
                index := index - 1;
              }
            }
          }
          list := Some(list.value[..g] + list.value[g + 1..]);
          if flags.unique {
            return;
          }
        } else {
          g := g + 1;
        }
      }
    }

    method Remove(fs: seq<F>)
      modifies this`list, this`length, this`index
      ensures Snapshot() == CallbackLists.Remove(old(Snapshot()), fs)
    {
      if list.None? {
        RemoveNothing(Snapshot(), fs);
        return;
      }
      assert fs[0..] == fs;
      for h := 0 to |fs|
        invariant list.Some?
        invariant CallbackLists.Remove(old(Snapshot()), fs) == CallbackLists.Remove(Snapshot(), fs[h..])
      {
        assert fs[h..][0] == fs[h] && fs[h..][1..] == fs[h + 1..];
        RemoveOne(fs[h]);
      }
    }

    method Disable()
      modifies this`list, this`stack, this`memory
      ensures Snapshot() == CallbackLists.Disable(old(Snapshot()))
    {
      list, stack, memory := None, None, Unset;
    }

    method Lock()
      modifies this`list, this`stack, this`memory
      ensures Snapshot() == CallbackLists.Lock(old(Snapshot()))
    {
      stack := None;
      if memory == Unset || memory == Fired {
        Disable();
      }
    }

    /** An operation made by a callback while the pass is under way; none of them starts another pass. */
    method Perform(op: Op<F>)
      requires firing || list.None?
      modifies this`list, this`stack, this`memory, this`length, this`index
      ensures Snapshot() == Do(old(Snapshot()), op)
    {
      match op
      case OpAdd(args) =>
        if list.Some? {
          PushArgs(args);
          length := |list.value|;
        }
      case OpRemove(fs) => Remove(fs);
      case OpFireWith(call) =>
        if stack.Some? && firing && !flags.once {
          stack := Some(stack.value + [call]);
        }
      case OpLock => Lock();
      case OpDisable => Disable();
    }

    /** Calls the function at the cursor, which behaves as the script says. */
    method InvokeCurrent(call: Call, behaviour: Behaviour<F>)
      requires list.Some? && firing && 0 <= index < |list.value| && InPass(Snapshot())
      modifies this
      ensures Snapshot() == DoAll(old(Snapshot()), behaviour.ops)
      ensures log == old(log) + [Invocation(old(list).value[old(index)], call)]
    {
      log := log + [Invocation(list.value[index], call)];
      ghost var c := Snapshot();
      assert behaviour.ops[0..] == behaviour.ops;
      var i := 0;
      while i < |behaviour.ops|
        invariant 0 <= i <= |behaviour.ops| && InPass(Snapshot())
        invariant DoAll(c, behaviour.ops) == DoAll(Snapshot(), behaviour.ops[i..])
        invariant log == old(log) + [Invocation(old(list).value[old(index)], call)]
      {
        assert behaviour.ops[i..][0] == behaviour.ops[i] && behaviour.ops[i..][1..] == behaviour.ops[i + 1..];
        DoKeeps(Snapshot(), behaviour.ops[i]);
        Perform(behaviour.ops[i]);
        i := i + 1;
      }
    }

    /** The loop of a pass. */
    method RunLoop(call: Call, script: seq<Behaviour<F>>) returns (left: seq<Behaviour<F>>)
      requires AtLoopHead(Snapshot())
      modifies this
      ensures Pass(Snapshot(), log, left) == Loop(Pass(old(Snapshot()), old(log), script), call)
    {
      left := script;
      while list.Some? && index < length
        invariant AtLoopHead(Snapshot())
        invariant Loop(Pass(old(Snapshot()), old(log), script), call) == Loop(Pass(Snapshot(), log, left), call)
        decreases |left|, length - index
      {
        var b := Head(left);
        ghost var p := Pass(Snapshot(), log, left);
        DoAllKeeps(Snapshot(), b.ops);
        DoAllFlags(Snapshot(), b.ops);
        InvokeCurrent(call, b);
        left := Tail(left);
        assert Pass(Snapshot(), log, left) == Invoke(p, call);
        assert p.script == [] ==> Snapshot() == p.c;
        if b.isFalse && flags.stopOnFalse {
          memory := Fired;
          return;
        }
        ghost var c := Snapshot();
        index := index + 1;
        assert Snapshot().(index := Snapshot().index - 1) == c;
      }
    }

    /** The inner function of `fireWith` and `add`: a pass, its end, and the passes postponed meanwhile. */
    method RunPass(call: Call, script: seq<Behaviour<F>>) returns (left: seq<Behaviour<F>>)
      requires Consistent(Snapshot()) && !firing && list.Some?
      modifies this
      ensures Pass(Snapshot(), log, left) == FireAll(Pass(old(Snapshot()), old(log), script), call)
      decreases |script|, if stack.Some? then |stack.value| else 0
    {
      hide Loop, Distinct;
      memory := if flags.memory then Args(call) else Fired;
      firing := true;
      index := start;
      start := 0;
      length := |list.value|;
      assert Snapshot() == Begin(old(Snapshot()), call);
      LoopKeeps(Pass(Snapshot(), log, script), call);
      left := RunLoop(call, script);
      firing := false;
      if list.Some? {
        if !flags.once {
          if stack.Some? && stack.value != [] {
            var next := stack.value[0];
            memory := Args(next);
            stack := Some(stack.value[1..]);
            left := RunPass(next, left);
          }
        } else if memory == Fired {
          Disable();
        } else {
          list := Some([]);
        }
      }
    }

    /** `fireWith` from outside a pass. */
    method FireWith(call: Call, script: seq<Behaviour<F>>) returns (left: seq<Behaviour<F>>)
      requires AtRest(Snapshot())
      modifies this
      ensures Pass(Snapshot(), log, left) == FireOutside(Pass(old(Snapshot()), old(log), script), call)
    {
      left := script;
      if stack.Some? {
        if !(flags.once && memory != Unset) {
          left := RunPass(call, script);
        }
      }
    }

    /** `add` from outside a pass: with memory, the new functions are run at once. */
    method Add(args: seq<Arg<F>>, script: seq<Behaviour<F>>) returns (left: seq<Behaviour<F>>)
      requires AtRest(Snapshot())
      modifies this
      ensures Pass(Snapshot(), log, left) == AddOutside(Pass(old(Snapshot()), old(log), script), args)
    {
      left := script;
      if list.Some? {
        var n := |list.value|;
        PushAllKeeps(list.value, flags.unique, Flatten(args));
        PushArgs(args);
        if memory.Args? {
          start := n;
          left := RunPass(memory.call, script);
        }
      }
    }
  }

  lemma {:induction false} RemoveNothing<F>(c: Cbs<F>, fs: seq<F>)
    requires c.list.None?
    ensures CallbackLists.Remove(c, fs) == c
    decreases |fs|
  {
    if fs != [] { RemoveNothing(c, fs[1..]); }
  }

  lemma {:induction false} FlattenAppend<F>(a: seq<Arg<F>>, b: seq<Arg<F>>)
    ensures Flatten(a + b) == Flatten(a) + Flatten(b)
    decreases |a|
  {
    if a == [] {
      assert a + b == b;
    } else {
      assert (a + b)[1..] == a[1..] + b && (a + b)[0] == a[0];
      FlattenAppend(a[1..], b);
      var h := match a[0] case Func(f) => [f] case Arr(items) => Flatten(items) case Skipped => [];
      assert h + (Flatten(a[1..]) + Flatten(b)) == (h + Flatten(a[1..])) + Flatten(b);
    }
  }

  lemma FlattenSnoc<F>(args: seq<Arg<F>>, i: nat)
    requires i < |args|
    ensures Flatten(args[..i + 1]) ==
            Flatten(args[..i]) + (match args[i] case Func(f) => [f] case Arr(items) => Flatten(items) case Skipped => [])
  {
    assert args[..i + 1] == args[..i] + [args[i]];
    FlattenAppend(args[..i], [args[i]]);
    assert [args[i]][1..] == [];
  }

  lemma {:induction false} PushAllAppend<F>(list: seq<F>, unique: bool, a: seq<F>, b: seq<F>)
    ensures PushAll(list, unique, a + b) == PushAll(PushAll(list, unique, a), unique, b)
    decreases |a|
  {
    if a == [] {
      assert a + b == b;
    } else {
      assert (a + b)[1..] == a[1..] + b && (a + b)[0] == a[0];
      PushAllAppend(Push(list, unique, a[0]), unique, a[1..], b);
    }
  }

  lemma PushOne<F>(list: seq<F>, unique: bool, f: F)
    ensures PushAll(list, unique, [f]) == Push(list, unique, f)
  {
    assert [f][1..] == [];
  }

  // ---- objects stay in order ------------------------------------------------------------------

  lemma FinishKeeps<F>(p: Pass<F>, q: Pass<F>)
    requires LoopDone(p, q)
    ensures var (d, next) := Finish(q.c);
            Consistent(d) && !d.firing && d.flags == p.c.flags && (d.list.Some? ==> d.start == 0) && (next.Some? ==> d.list.Some?)
  {
  }

  /** After a pass and everything it postponed, the list is at rest again, with nothing postponed left. */
  lemma {:induction false} FireAllRests<F>(p: Pass<F>, call: Call)
    requires Consistent(p.c) && !p.c.firing && p.c.list.Some?
    ensures var q := FireAll(p, call);
            Consistent(q.c) && !q.c.firing && (q.c.list.Some? ==> q.c.start == 0) &&
            (!q.c.flags.once && q.c.list.Some? && q.c.stack.Some? ==> q.c.stack.value == [])
    decreases |p.script|, if p.c.stack.Some? then |p.c.stack.value| else 0
  {
    var b := p.(c := Begin(p.c, call));
    LoopKeeps(b, call);
    var q := Loop(b, call);
    FinishKeeps(b, q);
    var (d, next) := Finish(q.c);
    if next.Some? { FireAllRests(q.(c := d), next.value); }
  }

  // ---- postponed calls ------------------------------------------------------------------------

  function FiredBy<F>(ops: seq<Op<F>>): seq<Call> {
    if ops == [] then [] else (if ops[0].OpFireWith? then [ops[0].call] else []) + FiredBy(ops[1..])
  }

  /** The calls that the first `n` invocations ask for. */
  function Fired<F>(script: seq<Behaviour<F>>, n: nat): seq<Call>
    decreases n
  {
    if n == 0 then [] else FiredBy(Head(script).ops) + Fired(Tail(script), n - 1)
  }

  function Dropped<F>(script: seq<Behaviour<F>>, n: nat): seq<Behaviour<F>>
    decreases n
  {
    if n == 0 then script else Dropped(Tail(script), n - 1)
  }

  lemma {:induction false} FiredSplit<F>(script: seq<Behaviour<F>>, m: nat, n: nat)
    ensures Fired(script, m + n) == Fired(script, m) + Fired(Dropped(script, m), n)
    decreases m
  {
    if m > 0 {
      FiredSplit(Tail(script), m - 1, n);
      hide FiredBy;
      assert FiredBy(Head(script).ops) + (Fired(Tail(script), m - 1) + Fired(Dropped(script, m), n)) ==
             FiredBy(Head(script).ops) + Fired(Tail(script), m - 1) + Fired(Dropped(script, m), n);
    }
  }

  /** The calls `c` asked to postpone, `fired` among them, are in its stack, unless it was locked or disabled. */
  predicate Postponed<F>(before: Cbs<F>, after: Cbs<F>, fired: seq<Call>) {
    after.stack.Some? ==> before.stack.Some? && after.stack.value == before.stack.value + fired
  }

  lemma PostponedTwice<F>(a: Cbs<F>, b: Cbs<F>, c: Cbs<F>, x: seq<Call>, y: seq<Call>)
    requires Postponed(a, b, x) && Postponed(b, c, y)
    ensures Postponed(a, c, x + y)
  {
    if c.stack.Some? { assert a.stack.value + x + y == a.stack.value + (x + y); }
  }

  lemma {:induction false} RemoveStack<F>(c: Cbs<F>, fs: seq<F>)
    ensures CallbackLists.Remove(c, fs).stack == c.stack
    decreases |fs|
  {
    if fs != [] {
      RemoveFromStack(c, fs[0], 0);
      RemoveStack(RemoveFrom(c, fs[0], 0), fs[1..]);
    }
  }

  lemma {:induction false} RemoveFromStack<F>(c: Cbs<F>, f: F, g: nat)
    ensures RemoveFrom(c, f, g).stack == c.stack
    decreases if c.list.Some? then |c.list.value| - g else 0
  {
    if c.list.Some? && g < |c.list.value| {
      if c.list.value[g] != f {
        RemoveFromStack(c, f, g + 1);
      } else if !c.flags.unique {
        var index := if c.firing && g <= c.length && g <= c.index then c.index - 1 else c.index;
        var length := if c.firing && g <= c.length then c.length - 1 else c.length;
        RemoveFromStack(c.(list := Some(Without(c.list.value, g)), index := index, length := length), f, g);
      }
    }
  }

  lemma {:induction false} DoAllPostpones<F>(c: Cbs<F>, ops: seq<Op<F>>)
    requires InPass(c) && !c.flags.once
    ensures Postponed(c, DoAll(c, ops), FiredBy(ops))
    decreases |ops|
  {
    hide InPass;
    if ops == [] {
      assert c.stack.Some? ==> c.stack.value + [] == c.stack.value;
    } else {
      DoKeeps(c, ops[0]);
      DoOneFlags(c, ops[0]);
      DoPostpones(c, ops[0]);
      DoAllPostpones(Do(c, ops[0]), ops[1..]);
      PostponedTwice(c, Do(c, ops[0]), DoAll(c, ops), if ops[0].OpFireWith? then [ops[0].call] else [], FiredBy(ops[1..]));
    }
  }

  lemma DoOneFlags<F>(c: Cbs<F>, op: Op<F>)
    ensures Do(c, op).flags == c.flags
  {
    DoAllFlags(c, [op]);
    assert [op][1..] == [];
  }

  lemma DoPostpones<F>(c: Cbs<F>, op: Op<F>)
    requires InPass(c) && !c.flags.once
    ensures Postponed(c, Do(c, op), if op.OpFireWith? then [op.call] else [])
  {
    if op.OpRemove? { RemoveStack(c, op.fs); }
    assert c.stack.Some? ==> c.stack.value + [] == c.stack.value;
  }

  lemma {:induction false} LoopPostpones<F>(p: Pass<F>, call: Call)
    requires AtLoopHead(p.c) && !p.c.flags.once
    ensures var q := Loop(p, call); var n := |q.log| - |p.log|;
            n >= 0 && q.script == Dropped(p.script, n) && Postponed(p.c, q.c, Fired(p.script, n))
    decreases |p.script|, p.c.length - p.c.index
  {
    var z := Loop(p, call);
    if !Running(p.c) {
      NothingPostponed(p.c);
    } else {
      var r := InvokePostpones(p, call);
      if Head(p.script).isFalse && p.c.flags.stopOnFalse {
        FiredMore(p.script, 0);
        NothingPostponed(r.c);
        hide DoAll, Fired, Dropped, FiredBy;
      } else {
        hide Invoke, InPass, Fired, Dropped, FiredBy, Postponed;
        LoopPostpones(r, call);
        FiredMore(p.script, |z.log| - |r.log|);
        PostponedTwice(p.c, r.c, z.c, FiredBy(Head(p.script).ops), Fired(Tail(p.script), |z.log| - |r.log|));
      }
    }
  }

  /** One turn of the loop, and the increment. */
  lemma InvokePostpones<F>(p: Pass<F>, call: Call) returns (r: Pass<F>)
    requires AtLoopHead(p.c) && Running(p.c) && !p.c.flags.once
    ensures 0 <= p.c.index < |p.c.list.value|
    ensures var q := Invoke(p, call); r == q.(c := q.c.(index := q.c.index + 1))
    ensures r.script == Tail(p.script) && |r.log| == |p.log| + 1 && r.c.flags == p.c.flags && AtLoopHead(r.c)
    ensures p.script == [] ==> r.c.length - r.c.index < p.c.length - p.c.index
    ensures Postponed(p.c, r.c, FiredBy(Head(p.script).ops))
  {
    var q := Invoke(p, call);
    DoAllKeeps(p.c, Head(p.script).ops);
    DoAllFlags(p.c, Head(p.script).ops);
    DoAllPostpones(p.c, Head(p.script).ops);
    assert p.script == [] ==> q.c == p.c;
    r := q.(c := q.c.(index := q.c.index + 1));
    assert r.c.(index := r.c.index - 1) == q.c;
    hide DoAll, FiredBy, InPass;
  }

  lemma NothingPostponed<F>(c: Cbs<F>)
    ensures Postponed(c, c, [])
  {
    assert c.stack.Some? ==> c.stack.value + [] == c.stack.value;
  }

  lemma FiredMore<F>(script: seq<Behaviour<F>>, n: nat)
    ensures Fired(script, n + 1) == FiredBy(Head(script).ops) + Fired(Tail(script), n)
    ensures Dropped(script, n + 1) == Dropped(Tail(script), n)
    ensures n == 0 ==> Fired(script, n + 1) == FiredBy(Head(script).ops) && Dropped(script, n + 1) == Tail(script)
  {
    assert FiredBy(Head(script).ops) + [] == FiredBy(Head(script).ops);
  }

  /** The calls of the passes that a firing starts. */
  ghost function PassCalls<F>(p: Pass<F>, call: Call): seq<Call>
    requires Consistent(p.c) && !p.c.firing && p.c.list.Some?
    decreases |p.script|, if p.c.stack.Some? then |p.c.stack.value| else 0
  {
    var b := p.(c := Begin(p.c, call));
    LoopKeeps(b, call);
    var q := Loop(b, call);
    var (d, next) := Finish(q.c);
    [call] + if next.None? then [] else PassCalls(q.(c := d), next.value)
  }

  /** Every call that was postponed, before or by a callback, gets exactly one pass of its own, in the order of
      postponing, unless the list was locked or disabled on the way. */
  lemma {:induction false} PostponedCallsGetTheirPass<F>(p: Pass<F>, call: Call)
    requires Consistent(p.c) && !p.c.firing && p.c.list.Some? && !p.c.flags.once
    ensures var q := FireAll(p, call); var n := |q.log| - |p.log|;
            n >= 0 && (q.c.stack.Some? ==>
              p.c.stack.Some? && PassCalls(p, call) == [call] + (p.c.stack.value + Fired(p.script, n)))
    decreases |p.script|, if p.c.stack.Some? then |p.c.stack.value| else 0
  {
    hide Loop, Fired, Dropped, FireAll, PassCalls, Distinct;
    var b := p.(c := Begin(p.c, call));
    LoopKeeps(b, call);
    LoopPostpones(b, call);
    var q := Loop(b, call);
    FinishKeeps(b, q);
    FireAllIs(p, call);
    var (d, next) := Finish(q.c);
    if next.Some? {
      var r := q.(c := d);
      PostponedCallsGetTheirPass(r, next.value);
      OnePassMore(p, call, q, r, next.value);
    } else {
      FireAllRests(p, call);
    }
  }

  lemma FireAllIs<F>(p: Pass<F>, call: Call)
    requires Consistent(p.c) && !p.c.firing && p.c.list.Some?
    requires LoopDone(p.(c := Begin(p.c, call)), Loop(p.(c := Begin(p.c, call)), call))
    ensures var q := Loop(p.(c := Begin(p.c, call)), call);
            var (d, next) := Finish(q.c);
            && (next.None? ==> FireAll(p, call) == q.(c := d) && PassCalls(p, call) == [call])
            && (next.Some? ==> Consistent(d) && !d.firing && d.list.Some?)
            && (next.Some? ==> FireAll(p, call) == FireAll(q.(c := d), next.value)
                               && PassCalls(p, call) == [call] + PassCalls(q.(c := d), next.value))
  {
    hide Loop;
    var q := Loop(p.(c := Begin(p.c, call)), call);
    FinishKeeps(p.(c := Begin(p.c, call)), q);
    assert [call] + [] == [call];
  }

  lemma FinishTakes<F>(c: Cbs<F>, d: Cbs<F>, next: Call)
    requires Finish(c) == (d, Some(next))
    ensures c.stack.Some? && d.stack.Some? && c.stack.value == [next] + d.stack.value
  {
  }

  lemma OnePassMore<F>(p: Pass<F>, call: Call, q: Pass<F>, r: Pass<F>, next: Call)
    requires |q.log| >= |p.log| && q.script == Dropped(p.script, |q.log| - |p.log|)
    requires Postponed(p.c, q.c, Fired(p.script, |q.log| - |p.log|))
    requires Finish(q.c) == (r.c, Some(next)) && r.log == q.log && r.script == q.script
    requires Consistent(p.c) && !p.c.firing && p.c.list.Some? && Consistent(r.c) && !r.c.firing && r.c.list.Some?
    requires FireAll(p, call) == FireAll(r, next) && PassCalls(p, call) == [call] + PassCalls(r, next)
    requires var n := |FireAll(r, next).log| - |r.log|;
             n >= 0 && (FireAll(r, next).c.stack.Some? ==>
               r.c.stack.Some? && PassCalls(r, next) == [next] + (r.c.stack.value + Fired(r.script, n)))
    ensures var z := FireAll(p, call); var n := |z.log| - |p.log|;
            n >= 0 && (z.c.stack.Some? ==>
              p.c.stack.Some? && PassCalls(p, call) == [call] + (p.c.stack.value + Fired(p.script, n)))
  {
    hide FireAll, PassCalls, Fired, Dropped, Consistent, Finish;
    FinishTakes(q.c, r.c, next);
    var m, n := |q.log| - |p.log|, |FireAll(r, next).log| - |r.log|;
    FiredSplit(p.script, m, n);
    if FireAll(p, call).c.stack.Some? {
      RegroupCalls(p.c.stack.value, Fired(p.script, m), next, r.c.stack.value, Fired(q.script, n));
    }
  }

  lemma RegroupCalls(s: seq<Call>, fired: seq<Call>, next: Call, rest: seq<Call>, more: seq<Call>)
    requires s + fired == [next] + rest
    ensures [next] + (rest + more) == s + (fired + more)
  {
    assert [next] + (rest + more) == ([next] + rest) + more;
    assert s + (fired + more) == (s + fired) + more;
  }
}
