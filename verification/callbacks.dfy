/** The re-entrant callback list `b.Callbacks`: what each operation does to its closed-over variables. */
module CallbackLists {
  import opened Options

  datatype Flags = Flags(once: bool, memory: bool, unique: bool, stopOnFalse: bool)

  /** A context and arguments to call with, as an opaque number. */
  type Call = nat

  /** The variable `memory`: undefined, `true`, or the last context and arguments. */
  datatype Memory = Unset | Fired | Args(call: Call)

  /** An argument of `add`: a function, an array of arguments, or something that is skipped. */
  datatype Arg<F> = Func(f: F) | Arr(items: seq<Arg<F>>) | Skipped

  /** The variables of one callback list; `list` and `stack` are `None` once they are undefined. */
  datatype Cbs<F> = Cbs(flags: Flags, list: Option<seq<F>>, stack: Option<seq<Call>>, memory: Memory,
                        firing: bool, start: nat, length: int, index: int)

  function New<F>(flags: Flags): Cbs<F> {
    Cbs(flags, Some([]), Some([]), Unset, false, 0, 0, 0)
  }

  // ---- add ------------------------------------------------------------------------------------

  function Push<F(==)>(list: seq<F>, unique: bool, f: F): seq<F> {
    if unique && f in list then list else list + [f]
  }

  function PushAll<F(==)>(list: seq<F>, unique: bool, fs: seq<F>): seq<F>
    decreases |fs|
  {
    if fs == [] then list else PushAll(Push(list, unique, fs[0]), unique, fs[1..])
  }

  lemma {:induction false} PushAllPlain<F>(list: seq<F>, fs: seq<F>)
    ensures PushAll(list, false, fs) == list + fs
    decreases |fs|
  {
    if fs == [] {
      assert list + fs == list;
    } else {
      PushAllPlain(list + [fs[0]], fs[1..]);
      assert (list + [fs[0]]) + fs[1..] == list + fs;
    }
  }

  /** The functions among the arguments, nested arrays flattened. */
  function Flatten<F>(args: seq<Arg<F>>): seq<F> {
    if args == [] then []
    else
      (match args[0]
       case Func(f) => [f]
       case Arr(items) => Flatten(items)
       case Skipped => []) + Flatten(args[1..])
  }

  /** `add`; the second result is the call to start a pass with, if one starts. */
  function Add<F(==)>(c: Cbs<F>, args: seq<Arg<F>>): (Cbs<F>, Option<Call>) {
    if c.list.None? then (c, None)
    else
      var list := PushAll(c.list.value, c.flags.unique, Flatten(args));
      if c.firing then (c.(list := Some(list), length := |list|), None)
      else if c.memory.Args? then (c.(list := Some(list), start := |c.list.value|), Some(c.memory.call))
      else (c.(list := Some(list)), None)
  }

  // ---- remove ---------------------------------------------------------------------------------

  function Without<F>(s: seq<F>, i: nat): seq<F>
    requires i < |s|
  {
    s[..i] + s[i + 1..]
  }

  /** Removing `f` from position `g` on, repairing the cursor of a pass that is under way. */
  function RemoveFrom<F(==)>(c: Cbs<F>, f: F, g: nat): Cbs<F>
    decreases if c.list.Some? then |c.list.value| - g else 0
  {
    if c.list.None? || g >= |c.list.value| then c
    else if c.list.value[g] != f then RemoveFrom(c, f, g + 1)
    else
      var list := Without(c.list.value, g);
      var index := if c.firing && g <= c.length && g <= c.index then c.index - 1 else c.index;
      var length := if c.firing && g <= c.length then c.length - 1 else c.length;
      var d := c.(list := Some(list), index := index, length := length);
      if c.flags.unique then d else RemoveFrom(d, f, g)
  }

  function Remove<F(==)>(c: Cbs<F>, fs: seq<F>): Cbs<F>
    decreases |fs|
  {
    if fs == [] then c else Remove(RemoveFrom(c, fs[0], 0), fs[1..])
  }

  // ---- disable, lock, fire --------------------------------------------------------------------

  function Disable<F>(c: Cbs<F>): Cbs<F> {
    c.(list := None, stack := None, memory := Unset)
  }

  function Lock<F>(c: Cbs<F>): Cbs<F> {
    var d := c.(stack := None);
    if d.memory.Args? then d else Disable(d)
  }

  /** `fireWith`; the second result is the call to start a pass with, if one starts. */
  function FireWith<F>(c: Cbs<F>, call: Call): (Cbs<F>, Option<Call>) {
    if c.stack.None? then (c, None)
    else if c.firing then (if c.flags.once then c else c.(stack := Some(c.stack.value + [call])), None)
    else if c.flags.once && c.memory != Unset then (c, None)
    else (c, Some(call))
  }

  /** The start of a pass, before the loop. */
  function Begin<F>(c: Cbs<F>, call: Call): Cbs<F>
    requires c.list.Some?
  {
    c.(memory := if c.flags.memory then Args(call) else Fired, firing := true, index := c.start, start := 0,
       length := |c.list.value|)
  }

  /** The loop condition. */
  predicate Running<F>(c: Cbs<F>) { c.list.Some? && c.index < c.length }

  /** The end of a pass, after the loop; the second result is a postponed call to fire now. */
  function Finish<F>(c: Cbs<F>): (Cbs<F>, Option<Call>) {
    var d := c.(firing := false);
    if d.list.None? then (d, None)
    else if d.flags.once then (if d.memory == Fired then Disable(d) else d.(list := Some([])), None)
    else if d.stack.Some? && d.stack.value != [] then
      (d.(memory := Args(d.stack.value[0]), stack := Some(d.stack.value[1..])), Some(d.stack.value[0]))
    else (d, None)
  }

  ghost predicate Distinct<F>(s: seq<F>) { forall i, j :: 0 <= i < j < |s| ==> s[i] != s[j] }

  /** A list between passes: it is defined as long as calls are accepted, and without copies if `unique`. */
  ghost predicate Consistent<F>(c: Cbs<F>) {
    && (c.stack.Some? ==> c.list.Some?)
    && (c.list.Some? ==> c.start <= |c.list.value|)
    && (c.list.Some? && c.flags.unique ==> Distinct(c.list.value))
  }

  // ---- operations made by callbacks while a pass is under way ----------------------------------

  datatype Op<F> =
    | OpAdd(args: seq<Arg<F>>)
    | OpRemove(fs: seq<F>)
    | OpFireWith(call: Call)
    | OpLock
    | OpDisable

  function Do<F(==)>(c: Cbs<F>, op: Op<F>): Cbs<F> {
    match op
    case OpAdd(args) => Add(c, args).0
    case OpRemove(fs) => Remove(c, fs)
    case OpFireWith(call) => FireWith(c, call).0
    case OpLock => Lock(c)
    case OpDisable => Disable(c)
  }

  function DoAll<F(==)>(c: Cbs<F>, ops: seq<Op<F>>): Cbs<F>
    decreases |ops|
  {
    if ops == [] then c else DoAll(Do(c, ops[0]), ops[1..])
  }

  /** What one invocation of a callback does, and whether it returns `false`. */
  datatype Behaviour<F> = Behaviour(ops: seq<Op<F>>, isFalse: bool)

  /** A callback that was invoked, and with what. */
  datatype Invocation<F> = Invocation(f: F, call: Call)

  /** The state of a running pass: the variables, the calls made so far, the behaviours left. */
  datatype Pass<F> = Pass(c: Cbs<F>, log: seq<Invocation<F>>, script: seq<Behaviour<F>>)

  function Head<F>(script: seq<Behaviour<F>>): Behaviour<F> {
    if script == [] then Behaviour([], false) else script[0]
  }

  function Tail<F>(script: seq<Behaviour<F>>): seq<Behaviour<F>> {
    if script == [] then [] else script[1..]
  }

  /** The invocation at the cursor, without the increment. */
  function Invoke<F(==)>(p: Pass<F>, call: Call): Pass<F>
    requires Running(p.c) && 0 <= p.c.index < |p.c.list.value|
  {
    var f := p.c.list.value[p.c.index];
    Pass(DoAll(p.c, Head(p.script).ops), p.log + [Invocation(f, call)], Tail(p.script))
  }

  /** The loop of a pass; behaviours that run out are replaced by ones that do nothing. */
  function Loop<F(==)>(p: Pass<F>, call: Call): Pass<F>
    decreases |p.script|, p.c.length - p.c.index
  {
    if !Running(p.c) || !(0 <= p.c.index < |p.c.list.value|) then p
    else
      var q := Invoke(p, call);
      if Head(p.script).isFalse && p.c.flags.stopOnFalse then q.(c := q.c.(memory := Fired))
      else Loop(q.(c := q.c.(index := q.c.index + 1)), call)
  }

  // ---- a pass without a cursor ----------------------------------------------------------------

  /** One registration of a function; `id` counts registrations. */
  datatype Occ<F> = Occ(f: F, id: nat)

  /** The registrations that were run and are still in the list, those still to run, everything run so
      far, and the next number. */
  datatype Zip<F> = Zip(done: seq<Occ<F>>, todo: seq<Occ<F>>, ran: seq<Occ<F>>, next: nat)

  function Fns<F>(s: seq<Occ<F>>): (r: seq<F>)
    ensures |r| == |s| && forall i :: 0 <= i < |s| ==> r[i] == s[i].f
  {
    if s == [] then [] else [s[0].f] + Fns(s[1..])
  }

  function Keep<F(==)>(s: seq<Occ<F>>, f: F): seq<Occ<F>> {
    if s == [] then [] else if s[0].f == f then Keep(s[1..], f) else [s[0]] + Keep(s[1..], f)
  }

  function ZAdd<F(==)>(z: Zip<F>, unique: bool, fs: seq<F>): Zip<F>
    decreases |fs|
  {
    if fs == [] then z
    else if unique && fs[0] in Fns(z.done + z.todo) then ZAdd(z, unique, fs[1..])
    else ZAdd(z.(todo := z.todo + [Occ(fs[0], z.next)], next := z.next + 1), unique, fs[1..])
  }

  function ZRemove<F(==)>(z: Zip<F>, fs: seq<F>): Zip<F>
    decreases |fs|
  {
    if fs == [] then z
    else ZRemove(z.(done := Keep(z.done, fs[0]), todo := Keep(z.todo, fs[0])), fs[1..])
  }

  function ZDo<F(==)>(z: Zip<F>, unique: bool, op: Op<F>): Zip<F> {
    match op
    case OpAdd(args) => ZAdd(z, unique, Flatten(args))
    case OpRemove(fs) => ZRemove(z, fs)
    case _ => z
  }

  function ZDoAll<F(==)>(z: Zip<F>, unique: bool, ops: seq<Op<F>>): Zip<F>
    decreases |ops|
  {
    if ops == [] then z else ZDoAll(ZDo(z, unique, ops[0]), unique, ops[1..])
  }

  /** Running the next registration. */
  function ZRun<F>(z: Zip<F>): Zip<F>
    requires z.todo != []
  {
    z.(done := z.done + [z.todo[0]], todo := z.todo[1..], ran := z.ran + [z.todo[0]])
  }

  function ZLoop<F(==)>(z: Zip<F>, unique: bool, script: seq<Behaviour<F>>): Zip<F>
    decreases |script|, |z.todo|
  {
    if z.todo == [] then z
    else ZLoop(ZDoAll(ZRun(z), unique, Head(script).ops), unique, Tail(script))
  }

  // ---- the cursor implements it ---------------------------------------------------------------

  /** The cursor is at the last registration that was run and is still there. */
  ghost predicate Follows<F>(c: Cbs<F>, z: Zip<F>) {
    && c.firing && c.list == Some(Fns(z.done) + Fns(z.todo))
    && c.length == |z.done| + |z.todo| && c.index == |z.done| - 1
    && (c.flags.unique ==> Distinct(c.list.value))
  }

  lemma {:induction false} FnsAppend<F>(a: seq<Occ<F>>, b: seq<Occ<F>>)
    ensures Fns(a + b) == Fns(a) + Fns(b)
  {
    if a == [] {
      assert a + b == b;
    } else {
      assert (a + b)[1..] == a[1..] + b;
      FnsAppend(a[1..], b);
    }
  }

  lemma {:induction false} AddFollows<F>(list: seq<F>, unique: bool, fs: seq<F>, z: Zip<F>)
    requires list == Fns(z.done) + Fns(z.todo) && (unique ==> Distinct(list))
    ensures var y := ZAdd(z, unique, fs);
            PushAll(list, unique, fs) == Fns(y.done) + Fns(y.todo) && y.done == z.done &&
            (unique ==> Distinct(PushAll(list, unique, fs)))
    decreases |fs|
  {
    if fs != [] {
      FnsAppend(z.done, z.todo);
      if unique && fs[0] in list {
        AddFollows(list, unique, fs[1..], z);
      } else {
        PushFollows(list, fs[0], z);
        hide Fns, Distinct;
        AddFollows(list + [fs[0]], unique, fs[1..], z.(todo := z.todo + [Occ(fs[0], z.next)], next := z.next + 1));
      }
    }
  }

  lemma PushFollows<F>(list: seq<F>, f: F, z: Zip<F>)
    requires list == Fns(z.done) + Fns(z.todo)
    ensures list + [f] == Fns(z.done) + Fns(z.todo + [Occ(f, z.next)])
    ensures Distinct(list) && f !in list ==> Distinct(list + [f])
  {
    var o := Occ(f, z.next);
    FnsAppend(z.todo, [o]);
    assert Fns([o]) == [f];
    hide Fns;
    assert Fns(z.done) + (Fns(z.todo) + [f]) == list + [f];
  }

  function FilterOut<F(==)>(s: seq<F>, f: F): seq<F> {
    if s == [] then [] else if s[0] == f then FilterOut(s[1..], f) else [s[0]] + FilterOut(s[1..], f)
  }

  function Count<F(==)>(s: seq<F>, f: F): nat {
    if s == [] then 0 else (if s[0] == f then 1 else 0) + Count(s[1..], f)
  }

  lemma {:induction false} FilterOutAppend<F>(a: seq<F>, b: seq<F>, f: F)
    ensures FilterOut(a + b, f) == FilterOut(a, f) + FilterOut(b, f)
  {
    if a == [] {
      assert a + b == b;
    } else {
      assert (a + b)[1..] == a[1..] + b && (a + b)[0] == a[0];
      FilterOutAppend(a[1..], b, f);
      assert [a[0]] + (FilterOut(a[1..], f) + FilterOut(b, f)) == ([a[0]] + FilterOut(a[1..], f)) + FilterOut(b, f);
    }
  }

  lemma {:induction false} FilterOutSize<F>(s: seq<F>, f: F)
    ensures |FilterOut(s, f)| == |s| - Count(s, f)
  {
    if s != [] { FilterOutSize(s[1..], f); }
  }

  lemma {:induction false} FilterOutAbsent<F>(s: seq<F>, f: F)
    requires f !in s
    ensures FilterOut(s, f) == s && Count(s, f) == 0
  {
    if s != [] { FilterOutAbsent(s[1..], f); }
  }

  lemma AbsentAfter<F>(s: seq<F>, g: nat)
    requires Distinct(s) && g < |s|
    ensures s[g] !in s[g + 1..]
  {
    var r := s[g + 1..];
    forall i | 0 <= i < |r| ensures r[i] != s[g] { assert r[i] == s[g + 1 + i]; }
  }

  lemma {:induction false} KeepIsFilterOut<F>(s: seq<Occ<F>>, f: F)
    ensures Fns(Keep(s, f)) == FilterOut(Fns(s), f)
  {
    if s != [] {
      KeepIsFilterOut(s[1..], f);
      assert Fns(s)[1..] == Fns(s[1..]);
      if s[0].f != f { FnsAppend([s[0]], Keep(s[1..], f)); }
    }
  }

  /** The cursor after removals among the entries from `g` up to it. */
  function Repaired<F(==)>(l: seq<F>, f: F, g: nat, index: int): int {
    if g <= index < |l| then index - Count(l[g..index + 1], f) else index
  }

  lemma CountStep<F>(l: seq<F>, f: F, g: nat, index: int)
    requires g <= index < |l|
    ensures Count(l[g..index + 1], f) == (if l[g] == f then 1 else 0) + Count(l[g + 1..index + 1], f)
    ensures g == index ==> Count(l[g + 1..index + 1], f) == 0
  {
    assert l[g..index + 1][1..] == l[g + 1..index + 1];
    assert g == index ==> l[g + 1..index + 1] == [];
  }

  /** `remove` takes out every copy and moves the cursor back by the copies at or before it. */
  lemma {:induction false} RemoveFromIs<F>(c: Cbs<F>, f: F, g: nat)
    requires c.firing && c.list.Some? && g <= |c.list.value| == c.length && -1 <= c.index < c.length
    requires c.flags.unique ==> Distinct(c.list.value)
    ensures var l := c.list.value;
            var r := l[..g] + FilterOut(l[g..], f);
            RemoveFrom(c, f, g) == c.(list := Some(r), length := |r|, index := Repaired(l, f, g, c.index))
    decreases |c.list.value| - g
  {
    var l := c.list.value;
    if g == |l| {
      assert l[g..] == [] && FilterOut(l[g..], f) == [];
      assert l[..g] + FilterOut(l[g..], f) == l;
    } else {
      assert l[g..][1..] == l[g + 1..] && l[g..][0] == l[g];
      if g <= c.index { CountStep(l, f, g, c.index); }
      if l[g] != f {
        RemoveFromIs(c, f, g + 1);
        assert l[..g + 1] + FilterOut(l[g + 1..], f) == l[..g] + FilterOut(l[g..], f);
      } else {
        RemoveFromHit(c, f, g);
      }
    }
  }

  lemma {:induction false} RemoveFromHit<F>(c: Cbs<F>, f: F, g: nat)
    requires c.firing && c.list.Some? && g < |c.list.value| == c.length && -1 <= c.index < c.length
    requires c.flags.unique ==> Distinct(c.list.value)
    requires c.list.value[g] == f
    ensures var l := c.list.value;
            var r := l[..g] + FilterOut(l[g + 1..], f);
            RemoveFrom(c, f, g) == c.(list := Some(r), length := |r|, index := Repaired(l, f, g, c.index))
    decreases |c.list.value| - g, 0
  {
    var l := c.list.value;
    var w := Without(l, g);
    var d := c.(list := Some(w), length := c.length - 1, index := if g <= c.index then c.index - 1 else c.index);
    assert w[..g] == l[..g] && w[g..] == l[g + 1..];
    if g <= c.index {
      CountStep(l, f, g, c.index);
      assert forall i :: g <= i < |w| ==> w[i] == l[i + 1];
      assert |l[g + 1..c.index + 1]| == |w[g..c.index]|;
      assert l[g + 1..c.index + 1] == w[g..c.index];
    }
    if c.flags.unique {
      AbsentAfter(l, g);
      FilterOutAbsent(l[g + 1..], f);
      if g <= c.index { FilterOutAbsent(l[g + 1..c.index + 1], f); }
      assert l[..g] + FilterOut(l[g + 1..], f) == w;
    } else {
      RemoveFromIs(d, f, g);
      assert l[..g] + FilterOut(l[g + 1..], f) == w[..g] + FilterOut(w[g..], f);
    }
  }

  lemma RemoveOneFollows<F>(c: Cbs<F>, z: Zip<F>, f: F)
    requires Follows(c, z)
    ensures Follows(RemoveFrom(c, f, 0), z.(done := Keep(z.done, f), todo := Keep(z.todo, f)))
    ensures var r := RemoveFrom(c, f, 0); r == c.(list := r.list, length := r.length, index := r.index)
  {
    var d, t := Fns(z.done), Fns(z.todo);
    var l := c.list.value;
    RemoveFromIs(c, f, 0);
    assert l[0..] == l && l[..0] + FilterOut(l, f) == FilterOut(l, f);
    FilterOutAppend(d, t, f);
    FilterOutSize(d, f);
    KeepIsFilterOut(z.done, f);
    KeepIsFilterOut(z.todo, f);
    assert l[0..|d|] == d;
    if c.flags.unique { FilterOutDistinct(l, f); }
  }

  lemma {:induction false} FilterOutDistinct<F>(s: seq<F>, f: F)
    requires Distinct(s)
    ensures Distinct(FilterOut(s, f)) && forall x :: x in FilterOut(s, f) ==> x in s
  {
    if s != [] {
      FilterOutDistinct(s[1..], f);
      AbsentAfter(s, 0);
    }
  }

  lemma {:induction false} RemoveFollows<F>(c: Cbs<F>, z: Zip<F>, fs: seq<F>)
    requires Follows(c, z)
    ensures var r := Remove(c, fs); Follows(r, ZRemove(z, fs)) && r == c.(list := r.list, length := r.length, index := r.index)
    decreases |fs|
  {
    if fs != [] {
      RemoveOneFollows(c, z, fs[0]);
      RemoveFollows(RemoveFrom(c, fs[0], 0),
        z.(done := Keep(z.done, fs[0]), todo := Keep(z.todo, fs[0])), fs[1..]);
    }
  }

  /** The operations for which the claim is made; `disable` and `lock` end a list. */
  predicate Listed<F>(op: Op<F>) { op.OpAdd? || op.OpRemove? || op.OpFireWith? }

  lemma DoFollows<F>(c: Cbs<F>, z: Zip<F>, op: Op<F>)
    requires Follows(c, z) && Listed(op)
    ensures Follows(Do(c, op), ZDo(z, c.flags.unique, op)) && Do(c, op).flags == c.flags
  {
    match op
    case OpAdd(args) => AddFollows(c.list.value, c.flags.unique, Flatten(args), z);
    case OpRemove(fs) => RemoveFollows(c, z, fs);
    case OpFireWith(_) =>
  }

  lemma {:induction false} DoAllFollows<F>(c: Cbs<F>, z: Zip<F>, ops: seq<Op<F>>)
    requires Follows(c, z) && forall i :: 0 <= i < |ops| ==> Listed(ops[i])
    ensures Follows(DoAll(c, ops), ZDoAll(z, c.flags.unique, ops)) && DoAll(c, ops).flags == c.flags
    decreases |ops|
  {
    hide Follows;
    if ops != [] {
      DoFollows(c, z, ops[0]);
      DoAllFollows(Do(c, ops[0]), ZDo(z, c.flags.unique, ops[0]), ops[1..]);
    }
  }

  predicate ListedScript<F>(script: seq<Behaviour<F>>, stopOnFalse: bool) {
    forall i :: 0 <= i < |script| ==>
      (stopOnFalse ==> !script[i].isFalse) && forall j :: 0 <= j < |script[i].ops| ==> Listed(script[i].ops[j])
  }

  function Calls<F>(s: seq<Occ<F>>, call: Call): seq<Invocation<F>> {
    if s == [] then [] else Calls(s[..|s| - 1], call) + [Invocation(s[|s| - 1].f, call)]
  }

  /** At the loop head the cursor is at the next registration to run. */
  ghost predicate AtHead<F>(c: Cbs<F>, z: Zip<F>) { Follows(c.(index := c.index - 1), z) }

  lemma RunFollows<F>(c: Cbs<F>, z: Zip<F>, call: Call)
    requires AtHead(c, z) && z.todo != []
    ensures Follows(c, ZRun(z)) && Running(c) && 0 <= c.index < |c.list.value| && c.list.value[c.index] == z.todo[0].f
    ensures Calls(ZRun(z).ran, call) == Calls(z.ran, call) + [Invocation(z.todo[0].f, call)]
  {
    var y := ZRun(z);
    FnsAppend(z.done, [z.todo[0]]);
    assert Fns([z.todo[0]]) == [z.todo[0].f] by { assert [z.todo[0]][1..] == []; }
    assert Fns(z.todo) == [z.todo[0].f] + Fns(z.todo[1..]);
    assert Fns(z.done) + Fns(z.todo) == Fns(y.done) + Fns(y.todo);
    assert y.ran[..|y.ran| - 1] == z.ran;
  }

  lemma InvokeFollows<F>(p: Pass<F>, z: Zip<F>, call: Call)
    requires AtHead(p.c, z) && z.todo != [] && p.log == Calls(z.ran, call) && ListedScript(p.script, p.c.flags.stopOnFalse)
    ensures Running(p.c) && 0 <= p.c.index < |p.c.list.value|
    ensures var q := Invoke(p, call);
            var y := ZDoAll(ZRun(z), p.c.flags.unique, Head(p.script).ops);
            && q.c.flags == p.c.flags && q.log == Calls(y.ran, call) && ListedScript(q.script, q.c.flags.stopOnFalse)
            && AtHead(q.c.(index := q.c.index + 1), y)
  {
    RunFollows(p.c, z, call);
    DoAllFollows(p.c, ZRun(z), Head(p.script).ops);
    DoAllRan(ZRun(z), p.c.flags.unique, Head(p.script).ops);
    var d := DoAll(p.c, Head(p.script).ops);
    assert d.(index := d.index + 1).(index := d.(index := d.index + 1).index - 1) == d;
  }

  lemma {:induction false} DoAllRan<F>(z: Zip<F>, unique: bool, ops: seq<Op<F>>)
    ensures ZDoAll(z, unique, ops).ran == z.ran
    decreases |ops|
  {
    if ops != [] {
      match ops[0] {
        case OpAdd(args) => AddRan(z, unique, Flatten(args));
        case OpRemove(fs) => RemoveRan(z, fs);
        case _ =>
      }
      DoAllRan(ZDo(z, unique, ops[0]), unique, ops[1..]);
    }
  }

  lemma {:induction false} AddRan<F>(z: Zip<F>, unique: bool, fs: seq<F>)
    ensures ZAdd(z, unique, fs).ran == z.ran
    decreases |fs|
  {
    if fs != [] {
      AddRan(if unique && fs[0] in Fns(z.done + z.todo) then z
             else z.(todo := z.todo + [Occ(fs[0], z.next)], next := z.next + 1), unique, fs[1..]);
    }
  }

  lemma {:induction false} RemoveRan<F>(z: Zip<F>, fs: seq<F>)
    ensures ZRemove(z, fs).ran == z.ran
    decreases |fs|
  {
    if fs != [] {
      RemoveRan(z.(done := Keep(z.done, fs[0]), todo := Keep(z.todo, fs[0])), fs[1..]);
    }
  }

  /** For every script of what the callbacks do, the pass with the repaired cursor makes exactly the
      calls, in the order, and leaves the list, of the pass that has no cursor to repair. */
  lemma {:induction false} LoopFollows<F>(p: Pass<F>, z: Zip<F>, call: Call)
    requires AtHead(p.c, z) && p.log == Calls(z.ran, call) && ListedScript(p.script, p.c.flags.stopOnFalse)
    ensures var q, y := Loop(p, call), ZLoop(z, p.c.flags.unique, p.script);
            AtHead(q.c, y) && y.todo == [] && q.log == Calls(y.ran, call)
    decreases |p.script|, |z.todo|
  {
    if z.todo != [] {
      InvokeFollows(p, z, call);
      var q := Invoke(p, call);
      var y := ZDoAll(ZRun(z), p.c.flags.unique, Head(p.script).ops);
      hide AtHead, Invoke;
      LoopFollows(q.(c := q.c.(index := q.c.index + 1)), y, call);
    }
  }

  // ---- the list as its changes leave it -------------------------------------------------------

  /** What callbacks ask for, one function at a time. */
  datatype Change<F> = Added(f: F) | Removed(f: F)

  function AddedAll<F>(fs: seq<F>): seq<Change<F>> { if fs == [] then [] else [Added(fs[0])] + AddedAll(fs[1..]) }

  function RemovedAll<F>(fs: seq<F>): seq<Change<F>> { if fs == [] then [] else [Removed(fs[0])] + RemovedAll(fs[1..]) }

  function ChangesIn<F>(ops: seq<Op<F>>): seq<Change<F>> {
    if ops == [] then []
    else
      (match ops[0]
       case OpAdd(args) => AddedAll(Flatten(args))
       case OpRemove(fs) => RemovedAll(fs)
       case _ => []) + ChangesIn(ops[1..])
  }

  function BehaviourAt<F>(script: seq<Behaviour<F>>, k: nat): Behaviour<F> {
    if k < |script| then script[k] else Behaviour([], false)
  }

  /** The changes that the first `k` invocations ask for. */
  function Changes<F>(script: seq<Behaviour<F>>, k: nat): seq<Change<F>> {
    if k == 0 then [] else Changes(script, k - 1) + ChangesIn(BehaviourAt(script, k - 1).ops)
  }

  /** A list whose registrations are numbered, and the next number. */
  datatype Numbered<F> = Numbered(occs: seq<Occ<F>>, next: nat)

  /** One change of a plain list: a function is put at the end, unless it must be unique and is there; or all
      its copies are taken out. */
  function Changed<F(==)>(n: Numbered<F>, unique: bool, c: Change<F>): Numbered<F> {
    match c
    case Added(f) => if unique && f in Fns(n.occs) then n else Numbered(n.occs + [Occ(f, n.next)], n.next + 1)
    case Removed(f) => n.(occs := Keep(n.occs, f))
  }

  function Replay<F(==)>(n: Numbered<F>, unique: bool, cs: seq<Change<F>>): Numbered<F>
    decreases |cs|
  {
    if cs == [] then n else Replay(Changed(n, unique, cs[0]), unique, cs[1..])
  }

  /** The registrations of a list in order, numbered from `n`. */
  function Number<F>(list: seq<F>, n: nat): (r: seq<Occ<F>>)
    ensures |r| == |list| && forall i :: 0 <= i < |list| ==> r[i] == Occ(list[i], n + i)
    decreases |list|
  {
    if list == [] then [] else [Occ(list[0], n)] + Number(list[1..], n + 1)
  }

  /** The list as the first `k` invocations leave it. */
  function Content<F(==)>(list: seq<F>, unique: bool, script: seq<Behaviour<F>>, k: nat): Numbered<F> {
    Replay(Numbered(Number(list, 0), |list|), unique, Changes(script, k))
  }

  /** The first registration numbered `n` or later. */
  function NextFrom<F>(s: seq<Occ<F>>, n: nat): Option<Occ<F>>
    decreases |s|
  {
    if s == [] then None else if s[0].id >= n then Some(s[0]) else NextFrom(s[1..], n)
  }

  /** The number from which registrations have not had their turn before invocation `k`. */
  function Cut<F>(start: nat, ran: seq<Occ<F>>, k: nat): nat
    requires k <= |ran|
  {
    if k == 0 then start else ran[k - 1].id + 1
  }

  /** What a pass is to call: each time the first registration that is in the list at that moment and has not
      had its turn, until there is none. */
  ghost predicate TakesTurns<F>(list: seq<F>, start: nat, unique: bool, script: seq<Behaviour<F>>, ran: seq<Occ<F>>) {
    && Begun(list, start, unique, script, ran)
    && NextFrom(Content(list, unique, script, |ran|).occs, Cut(start, ran, |ran|)) == None
  }

  ghost predicate Begun<F>(list: seq<F>, start: nat, unique: bool, script: seq<Behaviour<F>>, ran: seq<Occ<F>>) {
    forall k :: 0 <= k < |ran| ==> NextFrom(Content(list, unique, script, k).occs, Cut(start, ran, k)) == Some(ran[k])
  }

  lemma {:induction false} ReplayAppend<F>(n: Numbered<F>, unique: bool, a: seq<Change<F>>, b: seq<Change<F>>)
    ensures Replay(n, unique, a + b) == Replay(Replay(n, unique, a), unique, b)
    decreases |a|
  {
    if a == [] {
      assert a + b == b;
    } else {
      assert (a + b)[0] == a[0] && (a + b)[1..] == a[1..] + b;
      ReplayAppend(Changed(n, unique, a[0]), unique, a[1..], b);
    }
  }

  // ---- the pass takes turns -------------------------------------------------------------------

  /** The numbers rise strictly from `lo` and stay below `hi`. */
  predicate Rising<F>(s: seq<Occ<F>>, lo: nat, hi: nat) {
    (forall i :: 0 <= i < |s| ==> lo <= s[i].id < hi) && (forall i, j :: 0 <= i < j < |s| ==> s[i].id < s[j].id)
  }

  lemma {:induction false} KeepHas<F>(s: seq<Occ<F>>, f: F)
    ensures forall o :: o in Keep(s, f) <==> o in s && o.f != f
    decreases |s|
  {
    if s != [] {
      KeepHas(s[1..], f);
      assert forall o :: o in s <==> o == s[0] || o in s[1..];
    }
  }

  lemma RisingTail<F>(s: seq<Occ<F>>, lo: nat, hi: nat)
    requires Rising(s, lo, hi) && s != []
    ensures lo <= s[0].id < hi && Rising(s[1..], s[0].id + 1, hi)
  {
  }

  lemma RisingCons<F>(o: Occ<F>, s: seq<Occ<F>>, lo: nat, hi: nat)
    requires lo <= o.id < hi && Rising(s, o.id + 1, hi)
    ensures Rising([o] + s, lo, hi) && Rising(s, lo, hi)
  {
  }

  lemma {:induction false} KeepRises<F>(s: seq<Occ<F>>, f: F, lo: nat, hi: nat)
    requires Rising(s, lo, hi)
    ensures Rising(Keep(s, f), lo, hi)
    decreases |s|
  {
    hide Rising;
    if s == [] {
      assert Keep(s, f) == s;
    } else {
      RisingTail(s, lo, hi);
      KeepRises(s[1..], f, s[0].id + 1, hi);
      RisingCons(s[0], Keep(s[1..], f), lo, hi);
    }
  }

  lemma KeepIs<F>(s: seq<Occ<F>>, f: F, lo: nat, hi: nat)
    requires Rising(s, lo, hi)
    ensures Rising(Keep(s, f), lo, hi) && forall o :: o in Keep(s, f) <==> o in s && o.f != f
  {
    hide Rising;
    KeepHas(s, f);
    KeepRises(s, f, lo, hi);
  }

  lemma {:induction false} KeepAppend<F>(a: seq<Occ<F>>, b: seq<Occ<F>>, f: F)
    ensures Keep(a + b, f) == Keep(a, f) + Keep(b, f)
    decreases |a|
  {
    if a == [] {
      assert a + b == b;
    } else {
      assert (a + b)[0] == a[0] && (a + b)[1..] == a[1..] + b;
      KeepAppend(a[1..], b, f);
    }
  }

  ghost predicate WellNumbered<F>(n: Numbered<F>) { Rising(n.occs, 0, n.next) }

  lemma ChangedIs<F>(n: Numbered<F>, unique: bool, c: Change<F>)
    requires WellNumbered(n)
    ensures WellNumbered(Changed(n, unique, c)) && n.next <= Changed(n, unique, c).next
    ensures forall o: Occ<F> :: o.id < n.next ==> (o in Changed(n, unique, c).occs <==> o in n.occs && c != Removed(o.f))
  {
    if c.Removed? { KeepIs(n.occs, c.f, 0, n.next); }
  }

  /** A registration survives changes exactly if none of them removes its function. */
  lemma {:induction false} SurvivesUnlessRemoved<F>(n: Numbered<F>, unique: bool, cs: seq<Change<F>>)
    requires WellNumbered(n)
    ensures WellNumbered(Replay(n, unique, cs)) && n.next <= Replay(n, unique, cs).next
    ensures forall o: Occ<F> :: o.id < n.next ==> (o in Replay(n, unique, cs).occs <==> o in n.occs && Removed(o.f) !in cs)
    decreases |cs|
  {
    hide WellNumbered;
    if cs != [] {
      ChangedIs(n, unique, cs[0]);
      SurvivesUnlessRemoved(Changed(n, unique, cs[0]), unique, cs[1..]);
      assert forall c :: c in cs <==> c == cs[0] || c in cs[1..];
    }
  }

  lemma NumberIs<F>(list: seq<F>)
    ensures WellNumbered(Numbered(Number(list, 0), |list|))
  {
  }

  lemma ContentIs<F>(list: seq<F>, unique: bool, script: seq<Behaviour<F>>, k: nat)
    ensures WellNumbered(Content(list, unique, script, k))
  {
    NumberIs(list);
    SurvivesUnlessRemoved(Numbered(Number(list, 0), |list|), unique, Changes(script, k));
  }

  /** A pass without a cursor as a plain list, and the number its next registration comes from. */
  function Whole<F>(z: Zip<F>): Numbered<F> { Numbered(z.done + z.todo, z.next) }

  ghost predicate SplitAt<F>(z: Zip<F>, cut: nat) {
    Rising(z.done, 0, cut) && Rising(z.todo, cut, z.next) && cut <= z.next
  }

  lemma {:induction false} AddReplays<F>(z: Zip<F>, unique: bool, fs: seq<F>, cut: nat)
    requires SplitAt(z, cut)
    ensures SplitAt(ZAdd(z, unique, fs), cut) && Whole(ZAdd(z, unique, fs)) == Replay(Whole(z), unique, AddedAll(fs))
    decreases |fs|
  {
    hide SplitAt;
    if fs != [] {
      assert AddedAll(fs)[1..] == AddedAll(fs[1..]);
      if unique && fs[0] in Fns(z.done + z.todo) {
        AddReplays(z, unique, fs[1..], cut);
      } else {
        var y := z.(todo := z.todo + [Occ(fs[0], z.next)], next := z.next + 1);
        AddOneReplays(z, fs[0], cut);
        AddReplays(y, unique, fs[1..], cut);
      }
    }
  }

  lemma AddOneReplays<F>(z: Zip<F>, f: F, cut: nat)
    requires SplitAt(z, cut)
    ensures var y := z.(todo := z.todo + [Occ(f, z.next)], next := z.next + 1);
            SplitAt(y, cut) && Whole(y) == Numbered(Whole(z).occs + [Occ(f, z.next)], z.next + 1)
  {
    assert z.done + (z.todo + [Occ(f, z.next)]) == z.done + z.todo + [Occ(f, z.next)];
  }

  lemma {:induction false} RemoveReplays<F>(z: Zip<F>, unique: bool, fs: seq<F>, cut: nat)
    requires SplitAt(z, cut)
    ensures SplitAt(ZRemove(z, fs), cut) && Whole(ZRemove(z, fs)) == Replay(Whole(z), unique, RemovedAll(fs))
    decreases |fs|
  {
    if fs != [] {
      assert RemovedAll(fs)[1..] == RemovedAll(fs[1..]);
      KeepIs(z.done, fs[0], 0, cut);
      KeepIs(z.todo, fs[0], cut, z.next);
      KeepAppend(z.done, z.todo, fs[0]);
      RemoveReplays(z.(done := Keep(z.done, fs[0]), todo := Keep(z.todo, fs[0])), unique, fs[1..], cut);
    }
  }

  lemma {:induction false} DoAllReplays<F>(z: Zip<F>, unique: bool, ops: seq<Op<F>>, cut: nat)
    requires SplitAt(z, cut)
    ensures SplitAt(ZDoAll(z, unique, ops), cut)
    ensures Whole(ZDoAll(z, unique, ops)) == Replay(Whole(z), unique, ChangesIn(ops))
    decreases |ops|
  {
    hide SplitAt, Whole;
    if ops != [] {
      var y := ZDo(z, unique, ops[0]);
      var first := match ops[0] case OpAdd(args) => AddedAll(Flatten(args)) case OpRemove(fs) => RemovedAll(fs) case _ => [];
      match ops[0] {
        case OpAdd(args) => AddReplays(z, unique, Flatten(args), cut);
        case OpRemove(fs) => RemoveReplays(z, unique, fs, cut);
        case _ =>
      }
      assert SplitAt(y, cut) && Whole(y) == Replay(Whole(z), unique, first);
      DoAllReplays(y, unique, ops[1..], cut);
      ReplayAppend(Whole(z), unique, first, ChangesIn(ops[1..]));
    }
  }

  lemma {:induction false} NextOfSplit<F>(done: seq<Occ<F>>, todo: seq<Occ<F>>, cut: nat, next: nat)
    requires Rising(done, 0, cut) && Rising(todo, cut, next)
    ensures NextFrom(done + todo, cut) == if todo == [] then None else Some(todo[0])
    decreases |done|
  {
    if done == [] {
      assert done + todo == todo;
    } else {
      assert (done + todo)[0] == done[0] && (done + todo)[1..] == done[1..] + todo;
      NextOfSplit(done[1..], todo, cut, next);
    }
  }

  /** The behaviours from the k-th on. */
  function Rest<F>(script: seq<Behaviour<F>>, k: nat): seq<Behaviour<F>> { if k < |script| then script[k..] else [] }

  lemma RestIs<F>(script: seq<Behaviour<F>>, k: nat)
    ensures Head(Rest(script, k)) == BehaviourAt(script, k) && Tail(Rest(script, k)) == Rest(script, k + 1)
  {
  }

  lemma OneMore<F>(list: seq<F>, unique: bool, script: seq<Behaviour<F>>, k: nat)
    ensures Content(list, unique, script, k + 1) ==
            Replay(Content(list, unique, script, k), unique, ChangesIn(BehaviourAt(script, k).ops))
  {
    ReplayAppend(Numbered(Number(list, 0), |list|), unique, Changes(script, k), ChangesIn(BehaviourAt(script, k).ops));
  }

  /** One turn: the next registration runs, and its behaviour changes the list. */
  lemma TurnReplays<F>(z: Zip<F>, unique: bool, ops: seq<Op<F>>, cut: nat)
    requires SplitAt(z, cut) && z.todo != []
    ensures NextFrom(z.done + z.todo, cut) == Some(z.todo[0])
    ensures var y := ZDoAll(ZRun(z), unique, ops);
            && SplitAt(y, z.todo[0].id + 1) && y.ran == z.ran + [z.todo[0]]
            && Whole(y) == Replay(Whole(z), unique, ChangesIn(ops))
  {
    NextOfSplit(z.done, z.todo, cut, z.next);
    assert ZRun(z).done + ZRun(z).todo == z.done + z.todo;
    DoAllReplays(ZRun(z), unique, ops, z.todo[0].id + 1);
    DoAllRan(ZRun(z), unique, ops);
  }

  lemma BegunMore<F>(list: seq<F>, start: nat, unique: bool, script: seq<Behaviour<F>>, ran: seq<Occ<F>>, o: Occ<F>)
    requires Begun(list, start, unique, script, ran)
    requires NextFrom(Content(list, unique, script, |ran|).occs, Cut(start, ran, |ran|)) == Some(o)
    ensures Begun(list, start, unique, script, ran + [o])
  {
    hide Content, NextFrom;
    forall k | 0 <= k < |ran + [o]|
      ensures NextFrom(Content(list, unique, script, k).occs, Cut(start, ran + [o], k)) == Some((ran + [o])[k])
    {
      assert Cut(start, ran + [o], k) == Cut(start, ran, k);
    }
  }

  lemma {:induction false} LoopTakesTurns<F>(list: seq<F>, start: nat, unique: bool, script: seq<Behaviour<F>>, z: Zip<F>)
    requires Begun(list, start, unique, script, z.ran) && SplitAt(z, Cut(start, z.ran, |z.ran|))
    requires Whole(z) == Content(list, unique, script, |z.ran|)
    ensures var y := ZLoop(z, unique, Rest(script, |z.ran|));
            && TakesTurns(list, start, unique, script, y.ran) && y.todo == []
            && y.done == Content(list, unique, script, |y.ran|).occs
    decreases |Rest(script, |z.ran|)|, |z.todo|
  {
    hide Content, Begun, Replay, NextFrom;
    var k := |z.ran|;
    var cut := Cut(start, z.ran, k);
    RestIs(script, k);
    if z.todo == [] {
      NextOfSplit(z.done, z.todo, cut, z.next);
      assert z.done + z.todo == z.done;
    } else {
      var y := ZDoAll(ZRun(z), unique, BehaviourAt(script, k).ops);
      TurnReplays(z, unique, BehaviourAt(script, k).ops, cut);
      OneMore(list, unique, script, k);
      BegunMore(list, start, unique, script, z.ran, z.todo[0]);
      NoMoreWithoutScript(z, unique, script, k);
      LoopTakesTurns(list, start, unique, script, y);
    }
  }

  lemma NoMoreWithoutScript<F>(z: Zip<F>, unique: bool, script: seq<Behaviour<F>>, k: nat)
    requires z.todo != []
    ensures k >= |script| ==> |ZDoAll(ZRun(z), unique, BehaviourAt(script, k).ops).todo| < |z.todo|
  {
  }

  // ---- main results ---------------------------------------------------------------------------

  /** A pass about to start: entries before `start` had their turn in an earlier pass. */
  function Tagged<F>(list: seq<F>, start: nat): Zip<F>
    requires start <= |list|
  {
    Zip(Number(list[..start], 0), Number(list[start..], start), [], |list|)
  }

  lemma {:induction false} FnsNumber<F>(list: seq<F>, n: nat)
    ensures Fns(Number(list, n)) == list
    decreases |list|
  {
  }

  lemma NumberSplit<F>(list: seq<F>, start: nat)
    requires start <= |list|
    ensures Number(list[..start], 0) + Number(list[start..], start) == Number(list, 0)
  {
  }

  lemma RisingNumber<F>(list: seq<F>, n: nat)
    ensures Rising(Number(list, n), n, n + |list|)
  {
  }

  lemma TaggedSplit<F>(list: seq<F>, start: nat)
    requires start <= |list|
    ensures SplitAt(Tagged(list, start), start)
  {
    hide Rising, Number;
    RisingNumber(list[..start], 0);
    RisingNumber(list[start..], start);
  }

  lemma TaggedWhole<F>(list: seq<F>, start: nat)
    requires start <= |list|
    ensures Whole(Tagged(list, start)) == Numbered(Number(list, 0), |list|)
  {
    NumberSplit(list, start);
  }

  lemma TaggedFns<F>(list: seq<F>, start: nat)
    requires start <= |list|
    ensures Fns(Tagged(list, start).done) + Fns(Tagged(list, start).todo) == list
  {
    hide Number, Fns;
    FnsNumber(list[..start], 0);
    FnsNumber(list[start..], start);
    TakeDrop(list, start);
  }

  lemma TakeDrop<T>(s: seq<T>, n: nat)
    requires n <= |s|
    ensures s[..n] + s[n..] == s
  {
  }

  /** A firing pass under any script of re-entrant `add`, `remove` and `fire` calls. What is called, in order,
      is each time the first registration of the list, as the changes so far leave it, that has not had its
      turn; the pass ends when there is none; and the list left is the one that all the changes leave. */
  lemma PassRunsEveryRegistrationOnce<F>(c: Cbs<F>, call: Call, script: seq<Behaviour<F>>) returns (ran: seq<Occ<F>>)
    requires Consistent(c) && !c.firing && c.list.Some? && ListedScript(script, c.flags.stopOnFalse)
    ensures TakesTurns(c.list.value, c.start, c.flags.unique, script, ran)
    ensures ran == ZLoop(Tagged(c.list.value, c.start), c.flags.unique, script).ran
    ensures var p := Loop(Pass(Begin(c, call), [], script), call);
            && p.log == Calls(ran, call) && p.c.firing
            && p.c.list == Some(Fns(Content(c.list.value, c.flags.unique, script, |ran|).occs))
  {
    hide Loop, ZLoop, Content, Begun, Calls;
    var list, unique := c.list.value, c.flags.unique;
    var z := Tagged(list, c.start);
    TaggedSplit(list, c.start);
    TaggedWhole(list, c.start);
    TaggedFns(list, c.start);
    NothingYet(list, c.start, unique, script, call);
    LoopFollows(Pass(Begin(c, call), [], script), z, call);
    LoopTakesTurns(list, c.start, unique, script, z);
    assert Rest(script, 0) == script;
    var y := ZLoop(z, unique, script);
    ran := y.ran;
    assert Fns(y.done) + Fns(y.todo) == Fns(y.done);
  }

  lemma NothingYet<F>(list: seq<F>, start: nat, unique: bool, script: seq<Behaviour<F>>, call: Call)
    ensures Begun(list, start, unique, script, []) && Content(list, unique, script, 0) == Numbered(Number(list, 0), |list|)
    ensures Calls<F>([], call) == []
  {
  }

  /** No registration is called twice, and calls come in order of registration. */
  lemma {:induction false} TurnsRise<F>(list: seq<F>, start: nat, unique: bool, script: seq<Behaviour<F>>, ran: seq<Occ<F>>, i: nat, j: nat)
    requires Begun(list, start, unique, script, ran) && i < j < |ran|
    ensures start <= ran[i].id < ran[j].id
    decreases j
  {
    hide Content, NextFrom;
    NextFromIs(Content(list, unique, script, j).occs, Cut(start, ran, j));
    NextFromIs(Content(list, unique, script, i).occs, Cut(start, ran, i));
    if i > 0 { TurnsRise(list, start, unique, script, ran, i - 1, i); }
    if i < j - 1 { TurnsRise(list, start, unique, script, ran, i, j - 1); }
  }

  lemma {:induction false} NextFromIs<F>(s: seq<Occ<F>>, n: nat)
    ensures NextFrom(s, n).Some? ==> NextFrom(s, n).value in s && NextFrom(s, n).value.id >= n
    ensures NextFrom(s, n).None? ==> forall o :: o in s ==> o.id < n
    decreases |s|
  {
    if s != [] {
      NextFromIs(s[1..], n);
      assert forall o :: o in s <==> o == s[0] || o in s[1..];
    }
  }

  lemma {:induction false} NextIsFirst<F>(s: seq<Occ<F>>, n: nat, lo: nat, hi: nat, o: Occ<F>)
    requires Rising(s, lo, hi) && o in s && o.id >= n
    ensures NextFrom(s, n).Some? && NextFrom(s, n).value.id <= o.id && (NextFrom(s, n).value.id == o.id ==> NextFrom(s, n).value == o)
    decreases |s|
  {
    if s[0].id < n { NextIsFirst(s[1..], n, lo, hi, o); }
  }

  /** When a registration has its turn, at or after invocation `k`: before the first call of a later one, or at
      the end of the pass. */
  function TurnOf<F>(ran: seq<Occ<F>>, id: nat, k: nat): (j: nat)
    requires k <= |ran|
    ensures k <= j <= |ran| && (j < |ran| ==> ran[j].id >= id) && forall i :: k <= i < j ==> ran[i].id < id
    decreases |ran| - k
  {
    if k == |ran| || ran[k].id >= id then k else TurnOf(ran, id, k + 1)
  }

  /** The changes that the invocations from the k-th to just before the j-th ask for. */
  function Since<F>(script: seq<Behaviour<F>>, k: nat, j: nat): seq<Change<F>>
    requires k <= j
    decreases j
  {
    if k == j then [] else Since(script, k, j - 1) + ChangesIn(BehaviourAt(script, j - 1).ops)
  }

  lemma {:induction false} ContentSince<F>(list: seq<F>, unique: bool, script: seq<Behaviour<F>>, k: nat, j: nat)
    requires k <= j
    ensures Content(list, unique, script, j) == Replay(Content(list, unique, script, k), unique, Since(script, k, j))
    decreases j
  {
    hide Content, ChangesIn;
    if k < j {
      hide Replay;
      ContentSince(list, unique, script, k, j - 1);
      OneMore(list, unique, script, j - 1);
      ReplayAppend(Content(list, unique, script, k), unique, Since(script, k, j - 1), ChangesIn(BehaviourAt(script, j - 1).ops));
    }
  }

  /** A registration that is in the list at invocation `k` and has not had its turn is called when its turn comes
      exactly if no callback removes its function in between. */
  lemma CalledUnlessRemoved<F>(list: seq<F>, start: nat, unique: bool, script: seq<Behaviour<F>>, ran: seq<Occ<F>>, k: nat, o: Occ<F>)
    requires TakesTurns(list, start, unique, script, ran) && k <= |ran|
    requires o in Content(list, unique, script, k).occs && o.id >= Cut(start, ran, k)
    ensures var j := TurnOf(ran, o.id, k); j < |ran| && ran[j] == o <==> Removed(o.f) !in Since(script, k, j)
  {
    hide Content, Replay, Since, TurnOf, TakesTurns;
    var j := TurnOf(ran, o.id, k);
    ContentIs(list, unique, script, k);
    ContentSince(list, unique, script, k, j);
    SurvivesUnlessRemoved(Content(list, unique, script, k), unique, Since(script, k, j));
    OwnTurn(list, start, unique, script, ran, k, o);
  }

  lemma OwnTurn<F>(list: seq<F>, start: nat, unique: bool, script: seq<Behaviour<F>>, ran: seq<Occ<F>>, k: nat, o: Occ<F>)
    requires TakesTurns(list, start, unique, script, ran) && k <= |ran| && o.id >= Cut(start, ran, k)
    ensures var j := TurnOf(ran, o.id, k); o in Content(list, unique, script, j).occs <==> j < |ran| && ran[j] == o
  {
    hide Content, NextFrom, TurnOf, WellNumbered, Begun;
    var j := TurnOf(ran, o.id, k);
    var now := Content(list, unique, script, j);
    ContentIs(list, unique, script, j);
    assert o.id >= Cut(start, ran, j);
    NextFromIs(now.occs, Cut(start, ran, j));
    NextOfContent(now, Cut(start, ran, j), o);
    TurnIs(list, start, unique, script, ran, j);
  }

  lemma NextOfContent<F>(n: Numbered<F>, cut: nat, o: Occ<F>)
    requires WellNumbered(n)
    ensures o in n.occs && o.id >= cut ==>
              NextFrom(n.occs, cut).Some? && NextFrom(n.occs, cut).value.id <= o.id &&
              (NextFrom(n.occs, cut).value.id == o.id ==> NextFrom(n.occs, cut).value == o)
  {
    if o in n.occs && o.id >= cut { NextIsFirst(n.occs, cut, 0, n.next, o); }
  }

  lemma TurnIs<F>(list: seq<F>, start: nat, unique: bool, script: seq<Behaviour<F>>, ran: seq<Occ<F>>, j: nat)
    requires TakesTurns(list, start, unique, script, ran) && j <= |ran|
    ensures NextFrom(Content(list, unique, script, j).occs, Cut(start, ran, j)) == if j < |ran| then Some(ran[j]) else None
  {
    hide Content, NextFrom, Cut;
  }
}
