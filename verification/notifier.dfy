/** The watch manager and the notifier as objects, each method proved against the function it computes. */
module Notifiers {
  import opened Bytes
  import opened Options
  import opened Paths
  import opened Inotify
  import opened Printing
  import opened Drain
  import opened Reading
  import opened Agreement

  /** A watched file or directory; a rename rewrites `path` in place. */
  class Watch {
    const wd: int
    var path: string
    const mask: nat
    const procFun: Option<nat>
    const autoAdd: bool
    const filter: string -> bool
    const dir: bool

    constructor (wd: int, path: string, mask: nat, procFun: Option<nat>, autoAdd: bool, filter: string -> bool, dir: bool)
      ensures Rec() == WatchRec(wd, path, mask, procFun, autoAdd, filter, dir)
    {
      this.wd, this.path, this.mask, this.procFun := wd, path, mask, procFun;
      this.autoAdd, this.filter, this.dir := autoAdd, filter, dir;
    }

    function Rec(): WatchRec
      reads this
    {
      WatchRec(wd, path, mask, procFun, autoAdd, filter, dir)
    }
  }

  /** The kernel and the file system behind the inotify calls. */
  class INotify {
    var k: Kernel

    constructor (k: Kernel)
      ensures this.k == k
    {
      this.k := k;
    }

    method AddWatch(path: string) returns (wd: int)
      modifies this
      ensures (k, wd) == KernelAdd(old(k), path)
    {
      match NodeAt(k, path)
      case None => wd := -1;
      case Some(n) =>
        if n.ino in k.live {
          wd := k.live[n.ino];
        } else {
          wd := k.nextWd;
          k := k.(live := k.live[n.ino := wd], nextWd := wd + 1);
        }
    }

    /** inotify_rm_watch: an unknown descriptor is refused. */
    method RmWatch(wd: int) returns (ok: bool)
      requires KernelOk(k)
      modifies this
      ensures ok <==> wd in LiveWds(old(k))
      ensures if i :| i in old(k).live && old(k).live[i] == wd then k == Drop(old(k), i) else k == old(k)
    {
      var rest := k.live.Keys;
      while rest != {}
        invariant rest <= k.live.Keys && k == old(k)
        invariant forall i :: i in k.live && i !in rest ==> k.live[i] != wd
        decreases |rest|
      {
        var i :| i in rest;
        if k.live[i] == wd {
          k := Drop(k, i);
          return true;
        }
        rest := rest - {i};
      }
      ok := false;
    }
  }

  /** A manager with nothing but a table. */
  const BLANK: Manager := Manager(map[], false, [], {}, false, map[], map[], [], false)

  class WatchManager {
    const inotify: INotify
    var wmd: map<int, Watch>
    var ignore: bool

    constructor (inotify: INotify)
      ensures Valid() && this.inotify == inotify && Table() == map[] && !ignore
    {
      this.inotify, wmd, ignore := inotify, map[], false;
    }

    /** Different entries are different objects. */
    ghost predicate Valid()
      reads this
    {
      forall v, w :: v in wmd && w in wmd && v != w ==> wmd[v] != wmd[w]
    }

    ghost function Watches(): set<Watch>
      reads this
    {
      set wd | wd in wmd :: wmd[wd]
    }

    function Table(): map<int, WatchRec>
      reads this, wmd.Values
    {
      map wd | wd in wmd :: wmd[wd].Rec()
    }

    /** The kernel and the table. */
    function Core(): State
      reads this, wmd.Values, inotify
    {
      State(inotify.k, BLANK.(wmd := Table()))
    }

    method AddOneWatch(path: string, mask: nat, procFun: Option<nat>, autoAdd: bool, filter: string -> bool) returns (wd: int)
      requires Valid()
      modifies this`wmd, inotify
      ensures Valid() && (Core(), wd) == AddOne(old(Core()), path, mask, procFun, autoAdd, filter)
      ensures fresh(Watches() - old(Watches()))
    {
      var p := NormPath(path);
      var m := if autoAdd && !HasCreate(mask) then mask + IN_CREATE else mask;
      wd := inotify.AddWatch(p);
      if wd < 0 {
        return;
      }
      var watch := new Watch(wd, p, m, procFun, autoAdd, filter, IsDirAt(inotify.k, p));
      Enter(watch);
    }

    /** Enters a new watch under its descriptor. */
    method Enter(watch: Watch)
      requires Valid() && watch !in Watches()
      modifies this`wmd
      ensures Valid() && Table() == old(Table())[watch.wd := watch.Rec()] && Watches() <= old(Watches()) + {watch}
    {
      ghost var table := Table();
      wmd := wmd[watch.wd := watch];
      assert Table() == table[watch.wd := watch.Rec()];
    }

    /** The body of the loop of `add_watch`. */
    method AddUnlessExcluded(rpath: string, mask: nat, procFun: Option<nat>, autoAdd: bool, filter: string -> bool,
                             ret: map<string, int>) returns (ret': map<string, int>)
      requires Valid()
      modifies this`wmd, inotify
      ensures Valid() && fresh(Watches() - old(Watches()))
      ensures (Core(), ret') == AddUnless(old(Core()), rpath, mask, procFun, autoAdd, filter, ret)
    {
      hide AddOne, Core, Valid, Watches;
      if !filter(rpath) {
        var wd := AddOneWatch(rpath, mask, procFun, autoAdd, filter);
        ret' := ret[rpath := wd];
      } else {
        ret' := ret[rpath := -2];
      }
    }

    /** `add_watch` for one path. */
    method AddWatch(path: string, mask: nat, procFun: Option<nat>, rec: bool, autoAdd: bool, filter: string -> bool)
      returns (ret: map<string, int>)
      requires Valid()
      modifies this`wmd, inotify
      ensures Valid()
      ensures (Core(), ret) == AddAll(old(Core()), WalkRec(old(inotify.k), path, rec), mask, procFun, autoAdd, filter, map[])
      ensures fresh(Watches() - old(Watches()))
    {
      ret := map[];
      var walk := WalkRec(inotify.k, path, rec);
      ghost var now, before := Core(), Watches();
      ghost var want := AddAll(now, walk, mask, procFun, autoAdd, filter, ret);
      var i := 0;
      assert walk[0..] == walk;
      hide *;
      while i < |walk|
        invariant 0 <= i <= |walk| && Valid() && now == Core()
        invariant want == AddAll(now, walk[i..], mask, procFun, autoAdd, filter, ret)
        invariant fresh(Watches() - before)
      {
        var rpath := walk[i];
        AddAllHead(now, walk, i, mask, procFun, autoAdd, filter, ret);
        ret := AddUnlessExcluded(rpath, mask, procFun, autoAdd, filter, ret);
        i, now := i + 1, Core();
      }
      assert walk[|walk|..] == [];
      AddAllNone(now, mask, procFun, autoAdd, filter, ret);
    }

    /** Some descriptor whose watch stores `path`, if there is one. */
    method GetWd(path: string) returns (r: Option<int>)
      ensures r.Some? <==> exists wd :: wd in wmd && wmd[wd].path == NormPath(path)
      ensures r.Some? ==> r.value in wmd && wmd[r.value].path == NormPath(path)
    {
      var p := NormPath(path);
      var rest: set<int> := wmd.Keys;
      while rest != {}
        invariant rest <= wmd.Keys
        invariant forall wd :: wd in wmd && wd !in rest ==> wmd[wd].path != p
        decreases |rest|
      {
        Member(rest);
        var wd :| wd in rest;
        if wmd[wd].path == p {
          assert Table()[wd].path == p;
          return Some(wd);
        }
        rest := rest - {wd};
      }
      r := None;
      assert forall wd :: wd in Table() ==> Table()[wd].path == wmd[wd].path;
    }

    /** `del_watch`; deleting an unknown descriptor is only logged. */
    method DelWatch(wd: int)
      requires Valid()
      modifies this`wmd
      ensures Valid() && Core() == State(old(inotify.k), BLANK.(wmd := old(Table()) - {wd}))
      ensures Watches() <= old(Watches())
    {
      ghost var table := Table();
      wmd := wmd - {wd};
      assert Table() == table - {wd};
    }

    /** `rm_watch` without recursion, of one descriptor. */
    method RmWatch(wd: int) returns (ok: bool)
      requires Valid() && KernelOk(inotify.k)
      modifies this`wmd, inotify
      ensures Valid() && (Core(), ok) == RmOne(old(Core()), wd)
      ensures Watches() <= old(Watches())
    {
      ok := inotify.RmWatch(wd);
      if !ok {
        return;
      }
      ghost var table := Table();
      if wd in wmd {
        wmd := wmd - {wd};
      }
      assert Table() == table - {wd};
    }
  }

  class Notifier {
    const wm: WatchManager
    var eventq: seq<RawEvent>
    var eventset: set<string>
    var coalesce: bool
    var mvCookie: map<nat, string>
    var mv: map<string, string>
    var log: seq<Delivery>
    var raised: bool

    constructor (wm: WatchManager)
      ensures this.wm == wm
      ensures eventq == [] && eventset == {} && !coalesce && mvCookie == map[] && mv == map[] && log == [] && !raised
    {
      this.wm := wm;
      eventq, eventset, coalesce, mvCookie, mv, log, raised := [], {}, false, map[], map[], [], false;
    }

    function Snapshot(): State
      reads this, wm, wm.wmd.Values, wm.inotify
    {
      State(wm.inotify.k, Manager(wm.Table(), wm.ignore, eventq, eventset, coalesce, mvCookie, mv, log, raised))
    }

    method AppendEvent(e: RawEvent)
      modifies this`eventq
      ensures Snapshot() == old(Snapshot()).(m := old(Snapshot()).m.(eventq := old(eventq) + [e]))
    {
      eventq := eventq + [e];
    }

    method CoalesceEvents(on: bool)
      modifies this`coalesce, this`eventset
      ensures Snapshot() == Next(old(Snapshot()), SetCoalesce(on))
    {
      coalesce := on;
      if !on {
        eventset := {};
      }
    }

    /** Queues one event that was read, unless coalescing saw it before. */
    method QueueRead(e: RawEvent)
      modifies this`eventq, this`eventset
      ensures Snapshot() == State(wm.inotify.k, Enqueue(old(Snapshot()).m, e))
    {
      if coalesce {
        if Printed(e) !in eventset {
          eventset := eventset + {Printed(e)};
          eventq := eventq + [e];
        }
      } else {
        eventq := eventq + [e];
      }
    }

    /** Reads a buffer record by record; `ok` is false when the last record is cut short, and the records
        before it are queued all the same. */
    method ReadEvents(buf: seq<Byte>) returns (ok: bool)
      modifies this`eventq, this`eventset
      ensures Snapshot() == State(wm.inotify.k, EnqueueAll(old(Snapshot()).m, Decode(buf).0))
      ensures ok == Decode(buf).1
    {
      var rsum := 0;
      ghost var m, got := Snapshot().m, [];
      assert Snapshot() == State(wm.inotify.k, m);
      hide *;
      EnqueueNone(m);
      NoneRead(buf);
      while rsum < |buf|
        invariant 0 <= rsum <= |buf|
        invariant Snapshot() == State(wm.inotify.k, EnqueueAll(m, got)) && ReadSoFar(buf, rsum, got)
      {
        var size := RecordSize(buf[rsum..]);
        HeadRead(buf, rsum, got);
        if size.None? {
          return false;
        }
        var e := HeadEvent(buf[rsum..]);
        QueueRead(e);
        EnqueueAllSnoc(m, got, e);
        got := got + [e];
        rsum := rsum + size.value;
      }
      AllRead(buf, got);
      ok := true;
    }

    // ---- handlers -----------------------------------------------------------------------------

    ghost predicate Valid()
      reads this, wm
    {
      wm.Valid()
    }

    /** The objects a handler may change. */
    ghost function Footprint(): set<object>
      reads this, wm
    {
      {this, wm, wm.inotify} + wm.Watches()
    }

    method Deliver(d: Delivery)
      modifies this`log
      ensures Snapshot() == Inotify.Deliver(old(Snapshot()), d)
    {
      log := log + [d];
    }

    /** `process_default` */
    method ProcessDefault(e: RawEvent, handler: Option<nat>, cookie: Option<nat>, src: Option<string>)
      requires e.wd in wm.wmd
      modifies this`log
      ensures Snapshot() == Inotify.Deliver(old(Snapshot()), Default(old(Snapshot()), e, handler, cookie, src))
    {
      var w := wm.wmd[e.wd];
      var isDir := if HasDeleteSelf(e.mask) || HasMoveSelf(e.mask) then w.dir else HasIsDir(e.mask);
      Deliver(Delivery(handler, e.wd, e.mask, w.path, e.name, isDir, cookie, src));
    }

    /** Queues made-up creation events for what is inside the new directory `d`. */
    method QueueContents(d: string, wd: int, entries: seq<Entry>)
      modifies this`eventq
      ensures var s := old(Snapshot());
              Snapshot() == s.(m := s.m.(eventq := s.m.eventq + Simulated(s.k, s.m.wmd, d, wd, entries)))
    {
      ghost var table := wm.Table();
      ghost var q := eventq;
      var i := 0;
      while i < |entries|
        invariant 0 <= i <= |entries|
        invariant eventq + Simulated(wm.inotify.k, table, d, wd, entries[i..]) ==
                  q + Simulated(wm.inotify.k, table, d, wd, entries)
      {
        hide SimulatedFor, Simulated;
        SimulatedHead(eventq, wm.inotify.k, table, d, wd, entries, i);
        QueueEntry(d, wd, entries[i].name);
        i := i + 1;
      }
      assert entries[|entries|..] == [] && eventq + [] == eventq;
      assert entries[0..] == entries;
    }

    /** The body of the loop over a directory's names. */
    method QueueEntry(d: string, wd: int, name: string)
      modifies this`eventq
      ensures eventq == old(eventq) + SimulatedFor(wm.inotify.k, wm.Table(), d, wd, name)
    {
      hide NodeAt, NormPath, Join;
      var inner := Join(d, name);
      var known := wm.GetWd(inner);
      assert forall w :: w in wm.wmd ==> wm.Table()[w].path == wm.wmd[w].path;
      if known.Some? {
        return;
      }
      if IsFileAt(wm.inotify.k, inner) {
        AppendEvent(RawEvent(wd, IN_CREATE, 0, name));
      } else if IsDirAt(wm.inotify.k, inner) {
        AppendEvent(RawEvent(wd, IN_CREATE + IN_ISDIR, 0, name));
      }
    }

    method ProcessCreate(e: RawEvent, handler: Option<nat>)
      requires Valid() && e.wd in wm.wmd
      modifies this`eventq, this`log, wm`wmd, wm.inotify
      ensures Valid() && fresh(wm.Watches() - old(wm.Watches()))
      ensures var s1 := Created(old(Snapshot()), e);
              Snapshot() == Inotify.Deliver(s1, Default(s1, e, handler, None, None))
    {
      ghost var s := Snapshot();
      if HasIsDir(e.mask) {
        var w := wm.wmd[e.wd];
        var createdDir := Join(w.path, e.name);
        if w.autoAdd && !w.filter(createdDir) {
          var addwRet := wm.AddWatch(createdDir, w.mask, w.procFun, false, w.autoAdd, w.filter);
          AddAllFrame(s, [createdDir], w.mask, w.procFun, w.autoAdd, w.filter, map[]);
          assert Snapshot() == AddAll(s, [createdDir], w.mask, w.procFun, w.autoAdd, w.filter, map[]).0;
          if createdDir in addwRet && addwRet[createdDir] > 0 && IsDirAt(wm.inotify.k, createdDir) {
            QueueContents(createdDir, addwRet[createdDir], NodeAt(wm.inotify.k, createdDir).value.entries);
          }
        }
      }
      assert Snapshot() == Created(s, e);
      ProcessDefault(e, handler, None, None);
    }

    method ProcessMovedFrom(e: RawEvent, handler: Option<nat>)
      requires Valid() && e.wd in wm.wmd
      modifies this`mvCookie, this`log
      ensures var s := old(Snapshot());
              var s1 := s.(m := s.m.(mvCookie := s.m.mvCookie[e.cookie := EventPath(s, e)]));
              Snapshot() == Inotify.Deliver(s1, Default(s1, e, handler, Some(e.cookie), None))
    {
      var srcPath := NormPath(Join(wm.wmd[e.wd].path, e.name));
      mvCookie := mvCookie[e.cookie := srcPath];
      ProcessDefault(e, handler, Some(e.cookie), None);
    }

    method ProcessMovedTo(e: RawEvent, handler: Option<nat>)
      requires Valid() && e.wd in wm.wmd
      modifies this`mv, this`log, wm`wmd, wm.inotify
      ensures Valid() && fresh(wm.Watches() - old(wm.Watches()))
      ensures var s := old(Snapshot());
              var s1 := MovedIn(s, e);
              var src := if e.cookie in s.m.mvCookie then Some(s.m.mvCookie[e.cookie]) else None;
              Snapshot() == Inotify.Deliver(s1, Default(s1, e, handler, Some(e.cookie), src))
    {
      ghost var s := Snapshot();
      var w := wm.wmd[e.wd];
      var dstPath := NormPath(Join(w.path, e.name));
      var src: Option<string> := None;
      if e.cookie in mvCookie {
        mv := mv[mvCookie[e.cookie] := dstPath];
        src := Some(mvCookie[e.cookie]);
      } else if HasIsDir(e.mask) && w.autoAdd && !w.filter(dstPath) {
        var _ := wm.AddWatch(dstPath, w.mask, w.procFun, true, true, w.filter);
        AddAllFrame(s, WalkRec(s.k, dstPath, true), w.mask, w.procFun, true, w.filter, map[]);
        assert Snapshot() == AddAll(s, WalkRec(s.k, dstPath, true), w.mask, w.procFun, true, w.filter, map[]).0;
      }
      assert Snapshot() == MovedIn(s, e);
      ProcessDefault(e, handler, Some(e.cookie), src);
    }

    /** Rewrites, in place, the path of one watch. */
    method SetPath(wd: int, path: string)
      requires Valid() && wd in wm.wmd
      modifies wm.wmd[wd]
      ensures wm.Table() == old(wm.Table())[wd := old(wm.Table())[wd].(path := path)]
    {
      ghost var table := wm.Table();
      wm.wmd[wd].path := path;
      assert forall v :: v in wm.wmd && v != wd ==> wm.wmd[v].Rec() == table[v];
    }

    /** Rewrites, in place, the path of every watch below `src`. */
    method RepathBelow(src: string, dst: string)
      requires Valid()
      modifies wm.Watches()
      ensures wm.Table() == Reprefixed(old(wm.Table()), old(wm.Table()).Keys, src, dst)
    {
      ghost var table := wm.Table();
      assert table.Keys == wm.wmd.Keys;
      hide Reprefix, Reprefixed, WatchManager.Table;
      var rest: set<int> := wm.wmd.Keys;
      ReprefixedNone(table, src, dst);
      assert table.Keys - rest == {};
      while rest != {}
        invariant rest <= wm.wmd.Keys
        invariant wm.Table() == Reprefixed(table, table.Keys - rest, src, dst)
        decreases |rest|
      {
        Member(rest);
        var wd :| wd in rest;
        assert wm.wmd[wd] in wm.Watches();
        RepathOne(wd, src, dst);
        ReprefixedStep(table, table.Keys - rest, wd, src, dst);
        assert table.Keys - (rest - {wd}) == (table.Keys - rest) + {wd};
        rest := rest - {wd};
      }
      assert table.Keys - rest == table.Keys;
    }

    /** The body of that loop. */
    method RepathOne(wd: int, src: string, dst: string)
      requires Valid() && wd in wm.wmd
      modifies wm.wmd[wd]
      ensures wm.Table() == old(wm.Table())[wd := old(wm.Table())[wd].(path := Reprefix(old(wm.Table())[wd].path, src, dst))]
    {
      ghost var table := wm.Table();
      var prefix := src + "/";
      var w := wm.wmd[wd];
      if prefix <= w.path {
        SetPath(wd, Join(dst, w.path[|prefix|..]));
      } else {
        assert table[wd := table[wd].(path := table[wd].path)] == table;
      }
    }

    method ProcessMoveSelf(e: RawEvent, handler: Option<nat>)
      requires Valid() && e.wd in wm.wmd
      modifies this`log, wm.Watches()
      ensures var s := old(Snapshot());
              var s1 := s.(m := s.m.(wmd := Renamed(s.m.wmd, e.wd, s.m.mv)));
              Snapshot() == Inotify.Deliver(s1, Default(s1, e, handler, None, None))
    {
      hide Default, Renamed;
      Repath(e.wd);
      ProcessDefault(e, handler, None, None);
    }

    /** The paths of the watch that moved and of those below it. */
    method Repath(wd: int)
      requires Valid() && wd in wm.wmd
      modifies wm.Watches()
      ensures wm.Table() == Renamed(old(wm.Table()), wd, mv)
    {
      ghost var table := wm.Table();
      var src := wm.wmd[wd].path;
      assert wm.wmd[wd] in wm.Watches();
      RenamedIs(table, wd, mv);
      if src in mv {
        var dst := mv[src];
        SetPath(wd, dst);
        RepathBelow(src, dst);
      } else {
        if !EndsWith(src, UNKNOWN) {
          SetPath(wd, src + UNKNOWN);
        } else {
          assert table[wd := table[wd].(path := src)] == table;
        }
      }
    }

    method ProcessIgnored(e: RawEvent, handler: Option<nat>)
      requires Valid() && e.wd in wm.wmd
      modifies this`log, wm`wmd
      ensures Valid() && wm.Watches() <= old(wm.Watches())
      ensures var s1 := Inotify.Deliver(old(Snapshot()), Default(old(Snapshot()), e, handler, None, None));
              Snapshot() == s1.(m := s1.m.(wmd := s1.m.wmd - {e.wd}))
    {
      ProcessDefault(e, handler, None, None);
      ghost var table := wm.Table();
      wm.DelWatch(e.wd);
      assert wm.Core().m.wmd == table - {e.wd};
    }

    /** The dispatch of one event on a known watch. */
    method SysProcess(e: RawEvent)
      requires Valid() && e.wd in wm.wmd
      modifies Footprint()
      ensures Valid() && fresh(wm.Watches() - old(wm.Watches()))
      ensures Snapshot() == Dispatch(old(Snapshot()), e)
    {
      hide Default, Created, MovedIn, Renamed, EventPath;
      var handler := wm.wmd[e.wd].procFun;
      match KindOf(e.mask)
      case Create => ProcessCreate(e, handler);
      case MovedFrom => ProcessMovedFrom(e, handler);
      case MovedTo => ProcessMovedTo(e, handler);
      case MoveSelf => ProcessMoveSelf(e, handler);
      case Ignored => ProcessIgnored(e, handler);
      case Overflow => Deliver(OverflowDelivery(handler, e.mask));
      case Plain => ProcessDefault(e, handler, None, None);
      case Nameless => raised := true;
    }

    /** One turn of the loop of `process_events`. */
    method ProcessOne()
      requires Valid() && eventq != []
      modifies Footprint()
      ensures Valid() && fresh(wm.Watches() - old(wm.Watches()))
      ensures Snapshot() == Step(old(Snapshot()))
    {
      hide Dispatch;
      ghost var s := Snapshot();
      var e := eventq[0];
      eventq := eventq[1..];
      assert Snapshot() == s.(m := s.m.(eventq := s.m.eventq[1..]));
      if wm.ignore {
        return;
      }
      if e.wd !in wm.wmd && !HasOverflow(e.mask) {
        return;
      }
      if e.wd in wm.wmd {
        SysProcess(e);
      } else if KindOf(e.mask) == Overflow {
        Deliver(OverflowDelivery(None, e.mask));
      } else {
        raised := true;
      }
    }

    /** Drops the move records that are too old; which ones is up to the clock. */
    method Cleanup(cookies: set<nat>, paths: set<string>)
      modifies this`mvCookie, this`mv
      ensures mvCookie == old(mvCookie) - cookies && mv == old(mv) - paths
    {
      mvCookie := mvCookie - cookies;
      mv := mv - paths;
    }

    /** `process_events` against a file tree that does not change meanwhile: it ends, and leaves what
        handling event after event leaves. */
    method ProcessEvents(cookies: set<nat>, paths: set<string>)
      requires Valid() && Sound(Snapshot()) && !raised
      modifies Footprint()
      ensures Valid()
      ensures var t := Drained(old(Snapshot()));
              Snapshot() == if t.m.raised then t else t.(m := Finish(t.m, cookies, paths))
    {
      hide Step, Sound, Stale, Weights, Disturbances, Drained, Finish;
      while eventq != [] && !raised
        invariant Valid() && Sound(Snapshot()) && fresh(wm.Watches() - old(wm.Watches()))
        invariant Drained(Snapshot()) == Drained(old(Snapshot()))
        decreases Disturbances(Snapshot().m.eventq), |Stale(Snapshot().k, Snapshot().m.wmd)|,
                  Weights(Snapshot().k, Snapshot().m.wmd, Snapshot().m.eventq)
      {
        StepProgress(Snapshot());
        DrainedStep(Snapshot());
        ProcessOne();
      }
      DrainedDone(Snapshot());
      if !raised {
        EndOfBatch(cookies, paths);
      }
    }

    method EndOfBatch(cookies: set<nat>, paths: set<string>)
      modifies this`mvCookie, this`mv, this`eventset
      ensures Snapshot() == old(Snapshot()).(m := Finish(old(Snapshot()).m, cookies, paths))
    {
      Cleanup(cookies, paths);
      if coalesce {
        eventset := {};
      }
    }
  }

  lemma DrainedDone(s: State)
    requires Sound(s) && (s.m.eventq == [] || s.m.raised)
    ensures Drained(s) == s
  {
  }

  lemma DrainedStep(s: State)
    requires Sound(s) && s.m.eventq != [] && !s.m.raised
    ensures Sound(Step(s)) && Drained(s) == Drained(Step(s))
  {
    hide Step, Sound;
    StepProgress(s);
  }

  /** The table with the paths of `done` re-prefixed. */
  function Reprefixed(table: map<int, WatchRec>, done: set<int>, src: string, dst: string): map<int, WatchRec> {
    map w | w in table :: if w in done then table[w].(path := Reprefix(table[w].path, src, dst)) else table[w]
  }

  lemma ReprefixedNone(table: map<int, WatchRec>, src: string, dst: string)
    ensures Reprefixed(table, {}, src, dst) == table
  {
  }

  lemma ReprefixedStep(table: map<int, WatchRec>, done: set<int>, wd: int, src: string, dst: string)
    requires wd in table && wd !in done
    ensures wd in Reprefixed(table, done, src, dst)
    ensures var t := Reprefixed(table, done, src, dst);
            t[wd := t[wd].(path := Reprefix(t[wd].path, src, dst))] == Reprefixed(table, done + {wd}, src, dst)
  {
    hide Reprefix;
  }

  lemma RenamedIs(wmd: map<int, WatchRec>, wd: int, mv: map<string, string>)
    requires wd in wmd
    ensures var src := wmd[wd].path;
            var moved := wmd[wd := wmd[wd].(path := MovedSelfPath(mv, src))];
            Renamed(wmd, wd, mv) == if src in mv then Reprefixed(moved, moved.Keys, src, mv[src]) else moved
  {
    hide Reprefix;
  }

  /** One path of `AddAll`. */
  function AddUnless(s: State, path: string, mask: nat, procFun: Option<nat>, autoAdd: bool, filter: string -> bool,
                     ret: map<string, int>): (State, map<string, int>)
  {
    if filter(path) then (s, ret[path := -2])
    else
      var (s1, wd) := AddOne(s, path, mask, procFun, autoAdd, filter);
      (s1, ret[path := wd])
  }

  lemma AddAllHead(s: State, paths: seq<string>, i: nat, mask: nat, procFun: Option<nat>, autoAdd: bool,
                   filter: string -> bool, ret: map<string, int>)
    requires i < |paths|
    ensures var next := AddUnless(s, paths[i], mask, procFun, autoAdd, filter, ret);
            AddAll(s, paths[i..], mask, procFun, autoAdd, filter, ret) ==
            AddAll(next.0, paths[i + 1..], mask, procFun, autoAdd, filter, next.1)
  {
    hide AddOne;
    assert paths[i..][0] == paths[i] && paths[i..][1..] == paths[i + 1..];
  }

  lemma AddAllNone(s: State, mask: nat, procFun: Option<nat>, autoAdd: bool, filter: string -> bool, ret: map<string, int>)
    ensures AddAll(s, [], mask, procFun, autoAdd, filter, ret) == (s, ret)
  {
  }

  /** `AddAll` looks at the kernel and the table only, and changes nothing else. */
  lemma {:induction false} AddAllFrame(s: State, paths: seq<string>, mask: nat, procFun: Option<nat>,
                                       autoAdd: bool, filter: string -> bool, ret: map<string, int>)
    ensures var (t, r) := AddAll(s, paths, mask, procFun, autoAdd, filter, ret);
            var (u, q) := AddAll(State(s.k, BLANK.(wmd := s.m.wmd)), paths, mask, procFun, autoAdd, filter, ret);
            r == q && t.k == u.k && t.m == s.m.(wmd := u.m.wmd) && u.m == BLANK.(wmd := u.m.wmd)
    decreases |paths|
  {
    hide AddOne;
    if paths != [] {
      if filter(paths[0]) {
        AddAllFrame(s, paths[1..], mask, procFun, autoAdd, filter, ret[paths[0] := -2]);
      } else {
        var (s1, wd) := AddOne(s, paths[0], mask, procFun, autoAdd, filter);
        AddOneFrame(s, paths[0], mask, procFun, autoAdd, filter);
        AddAllFrame(s1, paths[1..], mask, procFun, autoAdd, filter, ret[paths[0] := wd]);
      }
    }
  }

  lemma AddOneFrame(s: State, path: string, mask: nat, procFun: Option<nat>, autoAdd: bool, filter: string -> bool)
    ensures var (t, wd) := AddOne(s, path, mask, procFun, autoAdd, filter);
            t.m == s.m.(wmd := t.m.wmd) &&
            AddOne(State(s.k, BLANK.(wmd := s.m.wmd)), path, mask, procFun, autoAdd, filter)
            == (State(t.k, BLANK.(wmd := t.m.wmd)), wd)
  {
  }

  lemma SimulatedHead(q: seq<RawEvent>, k: Kernel, wmd: map<int, WatchRec>, d: string, wd: int, entries: seq<Entry>, i: nat)
    requires i < |entries|
    ensures q + Simulated(k, wmd, d, wd, entries[i..]) ==
            (q + SimulatedFor(k, wmd, d, wd, entries[i].name)) + Simulated(k, wmd, d, wd, entries[i + 1..])
  {
    assert entries[i..][0] == entries[i] && entries[i..][1..] == entries[i + 1..];
    var p, r := SimulatedFor(k, wmd, d, wd, entries[i].name), Simulated(k, wmd, d, wd, entries[i + 1..]);
    assert q + (p + r) == (q + p) + r;
  }

  lemma {:induction false} EnqueueAllSnoc(m: Manager, es: seq<RawEvent>, e: RawEvent)
    ensures EnqueueAll(m, es + [e]) == Enqueue(EnqueueAll(m, es), e)
    decreases |es|
  {
    if es == [] {
      assert [] + [e] == [e] && [e][1..] == [];
    } else {
      assert (es + [e])[1..] == es[1..] + [e];
      EnqueueAllSnoc(Enqueue(m, es[0]), es[1..], e);
    }
  }

  lemma EnqueueNone(m: Manager)
    ensures EnqueueAll(m, []) == m
  {
  }

  /** The first `i` bytes of the buffer hold the events `got`. */
  ghost predicate ReadSoFar(bs: seq<Byte>, i: nat, got: seq<RawEvent>)
    requires i <= |bs|
  {
    Decode(bs) == (got + Decode(bs[i..]).0, Decode(bs[i..]).1)
  }

  lemma NoneRead(bs: seq<Byte>)
    ensures ReadSoFar(bs, 0, [])
  {
    hide Decode;
    assert bs[0..] == bs && [] + Decode(bs).0 == Decode(bs).0;
  }

  lemma AllRead(bs: seq<Byte>, got: seq<RawEvent>)
    requires ReadSoFar(bs, |bs|, got)
    ensures Decode(bs) == (got, true)
  {
    assert bs[|bs|..] == [] && got + [] == got;
  }

  /** One turn of the read loop. */
  lemma HeadRead(bs: seq<Byte>, i: nat, got: seq<RawEvent>)
    requires i < |bs| && ReadSoFar(bs, i, got)
    ensures var size := RecordSize(bs[i..]);
            if size.None? then Decode(bs) == (got, false)
            else i + size.value <= |bs| && ReadSoFar(bs, i + size.value, got + [HeadEvent(bs[i..])])
  {
    hide HeadEvent;
    var size := RecordSize(bs[i..]);
    if size.None? {
      assert got + [] == got;
    } else {
      var rest := bs[i..][size.value..];
      assert rest == bs[i + size.value..];
      assert got + ([HeadEvent(bs[i..])] + Decode(rest).0) == (got + [HeadEvent(bs[i..])]) + Decode(rest).0;
    }
  }

  lemma Member(s: set<int>)
    requires s != {}
    ensures exists x :: x in s
  {
    assert (forall x :: x !in s) ==> s == {};
  }
}
