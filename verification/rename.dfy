/** Rename tracking: the paths stored in the watches follow the file system. */
module RenameTracking {
  import opened Options
  import opened Paths
  import opened Inotify
  import opened Drain

  // ---- the file system as parent pointers -----------------------------------------------------

  const ROOT: nat := 0

  datatype Link = Link(parent: nat, name: string)

  type Links = map<nat, Link>

  /** `cs` names the way from the root to inode `ino`. */
  predicate IsPath(fs: Links, ino: nat, cs: seq<string>)
    decreases |cs|
  {
    if cs == [] then ino == ROOT
    else ino in fs && fs[ino].name == cs[|cs| - 1] && IsPath(fs, fs[ino].parent, cs[..|cs| - 1])
  }

  ghost predicate GoodLinks(fs: Links) {
    && ROOT !in fs
    && (forall i :: i in fs ==> ProperName(fs[i].name))
    && (forall i, j :: i in fs && j in fs && fs[i] == fs[j] ==> i == j)
  }

  lemma {:induction false} PathUnique(fs: Links, ino: nat, a: seq<string>, b: seq<string>)
    requires GoodLinks(fs) && IsPath(fs, ino, a) && IsPath(fs, ino, b)
    ensures a == b
    decreases |a|
  {
    if a != [] && b != [] {
      PathUnique(fs, fs[ino].parent, a[..|a| - 1], b[..|b| - 1]);
      assert a == a[..|a| - 1] + [a[|a| - 1]] && b == b[..|b| - 1] + [b[|b| - 1]];
    }
  }

  lemma {:induction false} InodeUnique(fs: Links, i: nat, j: nat, cs: seq<string>)
    requires GoodLinks(fs) && IsPath(fs, i, cs) && IsPath(fs, j, cs)
    ensures i == j
    decreases |cs|
  {
    if cs != [] { InodeUnique(fs, fs[i].parent, fs[j].parent, cs[..|cs| - 1]); }
  }

  lemma {:induction false} PathProper(fs: Links, ino: nat, cs: seq<string>)
    requires GoodLinks(fs) && IsPath(fs, ino, cs)
    ensures Proper(cs)
    decreases |cs|
  {
    if cs != [] {
      PathProper(fs, fs[ino].parent, cs[..|cs| - 1]);
      assert forall i :: 0 <= i < |cs| ==> cs[i] == if i < |cs| - 1 then cs[..|cs| - 1][i] else fs[ino].name;
    }
  }

  // ---- renames --------------------------------------------------------------------------------

  /** An atomic rename of `ino` to `name` in directory `parent`; `src` and `into` are the paths of `ino`
      and `parent` at that time. */
  datatype Rename = Rename(ino: nat, src: seq<string>, parent: nat, into: seq<string>, name: string,
                           cookie: nat, isDir: bool)
  {
    function Dst(): seq<string> { into + [name] }

    /** The target does not exist and does not lie under the source. */
    ghost predicate Valid(fs: Links) {
      && GoodLinks(fs) && ino in fs && IsPath(fs, ino, src) && IsPath(fs, parent, into) && ProperName(name)
      && (forall i :: i in fs ==> fs[i] != Link(parent, name))
      && !(src <= into)
    }

    function Apply(fs: Links): Links { fs[ino := Link(parent, name)] }
  }

  /** Where the rename of `src` to `dst` takes the path `p`. */
  function Moved(p: seq<string>, src: seq<string>, dst: seq<string>): seq<string> {
    if src <= p then dst + p[|src|..] else p
  }

  /** A directory whose path does not lead through the renamed inode keeps it. */
  lemma {:induction false} PathKept(fs: Links, r: Rename, x: nat, p: seq<string>)
    requires r.Valid(fs) && IsPath(fs, x, p) && !(r.src <= p)
    ensures IsPath(r.Apply(fs), x, p)
    decreases |p|
  {
    if p != [] {
      var q := p[..|p| - 1];
      if x == r.ino { PathUnique(fs, x, p, r.src); }
      assert r.src <= q ==> r.src <= p;
      PathKept(fs, r, fs[x].parent, q);
    }
  }

  /** Redirecting one parent pointer re-prefixes exactly the paths at and below the renamed inode. */
  lemma {:induction false} PathMoved(fs: Links, r: Rename, x: nat, p: seq<string>)
    requires r.Valid(fs) && IsPath(fs, x, p)
    ensures IsPath(r.Apply(fs), x, Moved(p, r.src, r.Dst()))
    decreases |p|
  {
    if !(r.src <= p) {
      PathKept(fs, r, x, p);
    } else if p == r.src {
      InodeUnique(fs, x, r.ino, p);
      PathKept(fs, r, r.parent, r.into);
      assert Moved(p, r.src, r.Dst()) == r.Dst();
      assert r.Dst()[..|r.Dst()| - 1] == r.into;
    } else {
      var q := p[..|p| - 1];
      if x == r.ino { PathUnique(fs, x, p, r.src); }
      assert r.src <= q;
      PathMoved(fs, r, fs[x].parent, q);
      var m := Moved(p, r.src, r.Dst());
      assert m == Moved(q, r.src, r.Dst()) + [p[|p| - 1]];
      assert m[..|m| - 1] == Moved(q, r.src, r.Dst());
    }
  }

  lemma ApplyGood(fs: Links, r: Rename)
    requires r.Valid(fs)
    ensures GoodLinks(r.Apply(fs))
  {
  }

  // ---- watches and the events of a rename -----------------------------------------------------

  /** Every watch stores the path of the inode it watches; an inode is watched at most once. */
  ghost predicate Tracks(fs: Links, inos: map<int, nat>, wmd: map<int, WatchRec>) {
    && GoodLinks(fs) && wmd.Keys == inos.Keys
    && (forall wd :: wd in wmd ==> NormalPath(wmd[wd].path) && IsPath(fs, inos[wd], Comps(wmd[wd].path)))
    && (forall v, w :: v in inos && w in inos && inos[v] == inos[w] ==> v == w)
  }

  function WithDir(mask: nat, isDir: bool): nat { if isDir then mask + IN_ISDIR else mask }

  /** The watches a rename is reported on: of the old parent, of the new parent, and of the inode itself. */
  datatype Sites = Sites(from: int, to: int, self: Option<int>)

  ghost predicate SitesOf(fs: Links, inos: map<int, nat>, r: Rename, w: Sites) {
    && r.ino in fs
    && w.from in inos && inos[w.from] == fs[r.ino].parent
    && w.to in inos && inos[w.to] == r.parent
    && (if w.self.Some? then w.self.value in inos && inos[w.self.value] == r.ino
        else forall v :: v in inos ==> inos[v] != r.ino)
  }

  function EventsOf(fs: Links, r: Rename, w: Sites): seq<RawEvent>
    requires r.ino in fs
  {
    [RawEvent(w.from, WithDir(IN_MOVED_FROM, r.isDir), r.cookie, fs[r.ino].name),
     RawEvent(w.to, WithDir(IN_MOVED_TO, r.isDir), r.cookie, r.name)] +
    if w.self.Some? then [RawEvent(w.self.value, IN_MOVE_SELF, 0, "")] else []
  }

  /** `n` turns of the loop of `process_events`. */
  function Steps(s: State, n: nat): State
    decreases n
  {
    if n == 0 || s.m.eventq == [] || s.m.raised then s else Steps(Step(s), n - 1)
  }

  ghost predicate Running(s: State) { !s.m.ignore && !s.m.raised }

  lemma RenameKinds(isDir: bool)
    ensures KindOf(WithDir(IN_MOVED_FROM, isDir)) == MovedFrom
    ensures KindOf(WithDir(IN_MOVED_TO, isDir)) == MovedTo
    ensures KindOf(IN_MOVE_SELF) == MoveSelf
  {
  }

  lemma HandleFrom(s: State, e: RawEvent, p: string)
    requires Running(s) && e.wd in s.m.wmd && KindOf(e.mask) == MovedFrom && EventPath(s, e) == p
    ensures Handle(s, e) ==
            State(s.k, s.m.(mvCookie := s.m.mvCookie[e.cookie := p],
                            log := s.m.log + [Default(s, e, s.m.wmd[e.wd].procFun, Some(e.cookie), None)]))
  {
    assert Handle(s, e) == Dispatch(s, e);
  }

  lemma HandleTo(s: State, e: RawEvent, p: string)
    requires Running(s) && e.wd in s.m.wmd && KindOf(e.mask) == MovedTo && EventPath(s, e) == p
    requires e.cookie in s.m.mvCookie
    ensures var src := s.m.mvCookie[e.cookie];
            Handle(s, e) ==
            State(s.k, s.m.(mv := s.m.mv[src := p],
                            log := s.m.log + [Default(s, e, s.m.wmd[e.wd].procFun, Some(e.cookie), Some(src))]))
  {
    assert Handle(s, e) == Dispatch(s, e);
  }

  lemma HandleSelf(s: State, e: RawEvent)
    requires Running(s) && e.wd in s.m.wmd && KindOf(e.mask) == MoveSelf
    ensures var u := s.(m := s.m.(wmd := Renamed(s.m.wmd, e.wd, s.m.mv)));
            Handle(s, e) == Deliver(u, Default(u, e, s.m.wmd[e.wd].procFun, None, None))
  {
    assert Handle(s, e) == Dispatch(s, e);
  }

  /** The path the manager computes for an entry of a watched directory is the true one. */
  lemma EntryPath(s: State, fs: Links, inos: map<int, nat>, e: RawEvent, into: seq<string>)
    requires Tracks(fs, inos, s.m.wmd) && e.wd in inos && IsPath(fs, inos[e.wd], into) && ProperName(e.name)
    ensures e.wd in s.m.wmd && EventPath(s, e) == Render(into + [e.name])
  {
    var p := s.m.wmd[e.wd].path;
    PathUnique(fs, inos[e.wd], Comps(p), into);
    NormalJoin([], p, e.name);
  }

  lemma StepsOne(s: State, n: nat, e: RawEvent, rest: seq<RawEvent>)
    requires Running(s) && s.m.eventq == [e] + rest && n > 0
    ensures Steps(s, n) == Steps(Handle(s.(m := s.m.(eventq := rest)), e), n - 1)
  {
    assert s.m.eventq[1..] == rest;
  }

  /** After both halves of a move the manager has recorded where the true old path went, and the event
      delivered for the second half names the true old and new path. */
  lemma PairRecorded(s: State, fs: Links, inos: map<int, nat>, r: Rename, w: Sites, rest: seq<RawEvent>, n: nat)
    returns (u: State)
    requires Running(s) && Tracks(fs, inos, s.m.wmd) && r.Valid(fs) && SitesOf(fs, inos, r, w)
    requires s.m.eventq == EventsOf(fs, r, w)[..2] + rest && n >= 2
    ensures Steps(s, n) == Steps(u, n - 2)
    ensures Running(u) && u.k == s.k && u.m.wmd == s.m.wmd && u.m.eventq == rest
    ensures u.m.mv == s.m.mv[Render(r.src) := Render(r.Dst())]
    ensures |u.m.log| == |s.m.log| + 2 &&
            var d := u.m.log[|s.m.log| + 1];
            d.Delivery? && d.src == Some(Render(r.src)) && NormPath(Join(d.path, d.name)) == Render(r.Dst())
  {
    hide Steps, Handle, Render, NormPath, Join, Tracks, Rename.Valid, KindOf, WithDir;
    var es := EventsOf(fs, r, w);
    assert s.m.eventq == [es[0]] + ([es[1]] + rest);
    var s1 := FromRecorded(s, fs, inos, r, w, [es[1]] + rest, n);
    u := ToRecorded(s1, fs, inos, r, w, rest, n - 1);
  }

  /** The first half. */
  lemma FromRecorded(s: State, fs: Links, inos: map<int, nat>, r: Rename, w: Sites, rest: seq<RawEvent>, n: nat)
    returns (u: State)
    requires Running(s) && Tracks(fs, inos, s.m.wmd) && r.Valid(fs) && SitesOf(fs, inos, r, w)
    requires s.m.eventq == [EventsOf(fs, r, w)[0]] + rest && n > 0
    ensures Steps(s, n) == Steps(u, n - 1)
    ensures Running(u) && u.k == s.k && u.m.wmd == s.m.wmd && u.m.eventq == rest && u.m.mv == s.m.mv
    ensures |u.m.log| == |s.m.log| + 1
    ensures r.cookie in u.m.mvCookie && u.m.mvCookie[r.cookie] == Render(r.src)
  {
    hide Steps, Handle, Render, NormPath, Join, Tracks, KindOf, WithDir, Default, EventPath;
    var e := EventsOf(fs, r, w)[0];
    RenameKinds(r.isDir);
    PathProper(fs, r.ino, r.src);
    assert r.src == r.src[..|r.src| - 1] + [fs[r.ino].name];
    StepsOne(s, n, e, rest);
    var s0 := s.(m := s.m.(eventq := rest));
    EntryPath(s0, fs, inos, e, r.src[..|r.src| - 1]);
    HandleFrom(s0, e, Render(r.src));
    u := Handle(s0, e);
  }

  /** The second half. */
  lemma ToRecorded(s: State, fs: Links, inos: map<int, nat>, r: Rename, w: Sites, rest: seq<RawEvent>, n: nat)
    returns (u: State)
    requires Running(s) && Tracks(fs, inos, s.m.wmd) && r.Valid(fs) && SitesOf(fs, inos, r, w)
    requires s.m.eventq == [EventsOf(fs, r, w)[1]] + rest && n > 0
    requires r.cookie in s.m.mvCookie && s.m.mvCookie[r.cookie] == Render(r.src)
    ensures Steps(s, n) == Steps(u, n - 1)
    ensures Running(u) && u.k == s.k && u.m.wmd == s.m.wmd && u.m.eventq == rest
    ensures u.m.mv == s.m.mv[Render(r.src) := Render(r.Dst())]
    ensures |u.m.log| == |s.m.log| + 1 &&
            var d := u.m.log[|s.m.log|];
            d.Delivery? && d.src == Some(Render(r.src)) && NormPath(Join(d.path, d.name)) == Render(r.Dst())
  {
    hide Steps, Handle, Render, NormPath, Join, Tracks, KindOf, WithDir;
    var e := EventsOf(fs, r, w)[1];
    RenameKinds(r.isDir);
    StepsOne(s, n, e, rest);
    var s0 := s.(m := s.m.(eventq := rest));
    EntryPath(s0, fs, inos, e, r.into);
    HandleTo(s0, e, Render(r.Dst()));
    u := Handle(s0, e);
  }

  // ---- one rename -----------------------------------------------------------------------------

  lemma ReprefixMoved(p: seq<string>, src: seq<string>, dst: seq<string>)
    requires Proper(p) && Proper(src) && Proper(dst) && src != [] && dst != [] && p != src
    ensures Reprefix(Render(p), Render(src), Render(dst)) == Render(Moved(p, src, dst))
  {
    StartsWithIsStrictlyUnder(src, p);
    if src < p { ReprefixRender(src, dst, p); }
  }

  lemma MovedProper(p: seq<string>, src: seq<string>, dst: seq<string>)
    requires Proper(p) && Proper(dst)
    ensures Proper(Moved(p, src, dst))
  {
  }

  lemma DstProper(fs: Links, r: Rename)
    requires r.Valid(fs)
    ensures Proper(r.src) && Proper(r.Dst()) && r.src != [] && !(r.src <= r.Dst())
    ensures r.src != r.Dst()
  {
    PathProper(fs, r.ino, r.src);
    PathProper(fs, r.parent, r.into);
    if r.src == r.Dst() {
      assert r.src[..|r.src| - 1] == r.into;
      InodeUnique(fs, fs[r.ino].parent, r.parent, r.into);
    }
    assert r.src <= r.Dst() ==> r.src <= r.into || r.src == r.Dst();
  }

  lemma RenamedPath(wmd: map<int, WatchRec>, mv: map<string, string>, self: int, v: int)
    requires self in wmd && v in wmd && wmd[self].path in mv
    ensures var src := wmd[self].path;
            Renamed(wmd, self, mv)[v].path == Reprefix(if v == self then mv[src] else wmd[v].path, src, mv[src])
  {
    hide Reprefix;
  }

  lemma WatchMoved(wmd: map<int, WatchRec>, mv: map<string, string>, fs: Links, inos: map<int, nat>, r: Rename, self: int, v: int)
    requires Tracks(fs, inos, wmd) && r.Valid(fs) && self in inos && inos[self] == r.ino && v in wmd
    requires Render(r.src) in mv && mv[Render(r.src)] == Render(r.Dst())
    ensures Renamed(wmd, self, mv)[v].path == Render(Moved(Comps(wmd[v].path), r.src, r.Dst()))
  {
    DstProper(fs, r);
    PathUnique(fs, r.ino, Comps(wmd[self].path), r.src);
    RenamedPath(wmd, mv, self, v);
    hide Renamed, Reprefix, Render, Comps, Rename.Valid;
    var p := Comps(wmd[v].path);
    if v == self {
      assert Moved(p, r.src, r.Dst()) == r.Dst();
      StartsWithIsStrictlyUnder(r.src, r.Dst());
    } else {
      if p == r.src { InodeUnique(fs, inos[v], r.ino, p); }
      ReprefixMoved(p, r.src, r.Dst());
    }
  }

  /** The loop of `process_IN_MOVE_SELF` rewrites every stored path to the true one. */
  lemma RenamedTracks(wmd: map<int, WatchRec>, mv: map<string, string>, fs: Links, inos: map<int, nat>, r: Rename, self: int)
    requires Tracks(fs, inos, wmd) && r.Valid(fs) && self in inos && inos[self] == r.ino
    requires Render(r.src) in mv && mv[Render(r.src)] == Render(r.Dst())
    ensures Tracks(r.Apply(fs), inos, Renamed(wmd, self, mv))
  {
    DstProper(fs, r);
    ApplyGood(fs, r);
    PathUnique(fs, r.ino, Comps(wmd[self].path), r.src);
    assert Renamed(wmd, self, mv).Keys == wmd.Keys;
    hide Renamed, IsPath, Render, Comps, Moved, Rename.Valid, Rename.Apply;
    var t := Renamed(wmd, self, mv);
    forall v | v in wmd
      ensures NormalPath(t[v].path) && IsPath(r.Apply(fs), inos[v], Comps(t[v].path))
    {
      var p := Comps(wmd[v].path);
      PathMoved(fs, r, inos[v], p);
      MovedProper(p, r.src, r.Dst());
      NormalRender([], Moved(p, r.src, r.Dst()));
      WatchMoved(wmd, mv, fs, inos, r, self, v);
    }
  }

  /** Some watched inode lies strictly below the renamed one. */
  ghost predicate WatchedBelow(fs: Links, inos: map<int, nat>, r: Rename) {
    exists v, cs :: v in inos && IsPath(fs, inos[v], cs) && r.src < cs
  }

  /** Without IN_MOVE_SELF the stored paths stay as they are, and that is right only if none is below. */
  lemma UnmovedTracks(wmd: map<int, WatchRec>, fs: Links, inos: map<int, nat>, r: Rename)
    requires Tracks(fs, inos, wmd) && r.Valid(fs) && forall v :: v in inos ==> inos[v] != r.ino
    ensures Tracks(r.Apply(fs), inos, wmd) <==> !WatchedBelow(fs, inos, r)
  {
    DstProper(fs, r);
    ApplyGood(fs, r);
    forall v | v in wmd
      ensures IsPath(r.Apply(fs), inos[v], Comps(wmd[v].path)) <==> !(r.src < Comps(wmd[v].path))
    {
      var p := Comps(wmd[v].path);
      PathMoved(fs, r, inos[v], p);
      if p == r.src { InodeUnique(fs, inos[v], r.ino, p); }
      if r.src < p {
        MovedElsewhere(p, r.src, r.Dst());
        if IsPath(r.Apply(fs), inos[v], p) {
          PathUnique(r.Apply(fs), inos[v], p, Moved(p, r.src, r.Dst()));
        }
      }
    }
    if v, cs :| v in inos && IsPath(fs, inos[v], cs) && r.src < cs {
      PathUnique(fs, inos[v], cs, Comps(wmd[v].path));
    }
  }

  lemma MovedElsewhere(p: seq<string>, src: seq<string>, dst: seq<string>)
    requires src <= p
    ensures Moved(p, src, dst) == p ==> dst == src
  {
    var m := Moved(p, src, dst);
    assert m[..|dst|] == dst;
    assert |m| - |dst| == |p| - |src|;
  }

  /** The third event, of the renamed inode itself. */
  lemma SelfHandled(s: State, fs: Links, inos: map<int, nat>, r: Rename, self: int, more: seq<RawEvent>)
    requires Running(s) && Tracks(fs, inos, s.m.wmd) && r.Valid(fs) && self in inos && inos[self] == r.ino
    requires Render(r.src) in s.m.mv && s.m.mv[Render(r.src)] == Render(r.Dst())
    requires s.m.eventq == [RawEvent(self, IN_MOVE_SELF, 0, "")] + more
    ensures var t := Steps(s, 1);
            Running(t) && t.k == s.k && t.m.eventq == more && Tracks(r.Apply(fs), inos, t.m.wmd)
  {
    var e := RawEvent(self, IN_MOVE_SELF, 0, "");
    RenameKinds(r.isDir);
    StepsOne(s, 1, e, more);
    hide Handle, Render, Renamed, Default, KindOf, Rename.Valid, Rename.Apply;
    var s0 := s.(m := s.m.(eventq := more));
    HandleSelf(s0, e);
    StepsNone(Handle(s0, e));
    hide Steps, Tracks;
    RenamedTracks(s.m.wmd, s.m.mv, fs, inos, r, self);
  }

  lemma StepsNone(s: State)
    ensures Steps(s, 0) == s
  {
  }

  lemma EventsSplit(fs: Links, r: Rename, w: Sites, more: seq<RawEvent>)
    requires r.ino in fs
    ensures var es := EventsOf(fs, r, w);
            && |es| == (if w.self.Some? then 3 else 2)
            && es + more == es[..2] + (if w.self.Some? then [RawEvent(w.self.value, IN_MOVE_SELF, 0, "")] + more else more)
  {
  }

  /** Handling the events of one rename keeps every stored path true exactly when the renamed inode is
      itself watched or has no watch below it. */
  lemma RenameIsTracked(s: State, fs: Links, inos: map<int, nat>, r: Rename, w: Sites, more: seq<RawEvent>)
    requires Running(s) && Tracks(fs, inos, s.m.wmd) && r.Valid(fs) && SitesOf(fs, inos, r, w)
    requires s.m.eventq == EventsOf(fs, r, w) + more
    ensures var t := Steps(s, |EventsOf(fs, r, w)|);
            && Running(t) && t.k == s.k && t.m.eventq == more
            && (Tracks(r.Apply(fs), inos, t.m.wmd) <==> w.self.Some? || !WatchedBelow(fs, inos, r))
  {
    hide Steps, Tracks, Render, WatchedBelow, Rename.Apply, EventsOf;
    EventsSplit(fs, r, w, more);
    var rest := if w.self.Some? then [RawEvent(w.self.value, IN_MOVE_SELF, 0, "")] + more else more;
    var u := PairRecorded(s, fs, inos, r, w, rest, |EventsOf(fs, r, w)|);
    if w.self.Some? {
      SelfHandled(u, fs, inos, r, w.self.value, more);
    } else {
      StepsNone(u);
      UnmovedTracks(s.m.wmd, fs, inos, r);
    }
  }

  // ---- a rename that is missed ----------------------------------------------------------------

  /** The root is watched, and so is /a/b, but not /a. */
  function SampleLinks(): Links { map[1 := Link(ROOT, "a"), 2 := Link(1, "b")] }

  function SampleWatches(filter: string -> bool): map<int, WatchRec> {
    map[1 := WatchRec(1, "/", ALL_EVENTS, None, true, filter, true),
        2 := WatchRec(2, "/a/b", ALL_EVENTS, None, true, filter, true)]
  }

  const SampleInodes: map<int, nat> := map[1 := ROOT, 2 := 2]

  /** A watch with this mask is told of moves from and to its directory. */
  predicate AsksForMoves(mask: nat) { mask / IN_MOVED_FROM % 2 == 1 && mask / IN_MOVED_TO % 2 == 1 }

  /** /a becomes /c. */
  const SampleRename := Rename(1, ["a"], ROOT, [], "c", 7, true)

  const SampleSites := Sites(1, 1, None)

  lemma SamplePaths()
    ensures Proper(["a"]) && Proper(["a", "b"]) && Proper(["c", "b"]) && ProperName("c")
    ensures Render(["a", "b"]) == "/a/b" && ["c"] == [] + ["c"]
    ensures NormalPath("/") && Comps("/") == [] && NormalPath("/a/b") && Comps("/a/b") == ["a", "b"]
  {
    assert Slashed(["a", "b"]) == "/a/b" by {
      assert ["a", "b"][1..] == ["b"] && ["b"][1..] == [];
      assert Slashed(["b"]) == "/b";
    }
    NormalRender([], []);
    NormalRender([], ["a", "b"]);
  }

  lemma SampleTracks(filter: string -> bool)
    ensures Tracks(SampleLinks(), SampleInodes, SampleWatches(filter)) && SampleRename.Valid(SampleLinks())
    ensures SitesOf(SampleLinks(), SampleInodes, SampleRename, SampleSites)
    ensures WatchedBelow(SampleLinks(), SampleInodes, SampleRename)
  {
    SamplePaths();
    hide Render, Comps;
    var fs := SampleLinks();
    assert ["a", "b"][..1] == ["a"] && ["a"][..0] == [];
    assert IsPath(fs, 1, ["a"]) && IsPath(fs, 2, ["a", "b"]);
    assert 2 in SampleInodes && SampleInodes[2] == 2 && SampleRename.src < ["a", "b"];
  }

  /** Renaming an unwatched directory that has a watch below it: the watch goes on naming /a/b while its
      inode is at /c/b. */
  lemma UnwatchedRenameIsMissed(s: State, filter: string -> bool)
    requires Running(s) && s.m.wmd == SampleWatches(filter)
    requires s.m.eventq == EventsOf(SampleLinks(), SampleRename, SampleSites)
    ensures var t := Steps(s, 2);
            && AsksForMoves(s.m.wmd[1].mask) && AsksForMoves(s.m.wmd[2].mask)
            && t.m.eventq == [] && 2 in t.m.wmd && t.m.wmd[2].path == "/a/b"
            && IsPath(SampleRename.Apply(SampleLinks()), 2, ["c", "b"])
            && !Tracks(SampleRename.Apply(SampleLinks()), SampleInodes, t.m.wmd)
  {
    hide Steps, Tracks, SitesOf, IsPath, WatchedBelow;
    var fs, es := SampleLinks(), EventsOf(SampleLinks(), SampleRename, SampleSites);
    SampleTracks(filter);
    assert es == es[..2] + [] && es + [] == es;
    RenameIsTracked(s, fs, SampleInodes, SampleRename, SampleSites, []);
    var u := PairRecorded(s, fs, SampleInodes, SampleRename, SampleSites, [], 2);
    StepsNone(u);
    SampleMoved();
  }

  lemma SampleMoved()
    ensures IsPath(SampleRename.Apply(SampleLinks()), 2, ["c", "b"])
  {
    assert ["c", "b"][..1] == ["c"] && ["c"][..0] == [];
    assert IsPath(SampleRename.Apply(SampleLinks()), 1, ["c"]);
  }

  // ---- runs -----------------------------------------------------------------------------------

  datatype Reported = Reported(r: Rename, w: Sites)

  /** A run of renames between watched directories, each of a watched inode or of one with no watch below. */
  ghost predicate TrackableRun(fs: Links, inos: map<int, nat>, run: seq<Reported>)
    decreases |run|
  {
    run != [] ==>
    && run[0].r.Valid(fs) && SitesOf(fs, inos, run[0].r, run[0].w)
    && (run[0].w.self.Some? || !WatchedBelow(fs, inos, run[0].r))
    && TrackableRun(run[0].r.Apply(fs), inos, run[1..])
  }

  ghost function FsAfter(fs: Links, run: seq<Reported>): Links
    decreases |run|
  {
    if run == [] then fs else FsAfter(run[0].r.Apply(fs), run[1..])
  }

  ghost function EventsOfRun(fs: Links, inos: map<int, nat>, run: seq<Reported>): seq<RawEvent>
    requires TrackableRun(fs, inos, run)
    decreases |run|
  {
    if run == [] then []
    else EventsOf(fs, run[0].r, run[0].w) + EventsOfRun(run[0].r.Apply(fs), inos, run[1..])
  }

  /** However many renames the kernel reported before the manager handled any of them: once their events
      are handled, every watch stores the path its inode has in the resulting file system. */
  lemma {:induction false} RunIsTracked(s: State, fs: Links, inos: map<int, nat>, run: seq<Reported>, more: seq<RawEvent>)
    requires Running(s) && Tracks(fs, inos, s.m.wmd) && TrackableRun(fs, inos, run)
    requires s.m.eventq == EventsOfRun(fs, inos, run) + more
    ensures var t := Steps(s, |EventsOfRun(fs, inos, run)|);
            Running(t) && t.k == s.k && t.m.eventq == more && Tracks(FsAfter(fs, run), inos, t.m.wmd)
    decreases |run|
  {
    hide Step, Tracks, SitesOf, WatchedBelow, EventsOf, Rename.Apply;
    if run == [] {
      assert s.m.eventq == more;
    } else {
      var es := EventsOf(fs, run[0].r, run[0].w);
      var rest := EventsOfRun(run[0].r.Apply(fs), inos, run[1..]);
      assert EventsOfRun(fs, inos, run) == es + rest;
      assert s.m.eventq == es + (rest + more);
      RenameIsTracked(s, fs, inos, run[0].r, run[0].w, rest + more);
      var u := Steps(s, |es|);
      assert u.m.eventq == rest + more && Running(u) && Tracks(run[0].r.Apply(fs), inos, u.m.wmd);
      RunIsTracked(u, run[0].r.Apply(fs), inos, run[1..], more);
      StepsSplit(s, |es|, |rest|);
    }
  }

  // ---- the kernel's tree ----------------------------------------------------------------------

  /** The links are those of a tree. */
  ghost predicate Mirrors(fs: Links, root: Node) {
    forall ino, cs :: IsPath(fs, ino, cs) <==> Lookup(root, cs).Some? && Lookup(root, cs).value.ino == ino
  }

  /** The inodes are those the kernel watches under these descriptors. */
  ghost predicate Watched(inos: map<int, nat>, k: Kernel) {
    forall wd :: wd in inos ==> inos[wd] in k.live && k.live[inos[wd]] == wd
  }

  /** What a watch stores leads the kernel to the inode of its descriptor. */
  lemma TracksIsUpToDate(k: Kernel, fs: Links, inos: map<int, nat>, wmd: map<int, WatchRec>)
    requires Mirrors(fs, k.root) && Watched(inos, k) && Tracks(fs, inos, wmd)
    ensures forall wd :: wd in wmd ==> UpToDate(k, wmd, wd) && NodeAt(k, wmd[wd].path).value.ino == inos[wd]
  {
    hide IsPath, Lookup, Comps, Render, Resolve;
    forall wd | wd in wmd ensures UpToDate(k, wmd, wd) && NodeAt(k, wmd[wd].path).value.ino == inos[wd] {
      NormalRender(k.cwd, Comps(wmd[wd].path));
    }
  }

  /** Once the events of the renames that made the tree what it is are handled, every stored path leads the kernel to
      the inode that the watch watches. */
  lemma RenamesLeaveWatchesUpToDate(s: State, fs: Links, inos: map<int, nat>, run: seq<Reported>, more: seq<RawEvent>)
    requires Running(s) && Tracks(fs, inos, s.m.wmd) && TrackableRun(fs, inos, run) && Watched(inos, s.k)
    requires s.m.eventq == EventsOfRun(fs, inos, run) + more && Mirrors(FsAfter(fs, run), s.k.root)
    ensures var t := Steps(s, |EventsOfRun(fs, inos, run)|);
            t.m.eventq == more && t.m.wmd.Keys == inos.Keys &&
            forall wd :: wd in t.m.wmd ==> UpToDate(t.k, t.m.wmd, wd) && NodeAt(t.k, t.m.wmd[wd].path).value.ino == inos[wd]
  {
    RunIsTracked(s, fs, inos, run, more);
    var t := Steps(s, |EventsOfRun(fs, inos, run)|);
    TracksIsUpToDate(t.k, FsAfter(fs, run), inos, t.m.wmd);
  }

  lemma {:induction false} StepsSplit(s: State, a: nat, b: nat)
    ensures Steps(s, a + b) == Steps(Steps(s, a), b)
    decreases a
  {
    hide Step;
    if a > 0 && s.m.eventq != [] && !s.m.raised { StepsSplit(Step(s), a - 1, b); }
  }
}
