/** Automatic watching of new directory trees: completeness and exactly-once delivery. */
module AutoAdd {
  import opened Options
  import opened Paths
  import opened Inotify
  import opened Drain

  /** A creation event as the user sees it: which handler got it, about which entry of which directory. */
  datatype Note = Note(handler: Option<nat>, mask: nat, path: string, name: string)

  function NoteOf(d: Delivery): multiset<Note> {
    if d.Delivery? then multiset{Note(d.handler, d.mask, d.path, d.name)} else multiset{}
  }

  function Notes(log: seq<Delivery>): multiset<Note> {
    if log == [] then multiset{} else Notes(log[..|log| - 1]) + NoteOf(log[|log| - 1])
  }

  // ---- what a new entry must lead to, by recursion over the tree ------------------------------

  /** Every creation event due for entry `name` of directory `p` and everything that comes with it. */
  function EntryNotes(h: Option<nat>, f: string -> bool, p: string, name: string, node: Node): multiset<Note>
    decreases node, 0
  {
    match node
    case File(_) => multiset{Note(h, IN_CREATE, p, name)}
    case Other(_) => multiset{}
    case Dir(_, entries) =>
      multiset{Note(h, IN_CREATE + IN_ISDIR, p, name)} +
      if f(Join(p, name)) then multiset{} else ContentNotes(h, f, Join(p, name), entries)
  }

  function ContentNotes(h: Option<nat>, f: string -> bool, p: string, entries: seq<Entry>): multiset<Note>
    decreases entries, 1
  {
    if entries == [] then multiset{}
    else EntryNotes(h, f, p, entries[0].name, entries[0].node) + ContentNotes(h, f, p, entries[1..])
  }

  /** The directories reached through directories that the filter does not exclude. */
  function EntryDirs(f: string -> bool, p: string, name: string, node: Node): set<string>
    decreases node, 0
  {
    if node.Dir? && !f(Join(p, name)) then {Join(p, name)} + ContentDirs(f, Join(p, name), node.entries) else {}
  }

  function ContentDirs(f: string -> bool, p: string, entries: seq<Entry>): set<string>
    decreases entries, 1
  {
    if entries == [] then {}
    else EntryDirs(f, p, entries[0].name, entries[0].node) + ContentDirs(f, p, entries[1..])
  }

  // ---- pending events -------------------------------------------------------------------------

  function EntryOf(k: Kernel, wmd: map<int, WatchRec>, e: RawEvent): Option<Node> {
    if e.wd in wmd then ChildOf(NodeAt(k, wmd[e.wd].path), e.name) else None
  }

  function Place(wmd: map<int, WatchRec>, e: RawEvent): seq<string> {
    if e.wd in wmd then Comps(wmd[e.wd].path) + [e.name] else []
  }

  function EventNotes(k: Kernel, wmd: map<int, WatchRec>, h: Option<nat>, f: string -> bool, e: RawEvent): multiset<Note> {
    match EntryOf(k, wmd, e)
    case Some(n) => EntryNotes(h, f, wmd[e.wd].path, e.name, n)
    case None => multiset{}
  }

  function QueueNotes(k: Kernel, wmd: map<int, WatchRec>, h: Option<nat>, f: string -> bool, q: seq<RawEvent>): multiset<Note> {
    if q == [] then multiset{} else EventNotes(k, wmd, h, f, q[0]) + QueueNotes(k, wmd, h, f, q[1..])
  }

  function EventDirs(k: Kernel, wmd: map<int, WatchRec>, f: string -> bool, e: RawEvent): set<string> {
    match EntryOf(k, wmd, e)
    case Some(n) => EntryDirs(f, wmd[e.wd].path, e.name, n)
    case None => {}
  }

  function QueueDirs(k: Kernel, wmd: map<int, WatchRec>, f: string -> bool, q: seq<RawEvent>): set<string> {
    if q == [] then {} else EventDirs(k, wmd, f, q[0]) + QueueDirs(k, wmd, f, q[1..])
  }

  /** The attributes that an automatically added watch inherits. */
  datatype Attr = Attr(mask: nat, procFun: Option<nat>, filter: string -> bool)

  ghost predicate HasAttr(w: WatchRec, a: Attr) {
    w.mask == a.mask && w.procFun == a.procFun && w.filter == a.filter && w.autoAdd && HasCreate(w.mask)
  }

  /** A creation event for an existing file or directory, on an auto-adding watch with attributes `a`. */
  ghost predicate Fits(k: Kernel, wmd: map<int, WatchRec>, a: Attr, e: RawEvent) {
    && KindOf(e.mask) == Create && ProperName(e.name)
    && e.wd in wmd && HasAttr(wmd[e.wd], a)
    && EntryOf(k, wmd, e).Some?
    && e.mask == (if EntryOf(k, wmd, e).value.Dir? then IN_CREATE + IN_ISDIR else IN_CREATE)
    && !EntryOf(k, wmd, e).value.Other?
  }

  /** Neither the manager nor the kernel watches anything at or below `cs`. */
  ghost predicate Unwatched(k: Kernel, wmd: map<int, WatchRec>, cs: seq<string>) {
    && (forall wd :: wd in wmd ==> !(cs <= Comps(wmd[wd].path)))
    && (forall ds :: cs <= ds && Lookup(k.root, ds).Some? && Lookup(k.root, ds).value.Dir? ==>
          Lookup(k.root, ds).value.ino !in k.live)
  }

  predicate Apart(a: seq<string>, b: seq<string>) { !(a <= b) && !(b <= a) }

  ghost predicate Pending(k: Kernel, wmd: map<int, WatchRec>, a: Attr, q: seq<RawEvent>) {
    && (forall i :: 0 <= i < |q| ==> Fits(k, wmd, a, q[i]) && Unwatched(k, wmd, Place(wmd, q[i])))
    && (forall i, j :: 0 <= i < j < |q| ==> Apart(Place(wmd, q[i]), Place(wmd, q[j])))
  }

  /** From `s` to `t` watches were only added, each with the inherited attributes and on a path of its own. */
  ghost predicate Grown(a: Attr, wmd: map<int, WatchRec>, wmd': map<int, WatchRec>) {
    && (forall wd :: wd in wmd ==> wd in wmd' && wmd'[wd] == wmd[wd])
    && (forall wd :: wd in wmd' && wd !in wmd ==> wmd'[wd].wd == wd && HasAttr(wmd'[wd], a))
    && (forall wd, v :: wd in wmd' && wd !in wmd && v in wmd' && v != wd ==> wmd'[wd].path != wmd'[v].path)
  }

  function PathsOf(wmd: map<int, WatchRec>): set<string> {
    set wd | wd in wmd :: wmd[wd].path
  }

  // ---- the contents of a directory that was just watched --------------------------------------

  lemma EntryAt(k: Kernel, d: string, node: Node, i: nat)
    requires NormalPath(d) && NodeAt(k, d) == Some(node) && node.Dir? && GoodNames(node) && i < |node.entries|
    ensures var n := node.entries[i].name;
            ProperName(n) && ChildOf(NodeAt(k, d), n) == Some(node.entries[i].node) &&
            NodeAt(k, Join(d, n)) == Some(node.entries[i].node)
  {
    var n := node.entries[i].name;
    assert ProperName(n);
    ChildEntry(node.entries, i);
    NormalJoin(k.cwd, d, n);
    LookupSnoc(k.root, Comps(d), n);
  }

  lemma CreateKinds()
    ensures KindOf(IN_CREATE) == Create && KindOf(IN_CREATE + IN_ISDIR) == Create
  {
  }

  lemma SimulatedForIs(k: Kernel, wmd: map<int, WatchRec>, a: Attr, d: string, wd: int, node: Node, i: nat)
    requires NormalPath(d) && NodeAt(k, d) == Some(node) && node.Dir? && GoodNames(node) && i < |node.entries|
    requires wd in wmd && wmd[wd].path == d && HasAttr(wmd[wd], a)
    requires !PathWatched(wmd, Join(d, node.entries[i].name))
    ensures var n := node.entries[i];
            var q := SimulatedFor(k, wmd, d, wd, n.name);
            if n.node.Other? then q == []
            else
              var e := RawEvent(wd, if n.node.Dir? then IN_CREATE + IN_ISDIR else IN_CREATE, 0, n.name);
              q == [e] && Fits(k, wmd, a, e) && EntryOf(k, wmd, e) == Some(n.node)
  {
    EntryAt(k, d, node, i);
    CreateKinds();
    hide PathWatched, NodeAt, GoodNames, NormalPath, Comps, Join, KindOf;
  }

  lemma {:induction false} NotesAppend(k: Kernel, wmd: map<int, WatchRec>, h: Option<nat>, f: string -> bool,
                                       p: seq<RawEvent>, q: seq<RawEvent>)
    ensures QueueNotes(k, wmd, h, f, p + q) == QueueNotes(k, wmd, h, f, p) + QueueNotes(k, wmd, h, f, q)
  {
    if p == [] {
      assert p + q == q;
    } else {
      assert (p + q)[1..] == p[1..] + q && (p + q)[0] == p[0];
      NotesAppend(k, wmd, h, f, p[1..], q);
      var x, y, z := EventNotes(k, wmd, h, f, p[0]), QueueNotes(k, wmd, h, f, p[1..]), QueueNotes(k, wmd, h, f, q);
      assert x + (y + z) == (x + y) + z;
    }
  }

  lemma {:induction false} DirsAppend(k: Kernel, wmd: map<int, WatchRec>, f: string -> bool,
                                      p: seq<RawEvent>, q: seq<RawEvent>)
    ensures QueueDirs(k, wmd, f, p + q) == QueueDirs(k, wmd, f, p) + QueueDirs(k, wmd, f, q)
  {
    if p == [] {
      assert p + q == q;
    } else {
      assert (p + q)[1..] == p[1..] + q && (p + q)[0] == p[0];
      DirsAppend(k, wmd, f, p[1..], q);
    }
  }

  lemma QueueOne(k: Kernel, wmd: map<int, WatchRec>, h: Option<nat>, f: string -> bool, e: RawEvent)
    ensures QueueNotes(k, wmd, h, f, [e]) == EventNotes(k, wmd, h, f, e)
    ensures QueueDirs(k, wmd, f, [e]) == EventDirs(k, wmd, f, e)
  {
    assert [e][1..] == [];
  }

  ghost predicate NothingWatchedIn(wmd: map<int, WatchRec>, d: string, entries: seq<Entry>) {
    forall j :: 0 <= j < |entries| ==> !PathWatched(wmd, Join(d, entries[j].name))
  }

  /** The made-up events of an unwatched directory stand for exactly its contents. */
  lemma {:induction false} SimulatedIs(k: Kernel, wmd: map<int, WatchRec>, a: Attr, d: string, wd: int, node: Node, i: nat)
    requires NormalPath(d) && NodeAt(k, d) == Some(node) && node.Dir? && GoodNames(node) && i <= |node.entries|
    requires wd in wmd && wmd[wd].path == d && HasAttr(wmd[wd], a)
    requires NothingWatchedIn(wmd, d, node.entries)
    ensures var q := Simulated(k, wmd, d, wd, node.entries[i..]);
            && QueueNotes(k, wmd, a.procFun, a.filter, q) == ContentNotes(a.procFun, a.filter, d, node.entries[i..])
            && QueueDirs(k, wmd, a.filter, q) == ContentDirs(a.filter, d, node.entries[i..])
    decreases |node.entries| - i
  {
    var rest := node.entries[i..];
    if i < |node.entries| {
      assert rest[1..] == node.entries[i + 1..] && rest[0] == node.entries[i];
      SimulatedIs(k, wmd, a, d, wd, node, i + 1);
      SimulatedForIs(k, wmd, a, d, wd, node, i);
      var p, r := SimulatedFor(k, wmd, d, wd, rest[0].name), Simulated(k, wmd, d, wd, rest[1..]);
      NotesAppend(k, wmd, a.procFun, a.filter, p, r);
      DirsAppend(k, wmd, a.filter, p, r);
      if p != [] {
        QueueOne(k, wmd, a.procFun, a.filter, p[0]);
      }
    }
  }

  function NamesOf(entries: seq<Entry>): set<string> {
    set i | 0 <= i < |entries| :: entries[i].name
  }

  /** Events of one watch that fit, with different names, all in `names`. */
  ghost predicate Listing(k: Kernel, wmd: map<int, WatchRec>, a: Attr, wd: int, names: set<string>, q: seq<RawEvent>) {
    && (forall x :: 0 <= x < |q| ==> q[x].wd == wd && q[x].name in names && Fits(k, wmd, a, q[x]))
    && (forall x, y :: 0 <= x < y < |q| ==> q[x].name != q[y].name)
  }

  lemma ListingCons(k: Kernel, wmd: map<int, WatchRec>, a: Attr, wd: int, names: set<string>, e: RawEvent, q: seq<RawEvent>)
    requires Listing(k, wmd, a, wd, names, q) && e.name !in names && e.wd == wd && Fits(k, wmd, a, e)
    ensures Listing(k, wmd, a, wd, names + {e.name}, [e] + q)
  {
  }

  lemma NamesTail(entries: seq<Entry>)
    requires entries != []
    requires forall i, j :: 0 <= i < j < |entries| ==> entries[i].name != entries[j].name
    ensures NamesOf(entries) == NamesOf(entries[1..]) + {entries[0].name}
    ensures entries[0].name !in NamesOf(entries[1..])
  {
    assert forall x :: 0 < x < |entries| ==> entries[x] == entries[1..][x - 1];
  }

  /** ... one event per entry. */
  lemma {:induction false} SimulatedListing(k: Kernel, wmd: map<int, WatchRec>, a: Attr, d: string, wd: int, node: Node, i: nat)
    requires NormalPath(d) && NodeAt(k, d) == Some(node) && node.Dir? && GoodNames(node) && i <= |node.entries|
    requires wd in wmd && wmd[wd].path == d && HasAttr(wmd[wd], a)
    requires NothingWatchedIn(wmd, d, node.entries)
    ensures Listing(k, wmd, a, wd, NamesOf(node.entries[i..]), Simulated(k, wmd, d, wd, node.entries[i..]))
    decreases |node.entries| - i
  {
    hide Listing;
    var rest := node.entries[i..];
    if i == |node.entries| {
      ListingNone(k, wmd, a, wd);
      assert rest == [];
    } else {
      assert rest[1..] == node.entries[i + 1..] && rest[0] == node.entries[i];
      SimulatedListing(k, wmd, a, d, wd, node, i + 1);
      SimulatedForIs(k, wmd, a, d, wd, node, i);
      NamesTail(rest);
      ListingMore(k, wmd, a, wd, NamesOf(rest[1..]), rest[0].name, SimulatedFor(k, wmd, d, wd, rest[0].name),
                  Simulated(k, wmd, d, wd, rest[1..]));
    }
  }

  lemma ListingNone(k: Kernel, wmd: map<int, WatchRec>, a: Attr, wd: int)
    ensures Listing(k, wmd, a, wd, NamesOf([]), [])
  {
  }

  /** With the event of one more entry, if there is one. */
  lemma ListingMore(k: Kernel, wmd: map<int, WatchRec>, a: Attr, wd: int, names: set<string>, name: string, p: seq<RawEvent>,
                    q: seq<RawEvent>)
    requires Listing(k, wmd, a, wd, names, q) && name !in names
    requires p == [] || (|p| == 1 && p[0].wd == wd && p[0].name == name && Fits(k, wmd, a, p[0]))
    ensures Listing(k, wmd, a, wd, names + {name}, p + q)
  {
    if p == [] {
      assert p + q == q;
      hide Fits;
    } else {
      ListingCons(k, wmd, a, wd, names, p[0], q);
      assert p == [p[0]];
    }
  }

  // ---- one pop --------------------------------------------------------------------------------

  lemma {:induction false} QueueSame(k: Kernel, wmd: map<int, WatchRec>, k': Kernel, wmd': map<int, WatchRec>,
                                     h: Option<nat>, f: string -> bool, q: seq<RawEvent>)
    requires k'.root == k.root && k'.cwd == k.cwd
    requires forall i :: 0 <= i < |q| ==> q[i].wd in wmd && q[i].wd in wmd' && wmd'[q[i].wd] == wmd[q[i].wd]
    ensures QueueNotes(k', wmd', h, f, q) == QueueNotes(k, wmd, h, f, q)
    ensures QueueDirs(k', wmd', f, q) == QueueDirs(k, wmd, f, q)
  {
    if q != [] { QueueSame(k, wmd, k', wmd', h, f, q[1..]); }
  }

  /** The watch that is added for the unwatched, unfiltered directory of event `e`. */
  function NewWatch(wmd: map<int, WatchRec>, a: Attr, e: RawEvent, wd: int): WatchRec
    requires e.wd in wmd
  {
    WatchRec(wd, Join(wmd[e.wd].path, e.name), a.mask, a.procFun, true, a.filter, true)
  }

  /** `e` announces a directory that nobody watches yet and that is not excluded. */
  ghost predicate Opens(k: Kernel, wmd: map<int, WatchRec>, a: Attr, e: RawEvent) {
    && Fits(k, wmd, a, e) && Unwatched(k, wmd, Place(wmd, e))
    && EntryOf(k, wmd, e).value.Dir? && !a.filter(Join(wmd[e.wd].path, e.name))
  }

  lemma OpenedPlace(k: Kernel, wmd: map<int, WatchRec>, a: Attr, e: RawEvent)
    requires Opens(k, wmd, a, e) && NormalPath(wmd[e.wd].path)
    ensures var d := Join(wmd[e.wd].path, e.name);
            NormalPath(d) && NormPath(d) == d && Comps(d) == Place(wmd, e) && NodeAt(k, d) == EntryOf(k, wmd, e) &&
            Lookup(k.root, Comps(d)) == EntryOf(k, wmd, e)
  {
    var p := wmd[e.wd].path;
    NormalJoin(k.cwd, p, e.name);
    LookupSnoc(k.root, Comps(p), e.name);
  }

  lemma AddedFresh(s: State, a: Attr, e: RawEvent)
    requires Sound(s) && Opens(s.k, s.m.wmd, a, e)
    ensures var w := s.m.wmd[e.wd];
            var ino := EntryOf(s.k, s.m.wmd, e).value.ino;
            var wd := s.k.nextWd;
            AddOne(s, Join(w.path, e.name), w.mask, w.procFun, w.autoAdd, w.filter) ==
            (State(s.k.(live := s.k.live[ino := wd], nextWd := wd + 1),
                   s.m.(wmd := s.m.wmd[wd := NewWatch(s.m.wmd, a, e, wd)])), wd)
    ensures EntryOf(s.k, s.m.wmd, e).value.ino !in s.k.live && s.k.nextWd !in s.m.wmd
  {
    OpenedPlace(s.k, s.m.wmd, a, e);
    var ds := Comps(Join(s.m.wmd[e.wd].path, e.name));
    assert Place(s.m.wmd, e) <= ds && Lookup(s.k.root, ds).Some?;
  }

  /** The state after `e` opened its directory: the new watch and the made-up events for its contents. */
  function Opened(s: State, a: Attr, e: RawEvent): State
    requires Opens(s.k, s.m.wmd, a, e)
  {
    var node := EntryOf(s.k, s.m.wmd, e).value;
    var wd := s.k.nextWd;
    var k := s.k.(live := s.k.live[node.ino := wd], nextWd := wd + 1);
    var wmd := s.m.wmd[wd := NewWatch(s.m.wmd, a, e, wd)];
    State(k, s.m.(wmd := wmd,
                  eventq := s.m.eventq + Simulated(k, wmd, Join(s.m.wmd[e.wd].path, e.name), wd, node.entries)))
  }

  lemma CreatedOpens(s: State, a: Attr, e: RawEvent)
    requires Sound(s) && Opens(s.k, s.m.wmd, a, e)
    ensures Created(s, e) == Opened(s, a, e)
  {
    CreatedIs(s, e);
    AddedFresh(s, a, e);
    OpenedPlace(s.k, s.m.wmd, a, e);
  }

  /** Nothing in the opened directory is watched, by the manager or the kernel. */
  lemma OpenedEmpty(s: State, a: Attr, e: RawEvent)
    requires Sound(s) && Opens(s.k, s.m.wmd, a, e)
    ensures var d := Join(s.m.wmd[e.wd].path, e.name);
            NothingWatchedIn(Opened(s, a, e).m.wmd, d, EntryOf(s.k, s.m.wmd, e).value.entries)
  {
    OpenedPlace(s.k, s.m.wmd, a, e);
    var d := Join(s.m.wmd[e.wd].path, e.name);
    var node := EntryOf(s.k, s.m.wmd, e).value;
    var wmd := Opened(s, a, e).m.wmd;
    GoodBelow(s.k.root, Comps(d));
    forall j | 0 <= j < |node.entries|
      ensures !PathWatched(wmd, Join(d, node.entries[j].name))
    {
      var n := node.entries[j].name;
      assert ProperName(n);
      NormalJoin(s.k.cwd, d, n);
      assert Place(s.m.wmd, e) <= Comps(Join(d, n));
      assert Comps(d) != Comps(Join(d, n));
    }
  }

  lemma OpenedQueues(s: State, a: Attr, e: RawEvent)
    requires Sound(s) && Opens(s.k, s.m.wmd, a, e)
    requires forall i :: 0 <= i < |s.m.eventq| ==> s.m.eventq[i].wd in s.m.wmd
    ensures var t := Opened(s, a, e);
            var d, entries := Join(s.m.wmd[e.wd].path, e.name), EntryOf(s.k, s.m.wmd, e).value.entries;
            && QueueNotes(t.k, t.m.wmd, a.procFun, a.filter, t.m.eventq)
               == QueueNotes(s.k, s.m.wmd, a.procFun, a.filter, s.m.eventq) + ContentNotes(a.procFun, a.filter, d, entries)
            && QueueDirs(t.k, t.m.wmd, a.filter, t.m.eventq)
               == QueueDirs(s.k, s.m.wmd, a.filter, s.m.eventq) + ContentDirs(a.filter, d, entries)
  {
    var t := Opened(s, a, e);
    var d := Join(s.m.wmd[e.wd].path, e.name);
    var node := EntryOf(s.k, s.m.wmd, e).value;
    OpenedPlace(s.k, s.m.wmd, a, e);
    OpenedEmpty(s, a, e);
    AddedFresh(s, a, e);
    GoodBelow(s.k.root, Comps(d));
    var sim := Simulated(t.k, t.m.wmd, d, s.k.nextWd, node.entries);
    assert node.entries[0..] == node.entries;
    SimulatedIs(t.k, t.m.wmd, a, d, s.k.nextWd, node, 0);
    NotesAppend(t.k, t.m.wmd, a.procFun, a.filter, s.m.eventq, sim);
    DirsAppend(t.k, t.m.wmd, a.filter, s.m.eventq, sim);
    QueueSame(s.k, s.m.wmd, t.k, t.m.wmd, a.procFun, a.filter, s.m.eventq);
    hide QueueNotes, QueueDirs;
  }

  lemma DirectoryIsDue(s: State, a: Attr, e: RawEvent)
    requires Opens(s.k, s.m.wmd, a, e)
    ensures var w := s.m.wmd[e.wd];
            var d, entries := Join(w.path, e.name), EntryOf(s.k, s.m.wmd, e).value.entries;
            && EventNotes(s.k, s.m.wmd, a.procFun, a.filter, e)
               == multiset{Note(a.procFun, e.mask, w.path, e.name)} + ContentNotes(a.procFun, a.filter, d, entries)
            && EventDirs(s.k, s.m.wmd, a.filter, e) == {d} + ContentDirs(a.filter, d, entries)
  {
  }

  /** Opening a directory trades its own notes and watch for those of its contents. */
  lemma OpenedConserves(s: State, a: Attr, e: RawEvent)
    requires Sound(s) && Opens(s.k, s.m.wmd, a, e)
    requires forall i :: 0 <= i < |s.m.eventq| ==> s.m.eventq[i].wd in s.m.wmd
    ensures var t := Opened(s, a, e);
            var w := s.m.wmd[e.wd];
            && multiset{Note(a.procFun, e.mask, w.path, e.name)} + QueueNotes(t.k, t.m.wmd, a.procFun, a.filter, t.m.eventq)
               == EventNotes(s.k, s.m.wmd, a.procFun, a.filter, e) + QueueNotes(s.k, s.m.wmd, a.procFun, a.filter, s.m.eventq)
            && {Join(w.path, e.name)} + QueueDirs(t.k, t.m.wmd, a.filter, t.m.eventq)
               == EventDirs(s.k, s.m.wmd, a.filter, e) + QueueDirs(s.k, s.m.wmd, a.filter, s.m.eventq)
  {
    OpenedQueues(s, a, e);
    DirectoryIsDue(s, a, e);
    hide *;
  }

  /** An event elsewhere still fits after the directory of `e` was opened. */
  lemma OpenedKeeps(s: State, a: Attr, e: RawEvent, x: RawEvent)
    requires Sound(s) && Opens(s.k, s.m.wmd, a, e)
    requires Fits(s.k, s.m.wmd, a, x) && Unwatched(s.k, s.m.wmd, Place(s.m.wmd, x))
    requires Apart(Place(s.m.wmd, e), Place(s.m.wmd, x))
    ensures var t := Opened(s, a, e);
            Fits(t.k, t.m.wmd, a, x) && Place(t.m.wmd, x) == Place(s.m.wmd, x) &&
            Unwatched(t.k, t.m.wmd, Place(t.m.wmd, x))
  {
    var t := Opened(s, a, e);
    OpenedPlace(s.k, s.m.wmd, a, e);
    AddedFresh(s, a, e);
    var c := Comps(Join(s.m.wmd[e.wd].path, e.name));
    forall ds | Place(s.m.wmd, x) <= ds && Lookup(t.k.root, ds).Some? && Lookup(t.k.root, ds).value.Dir?
      ensures Lookup(t.k.root, ds).value.ino !in t.k.live
    {
      assert ds != c;
      assert Lookup(s.k.root, ds).value.ino != Lookup(s.k.root, c).value.ino;
    }
  }

  /** Nothing is watched at or below any entry of the opened directory. */
  lemma OpenedInside(s: State, a: Attr, e: RawEvent, n: string)
    requires Sound(s) && Opens(s.k, s.m.wmd, a, e)
    ensures var t := Opened(s, a, e); Unwatched(t.k, t.m.wmd, Place(s.m.wmd, e) + [n])
  {
    var t := Opened(s, a, e);
    OpenedPlace(s.k, s.m.wmd, a, e);
    AddedFresh(s, a, e);
    var c := Place(s.m.wmd, e);
    assert c <= c + [n];
    forall ds | c + [n] <= ds && Lookup(t.k.root, ds).Some? && Lookup(t.k.root, ds).value.Dir?
      ensures Lookup(t.k.root, ds).value.ino !in t.k.live
    {
      assert c <= ds && ds != c;
      assert Lookup(s.k.root, ds).value.ino != Lookup(s.k.root, c).value.ino;
    }
    forall wd | wd in t.m.wmd
      ensures !(c + [n] <= Comps(t.m.wmd[wd].path))
    {
      BelowChild(c, n, Comps(t.m.wmd[wd].path));
    }
  }

  lemma OpenedListing(s: State, a: Attr, e: RawEvent)
    requires Sound(s) && Opens(s.k, s.m.wmd, a, e)
    ensures var t := Opened(s, a, e);
            var node := EntryOf(s.k, s.m.wmd, e).value;
            var sim := Simulated(t.k, t.m.wmd, Join(s.m.wmd[e.wd].path, e.name), s.k.nextWd, node.entries);
            Listing(t.k, t.m.wmd, a, s.k.nextWd, NamesOf(node.entries), sim) &&
            (forall x :: 0 <= x < |sim| ==> Place(t.m.wmd, sim[x]) == Place(s.m.wmd, e) + [sim[x].name])
  {
    var t := Opened(s, a, e);
    var d := Join(s.m.wmd[e.wd].path, e.name);
    var node := EntryOf(s.k, s.m.wmd, e).value;
    OpenedPlace(s.k, s.m.wmd, a, e);
    OpenedEmpty(s, a, e);
    GoodBelow(s.k.root, Comps(d));
    assert node.entries[0..] == node.entries;
    SimulatedListing(t.k, t.m.wmd, a, d, s.k.nextWd, node, 0);
  }

  lemma OpenedPending(s: State, a: Attr, e: RawEvent)
    requires Sound(s) && Opens(s.k, s.m.wmd, a, e)
    requires Pending(s.k, s.m.wmd, a, s.m.eventq)
    requires forall i :: 0 <= i < |s.m.eventq| ==> Apart(Place(s.m.wmd, e), Place(s.m.wmd, s.m.eventq[i]))
    ensures var t := Opened(s, a, e); Pending(t.k, t.m.wmd, a, t.m.eventq)
  {
    var t := Opened(s, a, e);
    var q, r := s.m.eventq, t.m.eventq;
    OpenedListing(s, a, e);
    forall i | 0 <= i < |r|
      ensures Fits(t.k, t.m.wmd, a, r[i]) && Unwatched(t.k, t.m.wmd, Place(t.m.wmd, r[i]))
    {
      if i < |q| {
        OpenedKeeps(s, a, e, q[i]);
      } else {
        OpenedInside(s, a, e, r[i].name);
      }
    }
    forall i, j | 0 <= i < j < |r|
      ensures Apart(Place(t.m.wmd, r[i]), Place(t.m.wmd, r[j]))
    {
      var c := Place(s.m.wmd, e);
      if i < |q| {
        OpenedKeeps(s, a, e, q[i]);
        if j < |q| {
          OpenedKeeps(s, a, e, q[j]);
        } else {
          ApartBelow(Place(s.m.wmd, q[i]), c, r[j].name);
        }
      } else {
        assert (c + [r[i].name])[|c|] != (c + [r[j].name])[|c|];
      }
    }
  }

  lemma ApartBelow(x: seq<string>, c: seq<string>, n: string)
    requires Apart(c, x)
    ensures Apart(x, c + [n])
  {
    BelowChild(c, n, x);
    assert x <= c + [n] ==> x <= c || x == c + [n];
    BelowChild(c, n, c + [n]);
  }

  lemma BelowChild(c: seq<string>, n: string, x: seq<string>)
    ensures c + [n] <= x ==> c <= x
  {
    assert c <= c + [n];
  }

  // ---- the drain ------------------------------------------------------------------------------

  /** Only creation events of new entries are queued. */
  ghost predicate Filling(s: State, a: Attr) {
    Sound(s) && !s.m.ignore && !s.m.raised && Pending(s.k, s.m.wmd, a, s.m.eventq)
  }

  /** What is conserved while the queue is drained: delivered plus due notes, watched plus due paths. */
  ghost predicate Conserved(a: Attr, s: State, t: State) {
    && Notes(t.m.log) + QueueNotes(t.k, t.m.wmd, a.procFun, a.filter, t.m.eventq)
       == Notes(s.m.log) + QueueNotes(s.k, s.m.wmd, a.procFun, a.filter, s.m.eventq)
    && PathsOf(t.m.wmd) + QueueDirs(t.k, t.m.wmd, a.filter, t.m.eventq)
       == PathsOf(s.m.wmd) + QueueDirs(s.k, s.m.wmd, a.filter, s.m.eventq)
    && Grown(a, s.m.wmd, t.m.wmd)
  }

  lemma LogOne(log: seq<Delivery>, d: Delivery)
    ensures Notes(log + [d]) == Notes(log) + NoteOf(d)
  {
    assert (log + [d])[..|log|] == log;
  }

  function Popped(s: State): State
    requires s.m.eventq != []
  {
    s.(m := s.m.(eventq := s.m.eventq[1..]))
  }

  lemma CreateStep(s: State, a: Attr)
    requires Filling(s, a) && s.m.eventq != []
    ensures var e := s.m.eventq[0];
            var s1 := Created(Popped(s), e);
            && Step(s) == Deliver(s1, Default(s1, e, a.procFun, None, None))
            && NoteOf(Default(s1, e, a.procFun, None, None))
               == multiset{Note(a.procFun, e.mask, s1.m.wmd[e.wd].path, e.name)}
    ensures Fits(s.k, s.m.wmd, a, s.m.eventq[0]) && Unwatched(s.k, s.m.wmd, Place(s.m.wmd, s.m.eventq[0]))
  {
    var e := s.m.eventq[0];
    assert Fits(s.k, s.m.wmd, a, e);
    assert Handle(Popped(s), e) == Dispatch(Popped(s), e);
  }

  lemma ClosedNotes(k: Kernel, wmd: map<int, WatchRec>, a: Attr, e: RawEvent)
    requires Fits(k, wmd, a, e) && Unwatched(k, wmd, Place(wmd, e)) && !Opens(k, wmd, a, e)
    ensures EventNotes(k, wmd, a.procFun, a.filter, e) == multiset{Note(a.procFun, e.mask, wmd[e.wd].path, e.name)}
    ensures EventDirs(k, wmd, a.filter, e) == {}
    ensures !(HasIsDir(e.mask) && wmd[e.wd].autoAdd && !wmd[e.wd].filter(Join(wmd[e.wd].path, e.name)))
  {
  }

  /** A file, or a directory that the filter excludes, is delivered and nothing else happens. */
  lemma ClosedStep(s: State, a: Attr)
    requires Filling(s, a) && s.m.eventq != [] && !Opens(s.k, s.m.wmd, a, s.m.eventq[0])
    ensures Filling(Step(s), a) && Conserved(a, s, Step(s))
  {
    var e := s.m.eventq[0];
    StepProgress(s);
    CreateStep(s, a);
    ClosedNotes(s.k, s.m.wmd, a, e);
    CreatedIs(Popped(s), e);
    ConservedClosed(s, a, Default(Popped(s), e, a.procFun, None, None));
  }

  lemma ConservedClosed(s: State, a: Attr, d: Delivery)
    requires s.m.eventq != []
    requires NoteOf(d) == EventNotes(s.k, s.m.wmd, a.procFun, a.filter, s.m.eventq[0])
    requires EventDirs(s.k, s.m.wmd, a.filter, s.m.eventq[0]) == {}
    ensures Conserved(a, s, Deliver(Popped(s), d))
  {
    LogOne(s.m.log, d);
    var q := s.m.eventq;
    var rest := QueueNotes(s.k, s.m.wmd, a.procFun, a.filter, q[1..]);
    assert QueueNotes(s.k, s.m.wmd, a.procFun, a.filter, q) == NoteOf(d) + rest;
    assert (Notes(s.m.log) + NoteOf(d)) + rest == Notes(s.m.log) + (NoteOf(d) + rest);
    assert QueueDirs(s.k, s.m.wmd, a.filter, q) == QueueDirs(s.k, s.m.wmd, a.filter, q[1..]);
    var u := Deliver(Popped(s), d);
    assert u.k == s.k && u.m.wmd == s.m.wmd && u.m.eventq == q[1..] && u.m.log == s.m.log + [d];
  }

  lemma PathsAdd(wmd: map<int, WatchRec>, wd: int, w: WatchRec)
    requires wd !in wmd
    ensures PathsOf(wmd[wd := w]) == PathsOf(wmd) + {w.path}
  {
    var wmd' := wmd[wd := w];
    assert forall v :: v in wmd' <==> v == wd || v in wmd;
    forall p | p in PathsOf(wmd) ensures p in PathsOf(wmd') {
      var v :| v in wmd && wmd[v].path == p;
      assert v in wmd' && wmd'[v].path == p;
    }
    assert wd in wmd' && w.path in PathsOf(wmd');
  }

  lemma OpenedGrown(s: State, a: Attr, e: RawEvent)
    requires Sound(s) && Opens(s.k, s.m.wmd, a, e)
    ensures Grown(a, s.m.wmd, Opened(s, a, e).m.wmd)
    ensures PathsOf(Opened(s, a, e).m.wmd) == PathsOf(s.m.wmd) + {Join(s.m.wmd[e.wd].path, e.name)}
  {
    OpenedPlace(s.k, s.m.wmd, a, e);
    AddedFresh(s, a, e);
    PathsAdd(s.m.wmd, s.k.nextWd, NewWatch(s.m.wmd, a, e, s.k.nextWd));
  }

  lemma PoppedSound(s: State, a: Attr)
    requires Filling(s, a) && s.m.eventq != []
    ensures Sound(Popped(s)) && Popped(s).k == s.k && Popped(s).m.wmd == s.m.wmd
  {
    assert forall i :: 0 <= i < |s.m.eventq[1..]| ==> s.m.eventq[1..][i] == s.m.eventq[i + 1];
  }

  lemma OpenedOld(s: State, a: Attr, e: RawEvent)
    requires Sound(s) && Opens(s.k, s.m.wmd, a, e)
    ensures e.wd in Opened(s, a, e).m.wmd && Opened(s, a, e).m.wmd[e.wd] == s.m.wmd[e.wd]
  {
    AddedFresh(s, a, e);
  }

  lemma OpeningIs(s: State, a: Attr)
    requires Filling(s, a) && s.m.eventq != [] && Opens(s.k, s.m.wmd, a, s.m.eventq[0])
    ensures var e := s.m.eventq[0];
            var t := Opened(Popped(s), a, e);
            && Sound(Popped(s)) && e.wd in t.m.wmd
            && Step(s) == Deliver(t, Default(t, e, a.procFun, None, None))
            && NoteOf(Default(t, e, a.procFun, None, None))
               == multiset{Note(a.procFun, e.mask, s.m.wmd[e.wd].path, e.name)}
  {
    var e := s.m.eventq[0];
    hide Sound, Opens, Opened, Filling, NoteOf, Popped;
    PoppedSound(s, a);
    CreateStep(s, a);
    CreatedOpens(Popped(s), a, e);
    OpenedOld(Popped(s), a, e);
  }

  lemma OpeningFilling(s: State, a: Attr)
    requires Filling(s, a) && s.m.eventq != [] && Opens(s.k, s.m.wmd, a, s.m.eventq[0])
    ensures Filling(Step(s), a)
  {
    OpeningIs(s, a);
    StepProgress(s);
    PoppedPending(s, a);
    OpenedPending(Popped(s), a, s.m.eventq[0]);
    hide Sound, Step, Progress, Pending, Opens, Opened;
  }

  lemma PoppedPending(s: State, a: Attr)
    requires s.m.eventq != [] && Pending(s.k, s.m.wmd, a, s.m.eventq)
    ensures var t := Popped(s);
            && Pending(t.k, t.m.wmd, a, t.m.eventq)
            && forall i :: 0 <= i < |t.m.eventq| ==> Apart(Place(t.m.wmd, s.m.eventq[0]), Place(t.m.wmd, t.m.eventq[i]))
  {
    var q := s.m.eventq;
    assert forall i :: 0 <= i < |q[1..]| ==> q[1..][i] == q[i + 1];
  }

  /** An unexcluded directory is watched and its contents queued. */
  lemma OpeningStep(s: State, a: Attr)
    requires Filling(s, a) && s.m.eventq != [] && Opens(s.k, s.m.wmd, a, s.m.eventq[0])
    ensures Filling(Step(s), a) && Conserved(a, s, Step(s))
  {
    var e := s.m.eventq[0];
    OpeningFilling(s, a);
    OpeningIs(s, a);
    OpenedConserves(Popped(s), a, e);
    OpenedGrown(Popped(s), a, e);
    var t := Opened(Popped(s), a, e);
    ConservedOpening(s, a, t, Default(t, e, a.procFun, None, None), Join(s.m.wmd[e.wd].path, e.name));
  }

  lemma ConservedOpening(s: State, a: Attr, t: State, d: Delivery, p: string)
    requires s.m.eventq != [] && t.m.log == s.m.log
    requires NoteOf(d) + QueueNotes(t.k, t.m.wmd, a.procFun, a.filter, t.m.eventq)
             == QueueNotes(s.k, s.m.wmd, a.procFun, a.filter, s.m.eventq)
    requires Grown(a, s.m.wmd, t.m.wmd)
    requires PathsOf(t.m.wmd) == PathsOf(s.m.wmd) + {p} &&
             {p} + QueueDirs(t.k, t.m.wmd, a.filter, t.m.eventq) == QueueDirs(s.k, s.m.wmd, a.filter, s.m.eventq)
    ensures Conserved(a, s, Deliver(t, d))
  {
    LogOne(s.m.log, d);
    var rest := QueueNotes(t.k, t.m.wmd, a.procFun, a.filter, t.m.eventq);
    assert (Notes(s.m.log) + NoteOf(d)) + rest == Notes(s.m.log) + (NoteOf(d) + rest);
    var due := QueueDirs(t.k, t.m.wmd, a.filter, t.m.eventq);
    assert (PathsOf(s.m.wmd) + {p}) + due == PathsOf(s.m.wmd) + ({p} + due);
    var u := Deliver(t, d);
    assert u.k == t.k && u.m.wmd == t.m.wmd && u.m.eventq == t.m.eventq && u.m.log == s.m.log + [d];
  }

  lemma ConservedTransitive(a: Attr, s: State, t: State, u: State)
    requires Conserved(a, s, t) && Conserved(a, t, u)
    ensures Conserved(a, s, u)
  {
    GrownTransitive(a, s.m.wmd, t.m.wmd, u.m.wmd);
  }

  lemma GrownTransitive(a: Attr, x: map<int, WatchRec>, y: map<int, WatchRec>, z: map<int, WatchRec>)
    requires Grown(a, x, y) && Grown(a, y, z)
    ensures Grown(a, x, z)
  {
    forall wd, v | wd in z && wd !in x && v in z && v != wd
      ensures z[wd].path != z[v].path
    {
    }
  }

  lemma {:induction false} DrainConserves(s: State, a: Attr)
    requires Filling(s, a)
    ensures Filling(Drained(s), a) && Drained(s).m.eventq == [] && Conserved(a, s, Drained(s))
    decreases Disturbances(s.m.eventq), |Stale(s.k, s.m.wmd)|, Weights(s.k, s.m.wmd, s.m.eventq)
  {
    if s.m.eventq != [] {
      StepProgress(s);
      if Opens(s.k, s.m.wmd, a, s.m.eventq[0]) { OpeningStep(s, a); } else { ClosedStep(s, a); }
      DrainConserves(Step(s), a);
      ConservedTransitive(a, s, Step(s), Drained(Step(s)));
    }
  }

  // ---- what is due, said without recursion over the tree --------------------------------------

  /** The names in `rel` lead from directory `node` at path `q` through directories, none excluded. */
  predicate Reaches(f: string -> bool, q: string, node: Node, rel: seq<string>)
    decreases |rel|
  {
    node.Dir? && !f(q) &&
    (rel == [] ||
     (Child(node.entries, rel[0]).Some? && Reaches(f, Join(q, rel[0]), Child(node.entries, rel[0]).value, rel[1..])))
  }

  function JoinAll(q: string, rel: seq<string>): string
    decreases |rel|
  {
    if rel == [] then q else JoinAll(Join(q, rel[0]), rel[1..])
  }

  /** `n` is the creation note of an entry of a directory reached from `node` by `rel`. */
  ghost predicate NoteOfEntry(h: Option<nat>, f: string -> bool, q: string, node: Node, rel: seq<string>, n: Note) {
    && Reaches(f, q, node, rel) && n.path == JoinAll(q, rel) && n.handler == h
    && var c := ChildOf(Lookup(node, rel), n.name);
       c.Some? && !c.value.Other? && n.mask == (if c.value.Dir? then IN_CREATE + IN_ISDIR else IN_CREATE)
  }

  /** The creation notes due for a new entry, and the directories to be watched for it. */
  ghost predicate DueNote(a: Attr, p: string, name: string, node: Node, n: Note) {
    n == OwnNote(a.procFun, p, name, node) || exists rel :: NoteOfEntry(a.procFun, a.filter, Join(p, name), node, rel, n)
  }

  ghost predicate DueDir(f: string -> bool, p: string, name: string, node: Node, x: string) {
    exists rel :: Reaches(f, Join(p, name), node, rel) && x == JoinAll(Join(p, name), rel)
  }

  lemma {:induction false} ContentDirsAt(f: string -> bool, p: string, entries: seq<Entry>, x: string) returns (i: nat)
    requires x in ContentDirs(f, p, entries)
    ensures i < |entries| && x in EntryDirs(f, p, entries[i].name, entries[i].node)
  {
    if x in EntryDirs(f, p, entries[0].name, entries[0].node) {
      i := 0;
    } else {
      var j := ContentDirsAt(f, p, entries[1..], x);
      i := j + 1;
    }
  }

  lemma {:induction false} ContentDirsHold(f: string -> bool, p: string, entries: seq<Entry>, i: nat)
    requires i < |entries|
    ensures EntryDirs(f, p, entries[i].name, entries[i].node) <= ContentDirs(f, p, entries)
  {
    if i > 0 { ContentDirsHold(f, p, entries[1..], i - 1); }
  }

  lemma {:induction false} ContentNotesAt(h: Option<nat>, f: string -> bool, p: string, entries: seq<Entry>, n: Note) returns (i: nat)
    requires n in ContentNotes(h, f, p, entries)
    ensures i < |entries| && n in EntryNotes(h, f, p, entries[i].name, entries[i].node)
  {
    if n in EntryNotes(h, f, p, entries[0].name, entries[0].node) {
      i := 0;
    } else {
      var j := ContentNotesAt(h, f, p, entries[1..], n);
      i := j + 1;
    }
  }

  lemma {:induction false} ContentNotesHold(h: Option<nat>, f: string -> bool, p: string, entries: seq<Entry>, i: nat)
    requires i < |entries|
    ensures EntryNotes(h, f, p, entries[i].name, entries[i].node) <= ContentNotes(h, f, p, entries)
  {
    if i > 0 { ContentNotesHold(h, f, p, entries[1..], i - 1); }
  }

  lemma {:induction false} DueIsReached(f: string -> bool, p: string, name: string, node: Node, x: string) returns (rel: seq<string>)
    requires GoodNames(node) && x in EntryDirs(f, p, name, node)
    ensures Reaches(f, Join(p, name), node, rel) && x == JoinAll(Join(p, name), rel)
    decreases node
  {
    var q := Join(p, name);
    if x == q {
      rel := [];
    } else {
      var i := ContentDirsAt(f, q, node.entries, x);
      var n := node.entries[i].name;
      var below := DueIsReached(f, q, n, node.entries[i].node, x);
      ChildEntry(node.entries, i);
      rel := [n] + below;
      assert rel[1..] == below;
    }
  }

  lemma {:induction false} ReachedIsDue(f: string -> bool, p: string, name: string, node: Node, rel: seq<string>)
    requires GoodNames(node) && Reaches(f, Join(p, name), node, rel)
    ensures JoinAll(Join(p, name), rel) in EntryDirs(f, p, name, node)
    decreases |rel|
  {
    if rel != [] {
      var i := ChildIn(node.entries, rel[0]);
      ReachedIsDue(f, Join(p, name), rel[0], node.entries[i].node, rel[1..]);
      ContentDirsHold(f, Join(p, name), node.entries, i);
    }
  }

  /** The due watches are exactly the directories reachable through unexcluded directories. */
  lemma DirsAreReachable(f: string -> bool, p: string, name: string, node: Node, x: string)
    requires GoodNames(node)
    ensures x in EntryDirs(f, p, name, node) <==> DueDir(f, p, name, node, x)
  {
    if x in EntryDirs(f, p, name, node) {
      var rel := DueIsReached(f, p, name, node, x);
    }
    if rel :| Reaches(f, Join(p, name), node, rel) && x == JoinAll(Join(p, name), rel) {
      ReachedIsDue(f, p, name, node, rel);
    }
  }

  function OwnNote(h: Option<nat>, p: string, name: string, node: Node): Note {
    Note(h, if node.Dir? then IN_CREATE + IN_ISDIR else IN_CREATE, p, name)
  }

  lemma {:induction false} NoteIsEntry(h: Option<nat>, f: string -> bool, p: string, name: string, node: Node, n: Note)
    returns (rel: seq<string>)
    requires GoodNames(node) && n in EntryNotes(h, f, p, name, node) && n != OwnNote(h, p, name, node)
    ensures NoteOfEntry(h, f, Join(p, name), node, rel, n)
    decreases node
  {
    var q := Join(p, name);
    var i := ContentNotesAt(h, f, q, node.entries, n);
    var c := node.entries[i];
    ChildEntry(node.entries, i);
    if n == OwnNote(h, q, c.name, c.node) {
      rel := [];
    } else {
      var below := NoteIsEntry(h, f, q, c.name, c.node, n);
      rel := [c.name] + below;
      assert rel[0] == c.name && rel[1..] == below;
      assert Lookup(node, rel) == Lookup(c.node, below);
      assert Reaches(f, q, node, rel) && JoinAll(q, rel) == JoinAll(Join(q, c.name), below);
    }
  }

  lemma {:induction false} EntryHasNote(h: Option<nat>, f: string -> bool, p: string, name: string, node: Node, n: Note,
                                        rel: seq<string>)
    requires GoodNames(node) && NoteOfEntry(h, f, Join(p, name), node, rel, n)
    ensures n in EntryNotes(h, f, p, name, node)
    decreases |rel|
  {
    var q := Join(p, name);
    var i := ChildIn(node.entries, if rel == [] then n.name else rel[0]);
    if rel != [] {
      EntryHasNote(h, f, q, rel[0], node.entries[i].node, n, rel[1..]);
    }
    ContentNotesHold(h, f, q, node.entries, i);
    assert n in EntryNotes(h, f, q, node.entries[i].name, node.entries[i].node);
  }

  /** The due notes are the new entry's own and those of every entry of a due directory. */
  lemma NotesAreEntries(h: Option<nat>, f: string -> bool, p: string, name: string, node: Node, n: Note)
    requires GoodNames(node) && !node.Other?
    ensures n in EntryNotes(h, f, p, name, node) <==>
              n == OwnNote(h, p, name, node) || exists rel :: NoteOfEntry(h, f, Join(p, name), node, rel, n)
  {
    if n in EntryNotes(h, f, p, name, node) && n != OwnNote(h, p, name, node) {
      var rel := NoteIsEntry(h, f, p, name, node, n);
    }
    if rel :| NoteOfEntry(h, f, Join(p, name), node, rel, n) {
      EntryHasNote(h, f, p, name, node, n, rel);
    }
  }

  // ---- exactly once ---------------------------------------------------------------------------

  /** A note is the entry's own or lies below the entry. */
  lemma {:induction false} NotePlace(h: Option<nat>, f: string -> bool, p: string, name: string, node: Node, n: Note)
    requires NormalPath(p) && ProperName(name) && GoodNames(node) && n in EntryNotes(h, f, p, name, node)
    ensures if n == OwnNote(h, p, name, node) then true else Comps(p) + [name] <= Comps(n.path)
    decreases node
  {
    if n != OwnNote(h, p, name, node) {
      var q := Join(p, name);
      NormalJoin([], p, name);
      var i := ContentNotesAt(h, f, q, node.entries, n);
      NotePlace(h, f, q, node.entries[i].name, node.entries[i].node, n);
      assert Comps(q) <= Comps(q) + [node.entries[i].name];
    }
  }

  lemma {:induction false} NotesOnce(h: Option<nat>, f: string -> bool, p: string, name: string, node: Node, n: Note)
    requires NormalPath(p) && ProperName(name) && GoodNames(node)
    ensures EntryNotes(h, f, p, name, node)[n] <= 1
    decreases node
  {
    if node.Dir? && !f(Join(p, name)) {
      var q := Join(p, name);
      NormalJoin([], p, name);
      assert node.entries[0..] == node.entries;
      ContentNotesOnce(h, f, q, node, 0, n);
      if n == OwnNote(h, p, name, node) && n in ContentNotes(h, f, q, node.entries) {
        var i := ContentNotesAt(h, f, q, node.entries, n);
        var c := node.entries[i];
        NotePlace(h, f, q, c.name, c.node, n);
        assert OwnNote(h, q, c.name, c.node).path == q && Comps(p) != Comps(q);
      }
    }
  }

  lemma {:induction false} ContentNotesOnce(h: Option<nat>, f: string -> bool, q: string, node: Node, i: nat, n: Note)
    requires NormalPath(q) && node.Dir? && GoodNames(node) && i <= |node.entries|
    ensures ContentNotes(h, f, q, node.entries[i..])[n] <= 1
    decreases node, |node.entries| - i
  {
    if i < |node.entries| {
      var rest := node.entries[i..];
      var c := node.entries[i];
      assert rest[0] == c && rest[1..] == node.entries[i + 1..];
      NotesOnce(h, f, q, c.name, c.node, n);
      ContentNotesOnce(h, f, q, node, i + 1, n);
      if n in EntryNotes(h, f, q, c.name, c.node) && n in ContentNotes(h, f, q, rest[1..]) {
        var j := ContentNotesAt(h, f, q, rest[1..], n);
        var b := rest[1..][j];
        assert b == node.entries[i + 1 + j];
        NotePlace(h, f, q, c.name, c.node, n);
        NotePlace(h, f, q, b.name, b.node, n);
        DifferentEntries(h, q, c, b, n);
      }
    }
  }

  lemma DifferentEntries(h: Option<nat>, q: string, c: Entry, b: Entry, n: Note)
    requires n == OwnNote(h, q, c.name, c.node) || Comps(q) + [c.name] <= Comps(n.path)
    requires n == OwnNote(h, q, b.name, b.node) || Comps(q) + [b.name] <= Comps(n.path)
    ensures c.name == b.name
  {
    var k := |Comps(q)|;
    if Comps(q) + [c.name] <= Comps(n.path) { assert Comps(n.path)[k] == (Comps(q) + [c.name])[k]; }
    if Comps(q) + [b.name] <= Comps(n.path) { assert Comps(n.path)[k] == (Comps(q) + [b.name])[k]; }
  }

  // ---- main results ---------------------------------------------------------------------------

  /** Draining a queue of creation events of new, separate entries delivers everything due and watches
      everything due. */
  lemma PendingEntriesAreCompleted(s: State, a: Attr)
    requires Filling(s, a)
    ensures var t := Drained(s);
            && t.m.eventq == []
            && Notes(t.m.log) == Notes(s.m.log) + QueueNotes(s.k, s.m.wmd, a.procFun, a.filter, s.m.eventq)
            && PathsOf(t.m.wmd) == PathsOf(s.m.wmd) + QueueDirs(s.k, s.m.wmd, a.filter, s.m.eventq)
            && Grown(a, s.m.wmd, t.m.wmd)
  {
    DrainConserves(s, a);
    var t := Drained(s);
    assert QueueNotes(t.k, t.m.wmd, a.procFun, a.filter, []) == multiset{};
    assert Notes(t.m.log) + multiset{} == Notes(t.m.log);
    assert PathsOf(t.m.wmd) + {} == PathsOf(t.m.wmd);
  }

  lemma NotesAreDue(a: Attr, p: string, name: string, node: Node, n: Note)
    requires NormalPath(p) && ProperName(name) && GoodNames(node) && !node.Other?
    ensures EntryNotes(a.procFun, a.filter, p, name, node)[n] == if DueNote(a, p, name, node, n) then 1 else 0
  {
    NotesOnce(a.procFun, a.filter, p, name, node, n);
    NotesAreEntries(a.procFun, a.filter, p, name, node, n);
  }

  lemma SingleEvent(s: State, a: Attr, e: RawEvent)
    requires Filling(s, a) && s.m.eventq == [e]
    ensures Fits(s.k, s.m.wmd, a, e) && GoodNames(EntryOf(s.k, s.m.wmd, e).value)
    ensures NormalPath(s.m.wmd[e.wd].path)
  {
    assert Fits(s.k, s.m.wmd, a, s.m.eventq[0]);
    var w := s.m.wmd[e.wd];
    NormalJoin(s.k.cwd, w.path, e.name);
    LookupSnoc(s.k.root, Comps(w.path), e.name);
    GoodBelow(s.k.root, Comps(w.path) + [e.name]);
  }

  lemma SingleEntryIsCompleted(s: State, a: Attr, e: RawEvent)
    requires Filling(s, a) && s.m.eventq == [e] && Fits(s.k, s.m.wmd, a, e)
    ensures var t := Drained(s);
            var p := s.m.wmd[e.wd].path;
            var node := EntryOf(s.k, s.m.wmd, e).value;
            && t.m.eventq == []
            && Notes(t.m.log) == Notes(s.m.log) + EntryNotes(a.procFun, a.filter, p, e.name, node)
            && PathsOf(t.m.wmd) == PathsOf(s.m.wmd) + EntryDirs(a.filter, p, e.name, node)
            && Grown(a, s.m.wmd, t.m.wmd)
  {
    PendingEntriesAreCompleted(s, a);
    QueueOne(s.k, s.m.wmd, a.procFun, a.filter, e);
  }

  /** Auto-add delivers exactly once: after the creation event of a new directory, every entry of every
      directory reachable from it through unexcluded directories is announced to the inherited handler
      exactly once, and nothing else is delivered. */
  lemma NewDirectoryIsAnnouncedOnce(s: State, a: Attr, e: RawEvent, n: Note)
    requires Filling(s, a) && s.m.eventq == [e] && Fits(s.k, s.m.wmd, a, e)
    ensures Notes(Drained(s).m.log)[n] ==
            Notes(s.m.log)[n] +
            (if DueNote(a, s.m.wmd[e.wd].path, e.name, EntryOf(s.k, s.m.wmd, e).value, n) then 1 else 0)
  {
    SingleEvent(s, a, e);
    SingleEntryIsCompleted(s, a, e);
    NotesAreDue(a, s.m.wmd[e.wd].path, e.name, EntryOf(s.k, s.m.wmd, e).value, n);
  }

  /** Auto-add is complete: after the creation event of a new directory, exactly the directories reachable
      from it through unexcluded directories are newly watched, each by one watch with the inherited
      attributes; the queue is empty and all earlier watches are as before. */
  lemma NewDirectoryIsWatched(s: State, a: Attr, e: RawEvent, x: string)
    requires Filling(s, a) && s.m.eventq == [e] && Fits(s.k, s.m.wmd, a, e)
    ensures var t := Drained(s);
            && t.m.eventq == []
            && (x in PathsOf(t.m.wmd) <==>
                  x in PathsOf(s.m.wmd) || DueDir(a.filter, s.m.wmd[e.wd].path, e.name, EntryOf(s.k, s.m.wmd, e).value, x))
            && Grown(a, s.m.wmd, t.m.wmd)
  {
    SingleEvent(s, a, e);
    SingleEntryIsCompleted(s, a, e);
    DirsAreReachable(a.filter, s.m.wmd[e.wd].path, e.name, EntryOf(s.k, s.m.wmd, e).value, x);
  }
}
