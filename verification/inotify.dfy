/** Values of the watch manager's world: raw events, the file tree, the kernel, and the manager. */
module Inotify {
  import opened Options
  import opened Paths

  // ---- event masks ----------------------------------------------------------------------------

  const IN_MOVED_FROM: nat := 0x40
  const IN_MOVED_TO: nat := 0x80
  const IN_CREATE: nat := 0x100
  const IN_MOVE_SELF: nat := 0x800
  const IN_Q_OVERFLOW: nat := 0x4000
  const IN_IGNORED: nat := 0x8000
  const IN_ISDIR: nat := 0x4000_0000
  const ALL_EVENTS: nat := 0xFFF

  predicate HasCreate(mask: nat) { mask / 0x100 % 2 == 1 }
  predicate HasDeleteSelf(mask: nat) { mask / 0x400 % 2 == 1 }
  predicate HasMoveSelf(mask: nat) { mask / 0x800 % 2 == 1 }
  predicate HasOverflow(mask: nat) { mask / 0x4000 % 2 == 1 }
  predicate HasIsDir(mask: nat) { mask / 0x4000_0000 % 2 == 1 }

  /** The mask values that have a name. */
  predicate Named(mask: nat) {
    || mask == 0x1 || mask == 0x2 || mask == 0x4 || mask == 0x8 || mask == 0x10 || mask == 0x20
    || mask == 0x40 || mask == 0x80 || mask == 0x100 || mask == 0x200 || mask == 0x400 || mask == 0x800
    || mask == 0x2000 || mask == 0x4000 || mask == 0x8000
    || mask == 0x100_0000 || mask == 0x200_0000 || mask == 0x400_0000
    || mask == 0x2000_0000 || mask == 0x4000_0000 || mask == 0x8000_0000
    || mask == ALL_EVENTS
  }

  /** Which handler an event reaches; `Nameless` raises an exception in the dispatcher. */
  datatype Kind = Create | MovedFrom | MovedTo | MoveSelf | Ignored | Overflow | Plain | Nameless

  function KindOf(mask: nat): Kind {
    var stripped := if HasIsDir(mask) then mask - IN_ISDIR else mask;
    if stripped == IN_CREATE then Create
    else if stripped == IN_MOVED_FROM then MovedFrom
    else if stripped == IN_MOVED_TO then MovedTo
    else if stripped == IN_MOVE_SELF then MoveSelf
    else if stripped == IN_IGNORED then Ignored
    else if stripped == IN_Q_OVERFLOW then Overflow
    else if Named(stripped) then Plain
    else Nameless
  }

  datatype RawEvent = RawEvent(wd: int, mask: nat, cookie: nat, name: string)

  // ---- file tree and kernel -------------------------------------------------------------------

  /** A symlink-free file tree; `Other` is neither a regular file nor a directory. */
  datatype Node = File(ino: nat) | Dir(ino: nat, entries: seq<Entry>) | Other(ino: nat)
  datatype Entry = Entry(name: string, node: Node)

  function Child(entries: seq<Entry>, name: string): (r: Option<Node>) {
    if entries == [] then None
    else if entries[0].name == name then Some(entries[0].node)
    else Child(entries[1..], name)
  }

  function Lookup(node: Node, comps: seq<string>): Option<Node>
    decreases |comps|
  {
    if comps == [] then Some(node)
    else if !node.Dir? then None
    else
      match Child(node.entries, comps[0])
      case None => None
      case Some(c) => Lookup(c, comps[1..])
  }

  /** `live` maps each watched inode to its watch descriptor; `nextWd` is the next one to hand out. */
  datatype Kernel = Kernel(root: Node, cwd: seq<string>, live: map<nat, int>, nextWd: int, queue: seq<RawEvent>)

  function Resolve(cwd: seq<string>, p: string): seq<string> {
    Collapse(if p != "" && p[0] == SEP then SplitSep(p) else cwd + SplitSep(p), true, [])
  }

  function NodeAt(k: Kernel, p: string): Option<Node> {
    Lookup(k.root, Resolve(k.cwd, p))
  }

  /** `isdir`; the empty path is none. */
  predicate IsDirAt(k: Kernel, p: string) {
    var n := NodeAt(k, p);
    p != "" && n.Some? && n.value.Dir?
  }

  predicate IsFileAt(k: Kernel, p: string) {
    var n := NodeAt(k, p);
    p != "" && n.Some? && n.value.File?
  }

  /** inotify_add_watch: the inode's descriptor if it is watched already, a fresh one otherwise. */
  function KernelAdd(k: Kernel, p: string): (Kernel, int) {
    match NodeAt(k, p)
    case None => (k, -1)
    case Some(n) =>
      if n.ino in k.live then (k, k.live[n.ino])
      else (k.(live := k.live[n.ino := k.nextWd], nextWd := k.nextWd + 1), k.nextWd)
  }

  // ---- the manager ----------------------------------------------------------------------------

  /** One `Watch` as a value. A processing function is an opaque number. */
  datatype WatchRec = WatchRec(wd: int, path: string, mask: nat, procFun: Option<nat>, autoAdd: bool,
                               filter: string -> bool, dir: bool)

  /** What a user's processing function receives, and which one received it. */
  datatype Delivery =
    | Delivery(handler: Option<nat>, wd: int, mask: nat, path: string, name: string, dir: bool,
               cookie: Option<nat>, src: Option<string>)
    | OverflowDelivery(handler: Option<nat>, mask: nat)

  datatype Manager = Manager(wmd: map<int, WatchRec>, ignore: bool,
                             eventq: seq<RawEvent>, eventset: set<string>, coalesce: bool,
                             mvCookie: map<nat, string>, mv: map<string, string>,
                             log: seq<Delivery>, raised: bool)

  datatype State = State(k: Kernel, m: Manager)

  // ---- WatchManager ---------------------------------------------------------------------------

  function AddMask(mask: nat, autoAdd: bool): nat {
    if autoAdd && !HasCreate(mask) then mask + IN_CREATE else mask
  }

  /** `__add_watch` */
  function AddOne(s: State, path: string, mask: nat, procFun: Option<nat>, autoAdd: bool,
                  filter: string -> bool): (r: (State, int))
    ensures s.m.wmd.Keys <= r.0.m.wmd.Keys
  {
    var p := NormPath(path);
    var m := AddMask(mask, autoAdd);
    var (k, wd) := KernelAdd(s.k, p);
    if wd < 0 then (State(k, s.m), wd)
    else (State(k, s.m.(wmd := s.m.wmd[wd := WatchRec(wd, p, m, procFun, autoAdd, filter, IsDirAt(k, p))])), wd)
  }

  /** `add_watch` over an expanded list of paths; the map is its returned dictionary. */
  function AddAll(s: State, paths: seq<string>, mask: nat, procFun: Option<nat>, autoAdd: bool,
                  filter: string -> bool, ret: map<string, int>): (r: (State, map<string, int>))
    ensures s.m.wmd.Keys <= r.0.m.wmd.Keys
    decreases |paths|
  {
    if paths == [] then (s, ret)
    else if filter(paths[0]) then
      AddAll(s, paths[1..], mask, procFun, autoAdd, filter, ret[paths[0] := -2])
    else
      var (s1, wd) := AddOne(s, paths[0], mask, procFun, autoAdd, filter);
      AddAll(s1, paths[1..], mask, procFun, autoAdd, filter, ret[paths[0] := wd])
  }

  /** The directories at and below `node`, in the order of `os.walk`. */
  function Walk(node: Node, p: string): seq<string>
    decreases node, 0
  {
    if node.Dir? then [p] + WalkEntries(node.entries, p) else []
  }

  function WalkEntries(entries: seq<Entry>, p: string): seq<string>
    decreases entries, 1
  {
    if entries == [] then []
    else Walk(entries[0].node, Join(p, entries[0].name)) + WalkEntries(entries[1..], p)
  }

  /** `__walk_rec` */
  function WalkRec(k: Kernel, top: string, rec: bool): seq<string> {
    if !rec || !IsDirAt(k, top) then [top] else Walk(NodeAt(k, top).value, top)
  }

  /** `get_wd(path) is not None` */
  predicate PathWatched(wmd: map<int, WatchRec>, path: string) {
    exists wd :: wd in wmd && wmd[wd].path == NormPath(path)
  }

  // ---- event handlers -------------------------------------------------------------------------

  /** The creation event made up for one entry of directory `d`, unless it is watched already. */
  function SimulatedFor(k: Kernel, wmd: map<int, WatchRec>, d: string, wd: int, name: string): seq<RawEvent> {
    var inner := Join(d, name);
    if PathWatched(wmd, inner) then []
    else if IsFileAt(k, inner) then [RawEvent(wd, IN_CREATE, 0, name)]
    else if IsDirAt(k, inner) then [RawEvent(wd, IN_CREATE + IN_ISDIR, 0, name)]
    else []
  }

  function Simulated(k: Kernel, wmd: map<int, WatchRec>, d: string, wd: int, entries: seq<Entry>): seq<RawEvent> {
    if entries == [] then []
    else SimulatedFor(k, wmd, d, wd, entries[0].name) + Simulated(k, wmd, d, wd, entries[1..])
  }

  /** The effect of `process_IN_CREATE` before its `process_default`. */
  function Created(s: State, e: RawEvent): (r: State)
    requires e.wd in s.m.wmd
    ensures s.m.wmd.Keys <= r.m.wmd.Keys
  {
    var w := s.m.wmd[e.wd];
    var d := Join(w.path, e.name);
    if HasIsDir(e.mask) && w.autoAdd && !w.filter(d) then
      var (s1, ret) := AddAll(s, [d], w.mask, w.procFun, w.autoAdd, w.filter, map[]);
      if d in ret && ret[d] > 0 && IsDirAt(s1.k, d) then
        s1.(m := s1.m.(eventq := s1.m.eventq + Simulated(s1.k, s1.m.wmd, d, ret[d], NodeAt(s1.k, d).value.entries)))
      else s1
    else s
  }

  function EventPath(s: State, e: RawEvent): string
    requires e.wd in s.m.wmd
  {
    NormPath(Join(s.m.wmd[e.wd].path, e.name))
  }

  /** The effect of `process_IN_MOVED_TO` before its `process_default`. */
  function MovedIn(s: State, e: RawEvent): (r: State)
    requires e.wd in s.m.wmd
    ensures s.m.wmd.Keys <= r.m.wmd.Keys
  {
    var w := s.m.wmd[e.wd];
    var dst := EventPath(s, e);
    if e.cookie in s.m.mvCookie then s.(m := s.m.(mv := s.m.mv[s.m.mvCookie[e.cookie] := dst]))
    else if HasIsDir(e.mask) && w.autoAdd && !w.filter(dst) then
      AddAll(s, WalkRec(s.k, dst, true), w.mask, w.procFun, true, w.filter, map[]).0
    else s
  }

  const UNKNOWN := "-unknown-path"

  predicate EndsWith(s: string, suffix: string) {
    |suffix| <= |s| && s[|s| - |suffix|..] == suffix
  }

  /** A path after its ancestor-or-self `src` was renamed to `dst`, by the string test of the source. */
  function Reprefix(p: string, src: string, dst: string): string {
    if src + "/" <= p then Join(dst, p[|src| + 1..]) else p
  }

  function MovedSelfPath(mv: map<string, string>, src: string): string {
    if src in mv then mv[src] else if EndsWith(src, UNKNOWN) then src else src + UNKNOWN
  }

  /** Every watch after the watch `wd` moved; with no known destination only its own path is marked. */
  function Renamed(wmd: map<int, WatchRec>, wd: int, mv: map<string, string>): map<int, WatchRec>
    requires wd in wmd
  {
    var src := wmd[wd].path;
    var moved := wmd[wd := wmd[wd].(path := MovedSelfPath(mv, src))];
    if src in mv then map w | w in moved :: moved[w].(path := Reprefix(moved[w].path, src, mv[src]))
    else moved
  }

  /** `process_default`: what is handed to the user for `e`. */
  function Default(s: State, e: RawEvent, handler: Option<nat>, cookie: Option<nat>, src: Option<string>): Delivery
    requires e.wd in s.m.wmd
  {
    var w := s.m.wmd[e.wd];
    Delivery(handler, e.wd, e.mask, w.path, e.name,
             if HasDeleteSelf(e.mask) || HasMoveSelf(e.mask) then w.dir else HasIsDir(e.mask), cookie, src)
  }

  function Deliver(s: State, d: Delivery): State {
    s.(m := s.m.(log := s.m.log + [d]))
  }

  /** The system processing of an event on a known watch, and its delivery. */
  function Dispatch(s: State, e: RawEvent): State
    requires e.wd in s.m.wmd
  {
    var handler := s.m.wmd[e.wd].procFun;
    match KindOf(e.mask)
    case Create =>
      var s1 := Created(s, e);
      Deliver(s1, Default(s1, e, handler, None, None))
    case MovedFrom =>
      var s1 := s.(m := s.m.(mvCookie := s.m.mvCookie[e.cookie := EventPath(s, e)]));
      Deliver(s1, Default(s1, e, handler, Some(e.cookie), None))
    case MovedTo =>
      var s1 := MovedIn(s, e);
      var src := if e.cookie in s.m.mvCookie then Some(s.m.mvCookie[e.cookie]) else None;
      Deliver(s1, Default(s1, e, handler, Some(e.cookie), src))
    case MoveSelf =>
      var s1 := s.(m := s.m.(wmd := Renamed(s.m.wmd, e.wd, s.m.mv)));
      Deliver(s1, Default(s1, e, handler, None, None))
    case Ignored =>
      var s1 := Deliver(s, Default(s, e, handler, None, None));
      s1.(m := s1.m.(wmd := s1.m.wmd - {e.wd}))
    case Overflow => Deliver(s, OverflowDelivery(handler, e.mask))
    case Plain => Deliver(s, Default(s, e, handler, None, None))
    case Nameless => s.(m := s.m.(raised := true))
  }

  /** Handling one event that was taken off the queue. */
  function Handle(s: State, e: RawEvent): State {
    if s.m.ignore then s
    else if e.wd in s.m.wmd then Dispatch(s, e)
    else if !HasOverflow(e.mask) then s
    else if KindOf(e.mask) == Overflow then Deliver(s, OverflowDelivery(None, e.mask))
    else s.(m := s.m.(raised := true))
  }

  /** One turn of the loop of `process_events`. */
  function Step(s: State): State
    requires s.m.eventq != []
  {
    Handle(s.(m := s.m.(eventq := s.m.eventq[1..])), s.m.eventq[0])
  }
}
