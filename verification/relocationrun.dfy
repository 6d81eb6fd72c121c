/** Whole runs of `relocate_sdk` over a file whose parts do not overlap. */
module RelocationRuns {
  import opened Options
  import opened Bytes
  import opened Relocation
  import opened RelocationProofs

  // ---- the sections as a list -----------------------------------------------------------------

  /** A section with program data (type 1) of that name. */
  predicate Named(s: Section, name: string) {
    s.stype == 1 && |s.name| == |name| && forall i :: 0 <= i < |name| ==> s.name[i] == name[i] as nat
  }

  lemma NamedIs(s: Section, name: string)
    requires ByteString(name)
    ensures Named(s, name) <==> s.stype == PROGBITS && s.name == ToBytes(name)
  {
  }

  /** What the script tells sections apart by. */
  lemma KindNames(s: Section)
    ensures (KindOf(s) == SysDirs <==> Named(s, ".sysdirs")) && (KindOf(s) == SysDirsLen <==> Named(s, ".sysdirslen"))
    ensures (KindOf(s) == LdSoCache <==> Named(s, ".ldsocache"))
    ensures (KindOf(s) == GccRelocPrefix <==> Named(s, ".gccrelocprefix"))
  {
    NamedIs(s, ".sysdirs");
    NamedIs(s, ".sysdirslen");
    NamedIs(s, ".ldsocache");
    NamedIs(s, ".gccrelocprefix");
    hide Named;
    assert |ToBytes(".sysdirs")| == 8 && |ToBytes(".sysdirslen")| == 11;
    assert |ToBytes(".ldsocache")| == 10 && |ToBytes(".gccrelocprefix")| == 15;
  }

  /** How much of the file a section that is looked for takes. */
  function Extent(s: Section): nat {
    if Named(s, ".sysdirs") || Named(s, ".sysdirslen") || Named(s, ".ldsocache") || Named(s, ".gccrelocprefix") then s.size
    else 0
  }

  predicate Fits(n: nat, s: Section) { s.offset + Extent(s) <= n || Extent(s) == 0 }

  predicate SectionsApart(s: Section, t: Section) { Apart(s.offset, Extent(s), t.offset, Extent(t)) }

  /** The sections lie within the file and do not overlap. */
  predicate Spread(n: nat, ss: seq<Section>) {
    ss == [] || (Fits(n, ss[0]) && (forall j :: 1 <= j < |ss| ==> SectionsApart(ss[0], ss[j])) && Spread(n, ss[1..]))
  }

  function ChangeList(f: seq<Byte>, ss: seq<Section>, p: seq<Byte>, found: Found): (seq<Byte>, Found, Outcome)
    decreases |ss|
  {
    if ss == [] then (f, found, Done)
    else
      var (g, found', out) := ChangeSection(f, ss[0], p, found);
      if out != Done then (g, found', out) else ChangeList(g, ss[1..], p, found')
  }

  function FoundBy(f: seq<Byte>, s: Section, found: Found): Found {
    match KindOf(s)
    case SysDirs => found.(dirs := Some(ReadAt(f, s.offset, s.size)), dirsAt := s.offset, dirsSize := s.size)
    case SysDirsLen => found.(lens := Some(ReadAt(f, s.offset, s.size)), lensAt := s.offset)
    case _ => found
  }

  function FoundAll(f: seq<Byte>, ss: seq<Section>, found: Found): Found
    decreases |ss|
  {
    if ss == [] then found else FoundAll(f, ss[1..], FoundBy(f, ss[0], found))
  }

  /** What is left behind the last whole slot stays. */
  predicate TailKept(f: seq<Byte>, g: seq<Byte>, s: Section) {
    var end := SlotsEnd(s.size, 0);
    ReadAt(g, s.offset + end, s.size - end) == ReadAt(f, s.offset + end, s.size - end)
  }

  /** So many bytes hold the new path of what they held. */
  predicate PathRewritten(f: seq<Byte>, g: seq<Byte>, pos: nat, size: nat, p: seq<Byte>) {
    var path := NewPath(ReadAt(f, pos, size), p);
    |path| < size && ReadAt(g, pos, size) == Pad(path, size)
  }

  /** By their names: the path of the linker's cache is rewritten, and so is every whole slot of 4096 bytes of the
      prefixes of gcc. */
  predicate Rewritten(f: seq<Byte>, g: seq<Byte>, s: Section, p: seq<Byte>) {
    && (Named(s, ".ldsocache") ==> PathRewritten(f, g, s.offset, s.size, p))
    && (Named(s, ".gccrelocprefix") ==> SlotsRewritten(f, g, s.offset, s.size, 0, p) && TailKept(f, g, s))
  }

  /** ... slot by slot. */
  lemma {:induction false} EverySlot(f: seq<Byte>, g: seq<Byte>, start: nat, size: nat, first: nat, k: nat, p: seq<Byte>)
    requires SlotsRewritten(f, g, start, size, 4096 * first, p) && first <= k && 4096 * k + 4096 <= size
    ensures PathRewritten(f, g, start + 4096 * k, 4096, p)
    decreases k - first
  {
    hide ReadAt, NewPath, Pad;
    if first < k { EverySlot(f, g, start, size, first + 1, k, p); }
  }

  lemma SectionIs(f: seq<Byte>, s: Section, p: seq<Byte>, found: Found)
    requires Fits(|f|, s)
    ensures var (g, found', out) := ChangeSection(f, s, p, found);
            && Only(f, g, s.offset, Extent(s)) && out != Crash && found' == FoundBy(f, s, found)
            && (out == Done ==> Rewritten(f, g, s, p))
            && (Named(s, ".sysdirs") || Named(s, ".sysdirslen") ==> g == f)
  {
    hide ReadAt, ChangePath, ChangeSlots, Pad, NewPath, SlotsRewritten, Named;
    KindNames(s);
    if KindOf(s) == LdSoCache {
      EmptyPath(f, s.offset, s.size, p);
      if s.size > 0 { PathIs(f, s.offset, s.size, p); }
    } else if KindOf(s) == GccRelocPrefix {
      EmptySlots(f, f, s.offset, s.size, p);
      if s.size > 0 {
        SlotsAre(f, s.offset, s.size, 0, p);
        var g, end := ChangeSlots(f, s.offset, s.size, 0, p).0, SlotsEnd(s.size, 0);
        ReadSame(f, g, s.offset, end, s.offset + end, s.size - end);
        OnlyMore(f, g, s.offset, end, s.size);
      }
    }
  }

  lemma EmptyPath(f: seq<Byte>, pos: nat, size: nat, p: seq<Byte>)
    ensures size == 0 ==> ChangePath(f, pos, size, p) == (f, Exit)
  {
  }

  lemma EmptySlots(f: seq<Byte>, g: seq<Byte>, pos: nat, size: nat, p: seq<Byte>)
    ensures size < SLOT ==> ChangeSlots(f, pos, size, 0, p) == (f, Done) && SlotsRewritten(f, g, pos, size, 0, p)
  {
  }

  lemma RewrittenSame(f: seq<Byte>, f': seq<Byte>, g: seq<Byte>, g': seq<Byte>, s: Section, p: seq<Byte>)
    requires |f| == |f'| && |g| == |g'| && Rewritten(f, g, s, p)
    requires ReadAt(f, s.offset, Extent(s)) == ReadAt(f', s.offset, Extent(s))
    requires ReadAt(g, s.offset, Extent(s)) == ReadAt(g', s.offset, Extent(s))
    ensures Rewritten(f', g', s, p)
  {
    hide ReadAt, NewPath, Pad, SlotsRewritten, SlotsEnd, Named;
    if Named(s, ".gccrelocprefix") {
      SlotsSame(f, f', g, g', s.offset, s.size, 0, p);
      var end := SlotsEnd(s.size, 0);
      ReadPart(f, f', s.offset, s.size, s.offset + end, s.size - end);
      ReadPart(g, g', s.offset, s.size, s.offset + end, s.size - end);
    }
  }

  /** A run over sections does not change what lies apart from all of them. */
  lemma {:induction false} ListReads(f: seq<Byte>, ss: seq<Section>, p: seq<Byte>, found: Found, b: nat, k: nat)
    requires Spread(|f|, ss) && forall j :: 0 <= j < |ss| ==> Apart(ss[j].offset, Extent(ss[j]), b, k)
    ensures ReadAt(ChangeList(f, ss, p, found).0, b, k) == ReadAt(f, b, k)
    ensures |ChangeList(f, ss, p, found).0| == |f| && ChangeList(f, ss, p, found).2 != Crash
    decreases |ss|
  {
    hide ReadAt, ChangeSection, Rewritten, FoundBy, Extent;
    if ss != [] {
      var (g, found', out) := ChangeSection(f, ss[0], p, found);
      SectionIs(f, ss[0], p, found);
      ReadSame(f, g, ss[0].offset, Extent(ss[0]), b, k);
      if out == Done { ListReads(g, ss[1..], p, found', b, k); }
    }
  }

  /** Every section is rewritten from what it held when the run began. */
  lemma {:induction false} ListRewritten(f: seq<Byte>, ss: seq<Section>, p: seq<Byte>, found: Found)
    requires Spread(|f|, ss) && ChangeList(f, ss, p, found).2 == Done
    ensures forall j :: 0 <= j < |ss| ==> Rewritten(f, ChangeList(f, ss, p, found).0, ss[j], p)
    decreases |ss|
  {
    hide ReadAt, ChangeSection, Rewritten, FoundBy, Extent;
    if ss != [] {
      var s, rest := ss[0], ss[1..];
      var (g, found', _) := ChangeSection(f, s, p, found);
      var h := ChangeList(g, rest, p, found').0;
      SectionIs(f, s, p, found);
      ListRewritten(g, rest, p, found');
      RestApart(s, ss);
      ListReads(g, rest, p, found', s.offset, Extent(s));
      RewrittenSame(f, f, g, h, s, p);
      forall j | 1 <= j < |ss| ensures Rewritten(f, h, ss[j], p) {
        assert ss[j] == rest[j - 1];
        ReadSame(f, g, s.offset, Extent(s), ss[j].offset, Extent(ss[j]));
        RewrittenSame(g, f, h, h, ss[j], p);
      }
    }
  }

  /** The tables of directories are only read. */
  lemma {:induction false} ListKept(f: seq<Byte>, ss: seq<Section>, p: seq<Byte>, found: Found, j: nat)
    requires Spread(|f|, ss) && j < |ss| && (Named(ss[j], ".sysdirs") || Named(ss[j], ".sysdirslen"))
    ensures ReadAt(ChangeList(f, ss, p, found).0, ss[j].offset, ss[j].size) == ReadAt(f, ss[j].offset, ss[j].size)
    decreases |ss|
  {
    hide ReadAt, ChangeSection, Rewritten, FoundBy;
    var s, rest := ss[0], ss[1..];
    var (g, found', out) := ChangeSection(f, s, p, found);
    SectionIs(f, s, p, found);
    RestApart(s, ss);
    if out == Done {
      if j == 0 {
        ListReads(g, rest, p, found', s.offset, Extent(s));
      } else {
        assert ss[j] == rest[j - 1];
        ListKept(g, rest, p, found', j - 1);
        ReadSame(f, g, s.offset, Extent(s), ss[j].offset, Extent(ss[j]));
      }
    } else if j > 0 {
      ReadSame(f, g, s.offset, Extent(s), ss[j].offset, Extent(ss[j]));
    }
  }

  lemma RestApart(s: Section, ss: seq<Section>)
    requires ss != [] && s == ss[0] && forall j :: 1 <= j < |ss| ==> SectionsApart(ss[0], ss[j])
    ensures forall j :: 0 <= j < |ss| - 1 ==> Apart(ss[1..][j].offset, Extent(ss[1..][j]), s.offset, Extent(s))
    ensures forall j :: 1 <= j < |ss| ==> Apart(s.offset, Extent(s), ss[j].offset, Extent(ss[j]))
  {
    forall j | 0 <= j < |ss| - 1 ensures Apart(ss[1..][j].offset, Extent(ss[1..][j]), s.offset, Extent(s)) {
      assert ss[1..][j] == ss[j + 1] && SectionsApart(ss[0], ss[j + 1]);
    }
  }

  /** What a run finds is there when it ends. */
  lemma {:induction false} ListFound(f: seq<Byte>, ss: seq<Section>, p: seq<Byte>, found: Found)
    requires Spread(|f|, ss) && ChangeList(f, ss, p, found).2 == Done
    ensures ChangeList(f, ss, p, found).1 == FoundAll(ChangeList(f, ss, p, found).0, ss, found)
    decreases |ss|
  {
    hide ReadAt, ChangeSection, Rewritten;
    if ss != [] {
      var s, rest := ss[0], ss[1..];
      var (g, found', _) := ChangeSection(f, s, p, found);
      SectionIs(f, s, p, found);
      ListFound(g, rest, p, found');
      RestApart(s, ss);
      ListReads(g, rest, p, found', s.offset, Extent(s));
    }
  }

  /** A second run over the sections changes nothing. */
  lemma {:induction false} ListAgain(f: seq<Byte>, g: seq<Byte>, ss: seq<Section>, p: seq<Byte>, found: Found)
    requires Spread(|g|, ss) && GoodPrefix(p) && forall j :: 0 <= j < |ss| ==> Rewritten(f, g, ss[j], p)
    ensures ChangeList(g, ss, p, found) == (g, FoundAll(g, ss, found), Done)
    decreases |ss|
  {
    hide ReadAt, ChangeSection, GoodPrefix, Rewritten, FoundBy, Fits;
    if ss != [] {
      SectionAgain(f, g, ss[0], p, found);
      ListAgain(f, g, ss[1..], p, FoundBy(g, ss[0], found));
    }
  }

  lemma SectionAgain(f: seq<Byte>, g: seq<Byte>, s: Section, p: seq<Byte>, found: Found)
    requires Fits(|g|, s) && GoodPrefix(p) && Rewritten(f, g, s, p)
    ensures ChangeSection(g, s, p, found) == (g, FoundBy(g, s, found), Done)
  {
    hide ReadAt, ChangePath, ChangeSlots, Pad, NewPath, GoodPrefix, Settled, Named;
    KindNames(s);
    if KindOf(s) == LdSoCache {
      NewIsSettled(ReadAt(f, s.offset, s.size), s.size, p);
      SettledPath(g, s.offset, s.size, p);
    } else if KindOf(s) == GccRelocPrefix {
      EmptySlots(g, g, s.offset, s.size, p);
      if s.size > 0 { SettledSlots(f, g, s.offset, s.size, 0, p); }
    }
  }

  // ---- the tables of directories --------------------------------------------------------------

  /** No path is empty or has a NUL in it. */
  predicate Proper(paths: seq<seq<Byte>>) { forall i :: 0 <= i < |paths| ==> paths[i] != [] && 0 !in paths[i] }

  lemma {:induction false} NulIs(s: seq<Byte>, k: seq<Byte>)
    requires 0 !in s
    ensures Nul(s + [0] + k) == |s| && (s + [0] + k)[..|s|] == s && (s + [0] + k)[|s| + 1..] == k
    decreases |s|
  {
    if s != [] {
      assert (s + [0] + k)[1..] == s[1..] + [0] + k;
      NulIs(s[1..], k);
    }
  }

  lemma SplitStep(s: seq<Byte>, k: seq<Byte>)
    requires 0 !in s
    ensures Split(s + [0] + k) == [s] + Split(k)
  {
    NulIs(s, k);
  }

  lemma SplitZeros(n: nat)
    ensures Leading(Split(Zeros(n))) == []
  {
    assert Nul(Zeros(n)) == 0;
    assert Zeros(n)[..0] == [];
  }

  lemma Regroup(x: seq<Byte>, y: seq<Byte>, z: seq<Byte>)
    ensures x + [0] + y + z == x + [0] + (y + z)
  {
  }

  /** Splitting terminated paths gives them back. */
  lemma {:induction false} SplitIs(paths: seq<seq<Byte>>, n: nat)
    requires Proper(paths)
    ensures Leading(Split(Terminated(paths) + Zeros(n))) == paths
    decreases |paths|
  {
    hide Split, Zeros;
    if paths == [] {
      SplitZeros(n);
      assert Terminated(paths) + Zeros(n) == Zeros(n);
    } else {
      var rest := Terminated(paths[1..]) + Zeros(n);
      Regroup(paths[0], Terminated(paths[1..]), Zeros(n));
      SplitStep(paths[0], rest);
      SplitIs(paths[1..], n);
      assert ([paths[0]] + Split(rest))[1..] == Split(rest);
      assert [paths[0]] + paths[1..] == paths;
    }
  }

  lemma {:induction false} SplitProper(s: seq<Byte>)
    ensures Proper(Leading(Split(s)))
    decreases |s|
  {
    var n := Nul(s);
    if n < |s| {
      SplitProper(s[n + 1..]);
      assert Split(s)[1..] == Split(s[n + 1..]);
    }
  }

  lemma {:induction false} SubProper(s: seq<Byte>, p: seq<Byte>)
    requires GoodPrefix(p) && s != [] && 0 !in s
    ensures Sub(s, p) != [] && 0 !in Sub(s, p)
    decreases |s|
  {
    if MARK <= s {
      if s[|MARK|..] != [] { SubProper(s[|MARK|..], p); }
    } else {
      if s[1..] != [] { SubProper(s[1..], p); }
    }
  }

  lemma {:induction false} SubAllIs(paths: seq<seq<Byte>>, p: seq<Byte>)
    requires GoodPrefix(p) && Proper(paths)
    ensures Proper(SubAll(paths, p)) && SubAll(SubAll(paths, p), p) == SubAll(paths, p)
    ensures forall i :: 0 <= i < |paths| ==> SubAll(paths, p)[i] == Sub(paths[i], p)
    decreases |paths|
  {
    hide GoodPrefix, Sub;
    if paths != [] {
      SubProper(paths[0], p);
      SubTwice(paths[0], p);
      SubAllIs(paths[1..], p);
      assert SubAll(paths, p)[1..] == SubAll(paths[1..], p);
    }
  }

  /** New paths in their table read as themselves, and are not changed again. */
  lemma NewPathsAgain(dirs: seq<Byte>, p: seq<Byte>, size: nat)
    requires GoodPrefix(p)
    ensures var t := Pad(Terminated(NewPaths(dirs, p)), size);
            Leading(Split(t)) == NewPaths(dirs, p) && NewPaths(t, p) == NewPaths(dirs, p)
  {
    hide GoodPrefix, Leading, Split, SubAll;
    var paths := Leading(Split(dirs));
    SplitProper(dirs);
    SubAllIs(paths, p);
    var t := Terminated(SubAll(paths, p));
    var n := if |t| < size then size - |t| else 0;
    assert Pad(t, size) == t + Zeros(n);
    SplitIs(SubAll(paths, p), n);
  }

  /** Entry `i` of a table of numbers of a width. */
  function EntryAt(l: seq<Byte>, w: nat, i: nat): Option<nat> {
    if w * i + w <= |l| then Some(FromLittle(l[w * i..w * i + w])) else None
  }

  /** Entry `i` of the table of lengths is the length of path `i`. */
  lemma {:induction false} LengthsAre(paths: seq<seq<Byte>>, w: nat)
    requires Lengths(paths, w).Some?
    ensures |Lengths(paths, w).value| == w * |paths|
    ensures forall i :: 0 <= i < |paths| ==> EntryAt(Lengths(paths, w).value, w, i) == Some(|paths[i]|)
    decreases |paths|
  {
    if paths != [] {
      var l, rest := Lengths(paths, w).value, Lengths(paths[1..], w).value;
      LengthsAre(paths[1..], w);
      LittleRoundTrip(|paths[0]|, w);
      assert l == Little(|paths[0]|, w) + rest;
      assert |l| == w * |paths| by { assert w * |paths| == w + w * (|paths| - 1); }
      forall i | 0 <= i < |paths| ensures EntryAt(l, w, i) == Some(|paths[i]|) { EntryIs(paths, w, l, rest, i); }
    }
  }

  lemma EntryIs(paths: seq<seq<Byte>>, w: nat, l: seq<Byte>, rest: seq<Byte>, i: nat)
    requires i < |paths| && l == Little(|paths[0]|, w) + rest && |rest| == w * (|paths| - 1)
    requires FromLittle(Little(|paths[0]|, w)) == |paths[0]|
    requires i > 0 ==> EntryAt(rest, w, i - 1) == Some(|paths[i]|)
    ensures EntryAt(l, w, i) == Some(|paths[i]|)
  {
    if i == 0 {
      assert l[0..w] == Little(|paths[0]|, w);
    } else {
      assert w * i == w + w * (i - 1);
      EntryBehind(Little(|paths[0]|, w), rest, w * (i - 1), w);
    }
  }

  lemma EntryBehind(a: seq<Byte>, rest: seq<Byte>, at: nat, w: nat)
    requires |a| == w && at + w <= |rest|
    ensures (a + rest)[w + at..w + at + w] == rest[at..at + w]
  {
  }

  // ---- writing the tables ---------------------------------------------------------------------

  /** The last section of a name. */
  function LastOf(ss: seq<Section>, name: string): (j: Option<nat>)
    ensures j.Some? ==> j.value < |ss| && Named(ss[j.value], name)
    ensures forall i :: (if j.Some? then j.value + 1 else 0) <= i < |ss| ==> !Named(ss[i], name)
  {
    if ss == [] then None
    else
      var r := LastOf(ss[1..], name);
      if r.Some? then Some(r.value + 1) else if Named(ss[0], name) then Some(0) else None
  }

  lemma {:induction false} FoundAllIs(f: seq<Byte>, ss: seq<Section>, found: Found)
    ensures var d, l := LastOf(ss, ".sysdirs"), LastOf(ss, ".sysdirslen");
            FoundAll(f, ss, found) ==
            Found(if d.Some? then Some(ReadAt(f, ss[d.value].offset, ss[d.value].size)) else found.dirs,
                  if d.Some? then ss[d.value].offset else found.dirsAt,
                  if d.Some? then ss[d.value].size else found.dirsSize,
                  if l.Some? then Some(ReadAt(f, ss[l.value].offset, ss[l.value].size)) else found.lens,
                  if l.Some? then ss[l.value].offset else found.lensAt)
    decreases |ss|
  {
    hide ReadAt, Named;
    if ss != [] {
      KindNames(ss[0]);
      FoundAllIs(f, ss[1..], FoundBy(f, ss[0], found));
    }
  }

  lemma {:induction false} SpreadAt(n: nat, ss: seq<Section>, i: nat, j: nat)
    requires Spread(n, ss) && i < |ss| && j < |ss|
    ensures Fits(n, ss[i]) && (i != j ==> SectionsApart(ss[i], ss[j]))
    decreases |ss|
  {
    if i > 0 && j > 0 {
      SpreadAt(n, ss[1..], i - 1, j - 1);
    } else if i > 0 {
      SpreadAt(n, ss[1..], i - 1, i - 1);
    }
  }

  /** The new paths fit into the section they are for, and so do their lengths. */
  predicate TablesFit(f: seq<Byte>, ss: seq<Section>, wide: bool, p: seq<Byte>) {
    var d, l := LastOf(ss, ".sysdirs"), LastOf(ss, ".sysdirslen");
    d.Some? && l.Some? ==>
      var paths := NewPaths(ReadAt(f, ss[d.value].offset, ss[d.value].size), p);
      |Terminated(paths)| <= ss[d.value].size && (if wide then 8 else 4) * |paths| <= ss[l.value].size
  }

  /** After a run, the last table of directories holds the new paths, and the last table of lengths their lengths. */
  predicate TablesAgree(f: seq<Byte>, g: seq<Byte>, ss: seq<Section>, wide: bool, p: seq<Byte>) {
    var d, l := LastOf(ss, ".sysdirs"), LastOf(ss, ".sysdirslen");
    d.Some? ==>
      && l.Some?
      && var s, t := ss[d.value], ss[l.value];
         var paths := NewPaths(ReadAt(f, s.offset, s.size), p);
         var lens := Lengths(paths, if wide then 8 else 4);
         && lens.Some? && ReadAt(g, s.offset, s.size) == Pad(Terminated(paths), s.size)
         && ReadAt(g, t.offset, |lens.value|) == lens.value
  }

  /** The tables, when they are written, and everything apart from them. */
  lemma DirsAre(f: seq<Byte>, ss: seq<Section>, wide: bool, p: seq<Byte>)
    requires Spread(|f|, ss) && TablesFit(f, ss, wide, p)
    requires ChangeDirs(f, wide, p, FoundAll(f, ss, NOTHING)).1 == Done
    ensures var g := ChangeDirs(f, wide, p, FoundAll(f, ss, NOTHING)).0;
            && TablesAgree(f, g, ss, wide, p) && |g| == |f|
            && forall b: nat, k: nat :: ApartFromTables(ss, b, k) ==> ReadAt(g, b, k) == ReadAt(f, b, k)
  {
    hide ReadAt, WriteAt, NewPaths, Lengths, Terminated, Pad, Spread, Only;
    var found := FoundAll(f, ss, NOTHING);
    FoundAllIs(f, ss, NOTHING);
    var d, l := LastOf(ss, ".sysdirs"), LastOf(ss, ".sysdirslen");
    if d.Some? {
      var s, t := ss[d.value], ss[l.value];
      SpreadAt(|f|, ss, d.value, l.value);
      SpreadAt(|f|, ss, l.value, d.value);
      var paths := NewPaths(found.dirs.value, p);
      LengthsAre(paths, LengthWidth(wide));
      var dirs, lens := Pad(Terminated(paths), s.size), Lengths(paths, LengthWidth(wide)).value;
      TwoWrites(f, s, t, dirs, lens);
      var g := WriteAt(WriteAt(f, s.offset, dirs), t.offset, lens);
      forall b: nat, k: nat | ApartFromTables(ss, b, k) ensures ReadAt(g, b, k) == ReadAt(f, b, k) {
        TwoWritesApart(f, s, t, dirs, lens, b, k);
      }
    }
  }

  predicate ApartFromTables(ss: seq<Section>, b: nat, k: nat) {
    var d, l := LastOf(ss, ".sysdirs"), LastOf(ss, ".sysdirslen");
    && (d.Some? ==> Apart(ss[d.value].offset, ss[d.value].size, b, k))
    && (l.Some? ==> Apart(ss[l.value].offset, ss[l.value].size, b, k))
  }

  predicate Room(n: nat, s: Section, bs: seq<Byte>) { |bs| <= s.size && (s.offset + s.size <= n || s.size == 0) }

  lemma TwoWrites(f: seq<Byte>, s: Section, t: Section, a: seq<Byte>, b: seq<Byte>)
    requires Room(|f|, s, a) && Room(|f|, t, b) && |a| == s.size && Apart(s.offset, s.size, t.offset, t.size)
    ensures var g := WriteAt(WriteAt(f, s.offset, a), t.offset, b);
            |g| == |f| && ReadAt(g, s.offset, s.size) == a && ReadAt(g, t.offset, |b|) == b
  {
    var h := WriteAt(f, s.offset, a);
    var g := WriteAt(h, t.offset, b);
    EmptyRead(f, s.offset);
    EmptyRead(g, t.offset);
    EmptyRead(g, s.offset);
    if a != [] { WriteIs(f, s.offset, a); }
    if b != [] {
      WriteIs(h, t.offset, b);
      ReadSame(h, g, t.offset, |b|, s.offset, s.size);
    }
  }

  lemma EmptyRead(f: seq<Byte>, pos: nat)
    ensures ReadAt(f, pos, 0) == []
  {
  }

  lemma TwoWritesApart(f: seq<Byte>, s: Section, t: Section, a: seq<Byte>, b: seq<Byte>, at: nat, k: nat)
    requires Room(|f|, s, a) && Room(|f|, t, b)
    requires Apart(s.offset, s.size, at, k) && Apart(t.offset, t.size, at, k)
    ensures ReadAt(WriteAt(WriteAt(f, s.offset, a), t.offset, b), at, k) == ReadAt(f, at, k)
  {
    hide ReadAt;
    var h := WriteAt(f, s.offset, a);
    var g := WriteAt(h, t.offset, b);
    if a != [] {
      WriteIs(f, s.offset, a);
      OnlyLength(f, h, s.offset, |a|);
      ReadSame(f, h, s.offset, |a|, at, k);
    }
    if b != [] {
      WriteIs(h, t.offset, b);
      ReadSame(h, g, t.offset, |b|, at, k);
    }
  }

  /** Tables that agree are written as they are. */
  lemma DirsAgain(f: seq<Byte>, g: seq<Byte>, ss: seq<Section>, wide: bool, p: seq<Byte>)
    requires GoodPrefix(p) && Spread(|g|, ss) && TablesAgree(f, g, ss, wide, p) && TablesFit(f, ss, wide, p)
    ensures ChangeDirs(g, wide, p, FoundAll(g, ss, NOTHING)) == (g, Done)
  {
    hide ReadAt, WriteAt, NewPaths, Lengths, Terminated, Pad, Spread, GoodPrefix;
    FoundAllIs(g, ss, NOTHING);
    var d, l := LastOf(ss, ".sysdirs"), LastOf(ss, ".sysdirslen");
    if d.Some? {
      var s, t := ss[d.value], ss[l.value];
      SpreadAt(|g|, ss, d.value, l.value);
      SpreadAt(|g|, ss, l.value, d.value);
      var was := ReadAt(f, s.offset, s.size);
      var paths := NewPaths(was, p);
      NewPathsAgain(was, p, s.size);
      LengthsAre(paths, LengthWidth(wide));
      var lens := Lengths(paths, LengthWidth(wide)).value;
      WriteSame(g, s.offset, ReadAt(g, s.offset, s.size), s.size);
      WriteSame(g, t.offset, lens, t.size);
    }
  }

  lemma WriteSame(g: seq<Byte>, pos: nat, bs: seq<Byte>, n: nat)
    requires ReadAt(g, pos, |bs|) == bs && |bs| <= n && (pos + n <= |g| || n == 0)
    ensures WriteAt(g, pos, bs) == g
  {
    if bs != [] { WriteBack(g, pos, |bs|); }
  }

  // ---- how a run ends -------------------------------------------------------------------------

  /** The new path is shorter than the place it is for. */
  predicate PathFits(f: seq<Byte>, pos: nat, size: nat, p: seq<Byte>) { |NewPath(ReadAt(f, pos, size), p)| < size }

  /** The same for every whole slot from one on. */
  predicate SlotsFit(f: seq<Byte>, start: nat, size: nat, offset: nat, p: seq<Byte>)
    decreases if offset + SLOT <= size then size - offset else 0
  {
    offset + SLOT <= size ==> PathFits(f, start + offset, SLOT, p) && SlotsFit(f, start, size, offset + SLOT, p)
  }

  predicate SectionFits(f: seq<Byte>, s: Section, p: seq<Byte>) {
    && (Named(s, ".ldsocache") ==> PathFits(f, s.offset, s.size, p))
    && (Named(s, ".gccrelocprefix") ==> SlotsFit(f, s.offset, s.size, 0, p))
  }

  /** Every path that is written in its place fits. */
  predicate PathsFit(f: seq<Byte>, ss: seq<Section>, p: seq<Byte>) {
    forall j :: 0 <= j < |ss| ==> SectionFits(f, ss[j], p)
  }

  lemma {:induction false} SlotsFitSame(f: seq<Byte>, g: seq<Byte>, start: nat, size: nat, offset: nat, p: seq<Byte>)
    requires |f| == |g| && offset <= size && ReadAt(f, start + offset, size - offset) == ReadAt(g, start + offset, size - offset)
    ensures SlotsFit(f, start, size, offset, p) == SlotsFit(g, start, size, offset, p)
    decreases size - offset
  {
    hide ReadAt;
    if offset + SLOT <= size {
      var at, n := start + offset, size - offset;
      ReadPart(f, g, at, n, at, SLOT);
      ReadPart(f, g, at, n, at + SLOT, n - SLOT);
      SlotsFitSame(f, g, start, size, offset + SLOT, p);
    }
  }

  lemma SectionFitsSame(f: seq<Byte>, g: seq<Byte>, s: Section, p: seq<Byte>)
    requires |f| == |g| && ReadAt(f, s.offset, Extent(s)) == ReadAt(g, s.offset, Extent(s))
    ensures SectionFits(f, s, p) == SectionFits(g, s, p)
  {
    hide ReadAt;
    if Named(s, ".gccrelocprefix") { SlotsFitSame(f, g, s.offset, s.size, 0, p); }
  }

  lemma PathOutcome(f: seq<Byte>, pos: nat, size: nat, p: seq<Byte>)
    ensures ChangePath(f, pos, size, p).1 == if PathFits(f, pos, size, p) then Done else Exit
  {
  }

  lemma {:induction false} SlotsOutcome(f: seq<Byte>, start: nat, size: nat, offset: nat, p: seq<Byte>)
    requires start + size <= |f| && offset <= size
    ensures ChangeSlots(f, start, size, offset, p).1 == if SlotsFit(f, start, size, offset, p) then Done else Exit
    decreases size - offset
  {
    hide ReadAt, ChangePath, PathFits;
    if offset + SLOT <= size {
      var (g, out) := ChangePath(f, start + offset, SLOT, p);
      PathOutcome(f, start + offset, SLOT, p);
      PathIs(f, start + offset, SLOT, p);
      OnlyLength(f, g, start + offset, SLOT);
      if out == Done {
        ReadSame(f, g, start + offset, SLOT, start + offset + SLOT, size - offset - SLOT);
        SlotsFitSame(f, g, start, size, offset + SLOT, p);
        SlotsOutcome(g, start, size, offset + SLOT, p);
      }
    }
  }

  lemma SectionOutcome(f: seq<Byte>, s: Section, p: seq<Byte>, found: Found)
    requires Fits(|f|, s)
    ensures ChangeSection(f, s, p, found).2 == if SectionFits(f, s, p) then Done else Exit
  {
    hide ChangePath, ChangeSlots, PathFits, SlotsFit, ReadAt, Named;
    KindNames(s);
    if KindOf(s) == LdSoCache {
      PathOutcome(f, s.offset, s.size, p);
    } else if KindOf(s) == GccRelocPrefix {
      SmallSlots(f, s.offset, s.size, p);
      if s.size > 0 { SlotsOutcome(f, s.offset, s.size, 0, p); }
    }
  }

  lemma SmallSlots(f: seq<Byte>, pos: nat, size: nat, p: seq<Byte>)
    ensures size < SLOT ==> ChangeSlots(f, pos, size, 0, p).1 == Done && SlotsFit(f, pos, size, 0, p)
  {
  }

  /** A run over sections ends normally exactly if every path fits where it is written, and with an exit otherwise. */
  lemma {:induction false} ListOutcome(f: seq<Byte>, ss: seq<Section>, p: seq<Byte>, found: Found)
    requires Spread(|f|, ss)
    ensures ChangeList(f, ss, p, found).2 == if PathsFit(f, ss, p) then Done else Exit
    decreases |ss|
  {
    hide ReadAt, ChangeSection, SectionFits, Extent, Rewritten, FoundBy;
    if ss != [] {
      var s, rest := ss[0], ss[1..];
      var (g, found', out) := ChangeSection(f, s, p, found);
      SectionIs(f, s, p, found);
      SectionOutcome(f, s, p, found);
      if out == Done {
        OnlyLength(f, g, s.offset, Extent(s));
        RestApart(s, ss);
        ListOutcome(g, rest, p, found');
        forall j | 0 <= j < |rest| ensures SectionFits(f, ss[j + 1], p) == SectionFits(g, rest[j], p) {
          ReadSame(f, g, s.offset, Extent(s), ss[j + 1].offset, Extent(ss[j + 1]));
          SectionFitsSame(f, g, ss[j + 1], p);
        }
        PathsFitCons(f, g, ss, p);
      }
    }
  }

  lemma PathsFitCons(f: seq<Byte>, g: seq<Byte>, ss: seq<Section>, p: seq<Byte>)
    requires ss != [] && forall j :: 0 <= j < |ss| - 1 ==> SectionFits(f, ss[j + 1], p) == SectionFits(g, ss[1..][j], p)
    ensures PathsFit(f, ss, p) <==> SectionFits(f, ss[0], p) && PathsFit(g, ss[1..], p)
  {
    hide SectionFits;
    if SectionFits(f, ss[0], p) && PathsFit(g, ss[1..], p) {
      forall j | 0 <= j < |ss| ensures SectionFits(f, ss[j], p) {
        if j > 0 { assert SectionFits(g, ss[1..][j - 1], p); }
      }
    }
    if PathsFit(f, ss, p) {
      forall j | 0 <= j < |ss| - 1 ensures SectionFits(g, ss[1..][j], p) { assert SectionFits(f, ss[j + 1], p); }
    }
  }

  /** If there is a table of directories there is one of lengths, and the lengths of the new paths can be packed. */
  predicate TablesThere(f: seq<Byte>, ss: seq<Section>, wide: bool, p: seq<Byte>) {
    var d, l := LastOf(ss, ".sysdirs"), LastOf(ss, ".sysdirslen");
    d.Some? ==>
      l.Some? && Lengths(NewPaths(ReadAt(f, ss[d.value].offset, ss[d.value].size), p), if wide then 8 else 4).Some?
  }

  lemma DirsOutcome(f: seq<Byte>, ss: seq<Section>, wide: bool, p: seq<Byte>)
    ensures ChangeDirs(f, wide, p, FoundAll(f, ss, NOTHING)).1 == if TablesThere(f, ss, wide, p) then Done else Crash
    ensures !TablesThere(f, ss, wide, p) ==> ChangeDirs(f, wide, p, FoundAll(f, ss, NOTHING)).0 == f
  {
    hide ReadAt, NewPaths, Lengths;
    FoundAllIs(f, ss, NOTHING);
  }
}
