/** What `relocate_sdk` does, in terms of the names of sections and of the texts in a file. */
module RelocationNames {
  import opened Options
  import opened Bytes
  import opened Relocation
  import opened RelocationProofs
  import opened RelocationRuns
  import opened RelocationWhole

  // ---- texts ----------------------------------------------------------------------------------

  /** The bytes from a position on are the characters of a text. */
  predicate TextAt(f: seq<Byte>, at: nat, text: string) {
    at + |text| <= |f| && forall i :: 0 <= i < |text| ==> f[at + i] == text[i] as nat
  }

  /** The first occurrence of the mark is replaced, and what is behind it is substituted on its own. */
  lemma MarkIsReplaced(s: seq<Byte>, at: nat, p: seq<Byte>)
    requires TextAt(s, at, "##DEFAULT_INSTALL_DIR##") && forall i :: 0 <= i < at ==> !TextAt(s, i, "##DEFAULT_INSTALL_DIR##")
    ensures Sub(s, p) == s[..at] + p + Sub(s[at + 23..], p)
  {
    var a, b := s[..at], s[at + 23..];
    MarkText(s, at);
    assert s == a + s[at..at + 23] + b;
    forall i | 0 <= i < |a| ensures !MarkAt(a + MARK + b, i) {
      if MarkAt(s, i) { MarkIsText(s, i); }
    }
    SubReplaces(a, b, p);
  }

  lemma MarkText(s: seq<Byte>, at: nat)
    requires TextAt(s, at, "##DEFAULT_INSTALL_DIR##")
    ensures s[at..at + 23] == MARK
  {
    MarkBytes();
    var c := s[at..at + 23];
    assert forall i :: 0 <= i < 23 ==> c[i] == s[at + i];
  }

  lemma MarkBytes()
    ensures |MARK| == 23 && forall i :: 0 <= i < 23 ==> MARK[i] == "##DEFAULT_INSTALL_DIR##"[i] as nat
  {
  }

  lemma MarkIsText(s: seq<Byte>, at: nat)
    requires MarkAt(s, at)
    ensures TextAt(s, at, "##DEFAULT_INSTALL_DIR##")
  {
    MarkBytes();
    var c := s[at..];
    assert forall i :: 0 <= i < 23 ==> c[i] == s[at + i];
  }

  /** A text without the mark stays. */
  lemma {:induction false} NoMarkStays(s: seq<Byte>, p: seq<Byte>)
    requires forall i :: 0 <= i < |s| ==> !TextAt(s, i, "##DEFAULT_INSTALL_DIR##")
    ensures Sub(s, p) == s
    decreases |s|
  {
    if s != [] {
      if MARK <= s {
        assert s[0..] == s && MarkAt(s, 0);
        MarkIsText(s, 0);
      }
      forall i | 0 <= i < |s| - 1 ensures !TextAt(s[1..], i, "##DEFAULT_INSTALL_DIR##") {
        TextBehind(s, i, "##DEFAULT_INSTALL_DIR##");
      }
      NoMarkStays(s[1..], p);
    }
  }

  lemma TextBehind(s: seq<Byte>, i: nat, text: string)
    requires s != []
    ensures TextAt(s[1..], i, text) <==> TextAt(s, i + 1, text)
  {
    var t := s[1..];
    if TextAt(t, i, text) {
      forall x | 0 <= x < |text| ensures s[i + 1 + x] == text[x] as nat { assert t[i + x] == text[x] as nat; }
    }
    if TextAt(s, i + 1, text) {
      forall x | 0 <= x < |text| ensures t[i + x] == text[x] as nat { assert s[i + 1 + x] == text[x] as nat; }
    }
  }

  /** Stripping takes away the NULs at the end, and only those. */
  lemma {:induction false} StripIs(s: seq<Byte>)
    ensures Strip(s) <= s && (Strip(s) != [] ==> Strip(s)[|Strip(s)| - 1] != 0)
    ensures forall i :: |Strip(s)| <= i < |s| ==> s[i] == 0
    decreases |s|
  {
    if s != [] && s[|s| - 1] == 0 { StripIs(s[..|s| - 1]); }
  }

  /** The stretch of a file holds a path and NULs behind it. */
  predicate HoldsPath(f: seq<Byte>, at: nat, size: nat, path: seq<Byte>) {
    && |path| < size && at + size <= |f|
    && f[at..at + |path|] == path && forall i :: at + |path| <= i < at + size ==> f[i] == 0
  }

  lemma PaddedHolds(f: seq<Byte>, at: nat, size: nat, path: seq<Byte>)
    requires ReadAt(f, at, size) == Pad(path, size) && |path| < size
    ensures HoldsPath(f, at, size, path)
  {
    var c := ReadAt(f, at, size);
    assert |c| == size && c == f[at..at + size];
    assert f[at..at + |path|] == c[..|path|];
    assert forall i :: at <= i < at + size ==> f[i] == c[i - at];
  }

  // ---- the interpreter ------------------------------------------------------------------------

  /** The interpreter is the first program header of type 3, PT_INTERP. */
  lemma {:induction false} FirstOfType3(f: seq<Byte>, h: Header, i: nat) returns (k: nat)
    requires i <= h.phnum && FindInterpreter(f, h, i).1 == Done
    ensures i <= k <= h.phnum
    ensures forall j :: i <= j < k ==> ProgramAt(f, h, j).Some? && ProgramAt(f, h, j).value.ptype != 3
    ensures var p := FindInterpreter(f, h, i).0;
            if k == h.phnum then p == None else p == ProgramAt(f, h, k) && p.Some? && p.value.ptype == 3
    decreases h.phnum - i
  {
    hide ProgramAt;
    if i == h.phnum || ProgramAt(f, h, i).value.ptype == 3 { k := i; } else { k := FirstOfType3(f, h, i + 1); }
  }

  /** A path of the host. */
  predicate HostPath(f: seq<Byte>, at: nat) {
    || TextAt(f, at, "/lib/") || TextAt(f, at, "/lib64/") || TextAt(f, at, "/lib32/")
    || TextAt(f, at, "/usr/lib32/") || TextAt(f, at, "/usr/lib64/")
  }

  lemma StartsWith(f: seq<Byte>, at: nat, n: nat, text: string)
    requires ByteString(text) && 0 < |text| <= n
    ensures ToBytes(text) <= ReadAt(f, at, n) <==> TextAt(f, at, text)
  {
    var c, b := ReadAt(f, at, n), ToBytes(text);
    assert forall i :: 0 <= i < |c| ==> c[i] == f[at + i];
    if b <= c {
      forall i | 0 <= i < |text| ensures f[at + i] == text[i] as nat { assert c[i] == b[i]; }
    }
    if TextAt(f, at, text) { assert c[..|text|] == b; }
  }

  lemma HostPathIs(f: seq<Byte>, at: nat)
    ensures IsLib(ReadAt(f, at, 11)) <==> HostPath(f, at)
  {
    StartsWith(f, at, 11, "/lib/");
    StartsWith(f, at, 11, "/lib64/");
    StartsWith(f, at, 11, "/lib32/");
    StartsWith(f, at, 11, "/usr/lib32/");
    StartsWith(f, at, 11, "/usr/lib64/");
  }

  /** After a run the interpreter is the new one if there is room for it, and what it was if there is not or if it is
      the host's own. */
  lemma InterpreterByText(f: seq<Byte>, wide: bool, p: seq<Byte>, dl: seq<Byte>)
    requires WellLaid(f, wide) && TablesFit(f, SectionsOf(f, ParseHeader(f, wide)), wide, p) && Completes(f, wide, p)
    ensures var i := FindInterpreter(f, ParseHeader(f, wide), 0).0; var g := Relocate(f, wide, p, dl).0;
            i.Some? ==>
              var at, n := i.value.offset, i.value.filesz;
              if HostPath(f, at) || |dl| >= n then ReadAt(g, at, n) == ReadAt(f, at, n) else HoldsPath(g, at, n, dl)
  {
    hide ReadAt, Relocate, IsLib, SectionsOf, TablesFit, FindInterpreter, WriteAt, SameHeads, HostPath, Pad, HoldsPath;
    var i := FindInterpreter(f, ParseHeader(f, wide), 0).0;
    if i.Some? {
      var at, n := i.value.offset, i.value.filesz;
      var g, e := Relocate(f, wide, p, dl).0, Interpreted(f, wide, dl);
      WindowKept(f, wide, p, dl);
      RelocationIsRight(f, wide, p, dl);
      SameLength(f, g, ParseHeader(f, wide));
      HostPathIs(f, at);
      InterpreterIs(f, i.value, dl);
      OnlyLength(f, e, at, n);
      ReadPart(g, e, at, Window(i.value), at, n);
      if !HostPath(f, at) && |dl| < n {
        WriteIs(f, at, Pad(dl, n));
        PaddedHolds(g, at, n, dl);
      }
    }
  }

  // ---- the sections ---------------------------------------------------------------------------

  /** The sections of a file are all those that its header announces, in the order of their headers. */
  lemma EverySection(f: seq<Byte>, wide: bool)
    requires WellLaid(f, wide)
    ensures var h := ParseHeader(f, wide); var ss := SectionsOf(f, h);
            |ss| == h.shnum && forall j :: 0 <= j < |ss| ==> SectionAt(f, h, NamesOf(f, h), j) == Some(ss[j])
  {
    hide SectionAt, ParseHeader, Clear, FindInterpreter, Spread;
    var h := ParseHeader(f, wide);
    ListedFrom(f, h, NamesOf(f, h), 0);
  }

  lemma {:induction false} ListedFrom(f: seq<Byte>, h: Header, names: seq<Byte>, i: nat)
    requires i <= h.shnum && forall j :: i <= j < h.shnum ==> SectionAt(f, h, names, j).Some?
    ensures var ss := Listed(f, h, names, i);
            |ss| == h.shnum - i && forall j :: 0 <= j < |ss| ==> SectionAt(f, h, names, i + j) == Some(ss[j])
    decreases h.shnum - i
  {
    hide SectionAt;
    if i < h.shnum { ListedFrom(f, h, names, i + 1); }
  }

  /** What a path becomes: the marks replaced, and the NULs at the end stripped. */
  function Becomes(f: seq<Byte>, at: nat, size: nat, p: seq<Byte>): seq<Byte>
    requires at + size <= |f|
  {
    Strip(Sub(f[at..at + size], p))
  }

  /** What is behind the last whole slot. */
  function BehindSlots(f: seq<Byte>, s: Section): seq<Byte> {
    var n := s.size % 4096;
    ReadAt(f, s.offset + (s.size - n), n)
  }

  /** The new path of a stretch is there. */
  predicate NowHolds(f: seq<Byte>, g: seq<Byte>, at: nat, size: nat, p: seq<Byte>) {
    at + size <= |f| && HoldsPath(g, at, size, Becomes(f, at, size, p))
  }

  /** By name: after a run `.ldsocache` holds the new path of the one it held, and `.gccrelocprefix` the new paths of
      those in its slots of 4096 bytes each; what is left behind the last whole slot stays. */
  lemma SectionsByName(f: seq<Byte>, wide: bool, p: seq<Byte>, dl: seq<Byte>, j: nat, k: nat)
    requires WellLaid(f, wide) && TablesFit(f, SectionsOf(f, ParseHeader(f, wide)), wide, p) && Completes(f, wide, p)
    requires j < |SectionsOf(f, ParseHeader(f, wide))|
    ensures var g := Relocate(f, wide, p, dl).0; var s := SectionsOf(f, ParseHeader(f, wide))[j];
            && (Named(s, ".ldsocache") ==> NowHolds(f, g, s.offset, s.size, p))
            && (Named(s, ".gccrelocprefix") && 4096 * k + 4096 <= s.size ==> NowHolds(f, g, s.offset + 4096 * k, 4096, p))
            && (Named(s, ".gccrelocprefix") ==> BehindSlots(g, s) == BehindSlots(f, s))
  {
    hide ReadAt, Relocate, SectionsOf, TablesFit, SlotsRewritten, HoldsPath, Spread, Clear, SameHeads, Sub, Strip, Pad, Named;
    RelocationIsRight(f, wide, p, dl);
    var g, ss := Relocate(f, wide, p, dl).0, SectionsOf(f, ParseHeader(f, wide));
    var s := ss[j];
    SpreadAt(|f|, ss, j, j);
    assert Rewritten(f, g, s, p);
    if Named(s, ".ldsocache") {
      RewrittenHolds(f, g, s.offset, s.size, p);
    }
    if Named(s, ".gccrelocprefix") {
      SlotsEndIs(s.size, 0);
      if 4096 * k + 4096 <= s.size {
        EverySlot(f, g, s.offset, s.size, 0, k, p);
        RewrittenHolds(f, g, s.offset + 4096 * k, 4096, p);
      }
    }
  }

  lemma RewrittenHolds(f: seq<Byte>, g: seq<Byte>, at: nat, size: nat, p: seq<Byte>)
    requires PathRewritten(f, g, at, size, p)
    ensures size > 0 && (at + size <= |f| ==> HoldsPath(g, at, size, Becomes(f, at, size, p)))
  {
    hide Sub, Strip;
    if at + size <= |f| {
      assert ReadAt(f, at, size) == f[at..at + size];
      PaddedHolds(g, at, size, NewPath(ReadAt(f, at, size), p));
    }
  }

  lemma {:induction false} SlotsEndIs(size: nat, offset: nat)
    requires offset <= size && offset % 4096 == 0
    ensures SlotsEnd(size, offset) == size - size % 4096
    decreases size - offset
  {
    if offset + 4096 <= size { SlotsEndIs(size, offset + 4096); }
  }

  // ---- names and directories in tables --------------------------------------------------------

  /** A name ends before the first NUL from where it starts. */
  lemma NameIs(names: seq<Byte>, start: nat, k: nat)
    requires start <= k < |names| && names[k] == 0 && forall i :: start <= i < k ==> names[i] != 0
    ensures NameOf(names, start) == names[start..k]
  {
    var text := names[start..];
    assert text[k - start] == 0 && forall i :: 0 <= i < k - start ==> text[i] == names[start + i];
  }

  /** Without one, the last byte of the table is taken for it, and outside the table the name is empty. */
  lemma NameCutShort(names: seq<Byte>, start: nat)
    requires forall i :: start <= i < |names| ==> names[i] != 0
    ensures NameOf(names, start) == if start < |names| then names[start..|names| - 1] else []
  {
    if start <= |names| {
      var text := names[start..];
      assert forall i :: 0 <= i < |text| ==> text[i] == names[start + i];
    }
  }

  /** The directories of a table: those before the first empty one, whatever is behind it, each with the mark replaced. */
  lemma {:induction false} DirectoriesAre(paths: seq<seq<Byte>>, rest: seq<Byte>, p: seq<Byte>)
    requires Proper(paths)
    ensures var ds := NewPaths(Terminated(paths) + [0] + rest, p);
            |ds| == |paths| && forall i :: 0 <= i < |paths| ==> ds[i] == Sub(paths[i], p)
    decreases |paths|
  {
    hide Sub, NewPaths, Proper;
    if paths == [] {
      NoDirectories(rest, p);
    } else {
      DirectoriesAre(paths[1..], rest, p) by { ProperTail(paths); }
      OneMore(paths[0], paths[1..], [0] + rest, p) by { ProperTail(paths); }
      Regrouped(paths[0], Terminated(paths[1..]), rest);
      assert Terminated(paths) == paths[0] + [0] + Terminated(paths[1..]);
      hide Terminated;
    }
  }

  lemma ProperTail(paths: seq<seq<Byte>>)
    requires Proper(paths) && paths != []
    ensures Proper(paths[1..]) && paths[0] != [] && 0 !in paths[0]
  {
  }

  lemma Regrouped(path: seq<Byte>, table: seq<Byte>, rest: seq<Byte>)
    ensures path + [0] + table + [0] + rest == path + [0] + (table + ([0] + rest)) && table + ([0] + rest) == table + [0] + rest
  {
  }

  lemma NoDirectories(rest: seq<Byte>, p: seq<Byte>)
    ensures NewPaths(Terminated([]) + [0] + rest, p) == []
  {
    hide Split;
    assert Terminated([]) + [0] + rest == [] + [0] + rest;
    SplitStep([], rest);
  }

  /** ... or all of them, the last of which may have no NUL behind it. */
  lemma {:induction false} DirectoriesToTheEnd(paths: seq<seq<Byte>>, last: seq<Byte>, p: seq<Byte>)
    requires Proper(paths) && 0 !in last
    ensures var ds := NewPaths(Terminated(paths) + last, p); var all := if last == [] then paths else paths + [last];
            |ds| == |all| && forall i :: 0 <= i < |all| ==> ds[i] == Sub(all[i], p)
    decreases |paths|
  {
    hide Sub;
    if paths == [] {
      assert Terminated(paths) + last == last;
      NoNul(last);
    } else {
      DirectoriesToTheEnd(paths[1..], last, p);
      OneMore(paths[0], paths[1..], last, p);
      assert Terminated(paths) + last == paths[0] + [0] + (Terminated(paths[1..]) + last);
      hide NewPaths, Terminated;
    }
  }

  lemma NoNul(s: seq<Byte>)
    requires 0 !in s
    ensures Split(s) == [s] && Leading([s]) == if s == [] then [] else [s]
  {
    assert Nul(s) == |s|;
  }

  lemma OneMore(path: seq<Byte>, paths: seq<seq<Byte>>, rest: seq<Byte>, p: seq<Byte>)
    requires path != [] && 0 !in path
    ensures NewPaths(path + [0] + (Terminated(paths) + rest), p) == [Sub(path, p)] + NewPaths(Terminated(paths) + rest, p)
  {
    hide Sub, Split;
    var s := Split(Terminated(paths) + rest);
    SplitStep(path, Terminated(paths) + rest);
    assert ([path] + s)[1..] == s;
    assert ([path] + Leading(s))[1..] == Leading(s);
  }
}
