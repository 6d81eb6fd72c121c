/** A file relocated, and relocated again. */
module RelocationWhole {
  import opened Options
  import opened Bytes
  import opened Relocation
  import opened RelocationProofs
  import opened RelocationRuns

  // ---- files whose parts do not overlap -------------------------------------------------------

  /** The section headers from the i-th on; those that cannot be read are left out. */
  function Listed(f: seq<Byte>, h: Header, names: seq<Byte>, i: nat): seq<Section>
    decreases if i < h.shnum then h.shnum - i else 0
  {
    if i >= h.shnum then []
    else
      var s := SectionAt(f, h, names, i);
      (if s.Some? then [s.value] else []) + Listed(f, h, names, i + 1)
  }

  predicate ClearOfProgram(h: Header, i: nat, a: nat, n: nat) { Apart(a, n, h.phoff + i * h.phentsize, h.phentsize) }

  predicate ClearOfSection(h: Header, i: nat, a: nat, n: nat) { Apart(a, n, h.shoff + i * h.shentsize, h.shentsize) }

  /** A stretch apart from the file header, from the two tables of headers and from the names. */
  ghost predicate Clear(f: seq<Byte>, h: Header, a: nat, n: nat) {
    && Apart(a, n, 0, 64) && ClearOfSection(h, h.shstrndx, a, n)
    && (NamesAt(f, h).Some? ==> Apart(a, n, NamesAt(f, h).value.0, NamesAt(f, h).value.1))
    && (forall i :: 0 <= i < h.phnum ==> ClearOfProgram(h, i, a, n))
    && (forall i :: 0 <= i < h.shnum ==> ClearOfSection(h, i, a, n))
  }

  function NamesOf(f: seq<Byte>, h: Header): seq<Byte> {
    var at := NamesAt(f, h);
    if at.Some? then ReadAt(f, at.value.0, at.value.1) else []
  }

  function SectionsOf(f: seq<Byte>, h: Header): seq<Section> { Listed(f, h, NamesOf(f, h), 0) }

  /** What is looked at of an interpreter. */
  function Window(p: Program): nat { if p.filesz < 11 then 11 else p.filesz }

  /** Interpreter and sections lie within the file, apart from each other and from the headers, all of which
      can be read. */
  ghost predicate WellLaid(f: seq<Byte>, wide: bool) {
    |f| >= 64 &&
    var h := ParseHeader(f, wide);
    var ss := SectionsOf(f, h);
    var p := FindInterpreter(f, h, 0);
    && NamesAt(f, h).Some? && p.1 == Done
    && (forall i :: 0 <= i < h.shnum ==> SectionAt(f, h, NamesOf(f, h), i).Some?)
    && Spread(|f|, ss) && (forall j :: 0 <= j < |ss| ==> Clear(f, h, ss[j].offset, Extent(ss[j])))
    && (p.0.Some? ==>
          && p.0.value.offset + p.0.value.filesz <= |f| && Clear(f, h, p.0.value.offset, p.0.value.filesz)
          && (forall j :: 0 <= j < |ss| ==> Apart(ss[j].offset, Extent(ss[j]), p.0.value.offset, Window(p.0.value))))
  }

  /** Two files with the same headers and names. */
  ghost predicate SameHeads(f: seq<Byte>, g: seq<Byte>, h: Header) {
    && |f| == |g| && ReadAt(f, 0, 64) == ReadAt(g, 0, 64)
    && NamesAt(f, h) == NamesAt(g, h) && NamesOf(f, h) == NamesOf(g, h)
    && (forall i :: 0 <= i < h.phnum ==> ProgramAt(f, h, i) == ProgramAt(g, h, i))
    && (forall i :: 0 <= i < h.shnum ==> SectionAt(f, h, NamesOf(f, h), i) == SectionAt(g, h, NamesOf(f, h), i))
  }

  /** A change apart from the headers keeps them. */
  lemma HeadsKept(f: seq<Byte>, g: seq<Byte>, g': seq<Byte>, h: Header, a: nat, n: nat)
    requires SameHeads(f, g, h) && Only(g, g', a, n) && Clear(f, h, a, n)
    ensures SameHeads(f, g', h)
  {
    hide ReadAt, Field, NameOf, Only;
    OnlyLength(g, g', a, n);
    ReadSame(g, g', a, n, 0, 64);
    ReadSame(g, g', a, n, h.shoff + h.shstrndx * h.shentsize, h.shentsize);
    var at := NamesAt(f, h);
    if at.Some? { ReadSame(g, g', a, n, at.value.0, at.value.1); }
    forall i | 0 <= i < h.phnum ensures ProgramAt(f, h, i) == ProgramAt(g', h, i) {
      assert ClearOfProgram(h, i, a, n);
      ReadSame(g, g', a, n, h.phoff + i * h.phentsize, h.phentsize);
    }
    forall i | 0 <= i < h.shnum ensures SectionAt(f, h, NamesOf(f, h), i) == SectionAt(g', h, NamesOf(f, h), i) {
      assert ClearOfSection(h, i, a, n);
      ReadSame(g, g', a, n, h.shoff + i * h.shentsize, h.shentsize);
    }
  }

  // ---- reading headers while the file changes -------------------------------------------------

  lemma {:induction false} ListedIs(f: seq<Byte>, h: Header, names: seq<Byte>, i: nat)
    requires i < h.shnum && SectionAt(f, h, names, i).Some?
    ensures Listed(f, h, names, i) == [SectionAt(f, h, names, i).value] + Listed(f, h, names, i + 1)
  {
  }

  /** The headers read on the way are those of the file at the start. */
  lemma {:induction false} ListIsRun(f: seq<Byte>, g: seq<Byte>, h: Header, p: seq<Byte>, i: nat, found: Found)
    requires SameHeads(f, g, h) && i <= h.shnum
    requires forall k :: i <= k < h.shnum ==> SectionAt(f, h, NamesOf(f, h), k).Some?
    requires var ss := Listed(f, h, NamesOf(f, h), i);
             Spread(|f|, ss) && forall j :: 0 <= j < |ss| ==> Clear(f, h, ss[j].offset, Extent(ss[j]))
    ensures var r := ChangeSections(g, h, NamesOf(f, h), p, i, found);
            r == ChangeList(g, Listed(f, h, NamesOf(f, h), i), p, found) && SameHeads(f, r.0, h)
    decreases h.shnum - i
  {
    hide SectionAt, NamesAt, NamesOf, ProgramAt, ReadAt, ChangeSection, Clear, Extent, Rewritten, FoundBy, Listed;
    var names := NamesOf(f, h);
    if i < h.shnum {
      ListedIs(f, h, names, i);
      var ss := Listed(f, h, names, i);
      var s := ss[0];
      assert ss[1..] == Listed(f, h, names, i + 1);
      assert SectionAt(g, h, names, i) == SectionAt(f, h, names, i);
      var (g', found', out) := ChangeSection(g, s, p, found);
      SectionIs(g, s, p, found);
      HeadsKept(f, g, g', h, s.offset, Extent(s));
      if out == Done { ListIsRun(f, g', h, p, i + 1, found'); }
    } else {
      assert Listed(f, h, names, i) == [] by { ListedEnd(f, h, names, i); }
    }
  }

  lemma ListedEnd(f: seq<Byte>, h: Header, names: seq<Byte>, i: nat)
    ensures i >= h.shnum ==> Listed(f, h, names, i) == []
  {
  }

  lemma {:induction false} ListedSame(f: seq<Byte>, g: seq<Byte>, h: Header, i: nat)
    requires SameHeads(f, g, h)
    ensures Listed(f, h, NamesOf(f, h), i) == Listed(g, h, NamesOf(f, h), i)
    decreases if i < h.shnum then h.shnum - i else 0
  {
    hide SectionAt, NamesAt, NamesOf, ProgramAt, ReadAt;
    if i < h.shnum { ListedSame(f, g, h, i + 1); }
  }

  lemma {:induction false} InterpreterSame(f: seq<Byte>, g: seq<Byte>, h: Header, i: nat)
    requires SameHeads(f, g, h)
    ensures FindInterpreter(f, h, i) == FindInterpreter(g, h, i)
    decreases if i < h.phnum then h.phnum - i else 0
  {
    hide ProgramAt, SectionAt, NamesAt, NamesOf, ReadAt;
    if i < h.phnum { InterpreterSame(f, g, h, i + 1); }
  }

  lemma HeaderSame(f: seq<Byte>, g: seq<Byte>, wide: bool)
    requires |f| >= 64 && |g| >= 64 && ReadAt(f, 0, 64) == ReadAt(g, 0, 64)
    ensures ParseHeader(f, wide) == ParseHeader(g, wide)
  {
  }

  // ---- the interpreter ------------------------------------------------------------------------

  lemma InterpreterIs(f: seq<Byte>, p: Program, dl: seq<Byte>)
    requires p.offset + p.filesz <= |f|
    ensures Only(f, NewInterpreter(f, p, dl), p.offset, p.filesz)
  {
    if !(IsLib(ReadAt(f, p.offset, 11)) || p.filesz == 0 || |dl| >= p.filesz) {
      WriteIs(f, p.offset, Pad(dl, p.filesz));
    }
  }

  /** An interpreter that was changed, or that was not to be, is not changed any more. */
  lemma InterpreterAgain(f: seq<Byte>, g: seq<Byte>, p: Program, dl: seq<Byte>)
    requires p.offset + p.filesz <= |f| == |g|
    requires ReadAt(g, p.offset, Window(p)) == ReadAt(NewInterpreter(f, p, dl), p.offset, Window(p))
    ensures NewInterpreter(g, p, dl) == g
  {
    hide IsLib;
    var e := NewInterpreter(f, p, dl);
    InterpreterIs(f, p, dl);
    ReadPart(g, e, p.offset, Window(p), p.offset, 11);
    ReadPart(g, e, p.offset, Window(p), p.offset, p.filesz);
    if p.filesz != 0 && |dl| < p.filesz && !IsLib(ReadAt(f, p.offset, 11)) {
      WriteIs(f, p.offset, Pad(dl, p.filesz));
      WriteBack(g, p.offset, p.filesz);
    }
  }

  // ---- whole runs -----------------------------------------------------------------------------

  /** The file after the interpreter was looked at. */
  function Interpreted(f: seq<Byte>, wide: bool, dl: seq<Byte>): seq<Byte>
    requires |f| >= 64
  {
    ChangeInterpreter(f, ParseHeader(f, wide), dl).0
  }

  lemma InterpretedIs(f: seq<Byte>, wide: bool, dl: seq<Byte>)
    requires WellLaid(f, wide)
    ensures var h := ParseHeader(f, wide); var e := Interpreted(f, wide, dl); var ss := SectionsOf(f, h);
            && SameHeads(f, e, h)
            && (forall j :: 0 <= j < |ss| ==> ReadAt(e, ss[j].offset, Extent(ss[j])) == ReadAt(f, ss[j].offset, Extent(ss[j])))
  {
    hide ReadAt, NewInterpreter, Field, NameOf, Spread, SectionsOf, Extent, Only;
    var h := ParseHeader(f, wide);
    var p := FindInterpreter(f, h, 0).0;
    if p.Some? {
      InterpreterIs(f, p.value, dl);
      HeadsKept(f, f, Interpreted(f, wide, dl), h, p.value.offset, p.value.filesz);
      var ss := SectionsOf(f, h);
      forall j | 0 <= j < |ss|
        ensures ReadAt(Interpreted(f, wide, dl), ss[j].offset, Extent(ss[j])) == ReadAt(f, ss[j].offset, Extent(ss[j]))
      {
        ReadSame(f, Interpreted(f, wide, dl), p.value.offset, p.value.filesz, ss[j].offset, Extent(ss[j]));
      }
    }
  }

  /** A run is the interpreter, the sections one after the other as they were listed, and the tables. */
  lemma RunIs(f: seq<Byte>, wide: bool, p: seq<Byte>, dl: seq<Byte>)
    requires WellLaid(f, wide)
    ensures var h := ParseHeader(f, wide);
            var (g, found, out) := ChangeList(Interpreted(f, wide, dl), SectionsOf(f, h), p, NOTHING);
            && Relocate(f, wide, p, dl) == (if out != Done then (g, out) else ChangeDirs(g, wide, p, found))
            && SameHeads(f, g, h)
  {
    hide ReadAt, NewInterpreter, Field, NameOf, Spread, Extent, ChangeSections, ChangeList, ChangeDirs, Clear, SectionAt;
    var h := ParseHeader(f, wide);
    InterpretedIs(f, wide, dl);
    ListIsRun(f, Interpreted(f, wide, dl), h, p, 0, NOTHING);
  }

  lemma ProgramByBytes(g: seq<Byte>, g': seq<Byte>, h: Header, i: nat)
    requires ReadAt(g', h.phoff + i * h.phentsize, h.phentsize) == ReadAt(g, h.phoff + i * h.phentsize, h.phentsize)
    ensures ProgramAt(g', h, i) == ProgramAt(g, h, i)
  {
  }

  lemma SectionByBytes(g: seq<Byte>, g': seq<Byte>, h: Header, names: seq<Byte>, i: nat)
    requires ReadAt(g', h.shoff + i * h.shentsize, h.shentsize) == ReadAt(g, h.shoff + i * h.shentsize, h.shentsize)
    ensures SectionAt(g', h, names, i) == SectionAt(g, h, names, i)
  {
    hide NameOf;
  }

  lemma NamesByBytes(g: seq<Byte>, g': seq<Byte>, h: Header)
    requires var at := h.shoff + h.shstrndx * h.shentsize; ReadAt(g', at, h.shentsize) == ReadAt(g, at, h.shentsize)
    ensures NamesAt(g', h) == NamesAt(g, h)
  {
  }

  /** A change of nothing but the tables keeps the headers. */
  lemma HeadsKeptByTables(f: seq<Byte>, g: seq<Byte>, g': seq<Byte>, h: Header, ss: seq<Section>)
    requires SameHeads(f, g, h) && |g'| == |g|
    requires forall j :: 0 <= j < |ss| ==> Clear(f, h, ss[j].offset, Extent(ss[j]))
    requires forall b: nat, k: nat :: ApartFromTables(ss, b, k) ==> ReadAt(g', b, k) == ReadAt(g, b, k)
    ensures SameHeads(f, g', h)
  {
    hide ReadAt, Field, NameOf, ProgramAt, SectionAt, NamesAt, ApartFromTables, Clear;
    TablesClear(f, h, ss);
    NamesByBytes(g, g', h);
    forall i | 0 <= i < h.phnum ensures ProgramAt(f, h, i) == ProgramAt(g', h, i) {
      TablesClearOfProgram(f, h, ss, i);
      ProgramByBytes(g, g', h, i);
    }
    forall i | 0 <= i < h.shnum ensures SectionAt(f, h, NamesOf(f, h), i) == SectionAt(g', h, NamesOf(f, h), i) {
      TablesClearOfSection(f, h, ss, i);
      SectionByBytes(g, g', h, NamesOf(f, h), i);
    }
  }

  lemma TablesClear(f: seq<Byte>, h: Header, ss: seq<Section>)
    requires forall j :: 0 <= j < |ss| ==> Clear(f, h, ss[j].offset, Extent(ss[j]))
    ensures ApartFromTables(ss, 0, 64) && ApartFromTables(ss, h.shoff + h.shstrndx * h.shentsize, h.shentsize)
    ensures NamesAt(f, h).Some? ==> ApartFromTables(ss, NamesAt(f, h).value.0, NamesAt(f, h).value.1)
  {
    hide NamesAt;
    var d, l := LastOf(ss, ".sysdirs"), LastOf(ss, ".sysdirslen");
    assert d.Some? ==> Clear(f, h, ss[d.value].offset, Extent(ss[d.value]));
    assert l.Some? ==> Clear(f, h, ss[l.value].offset, Extent(ss[l.value]));
  }

  lemma TablesClearOfProgram(f: seq<Byte>, h: Header, ss: seq<Section>, i: nat)
    requires i < h.phnum && forall j :: 0 <= j < |ss| ==> Clear(f, h, ss[j].offset, Extent(ss[j]))
    ensures ApartFromTables(ss, h.phoff + i * h.phentsize, h.phentsize)
  {
    var d, l := LastOf(ss, ".sysdirs"), LastOf(ss, ".sysdirslen");
    assert d.Some? ==> ClearOfProgram(h, i, ss[d.value].offset, Extent(ss[d.value]));
    assert l.Some? ==> ClearOfProgram(h, i, ss[l.value].offset, Extent(ss[l.value]));
  }

  lemma TablesClearOfSection(f: seq<Byte>, h: Header, ss: seq<Section>, i: nat)
    requires i < h.shnum && forall j :: 0 <= j < |ss| ==> Clear(f, h, ss[j].offset, Extent(ss[j]))
    ensures ApartFromTables(ss, h.shoff + i * h.shentsize, h.shentsize)
  {
    var d, l := LastOf(ss, ".sysdirs"), LastOf(ss, ".sysdirslen");
    assert d.Some? ==> ClearOfSection(h, i, ss[d.value].offset, Extent(ss[d.value]));
    assert l.Some? ==> ClearOfSection(h, i, ss[l.value].offset, Extent(ss[l.value]));
  }

  /** The tables are as long as before when their turn comes. */
  lemma TablesStillFit(f: seq<Byte>, wide: bool, p: seq<Byte>, dl: seq<Byte>)
    requires WellLaid(f, wide)
    ensures var ss := SectionsOf(f, ParseHeader(f, wide));
            var g := ChangeList(Interpreted(f, wide, dl), ss, p, NOTHING).0;
            && (TablesFit(f, ss, wide, p) ==> TablesFit(g, ss, wide, p))
            && forall x: seq<Byte> :: TablesAgree(g, x, ss, wide, p) ==> TablesAgree(f, x, ss, wide, p)
  {
    hide ReadAt, NewPaths, Terminated, Lengths, Pad, ChangeList, Spread, Clear, SameHeads, SectionsOf, Interpreted;
    var h := ParseHeader(f, wide);
    var ss, e := SectionsOf(f, h), Interpreted(f, wide, dl);
    InterpretedIs(f, wide, dl);
    SameLength(f, e, h);
    var d, l := LastOf(ss, ".sysdirs"), LastOf(ss, ".sysdirslen");
    if d.Some? { ListKept(e, ss, p, NOTHING, d.value); }
    if l.Some? { ListKept(e, ss, p, NOTHING, l.value); }
  }

  lemma SameLength(f: seq<Byte>, g: seq<Byte>, h: Header)
    requires SameHeads(f, g, h)
    ensures |f| == |g|
  {
  }

  // ---- main results ---------------------------------------------------------------------------

  /** What a caller can look at before the run: every path fits where it is written, and a table of directories
      comes with one of lengths. */
  predicate Completes(f: seq<Byte>, wide: bool, p: seq<Byte>)
    requires |f| >= 64
  {
    var ss := SectionsOf(f, ParseHeader(f, wide));
    PathsFit(f, ss, p) && TablesThere(f, ss, wide, p)
  }

  /** A run exits if some path does not fit where it is written; otherwise it crashes if a table of directories
      has none of lengths, or lengths that cannot be packed; and otherwise it ends normally. */
  lemma OutcomeIs(f: seq<Byte>, wide: bool, p: seq<Byte>, dl: seq<Byte>)
    requires WellLaid(f, wide)
    ensures var ss := SectionsOf(f, ParseHeader(f, wide));
            Relocate(f, wide, p, dl).1 ==
            if !PathsFit(f, ss, p) then Exit else if !TablesThere(f, ss, wide, p) then Crash else Done
  {
    hide ReadAt, NewInterpreter, Field, NameOf, NewPaths, Lengths, SectionAt, SectionFits, ChangeDirs;
    hide WriteAt, Relocate, ChangeList, Interpreted, Clear, SectionsOf, SameHeads, Spread, LastOf, TablesThere;
    var h := ParseHeader(f, wide);
    var ss, e := SectionsOf(f, h), Interpreted(f, wide, dl);
    RunIs(f, wide, p, dl);
    InterpretedIs(f, wide, dl);
    SameLength(f, e, h);
    var (r, found, out) := ChangeList(e, ss, p, NOTHING);
    ListOutcome(e, ss, p, NOTHING);
    forall j | 0 <= j < |ss| ensures SectionFits(f, ss[j], p) == SectionFits(e, ss[j], p) {
      SectionFitsSame(f, e, ss[j], p);
    }
    if out == Done {
      ListFound(e, ss, p, NOTHING);
      DirsOutcome(r, ss, wide, p);
      TablesStillThere(f, wide, p, dl);
      WideIs(f, wide);
    }
  }

  lemma TablesStillThere(f: seq<Byte>, wide: bool, p: seq<Byte>, dl: seq<Byte>)
    requires WellLaid(f, wide)
    ensures var ss := SectionsOf(f, ParseHeader(f, wide));
            TablesThere(f, ss, wide, p) == TablesThere(ChangeList(Interpreted(f, wide, dl), ss, p, NOTHING).0, ss, wide, p)
  {
    hide ReadAt, NewPaths, Lengths, ChangeList, Spread, Clear, SameHeads, SectionsOf, Interpreted;
    var h := ParseHeader(f, wide);
    var ss, e := SectionsOf(f, h), Interpreted(f, wide, dl);
    InterpretedIs(f, wide, dl);
    SameLength(f, e, h);
    var d := LastOf(ss, ".sysdirs");
    if d.Some? { ListKept(e, ss, p, NOTHING, d.value); }
  }

  /** Whatever the outcome, the size of the file stays, and so does everything apart from the interpreter and
      the sections that are looked for. */
  lemma FrameOfRelocation(f: seq<Byte>, wide: bool, p: seq<Byte>, dl: seq<Byte>, b: nat, k: nat)
    requires WellLaid(f, wide)
    requires var h := ParseHeader(f, wide); var ss := SectionsOf(f, h); var i := FindInterpreter(f, h, 0).0;
             && TablesFit(f, ss, wide, p) && (forall j :: 0 <= j < |ss| ==> Apart(ss[j].offset, Extent(ss[j]), b, k))
             && (i.Some? ==> Apart(i.value.offset, i.value.filesz, b, k))
    ensures var g := Relocate(f, wide, p, dl).0; |g| == |f| && ReadAt(g, b, k) == ReadAt(f, b, k)
  {
    hide ReadAt, NewInterpreter, Field, NameOf, NewPaths, Terminated, Lengths, Pad, TablesAgree, SectionAt, Only;
    hide WriteAt, Relocate, TablesFit;
    var h := ParseHeader(f, wide);
    var ss, e := SectionsOf(f, h), Interpreted(f, wide, dl);
    RunIs(f, wide, p, dl);
    InterpretedIs(f, wide, dl);
    var i := FindInterpreter(f, h, 0).0;
    if i.Some? {
      InterpreterIs(f, i.value, dl);
      ReadSame(f, e, i.value.offset, i.value.filesz, b, k);
    }
    ListReads(e, ss, p, NOTHING, b, k);
    var (g, found, out) := ChangeList(e, ss, p, NOTHING);
    if out == Done {
      ListFound(e, ss, p, NOTHING);
      TablesStillFit(f, wide, p, dl);
      if ChangeDirs(g, wide, p, found).1 == Done {
        DirsAre(g, ss, wide, p);
        assert ApartFromTables(ss, b, k);
      }
    }
  }

  /** A run in which everything fits ends normally, rewrites every section from what it held, and leaves tables that agree. */
  lemma RelocationIsRight(f: seq<Byte>, wide: bool, p: seq<Byte>, dl: seq<Byte>)
    requires WellLaid(f, wide) && TablesFit(f, SectionsOf(f, ParseHeader(f, wide)), wide, p)
    requires Completes(f, wide, p)
    ensures Relocate(f, wide, p, dl).1 == Done
    ensures var g := Relocate(f, wide, p, dl).0; var ss := SectionsOf(f, ParseHeader(f, wide));
            && (forall j :: 0 <= j < |ss| ==> Rewritten(f, g, ss[j], p)) && TablesAgree(f, g, ss, wide, p)
            && SameHeads(f, g, ParseHeader(f, wide))
  {
    hide ReadAt, NewInterpreter, Field, NameOf, NewPaths, Terminated, Lengths, Pad, TablesAgree, SectionAt, Only;
    hide WriteAt, Relocate, TablesFit, ChangeList, Interpreted, Rewritten, ChangeDirs, Clear, SectionsOf, SameHeads, Spread;
    hide PathsFit, TablesThere;
    var h := ParseHeader(f, wide);
    var ss, e := SectionsOf(f, h), Interpreted(f, wide, dl);
    OutcomeIs(f, wide, p, dl);
    RunIs(f, wide, p, dl);
    InterpretedIs(f, wide, dl);
    SameLength(f, e, h);
    var (r, found, _) := ChangeList(e, ss, p, NOTHING);
    SameLength(f, r, h);
    ListRewritten(e, ss, p, NOTHING);
    ListFound(e, ss, p, NOTHING);
    TablesStillFit(f, wide, p, dl);
    DirsAre(r, ss, wide, p);
    var g := ChangeDirs(r, wide, p, found).0;
    HeadsKeptByTables(f, r, g, h, ss);
    forall j | 0 <= j < |ss| ensures Rewritten(f, g, ss[j], p) {
      RewrittenSame(e, f, r, r, ss[j], p);
      AfterTables(f, r, g, ss, j, p);
    }
  }

  /** Writing the tables does not undo what was rewritten. */
  lemma AfterTables(f: seq<Byte>, r: seq<Byte>, g: seq<Byte>, ss: seq<Section>, j: nat, p: seq<Byte>)
    requires Spread(|r|, ss) && j < |ss| && |g| == |r| && Rewritten(f, r, ss[j], p)
    requires forall b: nat, k: nat :: ApartFromTables(ss, b, k) ==> ReadAt(g, b, k) == ReadAt(r, b, k)
    ensures Rewritten(f, g, ss[j], p)
  {
    hide ReadAt, Spread;
    var d, l := LastOf(ss, ".sysdirs"), LastOf(ss, ".sysdirslen");
    if Named(ss[j], ".ldsocache") || Named(ss[j], ".gccrelocprefix") {
      if d.Some? { SpreadAt(|r|, ss, d.value, j); }
      if l.Some? { SpreadAt(|r|, ss, l.value, j); }
      assert ApartFromTables(ss, ss[j].offset, Extent(ss[j]));
      RewrittenSame(f, f, r, g, ss[j], p);
    }
  }

  /** The interpreter as it was left is what a second run finds. */
  lemma WindowKept(f: seq<Byte>, wide: bool, p: seq<Byte>, dl: seq<Byte>)
    requires WellLaid(f, wide) && TablesFit(f, SectionsOf(f, ParseHeader(f, wide)), wide, p)
    requires Completes(f, wide, p)
    ensures var i := FindInterpreter(f, ParseHeader(f, wide), 0).0;
            i.Some? ==> ReadAt(Relocate(f, wide, p, dl).0, i.value.offset, Window(i.value)) ==
                        ReadAt(Interpreted(f, wide, dl), i.value.offset, Window(i.value))
  {
    hide ReadAt, NewInterpreter, Field, NameOf, NewPaths, Terminated, Lengths, Pad, TablesAgree, SectionAt, Only;
    hide WriteAt, Relocate, TablesFit, ChangeList, Interpreted, Rewritten, ChangeDirs, Clear, SectionsOf, SameHeads, Spread;
    hide PathsFit, TablesThere;
    var h := ParseHeader(f, wide);
    var ss, e := SectionsOf(f, h), Interpreted(f, wide, dl);
    var i := FindInterpreter(f, h, 0).0;
    OutcomeIs(f, wide, p, dl);
    RunIs(f, wide, p, dl);
    InterpretedIs(f, wide, dl);
    SameLength(f, e, h);
    var (r, found, _) := ChangeList(e, ss, p, NOTHING);
    SameLength(f, r, h);
    ListFound(e, ss, p, NOTHING);
    TablesStillFit(f, wide, p, dl);
    DirsAre(r, ss, wide, p);
    if i.Some? {
      ListReads(e, ss, p, NOTHING, i.value.offset, Window(i.value));
      assert ApartFromTables(ss, i.value.offset, Window(i.value));
    }
  }

  /** After a run an interpreter that is not the host's own, and has room for it, is the new one with NULs behind it. */
  lemma InterpreterIsRight(f: seq<Byte>, wide: bool, p: seq<Byte>, dl: seq<Byte>)
    requires WellLaid(f, wide) && TablesFit(f, SectionsOf(f, ParseHeader(f, wide)), wide, p)
    requires Completes(f, wide, p) && (dl == [] || dl[|dl| - 1] != 0)
    ensures var i := FindInterpreter(f, ParseHeader(f, wide), 0).0;
            i.Some? && !IsLib(ReadAt(f, i.value.offset, 11)) && |dl| < i.value.filesz ==>
              var c := ReadAt(Relocate(f, wide, p, dl).0, i.value.offset, i.value.filesz);
              |c| == i.value.filesz && Strip(c) == dl
  {
    hide ReadAt, Relocate, IsLib, SectionsOf, TablesFit, Strip, FindInterpreter, WriteAt, SameHeads;
    var i := FindInterpreter(f, ParseHeader(f, wide), 0).0;
    var g, e := Relocate(f, wide, p, dl).0, Interpreted(f, wide, dl);
    WindowKept(f, wide, p, dl);
    RelocationIsRight(f, wide, p, dl);
    SameLength(f, g, ParseHeader(f, wide));
    if i.Some? && !IsLib(ReadAt(f, i.value.offset, 11)) && |dl| < i.value.filesz {
      var at, n := i.value.offset, i.value.filesz;
      InterpreterIs(f, i.value, dl);
      OnlyLength(f, e, at, n);
      ReadPart(g, e, at, Window(i.value), at, n);
      WriteIs(f, at, Pad(dl, n));
      StripPadded(dl, n - |dl|);
    }
  }

  /** If everything fits, a second run changes nothing. */
  lemma RelocateTwice(f: seq<Byte>, wide: bool, p: seq<Byte>, dl: seq<Byte>)
    requires WellLaid(f, wide) && TablesFit(f, SectionsOf(f, ParseHeader(f, wide)), wide, p)
    requires GoodPrefix(p) && Completes(f, wide, p)
    ensures var g := Relocate(f, wide, p, dl).0; Relocate(f, wide, p, dl).1 == Done && Relocate(g, wide, p, dl) == (g, Done)
  {
    hide ReadAt, NewInterpreter, Field, NameOf, NewPaths, Terminated, Lengths, Pad, TablesAgree, SectionAt, Only;
    hide WriteAt, TablesFit, ChangeList, Rewritten, ChangeDirs, Clear, Spread, GoodPrefix, FindInterpreter, NamesAt;
    hide ChangeSections, ProgramAt, ParseHeader;
    var g, h := Relocate(f, wide, p, dl).0, ParseHeader(f, wide);
    var ss := SectionsOf(f, h);
    RelocationIsRight(f, wide, p, dl);
    HeaderSame(f, g, wide);
    InterpreterSame(f, g, h, 0);
    WindowKept(f, wide, p, dl);
    var i := FindInterpreter(f, h, 0).0;
    if i.Some? { InterpreterAgain(f, g, i.value, dl); }
    ListIsRun(f, g, h, p, 0, NOTHING);
    ListAgain(f, g, ss, p, NOTHING);
    DirsAgain(f, g, ss, wide, p);
    WideIs(f, wide);
  }

  lemma WideIs(f: seq<Byte>, wide: bool)
    requires |f| >= 64
    ensures ParseHeader(f, wide).wide == wide
  {
  }
}
