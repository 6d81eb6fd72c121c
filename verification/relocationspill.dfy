/** Tables that do not fit: what `relocate_sdk` then writes over. */
module RelocationSpill {
  import opened Options
  import opened Bytes
  import opened Relocation
  import opened RelocationProofs
  import opened RelocationRuns
  import opened RelocationWhole

  // ---- the frame, byte by byte ----------------------------------------------------------------

  predicate In(x: nat, a: nat, n: nat) { a <= x < a + n }

  /** A byte of neither the interpreter nor a section that is looked for. */
  predicate Outside(f: seq<Byte>, wide: bool, x: nat)
    requires |f| >= 64
  {
    var h := ParseHeader(f, wide);
    var ss := SectionsOf(f, h);
    var i := FindInterpreter(f, h, 0).0;
    && (forall j :: 0 <= j < |ss| ==> !In(x, ss[j].offset, Extent(ss[j])))
    && (i.Some? ==> !In(x, i.value.offset, i.value.filesz))
  }

  predicate Framed(f: seq<Byte>, g: seq<Byte>, wide: bool)
    requires |f| >= 64
  {
    |g| == |f| && forall x :: 0 <= x < |f| && Outside(f, wide, x) ==> g[x] == f[x]
  }

  /** The tables a run writes, and where; the empty one if it writes none. */
  function DirsTable(f: seq<Byte>, ss: seq<Section>, p: seq<Byte>): (seq<Byte>, nat) {
    var d := LastOf(ss, ".sysdirs");
    if d.None? then ([], 0)
    else
      var s := ss[d.value];
      (Pad(Terminated(NewPaths(ReadAt(f, s.offset, s.size), p)), s.size), s.offset)
  }

  function LensTable(f: seq<Byte>, ss: seq<Section>, wide: bool, p: seq<Byte>): (seq<Byte>, nat) {
    var d, l := LastOf(ss, ".sysdirs"), LastOf(ss, ".sysdirslen");
    if d.None? || l.None? then ([], 0)
    else
      var lens := Lengths(NewPaths(ReadAt(f, ss[d.value].offset, ss[d.value].size), p), if wide then 8 else 4);
      if lens.None? then ([], 0) else (lens.value, ss[l.value].offset)
  }

  /** The tables end within the file. */
  predicate TablesEndWithin(f: seq<Byte>, ss: seq<Section>, wide: bool, p: seq<Byte>) {
    var (dirs, at) := DirsTable(f, ss, p);
    var (lens, to) := LensTable(f, ss, wide, p);
    (dirs != [] ==> at + |dirs| <= |f|) && (lens != [] ==> to + |lens| <= |f|)
  }

  /** What of the tables is behind their sections stays within the file and equals the bytes there; the lengths
      are written last. */
  predicate SpillsHarmlessly(f: seq<Byte>, wide: bool, p: seq<Byte>)
    requires |f| >= 64
  {
    var ss := SectionsOf(f, ParseHeader(f, wide));
    var (dirs, at) := DirsTable(f, ss, p);
    var (lens, to) := LensTable(f, ss, wide, p);
    && TablesEndWithin(f, ss, wide, p)
    && (forall x :: 0 <= x < |f| && Outside(f, wide, x) && In(x, to, |lens|) ==> lens[x - to] == f[x])
    && (forall x :: 0 <= x < |f| && Outside(f, wide, x) && In(x, at, |dirs|) && !In(x, to, |lens|) ==> dirs[x - at] == f[x])
  }

  lemma WrittenByte(f: seq<Byte>, pos: nat, bs: seq<Byte>)
    ensures |WriteAt(f, pos, bs)| == if bs != [] && pos + |bs| > |f| then pos + |bs| else |f|
    ensures forall x :: 0 <= x < |f| ==> WriteAt(f, pos, bs)[x] == if In(x, pos, |bs|) then bs[x - pos] else f[x]
  {
  }

  lemma ByteAt(f: seq<Byte>, g: seq<Byte>, x: nat)
    requires |f| == |g| && x < |f| && ReadAt(f, x, 1) == ReadAt(g, x, 1)
    ensures f[x] == g[x]
  {
    assert ReadAt(f, x, 1)[0] == f[x] && ReadAt(g, x, 1)[0] == g[x];
  }

  lemma ApartByte(a: nat, n: nat, x: nat)
    ensures Apart(a, n, x, 1) <==> !In(x, a, n)
  {
  }

  /** Before the tables are written nothing outside has changed, and the tables are those of the original file. */
  lemma BeforeTables(f: seq<Byte>, wide: bool, p: seq<Byte>, dl: seq<Byte>)
    requires WellLaid(f, wide) && Completes(f, wide, p)
    ensures var ss := SectionsOf(f, ParseHeader(f, wide));
            var r := ChangeList(Interpreted(f, wide, dl), ss, p, NOTHING).0;
            && |r| == |f| && (forall x :: 0 <= x < |f| && Outside(f, wide, x) ==> r[x] == f[x])
            && Relocate(f, wide, p, dl).0 ==
               WriteAt(WriteAt(r, DirsTable(f, ss, p).1, DirsTable(f, ss, p).0), LensTable(f, ss, wide, p).1, LensTable(f, ss, wide, p).0)
  {
    hide ReadAt, WriteAt, NewInterpreter, Field, NameOf, NewPaths, Terminated, Lengths, Pad, SectionAt, Relocate;
    hide ChangeList, Interpreted, SectionsOf, SameHeads, Spread, Outside, DirsTable, LensTable, ChangeDirs, Completes, Clear;
    var h := ParseHeader(f, wide);
    var ss, e := SectionsOf(f, h), Interpreted(f, wide, dl);
    OutcomeDone(f, wide, p, dl);
    RunIs(f, wide, p, dl);
    InterpretedIs(f, wide, dl);
    SameLength(f, e, h);
    var (r, found, _) := ChangeList(e, ss, p, NOTHING);
    SameLength(f, r, h);
    ListFound(e, ss, p, NOTHING);
    forall x | 0 <= x < |f| && Outside(f, wide, x) ensures r[x] == f[x] { OutsideKept(f, wide, p, dl, x); }
    TablesWritten(f, wide, p, dl);
    WideIs(f, wide);
  }

  lemma OutcomeDone(f: seq<Byte>, wide: bool, p: seq<Byte>, dl: seq<Byte>)
    requires WellLaid(f, wide) && Completes(f, wide, p)
    ensures Relocate(f, wide, p, dl).1 == Done
    ensures ChangeList(Interpreted(f, wide, dl), SectionsOf(f, ParseHeader(f, wide)), p, NOTHING).2 == Done
  {
    hide Relocate, ChangeList, ChangeDirs, SectionsOf, PathsFit, TablesThere, SameHeads, Interpreted, Spread, Clear;
    hide FindInterpreter, NamesAt, SectionAt, NamesOf;
    OutcomeIs(f, wide, p, dl);
    RunIs(f, wide, p, dl);
  }

  lemma OutsideKept(f: seq<Byte>, wide: bool, p: seq<Byte>, dl: seq<Byte>, x: nat)
    requires WellLaid(f, wide) && x < |f| && Outside(f, wide, x)
    ensures var r := ChangeList(Interpreted(f, wide, dl), SectionsOf(f, ParseHeader(f, wide)), p, NOTHING).0;
            |r| == |f| && r[x] == f[x]
  {
    hide ReadAt, NewInterpreter, Field, NameOf, SectionAt, ChangeList, SectionsOf, SameHeads, Spread, Only, Clear, Apart;
    var h := ParseHeader(f, wide);
    var ss, e := SectionsOf(f, h), Interpreted(f, wide, dl);
    InterpretedIs(f, wide, dl);
    SameLength(f, e, h);
    var i := FindInterpreter(f, h, 0).0;
    if i.Some? {
      InterpreterIs(f, i.value, dl);
      ApartByte(i.value.offset, i.value.filesz, x);
      ReadSame(f, e, i.value.offset, i.value.filesz, x, 1);
    }
    forall j | 0 <= j < |ss| ensures Apart(ss[j].offset, Extent(ss[j]), x, 1) { ApartByte(ss[j].offset, Extent(ss[j]), x); }
    ListReads(e, ss, p, NOTHING, x, 1);
    ByteAt(ChangeList(e, ss, p, NOTHING).0, f, x);
  }

  lemma TablesWritten(f: seq<Byte>, wide: bool, p: seq<Byte>, dl: seq<Byte>)
    requires WellLaid(f, wide) && Completes(f, wide, p)
    ensures var ss := SectionsOf(f, ParseHeader(f, wide));
            var r := ChangeList(Interpreted(f, wide, dl), ss, p, NOTHING).0;
            ChangeDirs(r, wide, p, FoundAll(r, ss, NOTHING)).0 ==
            WriteAt(WriteAt(r, DirsTable(f, ss, p).1, DirsTable(f, ss, p).0), LensTable(f, ss, wide, p).1, LensTable(f, ss, wide, p).0)
  {
    hide ReadAt, NewPaths, Terminated, Lengths, Pad, ChangeList, Spread, Clear, SameHeads, SectionsOf, Interpreted, PathsFit;
    var h := ParseHeader(f, wide);
    var ss, e := SectionsOf(f, h), Interpreted(f, wide, dl);
    InterpretedIs(f, wide, dl);
    SameLength(f, e, h);
    var r := ChangeList(e, ss, p, NOTHING).0;
    FoundAllIs(r, ss, NOTHING);
    var d := LastOf(ss, ".sysdirs");
    if d.Some? { ListKept(e, ss, p, NOTHING, d.value); }
  }

  // ---- main results ---------------------------------------------------------------------------

  /** A run keeps the size of the file and everything outside exactly if the tables spill nothing, or only what is
      there already. */
  lemma TablesSpill(f: seq<Byte>, wide: bool, p: seq<Byte>, dl: seq<Byte>)
    requires WellLaid(f, wide) && Completes(f, wide, p)
    ensures Framed(f, Relocate(f, wide, p, dl).0, wide) <==> SpillsHarmlessly(f, wide, p)
  {
    hide ReadAt, WriteAt, ChangeList, Interpreted, SectionsOf, Outside, DirsTable, LensTable, Relocate, Clear, Spread;
    hide ParseHeader, FindInterpreter, NamesAt, SectionAt, PathsFit, TablesThere;
    BeforeTables(f, wide, p, dl);
    var ss := SectionsOf(f, ParseHeader(f, wide));
    var r := ChangeList(Interpreted(f, wide, dl), ss, p, NOTHING).0;
    var (dirs, at) := DirsTable(f, ss, p);
    var (lens, to) := LensTable(f, ss, wide, p);
    WrittenByte(r, at, dirs);
    WrittenByte(WriteAt(r, at, dirs), to, lens);
  }

  /** The file keeps its size exactly if the tables end within it. */
  lemma SizeKept(f: seq<Byte>, wide: bool, p: seq<Byte>, dl: seq<Byte>)
    requires WellLaid(f, wide) && Completes(f, wide, p)
    ensures |Relocate(f, wide, p, dl).0| == |f| <==> TablesEndWithin(f, SectionsOf(f, ParseHeader(f, wide)), wide, p)
  {
    hide Completes, Relocate, DirsTable, LensTable, WriteAt, ChangeList, Interpreted, SectionsOf, ParseHeader;
    BeforeTables(f, wide, p, dl);
    var ss := SectionsOf(f, ParseHeader(f, wide));
    var r := ChangeList(Interpreted(f, wide, dl), ss, p, NOTHING).0;
    var (dirs, at) := DirsTable(f, ss, p);
    var (lens, to) := LensTable(f, ss, wide, p);
    WrittenByte(r, at, dirs);
    WrittenByte(WriteAt(r, at, dirs), to, lens);
  }

  /** Tables that fit spill nothing. */
  lemma FittingTablesAreHarmless(f: seq<Byte>, wide: bool, p: seq<Byte>)
    requires WellLaid(f, wide) && Completes(f, wide, p) && TablesFit(f, SectionsOf(f, ParseHeader(f, wide)), wide, p)
    ensures SpillsHarmlessly(f, wide, p)
  {
    hide ReadAt, NewPaths, Terminated, Lengths, SectionsOf, SectionAt, Clear, FindInterpreter, NamesAt, Spread, Zeros, PathsFit;
    var ss := SectionsOf(f, ParseHeader(f, wide));
    var d, l := LastOf(ss, ".sysdirs"), LastOf(ss, ".sysdirslen");
    if d.Some? && l.Some? {
      SpreadAt(|f|, ss, d.value, l.value);
      SpreadAt(|f|, ss, l.value, d.value);
      var paths := NewPaths(ReadAt(f, ss[d.value].offset, ss[d.value].size), p);
      if Lengths(paths, LengthWidth(wide)).Some? { LengthsAre(paths, LengthWidth(wide)); }
    }
  }
}
