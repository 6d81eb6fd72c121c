/** A small file on which relocating goes wrong: tables that spill, or one without the other. */
module RelocationSample {
  import opened Options
  import opened Bytes
  import opened Relocation
  import opened RelocationProofs
  import opened RelocationRuns
  import opened RelocationWhole
  import opened RelocationSpill

  // "\0.sysdirs\0.sysdirslen\0"
  const NAMES: seq<Byte> :=
    [0, 46, 115, 121, 115, 100, 105, 114, 115, 0, 46, 115, 121, 115, 100, 105, 114, 115, 108, 101, 110, 0]

  /** A 32-bit file of 250 bytes: magic number, class and file header; at 64 the headers of `.sysdirs` (24 bytes at 210), of the section
      whose name starts at `name` (4 bytes at 206) and of the names (22 bytes at 184); zeros elsewhere. */
  function SampleByte(i: nat, name: Byte): Byte {
    if i == 0 then 0x7F                      // "\x7fELF", class 1
    else if i == 1 then 69
    else if i == 2 then 76
    else if i == 3 then 70
    else if i == 4 then 1
    else if i == 32 then 64                  // e_shoff
    else if i == 46 then 40                  // e_shentsize
    else if i == 48 then 2                   // e_shnum
    else if i == 50 then 2                   // e_shstrndx
    else if i == 64 then 1                   // sh_name, sh_type, sh_offset, sh_size
    else if i == 68 then 1
    else if i == 80 then 210
    else if i == 84 then 24
    else if i == 104 then name
    else if i == 108 then 1
    else if i == 120 then 206
    else if i == 124 then 4
    else if i == 160 then 184
    else if i == 164 then 22
    else if 184 <= i < 206 then NAMES[i - 184]
    else if 210 <= i < 233 then MARK[i - 210]
    else 0
  }

  function Sample(name: Byte): (f: seq<Byte>)
    ensures |f| == 250 && forall i :: 0 <= i < 250 ==> f[i] == SampleByte(i, name)
  {
    seq(250, i requires 0 <= i < 250 => SampleByte(i, name))
  }

  /** ".sysdirslen", and "sysdirslen", which is not looked for. */
  const WITH_LENGTHS: Byte := 10
  const WITHOUT_LENGTHS: Byte := 11

  lemma Number4(bs: seq<Byte>)
    requires |bs| == 4 && bs[1] == bs[2] == bs[3] == 0
    ensures FromLittle(bs) == bs[0]
  {
    assert bs[1..][1..] == bs[2..] && bs[2..][1..] == bs[3..] && bs[3..][1..] == [];
    assert FromLittle(bs[3..]) == 0;
    assert FromLittle(bs[2..]) == 0;
  }

  lemma Number2(bs: seq<Byte>)
    requires |bs| == 2 && bs[1] == 0
    ensures FromLittle(bs) == bs[0]
  {
    assert bs[1..][1..] == [];
    assert FromLittle(bs[1..]) == 0;
  }

  lemma Small4(f: seq<Byte>, at: nat, n: nat, off: nat)
    requires at + n <= |f| && off + 4 <= n && f[at + off + 1] == 0 && f[at + off + 2] == 0 && f[at + off + 3] == 0
    ensures |ReadAt(f, at, n)| == n && Field(ReadAt(f, at, n), off, 4) == f[at + off]
  {
    Number4(ReadAt(f, at, n)[off..off + 4]);
  }

  lemma Small2(f: seq<Byte>, at: nat, n: nat, off: nat)
    requires at + n <= |f| && off + 2 <= n && f[at + off + 1] == 0
    ensures |ReadAt(f, at, n)| == n && Field(ReadAt(f, at, n), off, 2) == f[at + off]
  {
    Number2(ReadAt(f, at, n)[off..off + 2]);
  }

  const HEADER := Header(false, 0, 0, 0, 64, 40, 2, 2)

  lemma HeaderIs(name: Byte)
    ensures ParseHeader(Sample(name), false) == HEADER
  {
    hide Field, FromLittle, ReadAt;
    var f := Sample(name);
    Small4(f, 0, 64, 28);
    Small4(f, 0, 64, 32);
    Small2(f, 0, 64, 42);
    Small2(f, 0, 64, 44);
    Small2(f, 0, 64, 46);
    Small2(f, 0, 64, 48);
    Small2(f, 0, 64, 50);
  }

  lemma NamesIs(name: Byte)
    ensures NamesAt(Sample(name), HEADER) == Some((184, 22)) && NamesOf(Sample(name), HEADER) == NAMES
  {
    hide Field, FromLittle;
    var f := Sample(name);
    Small4(f, 144, 40, 16);
    Small4(f, 144, 40, 20);
    assert ReadAt(f, 184, 22) == NAMES;
  }

  lemma NulAt(text: seq<Byte>, n: nat)
    requires n < |text| && text[n] == 0 && forall i :: 0 <= i < n ==> text[i] != 0
    ensures Nul(text) == n
  {
  }

  lemma DirsName()
    ensures NameOf(NAMES, 1) == ToBytes(".sysdirs")
  {
    hide Nul;
    NulAt(NAMES[1..], 8);
    var dirs: seq<Byte> := [46, 115, 121, 115, 100, 105, 114, 115];
    assert forall i :: 0 <= i < 8 ==> NAMES[1 + i] == dirs[i];
    assert NAMES[1..9] == dirs;
    assert ToBytes(".sysdirs") == dirs;
  }

  lemma LensName()
    ensures NameOf(NAMES, 10) == ToBytes(".sysdirslen")
  {
    hide Nul;
    NulAt(NAMES[10..], 11);
    assert NAMES[10..21] == [46, 115, 121, 115, 100, 105, 114, 115, 108, 101, 110];
  }

  lemma OtherName()
    ensures NameOf(NAMES, 11) == ToBytes("sysdirslen")
  {
    hide Nul;
    NulAt(NAMES[11..], 10);
    assert NAMES[11..21] == [115, 121, 115, 100, 105, 114, 115, 108, 101, 110];
  }

  function LensSection(name: Byte): Section { Section(NameOf(NAMES, name), 1, 206, 4) }

  const DIRS_SECTION := Section(ToBytes(".sysdirs"), 1, 210, 24)

  lemma SectionsAre(name: Byte)
    ensures SectionAt(Sample(name), HEADER, NAMES, 0) == Some(DIRS_SECTION)
    ensures SectionAt(Sample(name), HEADER, NAMES, 1) == Some(LensSection(name))
  {
    hide Field, FromLittle, ReadAt, NameOf;
    var f := Sample(name);
    DirsName();
    Small4(f, 64, 40, 0);
    Small4(f, 64, 40, 4);
    Small4(f, 64, 40, 16);
    Small4(f, 64, 40, 20);
    Small4(f, 104, 40, 0);
    Small4(f, 104, 40, 4);
    Small4(f, 104, 40, 16);
    Small4(f, 104, 40, 20);
  }

  lemma ListIs(name: Byte)
    ensures ParseHeader(Sample(name), false) == HEADER
    ensures SectionsOf(Sample(name), HEADER) == [DIRS_SECTION, LensSection(name)]
  {
    hide SectionAt, ParseHeader, NamesAt, NamesOf, NameOf;
    HeaderIs(name);
    NamesIs(name);
    SectionsAre(name);
    var f := Sample(name);
    assert Listed(f, HEADER, NAMES, 2) == [];
    assert Listed(f, HEADER, NAMES, 1) == [LensSection(name)];
    assert Listed(f, HEADER, NAMES, 0) == [DIRS_SECTION] + [LensSection(name)];
  }

  lemma KindsAre()
    ensures KindOf(DIRS_SECTION) == SysDirs && KindOf(LensSection(WITH_LENGTHS)) == SysDirsLen
    ensures KindOf(LensSection(WITHOUT_LENGTHS)) == Other
    ensures Named(DIRS_SECTION, ".sysdirs") && !Named(DIRS_SECTION, ".sysdirslen")
    ensures Named(LensSection(WITH_LENGTHS), ".sysdirslen") && !Named(LensSection(WITH_LENGTHS), ".sysdirs")
    ensures !Named(LensSection(WITHOUT_LENGTHS), ".sysdirslen") && !Named(LensSection(WITHOUT_LENGTHS), ".sysdirs")
    ensures forall s :: s in [DIRS_SECTION, LensSection(WITH_LENGTHS), LensSection(WITHOUT_LENGTHS)] ==>
                          !Named(s, ".ldsocache") && !Named(s, ".gccrelocprefix")
  {
    hide NameOf, Named;
    KindNames(DIRS_SECTION);
    KindNames(LensSection(WITH_LENGTHS));
    KindNames(LensSection(WITHOUT_LENGTHS));
    LensName();
    OtherName();
    assert |ToBytes("sysdirslen")| == 10 && |ToBytes(".sysdirs")| == 8 && |ToBytes(".sysdirslen")| == 11;
    assert ToBytes("sysdirslen")[0] == 115;
    assert ToBytes(".ldsocache")[0] == 46 && ToBytes(".gccrelocprefix")[0] == 46;
    assert ToBytes(".sysdirslen") != ToBytes(".sysdirs");
  }

  lemma ExtentIs(s: Section)
    ensures Extent(s) <= s.size
  {
  }

  /** The script takes it for a 32-bit ELF file. */
  lemma SampleArch(name: Byte)
    ensures Arch(Sample(name)) == Some(false) && Sample(name)[..5] == [0x7F, 69, 76, 70, 1]
  {
  }

  lemma SampleSpread(name: Byte)
    ensures Spread(250, [DIRS_SECTION, LensSection(name)])
  {
    hide KindOf, NameOf;
    var ss := [DIRS_SECTION, LensSection(name)];
    ExtentIs(ss[0]);
    ExtentIs(ss[1]);
    assert ss[1..] == [ss[1]] && ss[1..][1..] == [];
    hide Extent;
    assert Spread(250, ss[1..]) && SectionsApart(ss[0], ss[1]);
  }

  lemma SampleIsWellLaid(name: Byte)
    ensures WellLaid(Sample(name), false)
  {
    hide ParseHeader, NamesAt, NamesOf, SectionAt, SectionsOf, KindOf, NameOf;
    ListIs(name);
    NamesIs(name);
    SectionsAre(name);
    var f, ss := Sample(name), [DIRS_SECTION, LensSection(name)];
    assert FindInterpreter(f, HEADER, 0) == (None, Done);
    SampleSpread(name);
    ExtentIs(ss[0]);
    ExtentIs(ss[1]);
    forall j | 0 <= j < |ss| ensures Clear(f, HEADER, ss[j].offset, Extent(ss[j])) {
      assert 206 <= ss[j].offset;
    }
  }

  // ---- a table of directories without one of lengths ------------------------------------------

  /** The run ends in an unbound name. */
  lemma NoLengthsCrash(p: seq<Byte>, dl: seq<Byte>)
    ensures var f := Sample(WITHOUT_LENGTHS);
            f[..5] == [0x7F, 69, 76, 70, 1] && WellLaid(f, false) && ProcessFile(f, p, dl).1 == Crash
  {
    SampleArch(WITHOUT_LENGTHS);
    hide ParseHeader, SectionsOf, KindOf, Named, Relocate, WellLaid, NameOf;
    SampleIsWellLaid(WITHOUT_LENGTHS);
    ListIs(WITHOUT_LENGTHS);
    KindsAre();
    var ss := [DIRS_SECTION, LensSection(WITHOUT_LENGTHS)];
    assert ss[1..] == [LensSection(WITHOUT_LENGTHS)] && ss[1..][1..] == [];
    assert LastOf(ss[1..], ".sysdirslen") == None && LastOf(ss, ".sysdirslen") == None;
    assert LastOf(ss[1..], ".sysdirs") == None && LastOf(ss, ".sysdirs") == Some(0);
    OutcomeIs(Sample(WITHOUT_LENGTHS), false, p, dl);
  }

  // ---- a new path that is too long ------------------------------------------------------------

  /** "/" and 24 times "a": two bytes more than the mark, and one for the NUL. */
  const LONG: seq<Byte> := seq(25, i => if i == 0 then 47 else 97)

  lemma NewTable()
    ensures NewPaths(ReadAt(Sample(WITH_LENGTHS), 210, 24), LONG) == [LONG]
  {
    var f := Sample(WITH_LENGTHS);
    var c := ReadAt(f, 210, 24);
    assert Terminated([MARK]) == MARK + [0] + Terminated([]) by { assert [MARK][1..] == []; }
    assert c == Terminated([MARK]) + Zeros(0);
    SplitIs([MARK], 0);
    SubOfMark(LONG);
    assert [MARK][1..] == [];
  }

  lemma SubOfMark(p: seq<Byte>)
    ensures Sub(MARK, p) == p
  {
    assert [] + MARK + [] == MARK;
    SubReplaces([], [], p);
    assert [] + p + [] == p;
  }

  /** The run ends normally, the file has its size, and byte 234, behind the table of directories and in no
      section, has become an "a". */
  lemma LongPathSpills(dl: seq<Byte>)
    ensures var f := Sample(WITH_LENGTHS); var (g, out) := ProcessFile(f, LONG, dl);
            && f[..5] == [0x7F, 69, 76, 70, 1] && WellLaid(f, false) && out == Done && |g| == |f| && Outside(f, false, 234)
            && f[234] == 0 && g[234] == 97 && !Framed(f, g, false)
  {
    SampleArch(WITH_LENGTHS);
    hide ParseHeader, SectionsOf, KindOf, Named, Relocate, WellLaid, NameOf, NewPaths, ReadAt, ChangeList, Interpreted;
    hide WriteAt, Sub, Sample;
    var f := Sample(WITH_LENGTHS);
    SampleIsWellLaid(WITH_LENGTHS);
    ListIs(WITH_LENGTHS);
    KindsAre();
    NewTable();
    var ss := [DIRS_SECTION, LensSection(WITH_LENGTHS)];
    assert ss[1..] == [LensSection(WITH_LENGTHS)] && ss[1..][1..] == [];
    assert LastOf(ss[1..], ".sysdirslen") == Some(0) && LastOf(ss, ".sysdirslen") == Some(1);
    assert LastOf(ss[1..], ".sysdirs") == None && LastOf(ss, ".sysdirs") == Some(0);
    LengthOfLong();
    OutcomeIs(f, false, LONG, dl);
    BeforeTables(f, false, LONG, dl);
    var r := ChangeList(Interpreted(f, false, dl), ss, LONG, NOTHING).0;
    var (dirs, at) := DirsTable(f, ss, LONG);
    var (lens, to) := LensTable(f, ss, false, LONG);
    WrittenByte(r, at, dirs);
    WrittenByte(WriteAt(r, at, dirs), to, lens);
    NoInterpreter();
  }

  lemma NoInterpreter()
    ensures FindInterpreter(Sample(WITH_LENGTHS), HEADER, 0) == (None, Done)
  {
  }

  lemma LengthOfLong()
    ensures Terminated([LONG]) == LONG + [0] && Lengths([LONG], 4) == Some(Little(25, 4))
  {
    assert [LONG][1..] == [] && LONG + [0] + [] == LONG + [0];
    assert Power(1) == 256 && Power(4) >= Power(1);
    assert Little(25, 4) + [] == Little(25, 4);
  }
}
