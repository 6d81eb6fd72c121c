/** What `relocate_sdk` does to one file of its list, of whatever class. */
module RelocationFile {
  import opened Bytes
  import opened Relocation
  import opened RelocationProofs
  import opened RelocationRuns
  import opened RelocationWhole
  import opened RelocationSpill

  /** Large enough for a header, with the first byte of an ELF file and class 1 or 2, for 32 or 64 bits. */
  predicate Handled(f: seq<Byte>) { |f| >= 64 && f[0] == 0x7F && (f[4] == 1 || f[4] == 2) }

  predicate Wide(f: seq<Byte>) { |f| > 4 && f[4] == 2 }

  /** If it is a file that the script works on, it is well laid. */
  ghost predicate Laid(f: seq<Byte>) { Handled(f) ==> WellLaid(f, Wide(f)) }

  /** Files that are too small or of no known class stay as they are. For the others the script exits if a path does
      not fit where it is written, or if a table runs past the end of the file; it crashes if a table of directories
      has none of lengths, or lengths that cannot be packed; and otherwise it ends normally. */
  lemma FileOutcomeIs(f: seq<Byte>, p: seq<Byte>, dl: seq<Byte>)
    requires Laid(f)
    ensures !Handled(f) ==> ProcessFile(f, p, dl) == (f, Done)
    ensures Handled(f) ==>
              var wide := Wide(f);
              var ss := SectionsOf(f, ParseHeader(f, wide));
              ProcessFile(f, p, dl).1 ==
              if !PathsFit(f, ss, p) then Exit
              else if !TablesThere(f, ss, wide, p) then Crash
              else if !TablesEndWithin(f, ss, wide, p) then Exit
              else Done
  {
    hide WellLaid, Relocate, SectionsOf, ParseHeader, PathsFit, TablesThere, TablesEndWithin;
    if Handled(f) {
      var wide := Wide(f);
      OutcomeIs(f, wide, p, dl);
      if Completes(f, wide, p) { SizeKept(f, wide, p, dl); }
    }
  }

  lemma SameArch(f: seq<Byte>, g: seq<Byte>)
    requires |f| >= 64 && |g| == |f| && ReadAt(f, 0, 64) == ReadAt(g, 0, 64)
    ensures Handled(g) == Handled(f) && Wide(g) == Wide(f)
  {
    assert ReadAt(f, 0, 64)[0] == f[0] && ReadAt(f, 0, 64)[4] == f[4];
    assert ReadAt(g, 0, 64)[0] == g[0] && ReadAt(g, 0, 64)[4] == g[4];
  }

  /** If everything fits, the script can be run again on its own result: both runs end normally, the size stays,
      and the second changes no byte. */
  lemma ProcessTwice(f: seq<Byte>, p: seq<Byte>, dl: seq<Byte>)
    requires Laid(f) && GoodPrefix(p)
    requires Handled(f) ==>
               var wide := Wide(f);
               TablesFit(f, SectionsOf(f, ParseHeader(f, wide)), wide, p) && Completes(f, wide, p)
    ensures var (g, out) := ProcessFile(f, p, dl);
            out == Done && |g| == |f| && ProcessFile(g, p, dl) == (g, Done)
  {
    hide WellLaid, Relocate, SectionsOf, ParseHeader, Completes, TablesFit, GoodPrefix, ReadAt;
    if Handled(f) {
      var wide := Wide(f);
      RelocationIsRight(f, wide, p, dl);
      RelocateTwice(f, wide, p, dl);
      SameArch(f, Relocate(f, wide, p, dl).0);
    }
  }
}
