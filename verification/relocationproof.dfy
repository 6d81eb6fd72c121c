/** Relocating keeps what it must not touch, and relocating twice is relocating once. */
module RelocationProofs {
  import opened Options
  import opened Bytes
  import opened Relocation

  // ---- substitution ---------------------------------------------------------------------------

  /** A directory to install to: absolute, and without the character the mark starts with. */
  predicate GoodPrefix(p: seq<Byte>) { p != [] && p[0] == SLASH && HASH !in p && 0 !in p }

  /** The mark is nowhere in the text. */
  predicate Free(s: seq<Byte>) { s == [] || (!(MARK <= s) && Free(s[1..])) }

  lemma {:induction false} FreeSub(s: seq<Byte>, p: seq<Byte>)
    requires Free(s)
    ensures Sub(s, p) == s
    decreases |s|
  {
    if s != [] { FreeSub(s[1..], p); }
  }

  predicate MarkAt(s: seq<Byte>, i: nat) { i <= |s| && MARK <= s[i..] }

  /** The first mark of a text is replaced, and what is behind it is substituted on its own. */
  lemma {:induction false} SubReplaces(a: seq<Byte>, b: seq<Byte>, p: seq<Byte>)
    requires forall i :: 0 <= i < |a| ==> !MarkAt(a + MARK + b, i)
    ensures Sub(a + MARK + b, p) == a + p + Sub(b, p)
    decreases |a|
  {
    if a == [] {
      SubAtMark(b, p);
    } else {
      SubBefore(a, b, p);
      SubReplaces(a[1..], b, p);
      Regroup(a[0], a[1..], p, Sub(b, p));
    }
  }

  lemma Regroup(x: Byte, y: seq<Byte>, p: seq<Byte>, z: seq<Byte>)
    ensures [x] + (y + p + z) == [x] + y + p + z
  {
  }

  lemma SubAtMark(b: seq<Byte>, p: seq<Byte>)
    ensures Sub([] + MARK + b, p) == [] + p + Sub(b, p)
  {
    var s := [] + MARK + b;
    assert s == MARK + b && s[|MARK|..] == b && [] + p == p;
  }

  /** A byte at which no mark starts stays. */
  lemma SubBefore(a: seq<Byte>, b: seq<Byte>, p: seq<Byte>)
    requires a != [] && forall i :: 0 <= i < |a| ==> !MarkAt(a + MARK + b, i)
    ensures Sub(a + MARK + b, p) == [a[0]] + Sub(a[1..] + MARK + b, p) && [a[0]] + a[1..] == a
    ensures forall i :: 0 <= i < |a[1..]| ==> !MarkAt(a[1..] + MARK + b, i)
  {
    var s, t := a + MARK + b, a[1..] + MARK + b;
    assert s[1..] == t && s[0] == a[0];
    assert !MarkAt(s, 0) && s[0..] == s;
    forall i | 0 <= i < |a[1..]| ensures !MarkAt(t, i) {
      assert !MarkAt(s, i + 1) && s[i + 1..] == t[i..];
    }
  }

  /** Substituting cannot bring a start of the mark about. */
  lemma {:induction false} StartBack(t: seq<Byte>, p: seq<Byte>, w: seq<Byte>)
    requires p != [] && p[0] !in w && w <= Sub(t, p)
    ensures w <= t
    decreases |w|
  {
    if w != [] {
      assert w[0] == Sub(t, p)[0];
      SubHead(t, p);
      if !(MARK <= t) {
        assert w[1..] <= Sub(t, p)[1..];
        StartBack(t[1..], p, w[1..]);
      }
    }
  }

  lemma SubHead(t: seq<Byte>, p: seq<Byte>)
    requires t != [] && p != []
    ensures Sub(t, p) != [] && Sub(t, p)[0] == if MARK <= t then p[0] else t[0]
    ensures !(MARK <= t) ==> Sub(t, p)[1..] == Sub(t[1..], p)
  {
  }

  lemma {:induction false} FreeBehind(p: seq<Byte>, s: seq<Byte>)
    requires HASH !in p && Free(s)
    ensures Free(p + s)
    decreases |p|
  {
    if p == [] {
      assert p + s == s;
    } else {
      assert (p + s)[0] == p[0] && (p + s)[1..] == p[1..] + s;
      FreeBehind(p[1..], s);
    }
  }

  /** A substituted text has no mark left, whatever its pieces were. */
  lemma {:induction false} SubIsFree(t: seq<Byte>, p: seq<Byte>)
    requires GoodPrefix(p)
    ensures Free(Sub(t, p))
    decreases |t|
  {
    if t != [] {
      if MARK <= t {
        SubIsFree(t[|MARK|..], p);
        FreeBehind(p, Sub(t[|MARK|..], p));
      } else {
        SubIsFree(t[1..], p);
        assert Sub(t, p)[1..] == Sub(t[1..], p);
        if MARK <= Sub(t, p) { StartBack(t, p, MARK); }
      }
    }
  }

  lemma SubTwice(t: seq<Byte>, p: seq<Byte>)
    requires GoodPrefix(p)
    ensures Sub(Sub(t, p), p) == Sub(t, p)
  {
    SubIsFree(t, p);
    FreeSub(Sub(t, p), p);
  }

  lemma {:induction false} FreeTake(s: seq<Byte>, n: nat)
    requires Free(s) && n <= |s|
    ensures Free(s[..n])
    decreases n
  {
    if n > 0 {
      FreeTake(s[1..], n - 1);
      assert s[..n][1..] == s[1..][..n - 1];
    }
  }

  lemma {:induction false} FreePadded(s: seq<Byte>, n: nat)
    requires Free(s)
    ensures Free(s + Zeros(n))
    decreases |s| + n
  {
    var t := s + Zeros(n);
    if s != [] {
      FreePadded(s[1..], n);
      assert t[1..] == s[1..] + Zeros(n);
      assert |s| < |t| ==> t[|s|] == 0;
      assert |s| < |MARK| ==> MARK[|s|] != 0;
      assert MARK <= t && |s| >= |MARK| ==> MARK <= s;
    } else if n > 0 {
      FreePadded(s, n - 1);
      assert t[1..] == s + Zeros(n - 1) && t[0] == 0;
    }
  }

  lemma {:induction false} StripPadded(s: seq<Byte>, n: nat)
    requires s == [] || s[|s| - 1] != 0
    ensures Strip(s + Zeros(n)) == s
    decreases n
  {
    var t := s + Zeros(n);
    if n > 0 {
      assert t[..|t| - 1] == s + Zeros(n - 1);
      StripPadded(s, n - 1);
    } else {
      assert t == s;
    }
  }

  lemma {:induction false} StripEnds(s: seq<Byte>)
    ensures Strip(s) == [] || Strip(s)[|Strip(s)| - 1] != 0
    decreases |s|
  {
    if s != [] && s[|s| - 1] == 0 { StripEnds(s[..|s| - 1]); }
  }

  /** A path that was substituted, stripped and padded comes out the same. */
  lemma NewPathTwice(t: seq<Byte>, p: seq<Byte>, n: nat)
    requires GoodPrefix(p)
    ensures NewPath(Pad(NewPath(t, p), n), p) == NewPath(t, p)
  {
    var s := NewPath(t, p);
    SubIsFree(t, p);
    FreeTake(Sub(t, p), |s|);
    assert s == Sub(t, p)[..|s|];
    StripEnds(Sub(t, p));
    var k := if |s| < n then n - |s| else 0;
    assert Pad(s, n) == s + Zeros(k);
    FreePadded(s, k);
    FreeSub(s + Zeros(k), p);
    StripPadded(s, k);
  }

  // ---- reading and writing --------------------------------------------------------------------

  predicate Apart(a: nat, n: nat, b: nat, k: nat) { n == 0 || k == 0 || a + n <= b || b + k <= a }

  /** Only the bytes of one stretch differ. */
  predicate Only(f: seq<Byte>, g: seq<Byte>, a: nat, n: nat) {
    |f| == |g| && forall x :: 0 <= x < |f| && (x < a || a + n <= x) ==> g[x] == f[x]
  }

  lemma ReadSame(f: seq<Byte>, g: seq<Byte>, a: nat, n: nat, b: nat, k: nat)
    requires Only(f, g, a, n) && Apart(a, n, b, k)
    ensures ReadAt(g, b, k) == ReadAt(f, b, k)
  {
  }

  lemma WriteIs(f: seq<Byte>, pos: nat, bs: seq<Byte>)
    requires pos + |bs| <= |f|
    ensures var g := WriteAt(f, pos, bs); Only(f, g, pos, |bs|) && ReadAt(g, pos, |bs|) == bs
  {
  }

  lemma WriteBack(f: seq<Byte>, pos: nat, n: nat)
    requires pos + n <= |f|
    ensures WriteAt(f, pos, ReadAt(f, pos, n)) == f
  {
  }

  /** A part of a stretch that reads the same reads the same. */
  lemma ReadPart(f: seq<Byte>, g: seq<Byte>, a: nat, n: nat, b: nat, k: nat)
    requires |f| == |g| && ReadAt(f, a, n) == ReadAt(g, a, n) && a <= b && b + k <= a + n
    ensures ReadAt(f, b, k) == ReadAt(g, b, k)
  {
    forall x | b <= x < b + k && x < |f| ensures f[x] == g[x] {
      assert f[x] == ReadAt(f, a, n)[x - a] && g[x] == ReadAt(g, a, n)[x - a];
    }
  }

  // ---- one path, and the slots ----------------------------------------------------------------

  lemma PathIs(f: seq<Byte>, pos: nat, size: nat, p: seq<Byte>)
    requires pos + size <= |f|
    ensures var (g, out) := ChangePath(f, pos, size, p);
            Only(f, g, pos, size) && out != Crash &&
            (out == Done ==> |NewPath(ReadAt(f, pos, size), p)| < size &&
                             ReadAt(g, pos, size) == Pad(NewPath(ReadAt(f, pos, size), p), size))
  {
    var path := NewPath(ReadAt(f, pos, size), p);
    if |path| < size { WriteIs(f, pos, Pad(path, size)); }
  }

  /** The content of a place that a second run leaves alone. */
  predicate Settled(c: seq<Byte>, size: nat, p: seq<Byte>) { |NewPath(c, p)| < size && Pad(NewPath(c, p), size) == c }

  lemma SettledPath(f: seq<Byte>, pos: nat, size: nat, p: seq<Byte>)
    requires pos + size <= |f| && Settled(ReadAt(f, pos, size), size, p)
    ensures ChangePath(f, pos, size, p) == (f, Done)
  {
    WriteBack(f, pos, size);
  }

  lemma NewIsSettled(c: seq<Byte>, size: nat, p: seq<Byte>)
    requires GoodPrefix(p) && |NewPath(c, p)| < size
    ensures Settled(Pad(NewPath(c, p), size), size, p)
  {
    NewPathTwice(c, p, size);
  }

  /** Where the last whole slot ends. */
  function SlotsEnd(size: nat, offset: nat): (end: nat)
    ensures offset <= end && (offset <= size ==> end <= size)
    decreases if offset + SLOT <= size then size - offset else 0
  {
    if offset + SLOT > size then offset else SlotsEnd(size, offset + SLOT)
  }

  /** A slot holds the new path of what it held. */
  predicate SlotRewritten(f: seq<Byte>, g: seq<Byte>, pos: nat, p: seq<Byte>) {
    var c := ReadAt(f, pos, SLOT);
    |NewPath(c, p)| < SLOT && ReadAt(g, pos, SLOT) == Pad(NewPath(c, p), SLOT)
  }

  predicate SlotsRewritten(f: seq<Byte>, g: seq<Byte>, start: nat, size: nat, offset: nat, p: seq<Byte>)
    decreases if offset + SLOT <= size then size - offset else 0
  {
    offset + SLOT <= size ==>
      SlotRewritten(f, g, start + offset, p) && SlotsRewritten(f, g, start, size, offset + SLOT, p)
  }

  lemma {:induction false} SlotsSame(f: seq<Byte>, f': seq<Byte>, g: seq<Byte>, g': seq<Byte>, start: nat, size: nat,
                                     offset: nat, p: seq<Byte>)
    requires |f| == |f'| && |g| == |g'| && offset <= size && SlotsRewritten(f, g, start, size, offset, p)
    requires ReadAt(f, start + offset, size - offset) == ReadAt(f', start + offset, size - offset)
    requires ReadAt(g, start + offset, size - offset) == ReadAt(g', start + offset, size - offset)
    ensures SlotsRewritten(f', g', start, size, offset, p)
    decreases size - offset
  {
    hide ReadAt;
    if offset + SLOT <= size {
      var at, n := start + offset, size - offset;
      ReadPart(f, f', at, n, at, SLOT);
      ReadPart(g, g', at, n, at, SLOT);
      ReadPart(f, f', at, n, at + SLOT, n - SLOT);
      ReadPart(g, g', at, n, at + SLOT, n - SLOT);
      SlotsSame(f, f', g, g', start, size, offset + SLOT, p);
    }
  }

  /** Slots are rewritten independently of each other, and nothing else is. */
  lemma {:induction false} SlotsAre(f: seq<Byte>, start: nat, size: nat, offset: nat, p: seq<Byte>)
    requires start + size <= |f| && offset <= size
    ensures var (g, out) := ChangeSlots(f, start, size, offset, p);
            && Only(f, g, start + offset, SlotsEnd(size, offset) - offset) && out != Crash
            && (out == Done ==> SlotsRewritten(f, g, start, size, offset, p))
    decreases size - offset
  {
    hide ReadAt, ChangePath, Only, Pad, NewPath;
    if offset + SLOT > size {
      OnlySame(f, start + offset);
    } else {
      var (g, out) := ChangePath(f, start + offset, SLOT, p);
      PathIs(f, start + offset, SLOT, p);
      OnlyLength(f, g, start + offset, SLOT);
      if out == Done {
        SlotsAre(g, start, size, offset + SLOT, p);
        var (h, out') := ChangeSlots(g, start, size, offset + SLOT, p);
        SlotStep(f, g, h, start, size, offset, p);
      } else {
        OnlyMore(f, g, start + offset, SLOT, SlotsEnd(size, offset) - offset);
      }
    }
  }

  lemma OnlySame(f: seq<Byte>, a: nat)
    ensures Only(f, f, a, 0)
  {
  }

  lemma OnlyLength(f: seq<Byte>, g: seq<Byte>, a: nat, n: nat)
    requires Only(f, g, a, n)
    ensures |f| == |g|
  {
  }

  lemma OnlyMore(f: seq<Byte>, g: seq<Byte>, a: nat, n: nat, m: nat)
    requires Only(f, g, a, n) && n <= m
    ensures Only(f, g, a, m)
  {
  }

  lemma SlotStep(f: seq<Byte>, g: seq<Byte>, h: seq<Byte>, start: nat, size: nat, offset: nat, p: seq<Byte>)
    requires start + size <= |f| && offset + SLOT <= size
    requires Only(f, g, start + offset, SLOT)
    requires Only(g, h, start + offset + SLOT, SlotsEnd(size, offset + SLOT) - offset - SLOT)
    ensures Only(f, h, start + offset, SlotsEnd(size, offset) - offset)
    ensures SlotRewritten(f, g, start + offset, p) && SlotsRewritten(g, h, start, size, offset + SLOT, p) ==>
            SlotsRewritten(f, h, start, size, offset, p)
  {
    hide Pad, NewPath, ReadAt;
    var at, n, end := start + offset, size - offset, SlotsEnd(size, offset + SLOT);
    assert SlotsEnd(size, offset) == end;
    ReadSame(g, h, at + SLOT, end - offset - SLOT, at, SLOT);
    ReadSame(f, g, at, SLOT, at + SLOT, n - SLOT);
    if SlotRewritten(f, g, at, p) && SlotsRewritten(g, h, start, size, offset + SLOT, p) {
      SlotsSame(g, f, h, h, start, size, offset + SLOT, p);
    }
  }

  /** Slots that were rewritten are left alone. */
  lemma {:induction false} SettledSlots(f: seq<Byte>, g: seq<Byte>, start: nat, size: nat, offset: nat, p: seq<Byte>)
    requires start + size <= |g| && GoodPrefix(p) && SlotsRewritten(f, g, start, size, offset, p)
    ensures ChangeSlots(g, start, size, offset, p) == (g, Done)
    decreases if offset + SLOT <= size then size - offset else 0
  {
    hide ReadAt, ChangePath, Pad, NewPath, GoodPrefix, Settled;
    if offset + SLOT <= size {
      NewIsSettled(ReadAt(f, start + offset, SLOT), SLOT, p);
      SettledPath(g, start + offset, SLOT, p);
      SettledSlots(f, g, start, size, offset + SLOT, p);
    }
  }

  // ---- the layout of the headers --------------------------------------------------------------

  /** The sizes of the fields of a packed record, and where one of them starts. */
  function StartOf(widths: seq<nat>, i: nat): nat
    requires i <= |widths|
    decreases i
  {
    if i == 0 then 0 else StartOf(widths, i - 1) + widths[i - 1]
  }

  /** Field `i` of a record at a position; nothing if the record is not all there. */
  function Unpacked(bs: seq<Byte>, at: nat, widths: seq<nat>, i: nat): Option<nat>
    requires i < |widths|
  {
    var start := at + StartOf(widths, i);
    if start + widths[i] <= |bs| then Some(FromLittle(bs[start..start + widths[i]])) else None
  }

  // type, machine, version, entry, phoff, shoff, flags, ehsize, phentsize, phnum, shentsize, shnum, shstrndx
  const EHDR32: seq<nat> := [2, 2, 4, 4, 4, 4, 4, 2, 2, 2, 2, 2, 2]
  const EHDR64: seq<nat> := [2, 2, 4, 8, 8, 8, 4, 2, 2, 2, 2, 2, 2]

  // 32-bit: type, offset, vaddr, paddr, filesz, memsz, flags, align; 64-bit: flags come second
  const PHDR32: seq<nat> := [4, 4, 4, 4, 4, 4, 4, 4]
  const PHDR64: seq<nat> := [4, 4, 8, 8, 8, 8, 8, 8]

  // name, type, flags, addr, offset, size, link, info, addralign, entsize
  const SHDR32: seq<nat> := [4, 4, 4, 4, 4, 4, 4, 4, 4, 4]
  const SHDR64: seq<nat> := [4, 4, 8, 8, 8, 8, 4, 4, 8, 8]

  lemma {:induction false} Starts(widths: seq<nat>, i: nat)
    requires i < |widths|
    ensures StartOf(widths, i + 1) == StartOf(widths, i) + widths[i]
  {
  }

  /** Every field used of the file header is the one of its name in the packed record behind the 16 bytes of
      identification. */
  lemma FileHeaderFields(f: seq<Byte>, wide: bool)
    requires |f| >= 64
    ensures var h := ParseHeader(f, wide); var b := ReadAt(f, 0, 64); var w := if wide then EHDR64 else EHDR32;
            && Unpacked(b, 16, w, 4) == Some(h.phoff) && Unpacked(b, 16, w, 5) == Some(h.shoff)
            && Unpacked(b, 16, w, 8) == Some(h.phentsize) && Unpacked(b, 16, w, 9) == Some(h.phnum)
            && Unpacked(b, 16, w, 10) == Some(h.shentsize) && Unpacked(b, 16, w, 11) == Some(h.shnum)
            && Unpacked(b, 16, w, 12) == Some(h.shstrndx) && h.wide == wide
  {
    hide FromLittle;
    var w := if wide then EHDR64 else EHDR32;
    forall i: nat | i < 13 ensures StartOf(w, i + 1) == StartOf(w, i) + w[i] { Starts(w, i); }
    assert StartOf(w, 0) == 0;
    assert StartOf(w, 1) == 2 && StartOf(w, 2) == 4 && StartOf(w, 3) == 8;
    assert StartOf(w, 4) == (if wide then 16 else 12) && StartOf(w, 5) == (if wide then 24 else 16);
    assert StartOf(w, 6) == (if wide then 32 else 20) && StartOf(w, 7) == (if wide then 36 else 24);
    assert StartOf(w, 8) == (if wide then 38 else 26) && StartOf(w, 9) == (if wide then 40 else 28);
    assert StartOf(w, 10) == (if wide then 42 else 30) && StartOf(w, 11) == (if wide then 44 else 32);
    assert StartOf(w, 12) == (if wide then 46 else 34);
  }

  lemma ProgramFields(f: seq<Byte>, h: Header, i: nat)
    requires ProgramAt(f, h, i).Some?
    ensures var p := ProgramAt(f, h, i).value; var b := ReadAt(f, h.phoff + i * h.phentsize, h.phentsize);
            && (h.wide ==> Unpacked(b, 0, PHDR64, 0) == Some(p.ptype) && Unpacked(b, 0, PHDR64, 2) == Some(p.offset)
                           && Unpacked(b, 0, PHDR64, 5) == Some(p.filesz) && |b| == StartOf(PHDR64, 8))
            && (!h.wide ==> Unpacked(b, 0, PHDR32, 0) == Some(p.ptype) && Unpacked(b, 0, PHDR32, 1) == Some(p.offset)
                            && Unpacked(b, 0, PHDR32, 4) == Some(p.filesz) && |b| == StartOf(PHDR32, 8))
  {
    hide FromLittle, ReadAt;
    var w := if h.wide then PHDR64 else PHDR32;
    forall i: nat | i < 8 ensures StartOf(w, i + 1) == StartOf(w, i) + w[i] { Starts(w, i); }
    assert StartOf(w, 0) == 0 && StartOf(w, 1) == 4 && StartOf(w, 2) == 8;
    assert StartOf(w, 3) == (if h.wide then 16 else 12) && StartOf(w, 4) == (if h.wide then 24 else 16);
    assert StartOf(w, 5) == (if h.wide then 32 else 20) && StartOf(w, 6) == (if h.wide then 40 else 24);
    assert StartOf(w, 7) == (if h.wide then 48 else 28) && StartOf(w, 8) == (if h.wide then 56 else 32);
  }

  lemma SectionFields(f: seq<Byte>, h: Header, names: seq<Byte>, i: nat)
    requires SectionAt(f, h, names, i).Some?
    ensures var s := SectionAt(f, h, names, i).value; var w := if h.wide then SHDR64 else SHDR32;
            var b := ReadAt(f, h.shoff + i * h.shentsize, h.shentsize);
            && Unpacked(b, 0, w, 0).Some? && s.name == NameOf(names, Unpacked(b, 0, w, 0).value)
            && Unpacked(b, 0, w, 1) == Some(s.stype) && Unpacked(b, 0, w, 4) == Some(s.offset)
            && Unpacked(b, 0, w, 5) == Some(s.size) && |b| == StartOf(w, 10)
    ensures i == h.shstrndx ==> NamesAt(f, h) == Some((SectionAt(f, h, names, i).value.offset, SectionAt(f, h, names, i).value.size))
  {
    hide FromLittle, ReadAt, NameOf;
    var w := if h.wide then SHDR64 else SHDR32;
    forall i: nat | i < 10 ensures StartOf(w, i + 1) == StartOf(w, i) + w[i] { Starts(w, i); }
    assert StartOf(w, 0) == 0 && StartOf(w, 1) == 4 && StartOf(w, 2) == 8;
    assert StartOf(w, 3) == (if h.wide then 16 else 12) && StartOf(w, 4) == (if h.wide then 24 else 16);
    assert StartOf(w, 5) == (if h.wide then 32 else 20) && StartOf(w, 6) == (if h.wide then 40 else 24);
    assert StartOf(w, 7) == (if h.wide then 44 else 28) && StartOf(w, 8) == (if h.wide then 48 else 32);
    assert StartOf(w, 9) == (if h.wide then 56 else 36) && StartOf(w, 10) == (if h.wide then 64 else 40);
  }
}
