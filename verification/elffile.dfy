/** The file that `relocate_sdk` works on: bytes that are read and written at a position that moves. */
module ElfFiles {
  import opened Options
  import opened Bytes
  import opened Relocation

  class ElfFile {
    var bytes: seq<Byte>
    var pos: nat

    constructor (bytes: seq<Byte>)
      ensures this.bytes == bytes && pos == 0
    {
      this.bytes, pos := bytes, 0;
    }

    method Seek(at: nat)
      modifies this`pos
      ensures pos == at
    {
      pos := at;
    }

    method Read(n: nat) returns (bs: seq<Byte>)
      modifies this`pos
      ensures bs == ReadAt(bytes, old(pos), n) && pos == old(pos) + |bs|
    {
      if pos >= |bytes| {
        bs := [];
      } else if pos + n <= |bytes| {
        bs := bytes[pos..pos + n];
      } else {
        bs := bytes[pos..];
      }
      pos := pos + |bs|;
    }

    method Write(bs: seq<Byte>)
      modifies this
      ensures bytes == WriteAt(old(bytes), old(pos), bs) && pos == old(pos) + |bs|
    {
      if bs != [] {
        if pos > |bytes| { bytes := bytes + Zeros(pos - |bytes|); }
        bytes := bytes[..pos] + bs + if pos + |bs| < |bytes| then bytes[pos + |bs|..] else [];
      }
      pos := pos + |bs|;
    }

    method GetArch() returns (wide: Option<bool>)
      requires |bytes| >= 16
      modifies this`pos
      ensures wide == Arch(bytes)
    {
      Seek(0);
      var ident := Read(16);
      var magic, class' := ident[0], ident[4];
      if magic != 0x7F || class' == 0 { return None; }
      if class' == 1 { return Some(false); }
      if class' == 2 { return Some(true); }
      wide := None;
    }

    method ParseElfHeader(wide: bool) returns (h: Header)
      requires |bytes| >= 64
      modifies this`pos
      ensures h == ParseHeader(bytes, wide)
    {
      Seek(0);
      var b := Read(64);
      if wide {
        h := Header(true, Field(b, 32, 8), Field(b, 54, 2), Field(b, 56, 2), Field(b, 40, 8), Field(b, 58, 2),
                    Field(b, 60, 2), Field(b, 62, 2));
      } else {
        h := Header(false, Field(b, 28, 4), Field(b, 42, 2), Field(b, 44, 2), Field(b, 32, 4), Field(b, 46, 2),
                    Field(b, 48, 2), Field(b, 50, 2));
      }
    }

    method ChangeInterpreter(h: Header, dl: seq<Byte>) returns (out: Outcome)
      modifies this
      ensures (bytes, out) == Relocation.ChangeInterpreter(old(bytes), h, dl)
    {
      hide Field, ReadAt, WriteAt, IsLib;
      var i := 0;
      while i < h.phnum
        invariant i <= h.phnum && bytes == old(bytes)
        invariant FindInterpreter(bytes, h, i) == FindInterpreter(bytes, h, 0)
      {
        Seek(h.phoff + i * h.phentsize);
        var hdr := Read(h.phentsize);
        if |hdr| != (if h.wide then 56 else 32) { return Crash; }
        var ptype := Field(hdr, 0, 4);
        var offset := if h.wide then Field(hdr, 8, 8) else Field(hdr, 4, 4);
        var filesz := if h.wide then Field(hdr, 32, 8) else Field(hdr, 16, 4);
        assert ProgramAt(bytes, h, i) == Some(Program(ptype, offset, filesz));
        if ptype == 3 {
          Seek(offset);
          var fname := Read(11);
          if !IsLib(fname) && filesz != 0 && |dl| < filesz {
            Seek(offset);
            Write(dl + Zeros(filesz - |dl|));
          }
          return Done;
        }
        i := i + 1;
      }
      out := Done;
    }

    /** Reads a path where the position is, and writes the new one over it. */
    method ChangePath(at: nat, size: nat, prefix: seq<Byte>) returns (out: Outcome)
      requires pos == at
      modifies this
      ensures (bytes, out) == Relocation.ChangePath(old(bytes), at, size, prefix)
      ensures out == Done ==> pos == at + size
    {
      var path := Read(size);
      var new_path := Substitute(path, prefix);
      new_path := RightStrip(new_path);
      if |new_path| >= size { return Exit; }
      Seek(at);
      Write(new_path + Zeros(size - |new_path|));
      out := Done;
    }

    method ChangeSlots(start: nat, size: nat, prefix: seq<Byte>) returns (out: Outcome)
      requires pos == start
      modifies this
      ensures (bytes, out) == Relocation.ChangeSlots(old(bytes), start, size, 0, prefix)
    {
      hide Relocation.ChangePath;
      var offset: nat := 0;
      out := Done;
      while offset + SLOT <= size
        invariant pos == start + offset && out == Done
        invariant Relocation.ChangeSlots(bytes, start, size, offset, prefix) ==
                  Relocation.ChangeSlots(old(bytes), start, size, 0, prefix)
        decreases if offset + SLOT <= size then size - offset else 0
      {
        out := ChangePath(start + offset, SLOT, prefix);
        if out != Done { return; }
        offset := offset + SLOT;
      }
    }

    method ChangeDlSysdirs(h: Header, prefix: seq<Byte>) returns (out: Outcome)
      modifies this
      ensures (bytes, out) == Relocation.ChangeDlSysdirs(old(bytes), h, prefix)
    {
      hide Relocation.ChangeSection, Field, NameOf, ReadAt, WriteAt;
      Seek(h.shoff + h.shstrndx * h.shentsize);
      var hdr := Read(h.shentsize);
      if |hdr| != (if h.wide then 64 else 40) { return Crash; }
      var at := if h.wide then Field(hdr, 24, 8) else Field(hdr, 16, 4);
      var size := if h.wide then Field(hdr, 32, 8) else Field(hdr, 20, 4);
      assert NamesAt(old(bytes), h) == Some((at, size));
      Seek(at);
      var names := Read(size);
      var found := NOTHING;
      var i := 0;
      while i < h.shnum
        invariant i <= h.shnum
        invariant ChangeSections(bytes, h, names, prefix, i, found) == ChangeSections(old(bytes), h, names, prefix, 0, NOTHING)
      {
        Seek(h.shoff + i * h.shentsize);
        hdr := Read(h.shentsize);
        if |hdr| != (if h.wide then 64 else 40) { return Crash; }
        var name := NameOf(names, Field(hdr, 0, 4));
        var s := if h.wide then Section(name, Field(hdr, 4, 4), Field(hdr, 24, 8), Field(hdr, 32, 8))
                 else Section(name, Field(hdr, 4, 4), Field(hdr, 16, 4), Field(hdr, 20, 4));
        assert SectionAt(bytes, h, names, i) == Some(s);
        found, out := ChangeSection(s, prefix, found);
        if out != Done { return; }
        i := i + 1;
      }
      out := ChangeDirs(h.wide, prefix, found);
    }

    method ChangeSection(s: Section, prefix: seq<Byte>, found: Found) returns (found': Found, out: Outcome)
      modifies this
      ensures (bytes, found', out) == Relocation.ChangeSection(old(bytes), s, prefix, found)
    {
      found', out := found, Done;
      if s.stype == PROGBITS {
        Seek(s.offset);
        if s.name == ToBytes(".sysdirs") {
          var sysdirs := Read(s.size);
          found' := found.(dirs := Some(sysdirs), dirsAt := s.offset, dirsSize := s.size);
        } else if s.name == ToBytes(".sysdirslen") {
          var sysdirslen := Read(s.size);
          found' := found.(lens := Some(sysdirslen), lensAt := s.offset);
        } else if s.name == ToBytes(".ldsocache") {
          out := ChangePath(s.offset, s.size, prefix);
        } else if s.name == ToBytes(".gccrelocprefix") {
          out := ChangeSlots(s.offset, s.size, prefix);
        }
      }
    }

    method ChangeDirs(wide: bool, prefix: seq<Byte>, found: Found) returns (out: Outcome)
      modifies this
      ensures (bytes, out) == Relocation.ChangeDirs(old(bytes), wide, prefix, found)
    {
      hide WriteAt;
      if found.dirs.None? { return Done; }
      if found.lens.None? { return Crash; }
      var paths := SplitAtNuls(found.dirs.value);
      var sysdirs, sysdirslen := BuildTables(paths, prefix, LengthWidth(wide));
      if sysdirslen.None? { return Crash; }
      if |sysdirs| < found.dirsSize { sysdirs := sysdirs + Zeros(found.dirsSize - |sysdirs|); }
      Seek(found.dirsAt);
      Write(sysdirs);
      Seek(found.lensAt);
      Write(sysdirslen.value);
      out := Done;
    }
  }

  /** The tables of the paths before the first empty one; there are none if a length cannot be packed. */
  method BuildTables(paths: seq<seq<Byte>>, prefix: seq<Byte>, w: nat)
    returns (sysdirs: seq<Byte>, sysdirslen: Option<seq<Byte>>)
    ensures sysdirslen == Lengths(SubAll(Leading(paths), prefix), w)
    ensures sysdirslen.Some? ==> sysdirs == Terminated(SubAll(Leading(paths), prefix))
  {
    hide Lengths, Terminated, Sub, Little, Power;
    ghost var all := SubAll(Leading(paths), prefix);
    sysdirs := [];
    var lens := [];
    var i := 0;
    assert paths[0..] == paths;
    NoTables(Terminated(all), Lengths(all, w));
    while i < |paths| && paths[i] != []
      invariant i <= |paths|
      invariant sysdirs + Terminated(SubAll(Leading(paths[i..]), prefix)) == Terminated(all)
      invariant Packed(lens, Lengths(SubAll(Leading(paths[i..]), prefix), w)) == Lengths(all, w)
    {
      assert paths[i..][0] == paths[i] && paths[i..][1..] == paths[i + 1..];
      var path := Substitute(paths[i], prefix);
      LeadingStep(paths[i..], prefix);
      StepTables(sysdirs, lens, path, SubAll(Leading(paths[i + 1..]), prefix), w);
      if |path| >= Power(w) { return sysdirs, None; }
      sysdirs := sysdirs + (path + [0]);
      lens := lens + Little(|path|, w);
      i := i + 1;
    }
    assert Leading(paths[i..]) == [];
    EndTables(sysdirs, lens, w);
    sysdirslen := Some(lens);
  }

  lemma NoTables(t: seq<Byte>, l: Option<seq<Byte>>)
    ensures [] + t == t && Packed([], l) == l
  {
    assert l.Some? ==> [] + l.value == l.value;
  }

  lemma EndTables(d: seq<Byte>, l: seq<Byte>, w: nat)
    ensures d + Terminated([]) == d && Packed(l, Lengths([], w)) == Some(l)
  {
    assert l + [] == l;
  }

  /** Packed lengths with more to come. */
  function Packed(l: seq<Byte>, more: Option<seq<Byte>>): Option<seq<Byte>> {
    if more.Some? then Some(l + more.value) else None
  }

  lemma LeadingStep(paths: seq<seq<Byte>>, prefix: seq<Byte>)
    requires paths != [] && paths[0] != []
    ensures SubAll(Leading(paths), prefix) == [Sub(paths[0], prefix)] + SubAll(Leading(paths[1..]), prefix)
  {
    assert Leading(paths)[1..] == Leading(paths[1..]);
  }

  lemma StepTables(d: seq<Byte>, l: seq<Byte>, path: seq<Byte>, rest: seq<seq<Byte>>, w: nat)
    ensures d + Terminated([path] + rest) == d + (path + [0]) + Terminated(rest)
    ensures |path| >= Power(w) ==> Packed(l, Lengths([path] + rest, w)) == None
    ensures |path| < Power(w) ==> Packed(l, Lengths([path] + rest, w)) == Packed(l + Little(|path|, w), Lengths(rest, w))
  {
    assert ([path] + rest)[1..] == rest;
    assert path + [0] + Terminated(rest) == (path + [0]) + Terminated(rest);
    var r := Lengths(rest, w);
    if |path| < Power(w) && r.Some? {
      assert l + (Little(|path|, w) + r.value) == l + Little(|path|, w) + r.value;
    }
  }

  /** The substitution, from the left. */
  method Substitute(text: seq<Byte>, prefix: seq<Byte>) returns (r: seq<Byte>)
    ensures r == Sub(text, prefix)
  {
    r := [];
    var i := 0;
    while i < |text|
      invariant i <= |text| && r + Sub(text[i..], prefix) == Sub(text, prefix)
      decreases |text| - i
    {
      var rest := text[i..];
      if MARK <= rest {
        assert r + (prefix + Sub(rest[|MARK|..], prefix)) == r + prefix + Sub(rest[|MARK|..], prefix);
        assert rest[|MARK|..] == text[i + |MARK|..];
        r, i := r + prefix, i + |MARK|;
      } else {
        assert r + ([rest[0]] + Sub(rest[1..], prefix)) == r + [rest[0]] + Sub(rest[1..], prefix);
        assert rest[1..] == text[i + 1..];
        r, i := r + [rest[0]], i + 1;
      }
    }
    assert text[i..] == [] && r + [] == r;
  }

  method RightStrip(text: seq<Byte>) returns (r: seq<Byte>)
    ensures r == Strip(text)
  {
    var n := |text|;
    assert text[..n] == text;
    while n > 0 && text[n - 1] == 0
      invariant n <= |text| && Strip(text[..n]) == Strip(text)
    {
      assert text[..n][..n - 1] == text[..n - 1];
      n := n - 1;
    }
    r := text[..n];
  }

  method SplitAtNuls(text: seq<Byte>) returns (parts: seq<seq<Byte>>)
    ensures parts == Split(text)
  {
    hide Split;
    parts := [];
    var rest := text;
    while Nul(rest) < |rest|
      invariant parts + Split(rest) == Split(text)
      decreases |rest|
    {
      SplitOnce(parts, rest);
      var n := Nul(rest);
      parts, rest := parts + [rest[..n]], rest[n + 1..];
    }
    SplitOnce(parts, rest);
    parts := parts + [rest];
  }

  lemma SplitOnce(parts: seq<seq<Byte>>, rest: seq<Byte>)
    ensures var n := Nul(rest);
            parts + Split(rest) == if n == |rest| then parts + [rest] else parts + [rest[..n]] + Split(rest[n + 1..])
  {
    hide Split, Nul;
    SplitUnfolds(rest);
    var n := Nul(rest);
    if n < |rest| { AppendPart(parts, rest[..n], Split(rest[n + 1..])); }
  }

  lemma SplitUnfolds(rest: seq<Byte>)
    ensures var n := Nul(rest); Split(rest) == if n == |rest| then [rest] else [rest[..n]] + Split(rest[n + 1..])
  {
    hide Nul;
  }

  lemma AppendPart(parts: seq<seq<Byte>>, x: seq<Byte>, more: seq<seq<Byte>>)
    ensures parts + ([x] + more) == parts + [x] + more
  {
  }

  /** One file, as the loop over the executables treats it. */
  method RelocateFile(f: ElfFile, prefix: seq<Byte>, dl: seq<Byte>) returns (out: Outcome)
    modifies f
    ensures (f.bytes, out) == ProcessFile(old(f.bytes), prefix, dl)
  {
    var oldSize := |f.bytes|;
    if oldSize >= 64 {
      var arch := f.GetArch();
      if arch.Some? {
        var h := f.ParseElfHeader(arch.value);
        out := f.ChangeInterpreter(h, dl);
        if out != Done { return; }
        out := f.ChangeDlSysdirs(h, prefix);
        if out != Done { return; }
      }
    }
    out := if |f.bytes| != oldSize then Exit else Done;
  }
}
