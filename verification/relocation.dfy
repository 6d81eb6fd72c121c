/** `relocate_sdk`: what the script makes of the bytes of an ELF file. */
module Relocation {
  import opened Options
  import opened Bytes

  // ---- text -----------------------------------------------------------------------------------

  /** "##DEFAULT_INSTALL_DIR##" */
  const MARK: seq<Byte> :=
    [35, 35, 68, 69, 70, 65, 85, 76, 84, 95, 73, 78, 83, 84, 65, 76, 76, 95, 68, 73, 82, 35, 35]

  const HASH: Byte := 35
  const SLASH: Byte := 47

  /** `old_prefix.sub(prefix, text)`: the leftmost mark that does not overlap one before it is replaced. */
  function Sub(text: seq<Byte>, prefix: seq<Byte>): seq<Byte>
    decreases |text|
  {
    if text == [] then []
    else if MARK <= text then prefix + Sub(text[|MARK|..], prefix)
    else [text[0]] + Sub(text[1..], prefix)
  }

  /** `text.rstrip(b"\0")` */
  function Strip(text: seq<Byte>): (r: seq<Byte>)
    ensures r <= text
  {
    if text != [] && text[|text| - 1] == 0 then Strip(text[..|text| - 1]) else text
  }

  /** `text + b"\0" * (n - len(text))`; Python makes nothing of a negative count. */
  function Pad(text: seq<Byte>, n: nat): (r: seq<Byte>)
    ensures |r| == if |text| < n then n else |text|
  {
    if |text| < n then text + Zeros(n - |text|) else text
  }

  function NewPath(text: seq<Byte>, prefix: seq<Byte>): seq<Byte> { Strip(Sub(text, prefix)) }

  /** The index of the first NUL, or the length. */
  function Nul(text: seq<Byte>): (n: nat)
    ensures n <= |text| && (n < |text| ==> text[n] == 0) && forall i :: 0 <= i < n ==> text[i] != 0
  {
    if text == [] || text[0] == 0 then 0 else 1 + Nul(text[1..])
  }

  /** `text.split(b"\0")` */
  function Split(text: seq<Byte>): seq<seq<Byte>>
    decreases |text|
  {
    var n := Nul(text);
    if n == |text| then [text] else [text[..n]] + Split(text[n + 1..])
  }

  /** The paths before the first empty one. */
  function Leading(paths: seq<seq<Byte>>): seq<seq<Byte>> {
    if paths == [] || paths[0] == [] then [] else [paths[0]] + Leading(paths[1..])
  }

  function SubAll(paths: seq<seq<Byte>>, prefix: seq<Byte>): (r: seq<seq<Byte>>)
    ensures |r| == |paths|
  {
    if paths == [] then [] else [Sub(paths[0], prefix)] + SubAll(paths[1..], prefix)
  }

  /** The paths one after the other, each with a NUL behind it. */
  function Terminated(paths: seq<seq<Byte>>): seq<Byte> {
    if paths == [] then [] else paths[0] + [0] + Terminated(paths[1..])
  }

  /** The lengths of the paths, packed in so many bytes each; a length that is too large cannot be packed. */
  function Lengths(paths: seq<seq<Byte>>, width: nat): Option<seq<Byte>> {
    if paths == [] then Some([])
    else if |paths[0]| >= Power(width) then None
    else
      var rest := Lengths(paths[1..], width);
      if rest.None? then None else Some(Little(|paths[0]|, width) + rest.value)
  }

  // ---- files ----------------------------------------------------------------------------------

  /** Up to `n` bytes from a position. */
  function ReadAt(f: seq<Byte>, pos: nat, n: nat): (r: seq<Byte>)
    ensures |r| <= n
  {
    if pos >= |f| then [] else if pos + n <= |f| then f[pos..pos + n] else f[pos..]
  }

  /** Bytes written over those at a position; the file grows as needed, with zeros in between. */
  function WriteAt(f: seq<Byte>, pos: nat, bs: seq<Byte>): seq<Byte> {
    if bs == [] then f
    else
      var before := if pos <= |f| then f[..pos] else f + Zeros(pos - |f|);
      before + bs + if pos + |bs| < |f| then f[pos + |bs|..] else []
  }

  // ---- headers --------------------------------------------------------------------------------

  /** What the file header says of the tables; `wide` for 64-bit files. */
  datatype Header = Header(wide: bool, phoff: nat, phentsize: nat, phnum: nat,
                           shoff: nat, shentsize: nat, shnum: nat, shstrndx: nat)

  function Field(bs: seq<Byte>, off: nat, w: nat): nat
    requires off + w <= |bs|
  {
    FromLittle(bs[off..off + w])
  }

  function ParseHeader(f: seq<Byte>, wide: bool): Header
    requires |f| >= 64
  {
    var b := ReadAt(f, 0, 64);
    if wide then
      Header(true, Field(b, 32, 8), Field(b, 54, 2), Field(b, 56, 2), Field(b, 40, 8), Field(b, 58, 2), Field(b, 60, 2),
             Field(b, 62, 2))
    else
      Header(false, Field(b, 28, 4), Field(b, 42, 2), Field(b, 44, 2), Field(b, 32, 4), Field(b, 46, 2), Field(b, 48, 2),
             Field(b, 50, 2))
  }

  datatype Program = Program(ptype: nat, offset: nat, filesz: nat)

  /** A program header, if one of the right size is there. */
  function ProgramAt(f: seq<Byte>, h: Header, i: nat): Option<Program> {
    var b := ReadAt(f, h.phoff + i * h.phentsize, h.phentsize);
    if h.wide then if |b| == 56 then Some(Program(Field(b, 0, 4), Field(b, 8, 8), Field(b, 32, 8))) else None
    else if |b| == 32 then Some(Program(Field(b, 0, 4), Field(b, 4, 4), Field(b, 16, 4)))
    else None
  }

  /** Offset and size of the section that holds the names. */
  function NamesAt(f: seq<Byte>, h: Header): Option<(nat, nat)> {
    var b := ReadAt(f, h.shoff + h.shstrndx * h.shentsize, h.shentsize);
    if h.wide then if |b| == 64 then Some((Field(b, 24, 8), Field(b, 32, 8))) else None
    else if |b| == 40 then Some((Field(b, 16, 4), Field(b, 20, 4)))
    else None
  }

  datatype Section = Section(name: seq<Byte>, stype: nat, offset: nat, size: nat)

  /** `names[start:names.find(b"\0", start)]`: without a NUL the end is one before the last byte. */
  function NameOf(names: seq<Byte>, start: nat): seq<Byte> {
    if start > |names| then []
    else
      var n := Nul(names[start..]);
      if start + n < |names| then names[start..start + n] else if start < |names| then names[start..|names| - 1] else []
  }

  function SectionAt(f: seq<Byte>, h: Header, names: seq<Byte>, i: nat): Option<Section> {
    var b := ReadAt(f, h.shoff + i * h.shentsize, h.shentsize);
    if h.wide then
      if |b| == 64 then Some(Section(NameOf(names, Field(b, 0, 4)), Field(b, 4, 4), Field(b, 24, 8), Field(b, 32, 8))) else None
    else if |b| == 40 then Some(Section(NameOf(names, Field(b, 0, 4)), Field(b, 4, 4), Field(b, 16, 4), Field(b, 20, 4)))
    else None
  }

  // ---- the changes ----------------------------------------------------------------------------

  /** How a run ends: normally, with `sys.exit(-1)`, or with an exception. */
  datatype Outcome = Done | Exit | Crash

  /** The interpreter is one of the host's own. */
  predicate IsLib(name: seq<Byte>) {
    || ToBytes("/lib/") <= name || ToBytes("/lib64/") <= name || ToBytes("/lib32/") <= name
    || ToBytes("/usr/lib32/") <= name || ToBytes("/usr/lib64/") <= name
  }

  function NewInterpreter(f: seq<Byte>, p: Program, dl: seq<Byte>): seq<Byte> {
    if IsLib(ReadAt(f, p.offset, 11)) || p.filesz == 0 || |dl| >= p.filesz then f
    else WriteAt(f, p.offset, Pad(dl, p.filesz))
  }

  /** The first interpreter from the i-th program header on. */
  function FindInterpreter(f: seq<Byte>, h: Header, i: nat): (Option<Program>, Outcome)
    decreases if i < h.phnum then h.phnum - i else 0
  {
    if i >= h.phnum then (None, Done)
    else
      var p := ProgramAt(f, h, i);
      if p.None? then (None, Crash)
      else if p.value.ptype == 3 then (p, Done)
      else FindInterpreter(f, h, i + 1)
  }

  function ChangeInterpreter(f: seq<Byte>, h: Header, dl: seq<Byte>): (seq<Byte>, Outcome) {
    var (p, out) := FindInterpreter(f, h, 0);
    (if p.Some? then NewInterpreter(f, p.value, dl) else f, out)
  }

  const PROGBITS := 1
  const SLOT := 4096

  datatype Kind = SysDirs | SysDirsLen | LdSoCache | GccRelocPrefix | Other

  function KindOf(s: Section): Kind {
    if s.stype != PROGBITS then Other
    else if s.name == ToBytes(".sysdirs") then SysDirs
    else if s.name == ToBytes(".sysdirslen") then SysDirsLen
    else if s.name == ToBytes(".ldsocache") then LdSoCache
    else if s.name == ToBytes(".gccrelocprefix") then GccRelocPrefix
    else Other
  }

  /** A path in its place: the new one, stripped and padded. */
  function ChangePath(f: seq<Byte>, pos: nat, size: nat, prefix: seq<Byte>): (seq<Byte>, Outcome) {
    var path := NewPath(ReadAt(f, pos, size), prefix);
    if |path| >= size then (f, Exit) else (WriteAt(f, pos, Pad(path, size)), Done)
  }

  /** The slots of a section from one on; what is left behind the last whole slot is not looked at. */
  function ChangeSlots(f: seq<Byte>, start: nat, size: nat, offset: nat, prefix: seq<Byte>): (seq<Byte>, Outcome)
    decreases if offset + SLOT <= size then size - offset else 0
  {
    if offset + SLOT > size then (f, Done)
    else
      var (g, out) := ChangePath(f, start + offset, SLOT, prefix);
      if out != Done then (g, out) else ChangeSlots(g, start, size, offset + SLOT, prefix)
  }

  /** What was read of the directories and of their lengths, and where it was. */
  datatype Found = Found(dirs: Option<seq<Byte>>, dirsAt: nat, dirsSize: nat, lens: Option<seq<Byte>>, lensAt: nat)

  const NOTHING := Found(None, 0, 0, None, 0)

  function ChangeSection(f: seq<Byte>, s: Section, prefix: seq<Byte>, found: Found): (seq<Byte>, Found, Outcome) {
    match KindOf(s)
    case SysDirs => (f, found.(dirs := Some(ReadAt(f, s.offset, s.size)), dirsAt := s.offset, dirsSize := s.size), Done)
    case SysDirsLen => (f, found.(lens := Some(ReadAt(f, s.offset, s.size)), lensAt := s.offset), Done)
    case LdSoCache => var (g, out) := ChangePath(f, s.offset, s.size, prefix); (g, found, out)
    case GccRelocPrefix => var (g, out) := ChangeSlots(f, s.offset, s.size, 0, prefix); (g, found, out)
    case Other => (f, found, Done)
  }

  function ChangeSections(f: seq<Byte>, h: Header, names: seq<Byte>, prefix: seq<Byte>, i: nat, found: Found)
    : (seq<Byte>, Found, Outcome)
    decreases if i < h.shnum then h.shnum - i else 0
  {
    if i >= h.shnum then (f, found, Done)
    else
      var s := SectionAt(f, h, names, i);
      if s.None? then (f, found, Crash)
      else
        var (g, found', out) := ChangeSection(f, s.value, prefix, found);
        if out != Done then (g, found', out) else ChangeSections(g, h, names, prefix, i + 1, found')
  }

  function NewPaths(dirs: seq<Byte>, prefix: seq<Byte>): seq<seq<Byte>> { SubAll(Leading(Split(dirs)), prefix) }

  function LengthWidth(wide: bool): nat { if wide then 8 else 4 }

  /** Both tables are written if directories were found; without a table of lengths the name is unbound. */
  function ChangeDirs(f: seq<Byte>, wide: bool, prefix: seq<Byte>, found: Found): (seq<Byte>, Outcome) {
    if found.dirs.None? then (f, Done)
    else if found.lens.None? then (f, Crash)
    else
      var paths := NewPaths(found.dirs.value, prefix);
      var lens := Lengths(paths, LengthWidth(wide));
      if lens.None? then (f, Crash)
      else (WriteAt(WriteAt(f, found.dirsAt, Pad(Terminated(paths), found.dirsSize)), found.lensAt, lens.value), Done)
  }

  function ChangeDlSysdirs(f: seq<Byte>, h: Header, prefix: seq<Byte>): (seq<Byte>, Outcome) {
    var at := NamesAt(f, h);
    if at.None? then (f, Crash)
    else
      var names := ReadAt(f, at.value.0, at.value.1);
      var (g, found, out) := ChangeSections(f, h, names, prefix, 0, NOTHING);
      if out != Done then (g, out) else ChangeDirs(g, h.wide, prefix, found)
  }

  /** One file; one that is too short to have a header is left alone. */
  function Relocate(f: seq<Byte>, wide: bool, prefix: seq<Byte>, dl: seq<Byte>): (seq<Byte>, Outcome) {
    if |f| < 64 then (f, Done)
    else
      var h := ParseHeader(f, wide);
      var (g, out) := ChangeInterpreter(f, h, dl);
      if out != Done then (g, out) else ChangeDlSysdirs(g, h, prefix)
  }

  // ---- a file of the list ---------------------------------------------------------------------

  /** `get_arch`, whether a file is a 64-bit one: none if its first byte or its class is not one of an ELF file. The
      three bytes behind the first are compared with a text, which bytes never equal, so they do not matter. */
  function Arch(f: seq<Byte>): Option<bool>
    requires |f| >= 16
  {
    if f[0] != 0x7F || f[4] == 0 then None
    else if f[4] == 1 then Some(false)
    else if f[4] == 2 then Some(true)
    else None
  }

  /** Small files and those of no known class are left alone; after a normal end the script still exits if the size
      of the file has changed. */
  function ProcessFile(f: seq<Byte>, prefix: seq<Byte>, dl: seq<Byte>): (seq<Byte>, Outcome) {
    if |f| < 64 || Arch(f).None? then (f, Done)
    else
      var (g, out) := Relocate(f, Arch(f).value, prefix, dl);
      (g, if out == Done && |g| != |f| then Exit else out)
  }
}
