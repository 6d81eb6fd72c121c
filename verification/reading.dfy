/** Reading the kernel's event buffer: record layout, decoding and coalescing. */
module Reading {
  import opened Options
  import opened Bytes
  import opened Inotify
  import opened Printing
  import Drain

  const TWO32: nat := 0x1_0000_0000

  // ---- little-endian words --------------------------------------------------------------------

  function Word(x: nat): (bs: seq<Byte>)
    requires x < TWO32
    ensures |bs| == 4
  {
    [x % 256, x / 256 % 256, x / 65536 % 256, x / 16777216]
  }

  function FromWord(bs: seq<Byte>): nat
    requires |bs| == 4
  {
    Weigh(bs[0], bs[1], bs[2], bs[3])
  }


  lemma WordRoundTrip(x: nat)
    requires x < TWO32
    ensures FromWord(Word(x)) == x
  {
    assert x == x / 256 * 256 + x % 256;
    assert x / 256 / 256 == x / 65536 && x / 65536 / 256 == x / 16777216;
  }

  lemma WordOfBytes(bs: seq<Byte>)
    requires |bs| == 4
    ensures FromWord(bs) < TWO32 && Word(FromWord(bs)) == bs
  {
    var a: nat, b: nat, c: nat, d: nat := bs[0], bs[1], bs[2], bs[3];
    var x, y, z := FromWord(bs), b + 256 * c + 65536 * d, c + 256 * d;
    assert x == a + 256 * y && x / 256 == y && x % 256 == a;
    assert y == b + 256 * z && y / 256 == z && y % 256 == b;
    assert x / 65536 == z && x / 16777216 == d;
  }

  /** Two's complement of a signed 32-bit number. */
  function Unsigned(x: int): nat
    requires -0x8000_0000 <= x < 0x8000_0000
  {
    if x < 0 then x + TWO32 else x
  }

  function Signed(u: nat): int
    requires u < TWO32
  {
    if u < 0x8000_0000 then u else u - TWO32
  }

  // ---- records --------------------------------------------------------------------------------

  function ToString(bs: seq<Byte>): (s: string)
    ensures |s| == |bs| && ByteString(s)
  {
    seq(|bs|, i requires 0 <= i < |bs| => bs[i] as char)
  }

  /** `s.rstrip('\0')` */
  function RStrip(s: string): string {
    if s != "" && s[|s| - 1] == '\0' then RStrip(s[..|s| - 1]) else s
  }

  predicate Stripped(s: string) { s == "" || s[|s| - 1] != '\0' }

  /** One record of the buffer: an event, and how many NULs the kernel pads its name with. */
  datatype Record = Record(e: RawEvent, pad: nat) {
    predicate Valid() {
      && -0x8000_0000 <= e.wd < 0x8000_0000 && e.mask < TWO32 && e.cookie < TWO32
      && ByteString(e.name) && Stripped(e.name) && |e.name| + pad < TWO32
    }

    function Encode(): (bs: seq<Byte>)
      requires Valid()
      ensures |bs| == 16 + |e.name| + pad
    {
      Word(Unsigned(e.wd)) + Word(e.mask) + Word(e.cookie) + Word(|e.name| + pad) + ToBytes(e.name) + Zeros(pad)
    }
  }

  predicate AllValid(rs: seq<Record>) { forall i :: 0 <= i < |rs| ==> rs[i].Valid() }

  function EncodeAll(rs: seq<Record>): seq<Byte>
    requires AllValid(rs)
  {
    if rs == [] then [] else rs[0].Encode() + EncodeAll(rs[1..])
  }

  function EventsOf(rs: seq<Record>): seq<RawEvent> {
    if rs == [] then [] else [rs[0].e] + EventsOf(rs[1..])
  }

  // ---- decoding -------------------------------------------------------------------------------

  /** The length of the record at the head of `bs`, if a whole one is there. */
  function RecordSize(bs: seq<Byte>): Option<nat> {
    if |bs| < 16 then None
    else
      var size := 16 + FromWord(bs[12..16]);
      if |bs| < size then None else Some(size)
  }

  function HeadEvent(bs: seq<Byte>): RawEvent
    requires RecordSize(bs).Some?
  {
    WordOfBytes(bs[0..4]);
    RawEvent(Signed(FromWord(bs[0..4])), FromWord(bs[4..8]), FromWord(bs[8..12]),
             RStrip(ToString(bs[16..RecordSize(bs).value])))
  }

  /** The events of a buffer up to the first truncated record, and whether there was none. */
  function Decode(bs: seq<Byte>): (seq<RawEvent>, bool)
    decreases |bs|
  {
    if bs == [] then ([], true)
    else if RecordSize(bs).None? then ([], false)
    else
      var (rest, ok) := Decode(bs[RecordSize(bs).value..]);
      ([HeadEvent(bs)] + rest, ok)
  }

  lemma {:induction false} RStripZeros(s: string, n: nat)
    requires Stripped(s) && ByteString(s)
    ensures RStrip(ToString(ToBytes(s) + Zeros(n))) == s
    decreases n
  {
    var t := ToString(ToBytes(s) + Zeros(n));
    if n == 0 {
      assert t == s;
    } else {
      assert t[..|t| - 1] == ToString(ToBytes(s) + Zeros(n - 1));
      RStripZeros(s, n - 1);
    }
  }

  lemma {:induction false} RStripSplit(s: string)
    requires ByteString(s)
    ensures Stripped(RStrip(s)) && ByteString(RStrip(s)) && |RStrip(s)| <= |s|
    ensures ToBytes(s) == ToBytes(RStrip(s)) + Zeros(|s| - |RStrip(s)|)
  {
    if s != "" && s[|s| - 1] == '\0' {
      var t := s[..|s| - 1];
      RStripSplit(t);
      assert ToBytes(s) == ToBytes(t) + [0];
      assert Zeros(|t| - |RStrip(t)|) + [0] == Zeros(|s| - |RStrip(s)|);
    } else {
      assert ToBytes(s) == ToBytes(s) + Zeros(0);
    }
  }

  lemma FieldsOf(a: seq<Byte>, b: seq<Byte>, c: seq<Byte>, d: seq<Byte>, tail: seq<Byte>)
    requires |a| == |b| == |c| == |d| == 4
    ensures var bs := a + b + c + d + tail;
            bs[0..4] == a && bs[4..8] == b && bs[8..12] == c && bs[12..16] == d && bs[16..] == tail
  {
  }

  lemma Grouped(head: seq<Byte>, name: seq<Byte>, zeros: seq<Byte>, rest: seq<Byte>)
    ensures head + name + zeros + rest == head + (name + zeros + rest)
  {
  }

  lemma NameSlice(bs: seq<Byte>, name: seq<Byte>, rest: seq<Byte>)
    requires |bs| >= 16 && bs[16..] == name + rest
    ensures bs[16..16 + |name|] == name
  {
    assert bs[16..16 + |name|] == bs[16..][..|name|];
  }

  lemma HeadOfEncoded(r: Record, rest: seq<Byte>)
    requires r.Valid()
    ensures var bs := r.Encode() + rest;
            RecordSize(bs) == Some(|r.Encode()|) && HeadEvent(bs) == r.e
  {
    hide Word, FromWord, ToBytes, ToString, Zeros, RStrip, Signed, Unsigned;
    SignedUnsigned(r.e.wd);
    var bs := r.Encode() + rest;
    var a, b, c, d := Word(Unsigned(r.e.wd)), Word(r.e.mask), Word(r.e.cookie), Word(|r.e.name| + r.pad);
    var name := ToBytes(r.e.name) + Zeros(r.pad);
    Grouped(a + b + c + d, ToBytes(r.e.name), Zeros(r.pad), rest);
    FieldsOf(a, b, c, d, name + rest);
    NameSlice(bs, name, rest);
    WordRoundTrip(Unsigned(r.e.wd));
    WordRoundTrip(r.e.mask);
    WordRoundTrip(r.e.cookie);
    WordRoundTrip(|r.e.name| + r.pad);
    RStripZeros(r.e.name, r.pad);
  }

  lemma SignedUnsigned(wd: int)
    requires -0x8000_0000 <= wd < 0x8000_0000
    ensures Unsigned(wd) < TWO32 && Signed(Unsigned(wd)) == wd
  {
  }

  /** The record at the head of a buffer, byte by byte: descriptor (signed), mask, cookie and the length of the name,
      four bytes each with the least significant first, and the name without the NULs behind it. */
  lemma HeadInBytes(bs: seq<Byte>)
    requires RecordSize(bs).Some?
    ensures var e, n := HeadEvent(bs), RecordSize(bs).value - 16; var wd := Weigh(bs[0], bs[1], bs[2], bs[3]);
            && n == Weigh(bs[12], bs[13], bs[14], bs[15])
            && e.wd == (if bs[3] >= 0x80 then wd - 0x1_0000_0000 else wd)
            && e.mask == Weigh(bs[4], bs[5], bs[6], bs[7]) && e.cookie == Weigh(bs[8], bs[9], bs[10], bs[11])
            && |e.name| <= n && (e.name != "" ==> e.name[|e.name| - 1] != '\0')
            && (forall i :: 0 <= i < |e.name| ==> e.name[i] as nat == bs[16..][i])
            && (forall i :: |e.name| <= i < n ==> bs[16..][i] == 0)
  {
    var n := RecordSize(bs).value - 16;
    var text := ToString(bs[16..16 + n]);
    RStripSplit(text);
    var name := RStrip(text);
    BytesOfString(bs[16..16 + n]);
    assert bs[16..16 + n] == ToBytes(name) + Zeros(n - |name|);
    assert forall i :: 0 <= i < n ==> bs[16..][i] == bs[16..16 + n][i];
  }

  /** Whatever list of events the kernel writes, with whatever padding, reading rebuilds exactly it. */
  lemma {:induction false} BufferRoundTrip(rs: seq<Record>)
    requires AllValid(rs)
    ensures Decode(EncodeAll(rs)) == (EventsOf(rs), true)
  {
    if rs != [] {
      BufferRoundTrip(rs[1..]);
      var rest := EncodeAll(rs[1..]);
      HeadOfEncoded(rs[0], rest);
      assert (rs[0].Encode() + rest)[|rs[0].Encode()|..] == rest;
    }
  }

  lemma EncodedHead(bs: seq<Byte>) returns (r: Record)
    requires RecordSize(bs).Some?
    ensures r.Valid() && r.e == HeadEvent(bs) && r.Encode() == bs[..RecordSize(bs).value]
  {
    hide Word, FromWord, ToBytes, ToString, Zeros, RStrip, Stripped, Signed, Unsigned;
    var size := RecordSize(bs).value;
    var name := ToString(bs[16..size]);
    RStripSplit(name);
    HeadWords(bs);
    var e := HeadEvent(bs);
    r := Record(e, |name| - |e.name|);
    EncodeAsTwo(r);
    BytesOfString(bs[16..size]);
    HeadPieces(bs, size);
  }

  lemma BytesOfString(bs: seq<Byte>)
    ensures ToBytes(ToString(bs)) == bs
  {
  }

  lemma HeadPieces(bs: seq<Byte>, size: nat)
    requires 16 <= size <= |bs|
    ensures bs[..size] == (bs[0..4] + bs[4..8] + bs[8..12] + bs[12..16]) + bs[16..size]
  {
  }

  lemma HeadWords(bs: seq<Byte>)
    requires RecordSize(bs).Some?
    ensures var e := HeadEvent(bs);
            && -0x8000_0000 <= e.wd < 0x8000_0000 && Word(Unsigned(e.wd)) == bs[0..4]
            && e.mask < TWO32 && Word(e.mask) == bs[4..8]
            && e.cookie < TWO32 && Word(e.cookie) == bs[8..12]
    ensures var len := RecordSize(bs).value - 16; len < TWO32 && Word(len) == bs[12..16]
  {
    WordOfBytes(bs[0..4]);
    WordOfBytes(bs[4..8]);
    WordOfBytes(bs[8..12]);
    WordOfBytes(bs[12..16]);
  }

  lemma EncodeAsTwo(r: Record)
    requires r.Valid()
    ensures r.Encode() ==
            (Word(Unsigned(r.e.wd)) + Word(r.e.mask) + Word(r.e.cookie) + Word(|r.e.name| + r.pad)) +
            (ToBytes(r.e.name) + Zeros(r.pad))
  {
  }

  lemma EncodeAllCons(r: Record, rs: seq<Record>)
    requires r.Valid() && AllValid(rs)
    ensures AllValid([r] + rs) && EncodeAll([r] + rs) == r.Encode() + EncodeAll(rs)
    ensures EventsOf([r] + rs) == [r.e] + EventsOf(rs)
  {
    assert ([r] + rs)[1..] == rs;
  }

  /** The read loop accepts exactly the buffers that are a sequence of whole records. */
  lemma {:induction false} DecodeIsExact(bs: seq<Byte>) returns (rs: seq<Record>)
    ensures Decode(bs).1 ==> AllValid(rs) && EncodeAll(rs) == bs && EventsOf(rs) == Decode(bs).0
    decreases |bs|
  {
    rs := [];
    if bs != [] && RecordSize(bs).Some? {
      hide *;
      var size := RecordSize(bs).value;
      var r := EncodedHead(bs);
      Cut(bs, size);
      var rest := DecodeIsExact(bs[size..]);
      DecodeCons(bs);
      if Decode(bs).1 {
        EncodeAllCons(r, rest);
        rs := [r] + rest;
      }
    }
  }

  lemma Cut(bs: seq<Byte>, size: nat)
    requires RecordSize(bs) == Some(size)
    ensures 0 < size <= |bs| && |bs[size..]| < |bs| && bs == bs[..size] + bs[size..]
  {
  }

  lemma DecodeCons(bs: seq<Byte>)
    requires bs != [] && RecordSize(bs).Some?
    ensures var rest := Decode(bs[RecordSize(bs).value..]);
            Decode(bs) == ([HeadEvent(bs)] + rest.0, rest.1)
  {
  }

  // ---- coalescing -----------------------------------------------------------------------------

  /** Queueing one event that was read. */
  function Enqueue(m: Manager, e: RawEvent): Manager {
    if !m.coalesce then m.(eventq := m.eventq + [e])
    else if Printed(e) in m.eventset then m
    else m.(eventset := m.eventset + {Printed(e)}, eventq := m.eventq + [e])
  }

  function EnqueueAll(m: Manager, es: seq<RawEvent>): Manager
    decreases |es|
  {
    if es == [] then m else EnqueueAll(Enqueue(m, es[0]), es[1..])
  }

  /** The events of `es` whose printed form is neither in `seen` nor that of an earlier one, in order. */
  function FirstOccurrences(es: seq<RawEvent>, seen: set<string>): seq<RawEvent> {
    if es == [] then []
    else if Printed(es[0]) in seen then FirstOccurrences(es[1..], seen)
    else [es[0]] + FirstOccurrences(es[1..], seen + {Printed(es[0])})
  }

  /** The events of `es` that differ from all earlier ones and from those in `seen`, in order. */
  function Distinct(es: seq<RawEvent>, seen: set<RawEvent>): seq<RawEvent> {
    if es == [] then []
    else if es[0] in seen then Distinct(es[1..], seen)
    else [es[0]] + Distinct(es[1..], seen + {es[0]})
  }

  function PrintsOf(es: seq<RawEvent>): set<string> {
    set i | 0 <= i < |es| :: Printed(es[i])
  }

  lemma {:induction false} EnqueueAllPlain(m: Manager, es: seq<RawEvent>)
    requires !m.coalesce
    ensures EnqueueAll(m, es) == m.(eventq := m.eventq + es)
    decreases |es|
  {
    if es == [] {
      assert m.eventq + [] == m.eventq;
    } else {
      EnqueueAllPlain(Enqueue(m, es[0]), es[1..]);
      assert (m.eventq + [es[0]]) + es[1..] == m.eventq + es;
    }
  }

  lemma {:induction false} EnqueueAllCoalesced(m: Manager, es: seq<RawEvent>)
    requires m.coalesce
    ensures EnqueueAll(m, es) ==
            m.(eventq := m.eventq + FirstOccurrences(es, m.eventset), eventset := m.eventset + PrintsOf(es))
    decreases |es|
  {
    hide PrintsOf, Printed;
    if es == [] {
      NoKeys();
      assert m.eventq + [] == m.eventq && m.eventset + {} == m.eventset;
    } else {
      var n := Enqueue(m, es[0]);
      EnqueueAllCoalesced(n, es[1..]);
      KeysTail(es);
      MoreKeys(m.eventset, Printed(es[0]), PrintsOf(es[1..]));
      MoreEvents(m.eventq, es[0], FirstOccurrences(es[1..], n.eventset));
    }
  }

  lemma NoKeys()
    ensures PrintsOf([]) == {}
  {
  }

  lemma MoreKeys(s: set<string>, x: string, rest: set<string>)
    ensures (s + {x}) + rest == s + ({x} + rest) && (x in s ==> s + rest == s + ({x} + rest))
  {
  }

  lemma MoreEvents(q: seq<RawEvent>, x: RawEvent, rest: seq<RawEvent>)
    ensures (q + [x]) + rest == q + ([x] + rest)
  {
  }

  /** With coalescing on a batch enqueues its first occurrences; with coalescing off, everything. */
  lemma EnqueueAllIs(m: Manager, es: seq<RawEvent>)
    ensures EnqueueAll(m, es) ==
            if m.coalesce then
              m.(eventq := m.eventq + FirstOccurrences(es, m.eventset), eventset := m.eventset + PrintsOf(es))
            else m.(eventq := m.eventq + es)
  {
    if m.coalesce { EnqueueAllCoalesced(m, es); } else { EnqueueAllPlain(m, es); }
  }

  lemma KeysTail(es: seq<RawEvent>)
    requires es != []
    ensures PrintsOf(es) == {Printed(es[0])} + PrintsOf(es[1..])
  {
    assert forall i :: 0 < i < |es| ==> es[i] == es[1..][i - 1];
    assert forall i :: 0 <= i < |es| - 1 ==> es[1..][i] == es[i + 1];
  }

  /** Two different events that print alike. */
  predicate Alike(a: RawEvent, b: RawEvent) { a != b && Printed(a) == Printed(b) }

  lemma AlikeIs(a: RawEvent, b: RawEvent)
    ensures Alike(a, b) <==>
              a.wd == b.wd && a.mask == b.mask && a.cookie == b.cookie &&
              ((a.name == "" && b.name == "''") || (a.name == "''" && b.name == ""))
  {
    PrintedAlike(a, b);
  }

  ghost predicate NoneAlike(es: seq<RawEvent>) {
    forall i, j :: 0 <= i < |es| && 0 <= j < |es| ==> !Alike(es[i], es[j])
  }

  lemma {:induction false} NoneAlikeKeepsAll(es: seq<RawEvent>, seen: set<RawEvent>, keys: set<string>)
    requires forall i, j :: 0 <= i < |es| && 0 <= j < |es| ==> !Alike(es[i], es[j])
    requires forall i :: 0 <= i < |es| ==> (Printed(es[i]) in keys <==> es[i] in seen)
    ensures FirstOccurrences(es, keys) == Distinct(es, seen)
    decreases |es|
  {
    if es != [] {
      if es[0] in seen {
        NoneAlikeKeepsAll(es[1..], seen, keys);
      } else {
        forall i | 0 <= i < |es[1..]|
          ensures Printed(es[1..][i]) in keys + {Printed(es[0])} <==> es[1..][i] in seen + {es[0]}
        {
          assert es[1..][i] == es[i + 1] && !Alike(es[i + 1], es[0]);
        }
        NoneAlikeKeepsAll(es[1..], seen + {es[0]}, keys + {Printed(es[0])});
      }
    }
  }

  lemma {:induction false} DistinctHas(es: seq<RawEvent>, seen: set<RawEvent>, e: RawEvent)
    requires e in es && e !in seen
    ensures e in Distinct(es, seen)
    decreases |es|
  {
    if e != es[0] {
      DistinctHas(es[1..], if es[0] in seen then seen else seen + {es[0]}, e);
    }
  }

  lemma {:induction false} FirstOccurrencesDiffer(es: seq<RawEvent>, keys: set<string>, a: RawEvent, b: RawEvent)
    requires Printed(a) == Printed(b) && a != b
    ensures !(a in FirstOccurrences(es, keys) && b in FirstOccurrences(es, keys))
    ensures Printed(a) in keys ==> a !in FirstOccurrences(es, keys)
    ensures Printed(b) in keys ==> b !in FirstOccurrences(es, keys)
    decreases |es|
  {
    if es != [] {
      FirstOccurrencesDiffer(es[1..], if Printed(es[0]) in keys then keys else keys + {Printed(es[0])}, a, b);
    }
  }

  /** Coalescing a batch keeps one copy of every different event exactly when no two events of the batch
      print alike: the promise "unique by (wd, mask, cookie, name)" fails only for the empty name and the
      name of two quote characters. */
  lemma CoalescingIsExact(es: seq<RawEvent>)
    ensures FirstOccurrences(es, {}) == Distinct(es, {}) <==> NoneAlike(es)
  {
    if NoneAlike(es) {
      NoneAlikeKeepsAll(es, {}, {});
    } else {
      var i, j :| 0 <= i < |es| && 0 <= j < |es| && Alike(es[i], es[j]);
      DistinctHas(es, {}, es[i]);
      DistinctHas(es, {}, es[j]);
      FirstOccurrencesDiffer(es, {}, es[i], es[j]);
    }
  }

  /** A batch the kernel can deliver from which coalescing drops an event although no equal one is in it:
      an attribute change of a child directory whose name is two quote characters, and one of the watched
      directory itself. */
  lemma CoalescingDropsADifferentEvent()
    ensures var a, b := RawEvent(1, 0x4000_0004, 0, "''"), RawEvent(1, 0x4000_0004, 0, "");
            Drain.NamedEvent(a) && Drain.NamedEvent(b) &&
            a != b && FirstOccurrences([a, b], {}) == [a] && Distinct([a, b], {}) == [a, b]
  {
    var a, b := RawEvent(1, 0x4000_0004, 0, "''"), RawEvent(1, 0x4000_0004, 0, "");
    assert a.name[0] == '\'' && a != b;
    PrintedAlike(a, b);
    SecondIsDropped(a, b);
  }

  lemma SecondIsDropped(a: RawEvent, b: RawEvent)
    requires Alike(a, b)
    ensures FirstOccurrences([a, b], {}) == [a] && Distinct([a, b], {}) == [a, b]
  {
    hide Printed;
    assert [a, b][1..] == [b] && [b][1..] == [];
    assert FirstOccurrences([b], {} + {Printed(a)}) == FirstOccurrences([], {} + {Printed(a)}) == [];
    assert Distinct([b], {} + {a}) == [b] + Distinct([], {} + {a} + {b}) == [b];
  }
}
