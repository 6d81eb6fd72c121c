module Bytes {
  type Byte = b: nat | b < 256

  /** A string of characters that are bytes. */
  predicate ByteString(s: string) { forall i :: 0 <= i < |s| ==> s[i] as nat < 256 }

  function ToBytes(s: string): (bs: seq<Byte>)
    requires ByteString(s)
    ensures |bs| == |s|
  {
    seq(|s|, i requires 0 <= i < |s| => s[i] as nat)
  }

  function Zeros(n: nat): (bs: seq<Byte>)
    ensures |bs| == n
  {
    seq(n, _ => 0)
  }

  // ---- little-endian numbers of any width -----------------------------------------------------

  function Power(w: nat): (p: nat)
    ensures p > 0
  {
    if w == 0 then 1 else 256 * Power(w - 1)
  }

  function Little(x: nat, w: nat): (bs: seq<Byte>)
    ensures |bs| == w
  {
    if w == 0 then [] else [x % 256] + Little(x / 256, w - 1)
  }

  function FromLittle(bs: seq<Byte>): nat {
    if bs == [] then 0 else bs[0] + 256 * FromLittle(bs[1..])
  }

  lemma {:induction false} LittleRoundTrip(x: nat, w: nat)
    requires x < Power(w)
    ensures FromLittle(Little(x, w)) == x
    decreases w
  {
    if w > 0 {
      LittleRoundTrip(x / 256, w - 1);
      assert Little(x, w)[1..] == Little(x / 256, w - 1);
    }
  }

  function Weigh(a: nat, b: nat, c: nat, d: nat): nat { a + 0x100 * b + 0x1_0000 * c + 0x100_0000 * d }

  /** The least significant byte comes first. */
  lemma LittleEndian(bs: seq<Byte>)
    ensures |bs| == 2 ==> FromLittle(bs) == Weigh(bs[0], bs[1], 0, 0)
    ensures |bs| == 4 ==> FromLittle(bs) == Weigh(bs[0], bs[1], bs[2], bs[3])
    ensures |bs| == 8 ==>
              FromLittle(bs) == Weigh(bs[0], bs[1], bs[2], bs[3]) + 0x1_0000_0000 * Weigh(bs[4], bs[5], bs[6], bs[7])
  {
    if |bs| == 2 { LittleOne(bs); LittleOne(bs[1..]); }
    if |bs| == 4 {
      LittleFour(bs, []);
      assert bs + [] == bs;
    }
    if |bs| == 8 {
      LittleFour(bs[..4], bs[4..]);
      LittleFour(bs[4..], []);
      assert bs == bs[..4] + bs[4..] && bs[4..] + [] == bs[4..];
    }
  }

  lemma LittleOne(bs: seq<Byte>)
    requires bs != []
    ensures FromLittle(bs) == bs[0] + 256 * FromLittle(bs[1..]) && (|bs| == 1 ==> FromLittle(bs) == bs[0])
  {
  }

  lemma LittleFour(a: seq<Byte>, b: seq<Byte>)
    requires |a| == 4
    ensures FromLittle(a + b) == Weigh(a[0], a[1], a[2], a[3]) + 0x1_0000_0000 * FromLittle(b)
  {
    var s := a + b;
    LittleOne(s);
    LittleOne(s[1..]);
    LittleOne(s[1..][1..]);
    LittleOne(s[1..][1..][1..]);
    assert s[1..][1..][1..][1..] == b;
  }

  lemma {:induction false} LittleBound(bs: seq<Byte>)
    ensures FromLittle(bs) < Power(|bs|)
    decreases |bs|
  {
    if bs != [] { LittleBound(bs[1..]); }
  }
}
