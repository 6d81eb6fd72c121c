/** The printed form of a raw event, by which coalescing tells events apart. */
module Printing {
  import opened Inotify

  // ---- numbers --------------------------------------------------------------------------------

  const DIGITS := "0123456789abcdef"

  function Numeral(n: nat, base: nat): (s: string)
    requires 2 <= base <= 16
    ensures s != ""
    decreases n
  {
    if n < base then [DIGITS[n]] else Numeral(n / base, base) + [DIGITS[n % base]]
  }

  function Decimal(i: int): string { if i < 0 then "-" + Numeral(-i, 10) else Numeral(i, 10) }

  lemma DigitsDiffer(i: nat, j: nat)
    requires i < 16 && j < 16 && DIGITS[i] == DIGITS[j]
    ensures i == j
  {
  }

  lemma DigitIs(i: nat)
    requires i < 16
    ensures DIGITS[i] != ' ' && DIGITS[i] != '-'
  {
  }

  predicate Spaceless(s: string) { ' ' !in s }

  lemma {:induction false} NumeralIs(n: nat, base: nat)
    requires 2 <= base <= 16
    ensures Spaceless(Numeral(n, base)) && Numeral(n, base)[0] != '-'
    decreases n
  {
    if n < base {
      DigitIs(n);
    } else {
      NumeralIs(n / base, base);
      DigitIs(n % base);
    }
  }

  lemma Snoc(x: string, c: char, y: string, d: char)
    requires x + [c] == y + [d]
    ensures x == y && c == d
  {
    assert (x + [c])[|x|] == c && (y + [d])[|y|] == d;
    assert (x + [c])[..|x|] == x && (y + [d])[..|y|] == y;
  }

  /** Different numbers have different numerals. */
  lemma {:induction false} NumeralDiffers(m: nat, n: nat, base: nat)
    requires 2 <= base <= 16 && Numeral(m, base) == Numeral(n, base)
    ensures m == n
    decreases m
  {
    hide Numeral;
    if m < base && n < base {
      OneDigit(m, n, base);
    } else if m >= base && n >= base {
      LastDigits(m, n, base);
      Shorter(m, base);
      NumeralDiffers(m / base, n / base, base);
    } else {
      Lengths(m, base);
      Lengths(n, base);
    }
  }

  lemma OneDigit(m: nat, n: nat, base: nat)
    requires 2 <= base <= 16 && m < base && n < base && Numeral(m, base) == Numeral(n, base)
    ensures m == n
  {
    DigitsDiffer(m, n);
  }

  lemma Lengths(n: nat, base: nat)
    requires 2 <= base <= 16
    ensures |Numeral(n, base)| == 1 <==> n < base
  {
  }

  lemma LastDigits(m: nat, n: nat, base: nat)
    requires 2 <= base <= 16 && base <= m && base <= n && Numeral(m, base) == Numeral(n, base)
    ensures Numeral(m / base, base) == Numeral(n / base, base) && m % base == n % base
    ensures m / base == n / base ==> m == n
  {
    Snoc(Numeral(m / base, base), DIGITS[m % base], Numeral(n / base, base), DIGITS[n % base]);
    DigitsDiffer(m % base, n % base);
    Division(m, base);
    Division(n, base);
  }

  lemma Shorter(n: nat, base: nat)
    requires 2 <= base <= n
    ensures 0 <= n / base < n
  {
  }

  lemma Division(n: nat, base: nat)
    requires base > 0
    ensures n == n / base * base + n % base
  {
  }

  lemma DecimalDiffers(i: int, j: int)
    requires Decimal(i) == Decimal(j)
    ensures i == j
  {
    hide *;
    SignIs(i);
    SignIs(j);
    if i < 0 {
      NumeralDiffers(-i, -j, 10);
    } else {
      NumeralDiffers(i, j, 10);
    }
  }

  lemma SignIs(i: int)
    ensures Decimal(i) != "" && (Decimal(i)[0] == '-' <==> i < 0)
    ensures if i < 0 then Decimal(i)[1..] == Numeral(-i, 10) else Decimal(i) == Numeral(i, 10)
  {
    NumeralIs(if i < 0 then -i else i, 10);
  }

  lemma DecimalIs(i: int)
    ensures Spaceless(Decimal(i))
  {
    NumeralIs(if i < 0 then -i else i, 10);
  }

  // ---- events ---------------------------------------------------------------------------------

  /** A name as it is printed: two quotes stand for the empty one. */
  function Shown(name: string): string { if name == "" then "''" else name }

  /** `str(event)`: the attributes in alphabetical order, the mask in hexadecimal. */
  function Printed(e: RawEvent): string {
    "<_RawEvent cookie=" +
    (Numeral(e.cookie, 10) + (" " + ("mask=0x" +
     (Numeral(e.mask, 16) + (" " + ("name=" +
      (Shown(e.name) + (" " + ("wd=" + Decimal(e.wd))) + " >")))))))
  }

  lemma Cancel(p: string, x: string, y: string)
    requires p + x == p + y
    ensures x == y
  {
    assert (p + x)[|p|..] == x && (p + y)[|p|..] == y;
  }

  lemma CancelEnd(x: string, y: string, p: string)
    requires x + p == y + p
    ensures x == y
  {
    assert |x| == |y| && (x + p)[..|x|] == x && (y + p)[..|y|] == y;
  }

  /** What comes before the first space, and what comes behind it. */
  lemma FirstSpace(a: string, x: string, b: string, y: string)
    requires Spaceless(a) && Spaceless(b) && a + (" " + x) == b + (" " + y)
    ensures a == b && x == y
  {
    var s, t := a + (" " + x), b + (" " + y);
    assert s[|a|] == ' ' && t[|b|] == ' ';
    assert forall i :: 0 <= i < |a| ==> s[i] == a[i];
    assert forall i :: 0 <= i < |b| ==> t[i] == b[i];
    assert s[..|a|] == a && t[..|b|] == b && s[|a| + 1..] == x && t[|b| + 1..] == y;
  }

  lemma LastSpace(x: string, a: string, y: string, b: string)
    requires Spaceless(a) && Spaceless(b) && x + (" " + a) == y + (" " + b)
    ensures a == b && x == y
  {
    var s := x + (" " + a);
    AfterSpace(x, a, |y|);
    AfterSpace(y, b, |x|);
    assert s[|x|] == ' ' && s[|y|] == ' ';
    assert s[..|x|] == x && s[..|y|] == y && s[|x| + 1..] == a && s[|y| + 1..] == b;
  }

  lemma AfterSpace(x: string, a: string, i: nat)
    requires Spaceless(a)
    ensures |x| < i < |x| + 1 + |a| ==> (x + (" " + a))[i] != ' '
  {
    assert |x| < i < |x| + 1 + |a| ==> (x + (" " + a))[i] == a[i - |x| - 1];
  }

  lemma EndIs(a: RawEvent, b: RawEvent)
    requires Shown(a.name) + (" " + ("wd=" + Decimal(a.wd))) + " >" == Shown(b.name) + (" " + ("wd=" + Decimal(b.wd))) + " >"
    ensures Shown(a.name) == Shown(b.name) && a.wd == b.wd
  {
    hide Shown, Decimal;
    DecimalIs(a.wd);
    DecimalIs(b.wd);
    CancelEnd(Shown(a.name) + (" " + ("wd=" + Decimal(a.wd))), Shown(b.name) + (" " + ("wd=" + Decimal(b.wd))), " >");
    LastSpace(Shown(a.name), "wd=" + Decimal(a.wd), Shown(b.name), "wd=" + Decimal(b.wd));
    Cancel("wd=", Decimal(a.wd), Decimal(b.wd));
    DecimalDiffers(a.wd, b.wd);
  }

  /** Two events print alike exactly if they agree in everything, the name as it is shown. */
  lemma PrintedAlike(a: RawEvent, b: RawEvent)
    ensures Printed(a) == Printed(b) <==>
              a.wd == b.wd && a.mask == b.mask && a.cookie == b.cookie && Shown(a.name) == Shown(b.name)
  {
    hide Shown, Decimal, Numeral;
    if Printed(a) == Printed(b) {
      var n := Shown(a.name) + (" " + ("wd=" + Decimal(a.wd))) + " >";
      var o := Shown(b.name) + (" " + ("wd=" + Decimal(b.wd))) + " >";
      var x := "mask=0x" + (Numeral(a.mask, 16) + (" " + ("name=" + n)));
      var y := "mask=0x" + (Numeral(b.mask, 16) + (" " + ("name=" + o)));
      NumeralIs(a.cookie, 10);
      NumeralIs(b.cookie, 10);
      NumeralIs(a.mask, 16);
      NumeralIs(b.mask, 16);
      Cancel("<_RawEvent cookie=", Numeral(a.cookie, 10) + (" " + x), Numeral(b.cookie, 10) + (" " + y));
      FirstSpace(Numeral(a.cookie, 10), x, Numeral(b.cookie, 10), y);
      NumeralDiffers(a.cookie, b.cookie, 10);
      Cancel("mask=0x", Numeral(a.mask, 16) + (" " + ("name=" + n)), Numeral(b.mask, 16) + (" " + ("name=" + o)));
      FirstSpace(Numeral(a.mask, 16), "name=" + n, Numeral(b.mask, 16), "name=" + o);
      NumeralDiffers(a.mask, b.mask, 16);
      Cancel("name=", n, o);
      EndIs(a, b);
    }
  }
}
