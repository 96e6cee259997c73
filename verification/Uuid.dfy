/** UUID version 7 (RFC 9562, section 5.7): a 48-bit time in milliseconds, then
    74 random bits around the version and variant. */
module Uuid {
  // ----- Hexadecimal -----

  function HexChar(d: nat): char
    requires d < 16
  {
    if d < 10 then ('0' as int + d) as char else ('a' as int + d - 10) as char
  }

  predicate IsHex(c: char) {
    '0' <= c <= '9' || 'a' <= c <= 'f'
  }

  function DigitOf(c: char): nat
    requires IsHex(c)
  {
    if c <= '9' then c as int - '0' as int else c as int - 'a' as int + 10
  }

  predicate AllHex(s: string) {
    forall i :: 0 <= i < |s| ==> IsHex(s[i])
  }

  /** The digits of a number, without leading zeros. */
  function ToHex(n: nat): (s: string)
    ensures |s| >= 1 && AllHex(s)
  {
    if n < 16 then [HexChar(n)] else ToHex(n / 16) + [HexChar(n % 16)]
  }

  function Zeros(n: nat): string {
    seq(n, _ => '0')
  }

  function PadStart(s: string, width: nat): (r: string)
    ensures |r| == if |s| < width then width else |s|
    ensures AllHex(s) ==> AllHex(r)
  {
    if |s| >= width then s else Zeros(width - |s|) + s
  }

  function Pow16(w: nat): nat {
    if w == 0 then 1 else 16 * Pow16(w - 1)
  }

  /** The low `w` digits of a number. */
  function Fixed(n: nat, w: nat): (s: string)
    ensures |s| == w && AllHex(s)
  {
    if w == 0 then "" else Fixed(n / 16, w - 1) + [HexChar(n % 16)]
  }

  function ValueOf(s: string): nat
    requires AllHex(s)
  {
    if s == "" then 0 else ValueOf(s[..|s| - 1]) * 16 + DigitOf(s[|s| - 1])
  }

  lemma {:induction false} FixedZero(w: nat)
    ensures Fixed(0, w) == Zeros(w)
  {
    if w > 0 {
      FixedZero(w - 1);
      assert Zeros(w) == Zeros(w - 1) + ['0'];
    }
  }

  /** Padding a number that fits gives its fixed-width digits. */
  lemma {:induction false} PaddedIsFixed(n: nat, w: nat)
    requires w > 0 && n < Pow16(w)
    ensures PadStart(ToHex(n), w) == Fixed(n, w)
    decreases w
  {
    if n < 16 {
      FixedZero(w - 1);
    } else {
      PaddedIsFixed(n / 16, w - 1);
      if |ToHex(n / 16)| < w - 1 {
        assert Zeros(w - |ToHex(n)|) == Zeros(w - 1 - |ToHex(n / 16)|);
      }
    }
  }

  lemma {:induction false} ValueOfFixed(n: nat, w: nat)
    requires n < Pow16(w)
    ensures ValueOf(Fixed(n, w)) == n
    decreases w
  {
    if w > 0 {
      ValueOfFixed(n / 16, w - 1);
      assert Fixed(n, w)[..w - 1] == Fixed(n / 16, w - 1);
    }
  }

  lemma {:induction false} ValueBound(s: string)
    requires AllHex(s)
    ensures ValueOf(s) < Pow16(|s|)
    decreases |s|
  {
    if s != "" { ValueBound(s[..|s| - 1]); }
  }

  /** A number that does not fit takes more digits. */
  lemma {:induction false} TooLong(n: nat, w: nat)
    requires Pow16(w) <= n
    ensures |ToHex(n)| > w
    decreases w
  {
    if w > 0 {
      assert Pow16(w - 1) >= 1 by { PowPositive(w - 1); }
      assert Pow16(w) == 16 * Pow16(w - 1) && n >= 16;
      TooLong(n / 16, w - 1);
    }
  }

  lemma {:induction false} PowPositive(w: nat)
    ensures Pow16(w) >= 1
  {
    if w > 0 { PowPositive(w - 1); }
  }

  // ----- Order -----

  ghost predicate Less(a: string, b: string) {
    exists k :: 0 <= k < |a| && k < |b| && LessAt(a, b, k)
  }

  ghost predicate LessAt(a: string, b: string, k: nat)
    requires k < |a| && k < |b|
  {
    a[..k] == b[..k] && a[k] < b[k]
  }

  /** Of two numbers of one width, the smaller comes first. */
  lemma {:induction false} FixedOrder(n: nat, m: nat, w: nat) returns (k: nat)
    requires n < m < Pow16(w)
    ensures k < w && LessAt(Fixed(n, w), Fixed(m, w), k)
    decreases w
  {
    assert w > 0;
    if n / 16 < m / 16 {
      k := FixedOrder(n / 16, m / 16, w - 1);
      assert Fixed(n, w)[..k] == Fixed(n / 16, w - 1)[..k] && Fixed(m, w)[..k] == Fixed(m / 16, w - 1)[..k];
    } else {
      k := w - 1;
      assert n / 16 == m / 16 && n % 16 < m % 16;
      assert Fixed(n, w)[..k] == Fixed(n / 16, k) && Fixed(m, w)[..k] == Fixed(m / 16, k);
    }
  }

  // ----- The string -----

  /** Version 7 in the high half of byte 6, variant 10 in the top bits of byte 8. */
  function Stamped(rand: seq<bv8>): seq<bv8>
    requires |rand| == 10
  {
    rand[0 := (rand[0] & 0x0f) | 0x70][2 := (rand[2] & 0x3f) | 0x80]
  }

  function HexOf(bytes: seq<bv8>): (s: string)
    ensures |s| == 2 * |bytes| && AllHex(s)
  {
    if bytes == [] then "" else ByteHex(bytes[0]) + HexOf(bytes[1..])
  }

  function ByteHex(b: bv8): (s: string)
    ensures |s| == 2 && AllHex(s)
  {
    assert |ToHex(b as nat)| <= 2;
    PadStart(ToHex(b as nat), 2)
  }

  function Grouped(t: string, h: string): string
    requires |t| >= 12 && |h| == 20
  {
    t[0..8] + "-" + t[8..12] + "-" + h[0..4] + "-" + h[4..8] + "-" + h[8..20]
  }

  function UuidOf(ts: nat, rand: seq<bv8>): string
    requires |rand| == 10
  {
    Grouped(PadStart(ToHex(ts), 12), HexOf(Stamped(rand)))
  }

  method Uuidv7(now: nat, rand: array<bv8>) returns (id: string)
    requires rand.Length == 10
    modifies rand
    ensures id == UuidOf(now, old(rand[..])) && rand[..] == Stamped(old(rand[..]))
  {
    hide PadStart, ToHex, HexOf, Grouped;
    var tsHex := PadStart(ToHex(now), 12);
    rand[0] := (rand[0] & 0x0f) | 0x70;
    rand[2] := (rand[2] & 0x3f) | 0x80;
    assert rand[..] == Stamped(old(rand[..]));
    var hex := HexOf(rand[..]);
    id := Grouped(tsHex, hex);
  }

  // ----- What the string says -----

  const TIMES := 0x1_0000_0000_0000

  lemma {:induction false} TimesArePow()
    ensures Pow16(12) == TIMES
  {
    assert Pow16(4) == 0x1_0000;
    assert Pow16(8) == 0x1_0000_0000;
  }

  /** The string without its dashes. */
  function Digits(id: string): string
    requires |id| == 36
  {
    id[0..8] + id[9..13] + id[14..18] + id[19..23] + id[24..36]
  }

  lemma {:induction false} DigitsOfGrouped(t: string, h: string)
    requires |t| >= 12 && |h| == 20
    ensures |Grouped(t, h)| == 36 && Digits(Grouped(t, h)) == t[..12] + h
  {
    var id := Grouped(t, h);
    assert id[0..8] == t[0..8] && id[9..13] == t[8..12] && id[14..18] == h[0..4] && id[19..23] == h[4..8]
           && id[24..36] == h[8..20];
    assert t[0..8] + t[8..12] == t[..12];
    assert h[0..4] + h[4..8] + h[8..20] == h;
  }

  function TimeIn(id: string): nat
    requires |id| == 36 && AllHex(Digits(id))
  {
    ValueOf(Digits(id)[..12])
  }

  function ByteIn(id: string, i: nat): nat
    requires |id| == 36 && AllHex(Digits(id)) && i < 10
  {
    ValueOf(Digits(id)[12 + 2 * i..14 + 2 * i])
  }

  lemma {:induction false} TwoDigits(n: nat)
    requires n < 256
    ensures PadStart(ToHex(n), 2) == [HexChar(n / 16), HexChar(n % 16)]
  {
    if n < 16 {
      assert Zeros(1) == ['0'];
    } else {
      assert ToHex(n / 16) == [HexChar(n / 16)];
    }
  }

  lemma {:induction false} ByteHexIs(b: bv8)
    ensures ByteHex(b) == [HexChar(b as nat / 16), HexChar(b as nat % 16)]
  {
    TwoDigits(b as nat);
  }

  lemma {:induction false} DropTwo(a: string, b: string, i: nat)
    requires |a| == 2 && 2 <= i && i <= |b|
    ensures (a + b)[i..i + 2] == b[i - 2..i]
  {
  }

  lemma {:induction false} HexOfAt(bytes: seq<bv8>, i: nat)
    requires i < |bytes|
    ensures HexOf(bytes)[2 * i..2 * i + 2] == ByteHex(bytes[i])
    decreases |bytes|
  {
    assert HexOf(bytes) == ByteHex(bytes[0]) + HexOf(bytes[1..]);
    if i > 0 {
      HexOfAt(bytes[1..], i - 1);
      DropTwo(ByteHex(bytes[0]), HexOf(bytes[1..]), 2 * i);
    }
  }

  lemma {:induction false} ValueOfTwo(n: nat)
    requires n < 256
    ensures ValueOf([HexChar(n / 16), HexChar(n % 16)]) == n
  {
    var s := [HexChar(n / 16), HexChar(n % 16)];
    assert s[..1] == [HexChar(n / 16)] && s[..1][..0] == "";
    assert ValueOf(s[..1]) == n / 16;
  }

  lemma {:induction false} ValueOfByte(b: bv8)
    ensures ValueOf(ByteHex(b)) == b as nat
  {
    ByteHexIs(b);
    ValueOfTwo(b as nat);
  }

  lemma {:induction false} VersionByte(b: bv8)
    ensures ((b & 0x0f) | 0x70) as nat == b as nat % 16 + 0x70
  {
  }

  lemma {:induction false} VariantByte(b: bv8)
    ensures ((b & 0x3f) | 0x80) as nat == b as nat % 64 + 0x80
  {
  }

  ghost predicate Dash(i: nat) {
    i == 8 || i == 13 || i == 18 || i == 23
  }

  /** 8-4-4-4-12, version 7, variant binary 10, for any time. */
  lemma {:induction false} Layout(ts: nat, rand: seq<bv8>)
    requires |rand| == 10
    ensures var id := UuidOf(ts, rand);
      && |id| == 36 && (forall i: nat :: i < 36 ==> if Dash(i) then id[i] == '-' else IsHex(id[i]))
      && id[14] == '7' && (id[19] == '8' || id[19] == '9' || id[19] == 'a' || id[19] == 'b')
  {
    hide PadStart, ToHex, HexOf;
    var h, b := HexOf(Stamped(rand)), Stamped(rand);
    VersionByte(rand[0]);
    VariantByte(rand[2]);
    ByteHexIs(b[0]);
    ByteHexIs(b[2]);
    HexOfAt(b, 0);
    HexOfAt(b, 2);
    assert UuidOf(ts, rand)[14] == h[0] == h[0..2][0] && UuidOf(ts, rand)[19] == h[4] == h[4..6][0];
  }

  /** Below 2^48 the time reads back; from 2^48 on it does not. */
  lemma {:induction false} TimeRoundTrip(ts: nat, rand: seq<bv8>)
    requires |rand| == 10
    ensures var id := UuidOf(ts, rand);
      |id| == 36 && AllHex(Digits(id)) && (TimeIn(id) == ts <==> ts < TIMES)
  {
    var t, id := PadStart(ToHex(ts), 12), UuidOf(ts, rand);
    DigitsOfGrouped(t, HexOf(Stamped(rand)));
    assert Digits(id)[..12] == t[..12];
    TimesArePow();
    if ts < TIMES {
      PaddedIsFixed(ts, 12);
      ValueOfFixed(ts, 12);
      assert t[..12] == t;
    } else {
      ValueBound(t[..12]);
    }
  }

  /** Every random byte reads back, but for the bits of the version and variant. */
  lemma {:induction false} RandomRoundTrip(ts: nat, rand: seq<bv8>, i: nat)
    requires |rand| == 10 && i < 10
    ensures var id := UuidOf(ts, rand);
      && |id| == 36 && AllHex(Digits(id))
      && (i == 0 ==> ByteIn(id, i) == rand[0] as nat % 16 + 0x70)
      && (i == 2 ==> ByteIn(id, i) == rand[2] as nat % 64 + 0x80)
      && (i != 0 && i != 2 ==> ByteIn(id, i) == rand[i] as nat)
  {
    var t, h := PadStart(ToHex(ts), 12), HexOf(Stamped(rand));
    DigitsOfGrouped(t, h);
    assert (t[..12] + h)[12 + 2 * i..14 + 2 * i] == h[2 * i..2 * i + 2];
    HexOfAt(Stamped(rand), i);
    ValueOfByte(Stamped(rand)[i]);
    VersionByte(rand[0]);
    VariantByte(rand[2]);
  }

  /** Below 2^48 a smaller time gives a smaller string, whatever the random bytes. */
  lemma {:induction false} TimeOrder(ts: nat, ts': nat, rand: seq<bv8>, rand': seq<bv8>)
    requires ts < ts' < TIMES && |rand| == 10 && |rand'| == 10
    ensures Less(UuidOf(ts, rand), UuidOf(ts', rand'))
  {
    TimesArePow();
    PaddedIsFixed(ts, 12);
    PaddedIsFixed(ts', 12);
    var k := FixedOrder(ts, ts', 12);
    GroupedOrder(Fixed(ts, 12), Fixed(ts', 12), k, HexOf(Stamped(rand)), HexOf(Stamped(rand')));
  }

  lemma {:induction false} GroupedOrder(t: string, t': string, k: nat, h: string, h': string)
    requires |t| == |t'| == 12 && k < 12 && LessAt(t, t', k) && |h| == |h'| == 20
    ensures Less(Grouped(t, h), Grouped(t', h'))
  {
    var a, b, j := Grouped(t, h), Grouped(t', h'), if k < 8 then k else k + 1;
    forall i | 0 <= i < j
      ensures a[i] == b[i]
    {
      var m := if i < 8 then i else i - 1;
      if i != 8 { assert a[i] == t[m] == t[..k][m] && b[i] == t'[m] == t'[..k][m]; }
    }
    assert a[..j] == b[..j];
    assert LessAt(a, b, j);
  }

  /** At 2^48 the order breaks: the last millisecond that fits comes after the next one. */
  lemma {:induction false} OrderBreaks(n: nat, rand: seq<bv8>, rand': seq<bv8>)
    requires n == TIMES && |rand| == 10 && |rand'| == 10
    ensures Less(UuidOf(n, rand'), UuidOf(n - 1, rand))
  {
    TimesArePow();
    PaddedIsFixed(n - 1, 12);
    HighDigits(n - 1, 12);
    TooLong(n, 12);
    FirstDigit(n, 12);
    assert LessAt(UuidOf(n, rand'), UuidOf(n - 1, rand), 0);
  }

  ghost predicate InOrder(ts: nat, ts': nat, rand: seq<bv8>, rand': seq<bv8>)
    requires |rand| == 10 && |rand'| == 10
  {
    Less(UuidOf(ts, rand), UuidOf(ts', rand'))
  }

  lemma {:induction false} OneWay(a: string, b: string)
    requires Less(a, b)
    ensures !Less(b, a)
  {
    var j :| 0 <= j < |a| && j < |b| && LessAt(a, b, j);
    forall k | 0 <= k < |a| && k < |b|
      ensures !LessAt(b, a, k)
    {
      assert k < j ==> a[..j][k] == a[k] && b[..j][k] == b[k];
      assert j < k ==> a[..k][j] == a[j] && b[..k][j] == b[j];
    }
  }

  /** All times up to a bound are in order, whatever the random bytes, just
      when the bound is below 2^48. */
  lemma {:induction false} OrderExactly(bound: nat)
    ensures (forall ts: nat, ts': nat, rand: seq<bv8>, rand': seq<bv8> ::
               ts < ts' <= bound && |rand| == 10 && |rand'| == 10 ==> InOrder(ts, ts', rand, rand'))
       <==> bound < TIMES
  {
    hide UuidOf, Less;
    if bound < TIMES {
      forall ts: nat, ts': nat, rand: seq<bv8>, rand': seq<bv8> | ts < ts' <= bound && |rand| == 10 && |rand'| == 10
        ensures InOrder(ts, ts', rand, rand')
      {
        TimeOrder(ts, ts', rand, rand');
      }
    } else {
      var rand := seq(10, _ => 0 as bv8);
      OrderBreaks(TIMES, rand, rand);
      OneWay(UuidOf(TIMES, rand), UuidOf(TIMES - 1, rand));
      assert !InOrder(TIMES - 1, TIMES, rand, rand);
    }
  }

  /** The largest number of a width is all `f`. */
  lemma {:induction false} HighDigits(n: nat, w: nat)
    requires w > 0 && n == Pow16(w) - 1
    ensures Fixed(n, w)[0] == 'f'
    decreases w
  {
    if w > 1 {
      assert n / 16 == Pow16(w - 1) - 1;
      HighDigits(n / 16, w - 1);
    } else {
      assert Pow16(1) == 16;
    }
  }

  lemma {:induction false} FirstDigit(n: nat, w: nat)
    requires n == Pow16(w)
    ensures ToHex(n)[0] == '1'
    decreases w
  {
    if w > 0 {
      PowPositive(w - 1);
      assert n / 16 == Pow16(w - 1);
      FirstDigit(n / 16, w - 1);
    }
  }
}
