/** Chunk ids of pipeline/steps.py: `f"{i:08x}"[:8]`, the 1-based row
    number as lowercase hexadecimal, zero-padded to eight digits and cut
    to eight characters. */
module ChunkIds {

  function HexDigit(d: nat): (c: char)
    requires d < 16
    ensures '0' <= c <= '9' || 'a' <= c <= 'f'
  {
    if d < 10 then ('0' as int + d) as char else ('a' as int + d - 10) as char
  }

  predicate IsHexDigit(c: char) {
    '0' <= c <= '9' || 'a' <= c <= 'f'
  }

  predicate IsHex(s: string) {
    forall i :: 0 <= i < |s| ==> IsHexDigit(s[i])
  }

  function DigitValue(c: char): (d: nat)
    requires IsHexDigit(c)
    ensures d < 16
  {
    if c <= '9' then c as int - '0' as int else c as int - 'a' as int + 10
  }

  lemma DigitRoundTrip(d: nat)
    requires d < 16
    ensures DigitValue(HexDigit(d)) == d
  {
  }

  /** `format(n, "x")`: the digits of `n` in base 16, most significant first. */
  function Hex(n: nat): (r: string)
    ensures |r| >= 1
    ensures IsHex(r)
    decreases n
  {
    if n < 16 then [HexDigit(n)] else Hex(n / 16) + [HexDigit(n % 16)]
  }

  /** `format(n, "08x")`: pads with zeros on the left up to `width`. */
  function ZeroPad(s: string, width: nat): (r: string)
    ensures |r| == if |s| < width then width else |s|
  {
    if |s| < width then Zeros(width - |s|) + s else s
  }

  function Zeros(k: nat): (r: string)
    ensures |r| == k
    ensures forall i :: 0 <= i < k ==> r[i] == '0'
  {
    seq(k, _ => '0')
  }

  function ChunkId(i: nat): (r: string)
    ensures |r| == 8
  {
    ZeroPad(Hex(i), 8)[..8]
  }

  function Pow16(k: nat): (p: nat)
    ensures p >= 1
  {
    if k == 0 then 1 else 16 * Pow16(k - 1)
  }

  /** The number a string of lowercase hex digits denotes. */
  function HexValue(s: string): nat
    requires IsHex(s)
  {
    if s == [] then 0 else HexValue(s[..|s| - 1]) * 16 + DigitValue(s[|s| - 1])
  }

  lemma {:induction false} HexValueOfHex(n: nat)
    ensures HexValue(Hex(n)) == n
    decreases n
  {
    if n < 16 {
      DigitRoundTrip(n);
    } else {
      HexValueOfHex(n / 16);
      DigitRoundTrip(n % 16);
      var h := Hex(n);
      assert h[..|h| - 1] == Hex(n / 16);
    }
  }

  lemma {:induction false} HexLength(n: nat, k: nat)
    requires 1 <= k && n < Pow16(k)
    ensures |Hex(n)| <= k
    decreases n
  {
    if n >= 16 {
      HexLength(n / 16, k - 1);
    }
  }

  lemma IsHexAppend(a: string, b: string)
    requires IsHex(a) && IsHex(b)
    ensures IsHex(a + b)
  {
    forall i | 0 <= i < |a + b| ensures IsHexDigit((a + b)[i]) {
      if i >= |a| {
        assert (a + b)[i] == b[i - |a|];
      }
    }
  }

  lemma {:induction false} HexValueAppend(a: string, b: string)
    requires IsHex(a) && IsHex(b)
    ensures IsHex(a + b)
    ensures HexValue(a + b) == HexValue(a) * Pow16(|b|) + HexValue(b)
    decreases |b|
  {
    IsHexAppend(a, b);
    if b == [] {
      assert a + b == a;
    } else {
      var b' := b[..|b| - 1];
      var d := DigitValue(b[|b| - 1]);
      assert IsHex(b');
      assert (a + b)[..|a + b| - 1] == a + b';
      assert (a + b)[|a + b| - 1] == b[|b| - 1];
      HexValueAppend(a, b');
      assert HexValue(a + b) == HexValue(a + b') * 16 + d;
      assert HexValue(b) == HexValue(b') * 16 + d;
      assert Pow16(|b|) == 16 * Pow16(|b'|);
      ShiftDigit(HexValue(a), Pow16(|b'|), HexValue(b'), d);
    }
  }

  lemma ShiftDigit(x: nat, p: nat, y: nat, d: nat)
    ensures (x * p + y) * 16 + d == x * (16 * p) + (y * 16 + d)
  {
  }

  lemma {:induction false} ZerosValue(k: nat)
    ensures IsHex(Zeros(k))
    ensures HexValue(Zeros(k)) == 0
  {
    if k > 0 {
      assert Zeros(k)[..k - 1] == Zeros(k - 1);
      ZerosValue(k - 1);
    }
  }

  /** Below 2^32 the id is exactly the eight-digit padded hex of `i`, so
      reading it back as hexadecimal gives `i`. */
  lemma ChunkIdRoundTrip(i: nat)
    requires i < 0x1_0000_0000
    ensures IsHex(ChunkId(i))
    ensures HexValue(ChunkId(i)) == i
  {
    assert Pow16(8) == 0x1_0000_0000;
    HexLength(i, 8);
    var h := Hex(i);
    var z := Zeros(8 - |h|);
    assert ChunkId(i) == z + h;
    ZerosValue(8 - |h|);
    HexValueAppend(z, h);
    HexValueOfHex(i);
  }

  /** Distinct row numbers below 2^32 get distinct chunk ids. */
  lemma ChunkIdInjective(i: nat, j: nat)
    requires i < 0x1_0000_0000 && j < 0x1_0000_0000
    requires ChunkId(i) == ChunkId(j)
    ensures i == j
  {
    ChunkIdRoundTrip(i);
    ChunkIdRoundTrip(j);
  }

  /** The first row's id. */
  lemma FirstChunkId()
    ensures ChunkId(1) == "00000001"
  {
  }

  /** Beyond 2^32 the cut to eight characters drops the last digit, and
      ids repeat: row 2^32 gets the id of row 2^28. */
  lemma ChunkIdWrapsAbove32Bits()
    ensures ChunkId(0x1_0000_0000) == ChunkId(0x1000_0000) == "10000000"
  {
    assert Pow16(7) == 0x1000_0000;
    assert Pow16(8) == 0x1_0000_0000;
    HexOfPower(7);
    HexOfPower(8);
    var seven := ['1'] + Zeros(7);
    assert (['1'] + Zeros(8))[..8] == seven;
    assert seven == "10000000";
  }

  /** `format(16 ** k, "x")` is a one followed by `k` zeros. */
  lemma {:induction false} HexOfPower(k: nat)
    ensures Hex(Pow16(k)) == ['1'] + Zeros(k)
  {
    if k > 0 {
      HexOfPower(k - 1);
      var p := Pow16(k - 1);
      assert Pow16(k) / 16 == p && Pow16(k) % 16 == 0;
      assert Zeros(k) == Zeros(k - 1) + ['0'];
    } else {
      assert Hex(1) == ['1'];
    }
  }
}
