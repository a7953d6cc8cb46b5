/** Bytes, their numeric values, and little-endian integers. */
module Bytes {
  type byte = bv8
  type u16 = n: nat | n < 0x1_0000
  type u32 = n: nat | n < 0x1_0000_0000
  type u64 = n: nat | n < 0x1_0000_0000_0000_0000

  datatype Option<+T> = None | Some(value: T)

  // Conversions between numbers and bytes, a few values at a time.

  lemma {:induction false} FirstQuarter(n: nat)
    requires 0 <= n < 64
    ensures (n as bv8) as int == n
  {
    if n < 8 {} else if n < 16 {} else if n < 24 {} else if n < 32 {}
    else if n < 40 {} else if n < 48 {} else if n < 56 {} else {}
  }

  lemma {:induction false} SecondQuarter(n: nat)
    requires 64 <= n < 128
    ensures (n as bv8) as int == n
  {
    if n < 72 {} else if n < 80 {} else if n < 88 {} else if n < 96 {}
    else if n < 104 {} else if n < 112 {} else if n < 120 {} else {}
  }

  lemma {:induction false} ThirdQuarter(n: nat)
    requires 128 <= n < 192
    ensures (n as bv8) as int == n
  {
    if n < 136 {} else if n < 144 {} else if n < 152 {} else if n < 160 {}
    else if n < 168 {} else if n < 176 {} else if n < 184 {} else {}
  }

  lemma {:induction false} LastQuarter(n: nat)
    requires 192 <= n < 256
    ensures (n as bv8) as int == n
  {
    if n < 200 {} else if n < 208 {} else if n < 216 {} else if n < 224 {}
    else if n < 232 {} else if n < 240 {} else if n < 248 {} else {}
  }

  lemma {:induction false} ByteRoundTrip(n: nat)
    requires n < 256
    ensures (n as bv8) as int == n
  {
    if n < 64 {
      FirstQuarter(n);
    } else if n < 128 {
      SecondQuarter(n);
    } else if n < 192 {
      ThirdQuarter(n);
    } else {
      LastQuarter(n);
    }
  }

  lemma {:induction false} ByteOfValue(b: byte, n: nat)
    requires b as int == n
    ensures b == n as bv8
  {
    assert (b as int) as bv8 == b;
  }

  function Pow256(k: nat): nat {
    if k == 0 then 1 else 256 * Pow256(k - 1)
  }

  /** The k low bytes of v, lowest first. */
  function LittleEndian(v: nat, k: nat): (s: seq<byte>)
    ensures |s| == k
    decreases k
  {
    if k == 0 then [] else [(v % 256) as bv8] + LittleEndian(v / 256, k - 1)
  }

  function Number(s: seq<byte>): nat {
    if |s| == 0 then 0 else s[0] as int + 256 * Number(s[1..])
  }

  lemma {:induction false} LittleEndianRoundTrip(v: nat, k: nat)
    requires v < Pow256(k)
    ensures Number(LittleEndian(v, k)) == v
    decreases k
  {
    if k > 0 {
      var s := LittleEndian(v, k);
      assert s[1..] == LittleEndian(v / 256, k - 1);
      ByteRoundTrip(v % 256);
      LittleEndianRoundTrip(v / 256, k - 1);
    }
  }

  lemma {:induction false} NumberBound(s: seq<byte>)
    ensures Number(s) < Pow256(|s|)
  {
    if |s| > 0 { NumberBound(s[1..]); }
  }

  lemma {:induction false} FirstByte(s: seq<byte>)
    requires |s| > 0
    ensures s[0] as int == Number(s) % 256 && Number(s[1..]) == Number(s) / 256
  {
    ByteRange(s[0]);
    DigitAndRest(s[0] as int, Number(s[1..]));
  }

  lemma {:induction false} ByteRange(b: byte)
    ensures 0 <= b as int < 256
  {
  }

  lemma {:induction false} DigitAndRest(d: nat, n: nat)
    requires d < 256
    ensures (d + 256 * n) % 256 == d && (d + 256 * n) / 256 == n
  {
  }

  lemma {:induction false} SameByte(a: byte, b: byte)
    requires a as int == b as int
    ensures a == b
  {
    ByteOfValue(a, b as int);
    ByteOfValue(b, b as int);
  }

  lemma {:induction false} NumberInjective(s: seq<byte>, t: seq<byte>)
    requires |s| == |t| && Number(s) == Number(t)
    ensures s == t
    decreases |s|
  {
    if |s| > 0 {
      FirstByte(s);
      FirstByte(t);
      SameByte(s[0], t[0]);
      NumberInjective(s[1..], t[1..]);
      assert s == [s[0]] + s[1..] && t == [t[0]] + t[1..];
    }
  }

  lemma {:induction false} Widths()
    ensures Pow256(2) == 0x1_0000 && Pow256(4) == 0x1_0000_0000 && Pow256(8) == 0x1_0000_0000_0000_0000
  {
  }

  function Padding(n: nat): (s: seq<byte>)
    ensures |s| == n
  {
    seq(n, _ => 0)
  }

  ghost predicate Distinct<T>(s: seq<T>) {
    forall i, j :: 0 <= i < j < |s| ==> s[i] != s[j]
  }
}
