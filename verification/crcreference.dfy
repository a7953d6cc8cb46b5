/** CRC-32C by its textbook definition: the message, each byte lowest bit first, is divided by the generator polynomial
    0x1_1EDC_6F41 (section 12.1 of RFC 3720). The register of the code is that remainder, read backwards. */
module Crc32cReference {
  import opened Bytes
  import opened Crc32c
  import Block

  // ----- reading a register backwards

  /** The bits of a register in the opposite order. */
  function Reverse(r: bv32): bv32 {
    ((r & 0x0000_0001) << 31) | ((r & 0x0000_0002) << 29) | ((r & 0x0000_0004) << 27) | ((r & 0x0000_0008) << 25) |
    ((r & 0x0000_0010) << 23) | ((r & 0x0000_0020) << 21) | ((r & 0x0000_0040) << 19) | ((r & 0x0000_0080) << 17) |
    ((r & 0x0000_0100) << 15) | ((r & 0x0000_0200) << 13) | ((r & 0x0000_0400) << 11) | ((r & 0x0000_0800) << 9) |
    ((r & 0x0000_1000) << 7) | ((r & 0x0000_2000) << 5) | ((r & 0x0000_4000) << 3) | ((r & 0x0000_8000) << 1) |
    ((r & 0x0001_0000) >> 1) | ((r & 0x0002_0000) >> 3) | ((r & 0x0004_0000) >> 5) | ((r & 0x0008_0000) >> 7) |
    ((r & 0x0010_0000) >> 9) | ((r & 0x0020_0000) >> 11) | ((r & 0x0040_0000) >> 13) | ((r & 0x0080_0000) >> 15) |
    ((r & 0x0100_0000) >> 17) | ((r & 0x0200_0000) >> 19) | ((r & 0x0400_0000) >> 21) | ((r & 0x0800_0000) >> 23) |
    ((r & 0x1000_0000) >> 25) | ((r & 0x2000_0000) >> 27) | ((r & 0x4000_0000) >> 29) | ((r & 0x8000_0000) >> 31)
  }

  lemma {:induction false} ReverseBit(r: bv32, i: bv32)
    requires i < 32
    ensures (Reverse(r) >> i) & 1 == (r >> (31 - i)) & 1
  {
  }

  lemma {:induction false} ReverseTwice(r: bv32)
    ensures Reverse(Reverse(r)) == r
  {
  }

  // ----- division, one bit at a time

  /** One more bit of the message: the remainder is multiplied by x, the bit added at the top, and the generator
      subtracted if there is a term of degree 32. */
  function Feed(t: bv32, bit: bool): bv32 {
    if TopBit(t) != bit then Xor(Twice(t), 0x1EDC_6F41) else Twice(t)
  }

  predicate TopBit(t: bv32) {
    t & 0x8000_0000 != 0
  }

  function Twice(t: bv32): bv32 {
    t << 1
  }

  predicate LowBit(r: bv32) {
    r & 1 == 1
  }

  function Half(r: bv32): bv32 {
    r >> 1
  }

  function FeedBits(t: bv32, b: bv32, n: nat): bv32
    decreases n
  {
    if n == 0 then t else FeedBits(Feed(t, LowBit(b)), Half(b), n - 1)
  }

  /** The remainder after the whole message. */
  function Remainder(t: bv32, s: seq<byte>): bv32
    decreases |s|
  {
    if |s| == 0 then t else Remainder(FeedBits(t, s[0] as bv32, 8), s[1..])
  }

  lemma {:induction false} ReverseXor(a: bv32, b: bv32)
    ensures Reverse(Xor(a, b)) == Xor(Reverse(a), Reverse(b))
  {
  }

  lemma {:induction false} ReverseHalf(r: bv32)
    ensures Reverse(Half(r)) == Twice(Reverse(r)) && (LowBit(r) <==> TopBit(Reverse(r)))
  {
  }

  lemma {:induction false} ReverseGenerator()
    ensures Reverse(POLY) == 0x1EDC_6F41
  {
  }

  lemma {:induction false} StepHalves(r: bv32)
    ensures Step(r) == if LowBit(r) then Xor(Half(r), POLY) else Half(r)
  {
    StepCases(r);
  }

  lemma {:induction false} FlipLow(r: bv32)
    ensures LowBit(Xor(r, 1)) <==> !LowBit(r)
    ensures Half(Xor(r, 1)) == Half(r)
  {
  }

  /** One step of the register is one bit of the division, backwards. */
  lemma {:induction false} StepDivides(r: bv32, bit: bool)
    ensures Reverse(Step(Xor(r, if bit then 1 else 0))) == Feed(Reverse(r), bit)
  {
    hide Reverse, Step, Half, Twice, TopBit, LowBit, Xor;
    XorUnit(r);
    FlipLow(r);
    StepHalves(Xor(r, if bit then 1 else 0));
    ReverseGenerator();
    ReverseHalf(r);
    ReverseXor(Half(r), POLY);
  }

  // ----- a byte, and a message

  /** A number of at most n bits. */
  predicate Fits(b: bv32, n: nat)
    decreases n
  {
    if n == 0 then b == 0 else Fits(Half(b), n - 1)
  }

  lemma {:induction false} StepsFirst(n: nat, r: bv32)
    requires n > 0
    ensures Steps(n, r) == Steps(n - 1, Step(r))
  {
    hide Step;
    if n > 1 { StepsFirst(n - 1, r); }
  }

  lemma {:induction false} PeelBit(r: bv32, b: bv32)
    ensures Step(Xor(r, b)) == Xor(Step(Xor(r, if LowBit(b) then 1 else 0)), Half(b))
  {
    var low: bv32, rest := if LowBit(b) then 1 else 0, b & 0xFFFF_FFFE;
    SplitLow(r, b);
    EvenStep(rest);
    HalfOfRest(b);
    hide Step, Xor, Half, LowBit;
    StepXor(Xor(r, low), rest);
  }

  lemma {:induction false} HalfOfRest(b: bv32)
    ensures (b & 0xFFFF_FFFE) >> 1 == Half(b) && (b & 0xFFFF_FFFE) & 1 == 0
  {
  }

  lemma {:induction false} SplitLow(r: bv32, b: bv32)
    ensures Xor(r, b) == Xor(Xor(r, if LowBit(b) then 1 else 0), b & 0xFFFF_FFFE)
  {
  }

  lemma {:induction false} BitsDivide(r: bv32, b: bv32, n: nat)
    requires Fits(b, n)
    ensures Reverse(Steps(n, Xor(r, b))) == FeedBits(Reverse(r), b, n)
    decreases n
  {
    hide Reverse, Step, Half, Feed, LowBit, Xor;
    if n == 0 {
      XorUnit(r);
    } else {
      var low: bv32 := if LowBit(b) then 1 else 0;
      StepsFirst(n, Xor(r, b));
      PeelBit(r, b);
      BitsDivide(Step(Xor(r, low)), Half(b), n - 1);
      StepDivides(r, LowBit(b));
    }
  }

  lemma {:induction false} ByteFits(b: byte)
    ensures Fits(b as bv32, 8)
  {
    var w := b as bv32;
    assert w >> 8 == 0;
    assert Half(Half(Half(Half(Half(Half(Half(Half(w)))))))) == w >> 8;
  }

  /** The register after any message is the remainder of the division, backwards. */
  lemma {:induction false} RegisterIsRemainder(r: bv32, s: seq<byte>)
    ensures Reverse(Update(r, s)) == Remainder(Reverse(r), s)
    decreases |s|
  {
    hide Reverse, Steps, FeedBits, Fits, Xor;
    if |s| > 0 {
      ByteFits(s[0]);
      BitsDivide(r, s[0] as bv32, 8);
      RegisterIsRemainder(Steps(8, Xor(r, s[0] as bv32)), s[1..]);
    }
  }

  lemma {:induction false} OnesBothWays()
    ensures Reverse(0xFFFF_FFFF) == 0xFFFF_FFFF
  {
  }

  /** CRC-32C of every byte string: all ones in, the remainder, backwards and complemented, out. */
  lemma {:induction false} CrcIsRemainder(s: seq<byte>)
    ensures Block.Crc(s) == !Reverse(Remainder(0xFFFF_FFFF, s))
  {
    hide Reverse, Remainder, Update;
    Backwards(s);
  }

  lemma {:induction false} Backwards(s: seq<byte>)
    ensures Update(0xFFFF_FFFF, s) == Reverse(Remainder(0xFFFF_FFFF, s))
  {
    hide Reverse, Remainder, Update;
    OnesBothWays();
    RegisterIsRemainder(0xFFFF_FFFF, s);
    ReverseTwice(Update(0xFFFF_FFFF, s));
  }

  // ----- the check values of RFC 3720

  lemma {:induction false} Advance(r: bv32, s: seq<byte>, i: nat, next: bv32)
    requires i < |s| && Steps(8, Xor(r, s[i] as bv32)) == next
    ensures Update(r, s[i..]) == Update(next, s[i + 1..])
  {
    assert s[i..][1..] == s[i + 1..];
  }

  lemma {:induction false} NothingLeft(r: bv32, s: seq<byte>)
    requires |s| == 0
    ensures Update(r, s) == r
  {
  }

  const DIGITS: seq<byte> := [0x31, 0x32, 0x33, 0x34, 0x35, 0x36, 0x37, 0x38, 0x39]

  lemma {:induction false} Digits1(s: seq<byte>, i: nat)
    requires i + 4 <= |s|
    requires s[i] == 49 && s[i + 1] == 50 && s[i + 2] == 51 && s[i + 3] == 52
    ensures Update(0xFFFF_FFFF, s[i..]) == Update(0x09C5_0B11, s[i + 4..])
  {
    assert Xor(0xFFFF_FFFF, 49) == 0xFFFF_FFCE && Steps(8, 0xFFFF_FFCE) == 0x6F0A_661C;
    assert Xor(0x6F0A_661C, 50) == 0x6F0A_662E && Steps(8, 0x6F0A_662E) == 0x8CAA_3B9F;
    assert Xor(0x8CAA_3B9F, 51) == 0x8CAA_3BAC && Steps(8, 0x8CAA_3BAC) == 0xEF84_D04D;
    assert Xor(0xEF84_D04D, 52) == 0xEF84_D079 && Steps(8, 0xEF84_D079) == 0x09C5_0B11;
    hide Update, Steps, Xor;
    Advance(0xFFFF_FFFF, s, i, 0x6F0A_661C);
    Advance(0x6F0A_661C, s, i + 1, 0x8CAA_3B9F);
    Advance(0x8CAA_3B9F, s, i + 2, 0xEF84_D04D);
    Advance(0xEF84_D04D, s, i + 3, 0x09C5_0B11);
  }

  lemma {:induction false} Digits2(s: seq<byte>, i: nat)
    requires i + 4 <= |s|
    requires s[i] == 53 && s[i + 1] == 54 && s[i + 2] == 55 && s[i + 3] == 56
    ensures Update(0x09C5_0B11, s[i..]) == Update(0x9F78_7F65, s[i + 4..])
  {
    assert Xor(0x09C5_0B11, 53) == 0x09C5_0B24 && Steps(8, 0x09C5_0B24) == 0xE72E_DCCA;
    assert Xor(0xE72E_DCCA, 54) == 0xE72E_DCFC && Steps(8, 0xE72E_DCFC) == 0xBECA_8E79;
    assert Xor(0xBECA_8E79, 55) == 0xBECA_8E4E && Steps(8, 0xBECA_8E4E) == 0xEDBD_6815;
    assert Xor(0xEDBD_6815, 56) == 0xEDBD_682D && Steps(8, 0xEDBD_682D) == 0x9F78_7F65;
    hide Update, Steps, Xor;
    Advance(0x09C5_0B11, s, i, 0xE72E_DCCA);
    Advance(0xE72E_DCCA, s, i + 1, 0xBECA_8E79);
    Advance(0xBECA_8E79, s, i + 2, 0xEDBD_6815);
    Advance(0xEDBD_6815, s, i + 3, 0x9F78_7F65);
  }

  lemma {:induction false} Digits3(s: seq<byte>, i: nat)
    requires i + 1 <= |s|
    requires s[i] == 57
    ensures Update(0x9F78_7F65, s[i..]) == Update(0x1CF9_6D7C, s[i + 1..])
  {
    assert Xor(0x9F78_7F65, 57) == 0x9F78_7F5C && Steps(8, 0x9F78_7F5C) == 0x1CF9_6D7C;
    hide Update, Steps, Xor;
    Advance(0x9F78_7F65, s, i, 0x1CF9_6D7C);
  }

  /** The nine digits 1 to 9. */
  lemma {:induction false} DigitsValue()
    ensures Block.Crc(DIGITS) == 0xE306_9283
  {
    hide Update;
    var s: seq<byte> := DIGITS;
    Digits1(s, 0);
    Digits2(s, 4);
    Digits3(s, 8);
    assert s[0..] == s;
    NothingLeft(0x1CF9_6D7C, s[9..]);
  }

  lemma {:induction false} Zeros1(s: seq<byte>, i: nat)
    requires i + 4 <= |s|
    requires s[i] == 0 && s[i + 1] == 0 && s[i + 2] == 0 && s[i + 3] == 0
    ensures Update(0xFFFF_FFFF, s[i..]) == Update(0xB798_B438, s[i + 4..])
  {
    assert Xor(0xFFFF_FFFF, 0) == 0xFFFF_FFFF && Steps(8, 0xFFFF_FFFF) == 0xAD82_ACAE;
    assert Xor(0xAD82_ACAE, 0) == 0xAD82_ACAE && Steps(8, 0xAD82_ACAE) == 0x0E9E_882D;
    assert Xor(0x0E9E_882D, 0) == 0x0E9E_882D && Steps(8, 0x0E9E_882D) == 0x9F9B_5C85;
    assert Xor(0x9F9B_5C85, 0) == 0x9F9B_5C85 && Steps(8, 0x9F9B_5C85) == 0xB798_B438;
    hide Update, Steps, Xor;
    Advance(0xFFFF_FFFF, s, i, 0xAD82_ACAE);
    Advance(0xAD82_ACAE, s, i + 1, 0x0E9E_882D);
    Advance(0x0E9E_882D, s, i + 2, 0x9F9B_5C85);
    Advance(0x9F9B_5C85, s, i + 3, 0xB798_B438);
  }

  lemma {:induction false} Zeros2(s: seq<byte>, i: nat)
    requires i + 4 <= |s|
    requires s[i] == 0 && s[i + 1] == 0 && s[i + 2] == 0 && s[i + 3] == 0
    ensures Update(0xB798_B438, s[i..]) == Update(0x73D7_4D75, s[i + 4..])
  {
    assert Xor(0xB798_B438, 0) == 0xB798_B438 && Steps(8, 0xB798_B438) == 0xBA8D_89CA;
    assert Xor(0xBA8D_89CA, 0) == 0xBA8D_89CA && Steps(8, 0xBA8D_89CA) == 0xA8D5_8375;
    assert Xor(0xA8D5_8375, 0) == 0xA8D5_8375 && Steps(8, 0xA8D5_8375) == 0x44C1_9592;
    assert Xor(0x44C1_9592, 0) == 0x44C1_9592 && Steps(8, 0x44C1_9592) == 0x73D7_4D75;
    hide Update, Steps, Xor;
    Advance(0xB798_B438, s, i, 0xBA8D_89CA);
    Advance(0xBA8D_89CA, s, i + 1, 0xA8D5_8375);
    Advance(0xA8D5_8375, s, i + 2, 0x44C1_9592);
    Advance(0x44C1_9592, s, i + 3, 0x73D7_4D75);
  }

  lemma {:induction false} Zeros3(s: seq<byte>, i: nat)
    requires i + 4 <= |s|
    requires s[i] == 0 && s[i + 1] == 0 && s[i + 2] == 0 && s[i + 3] == 0
    ensures Update(0x73D7_4D75, s[i..]) == Update(0xD49F_4AA2, s[i + 4..])
  {
    assert Xor(0x73D7_4D75, 0) == 0x73D7_4D75 && Steps(8, 0x73D7_4D75) == 0x441A_975C;
    assert Xor(0x441A_975C, 0) == 0x441A_975C && Steps(8, 0x441A_975C) == 0x1C22_0F94;
    assert Xor(0x1C22_0F94, 0) == 0x1C22_0F94 && Steps(8, 0x1C22_0F94) == 0x552E_4907;
    assert Xor(0x552E_4907, 0) == 0x552E_4907 && Steps(8, 0x552E_4907) == 0xD49F_4AA2;
    hide Update, Steps, Xor;
    Advance(0x73D7_4D75, s, i, 0x441A_975C);
    Advance(0x441A_975C, s, i + 1, 0x1C22_0F94);
    Advance(0x1C22_0F94, s, i + 2, 0x552E_4907);
    Advance(0x552E_4907, s, i + 3, 0xD49F_4AA2);
  }

  lemma {:induction false} Zeros4(s: seq<byte>, i: nat)
    requires i + 4 <= |s|
    requires s[i] == 0 && s[i + 1] == 0 && s[i + 2] == 0 && s[i + 3] == 0
    ensures Update(0xD49F_4AA2, s[i..]) == Update(0xBD8F_6515, s[i + 4..])
  {
    assert Xor(0xD49F_4AA2, 0) == 0xD49F_4AA2 && Steps(8, 0xD49F_4AA2) == 0x43A4_5A1B;
    assert Xor(0x43A4_5A1B, 0) == 0x43A4_5A1B && Steps(8, 0x43A4_5A1B) == 0x8994_C80E;
    assert Xor(0x8994_C80E, 0) == 0x8994_C80E && Steps(8, 0x8994_C80E) == 0xACF1_2BEF;
    assert Xor(0xACF1_2BEF, 0) == 0xACF1_2BEF && Steps(8, 0xACF1_2BEF) == 0xBD8F_6515;
    hide Update, Steps, Xor;
    Advance(0xD49F_4AA2, s, i, 0x43A4_5A1B);
    Advance(0x43A4_5A1B, s, i + 1, 0x8994_C80E);
    Advance(0x8994_C80E, s, i + 2, 0xACF1_2BEF);
    Advance(0xACF1_2BEF, s, i + 3, 0xBD8F_6515);
  }

  lemma {:induction false} Zeros5(s: seq<byte>, i: nat)
    requires i + 4 <= |s|
    requires s[i] == 0 && s[i + 1] == 0 && s[i + 2] == 0 && s[i + 3] == 0
    ensures Update(0xBD8F_6515, s[i..]) == Update(0x433A_A9C1, s[i + 4..])
  {
    assert Xor(0xBD8F_6515, 0) == 0xBD8F_6515 && Steps(8, 0xBD8F_6515) == 0x2512_5C16;
    assert Xor(0x2512_5C16, 0) == 0x2512_5C16 && Steps(8, 0x2512_5C16) == 0x36DA_32DB;
    assert Xor(0x36DA_32DB, 0) == 0x36DA_32DB && Steps(8, 0x36DA_32DB) == 0x4A6C_90A2;
    assert Xor(0x4A6C_90A2, 0) == 0x4A6C_90A2 && Steps(8, 0x4A6C_90A2) == 0x433A_A9C1;
    hide Update, Steps, Xor;
    Advance(0xBD8F_6515, s, i, 0x2512_5C16);
    Advance(0x2512_5C16, s, i + 1, 0x36DA_32DB);
    Advance(0x36DA_32DB, s, i + 2, 0x4A6C_90A2);
    Advance(0x4A6C_90A2, s, i + 3, 0x433A_A9C1);
  }

  lemma {:induction false} Zeros6(s: seq<byte>, i: nat)
    requires i + 4 <= |s|
    requires s[i] == 0 && s[i + 1] == 0 && s[i + 2] == 0 && s[i + 3] == 0
    ensures Update(0x433A_A9C1, s[i..]) == Update(0x7B04_1311, s[i + 4..])
  {
    assert Xor(0x433A_A9C1, 0) == 0x433A_A9C1 && Steps(8, 0x433A_A9C1) == 0x31A5_9F6E;
    assert Xor(0x31A5_9F6E, 0) == 0x31A5_9F6E && Steps(8, 0x31A5_9F6E) == 0xCD8F_89DA;
    assert Xor(0xCD8F_89DA, 0) == 0xCD8F_89DA && Steps(8, 0xCD8F_89DA) == 0xB8FC_461A;
    assert Xor(0xB8FC_461A, 0) == 0xB8FC_461A && Steps(8, 0xB8FC_461A) == 0x7B04_1311;
    hide Update, Steps, Xor;
    Advance(0x433A_A9C1, s, i, 0x31A5_9F6E);
    Advance(0x31A5_9F6E, s, i + 1, 0xCD8F_89DA);
    Advance(0xCD8F_89DA, s, i + 2, 0xB8FC_461A);
    Advance(0xB8FC_461A, s, i + 3, 0x7B04_1311);
  }

  lemma {:induction false} Zeros7(s: seq<byte>, i: nat)
    requires i + 4 <= |s|
    requires s[i] == 0 && s[i + 1] == 0 && s[i + 2] == 0 && s[i + 3] == 0
    ensures Update(0x7B04_1311, s[i..]) == Update(0x0836_3896, s[i + 4..])
  {
    assert Xor(0x7B04_1311, 0) == 0x7B04_1311 && Steps(8, 0x7B04_1311) == 0xE24E_407F;
    assert Xor(0xE24E_407F, 0) == 0xE24E_407F && Steps(8, 0xE24E_407F) == 0x2F69_2669;
    assert Xor(0x2F69_2669, 0) == 0x2F69_2669 && Steps(8, 0x2F69_2669) == 0x195B_2188;
    assert Xor(0x195B_2188, 0) == 0x195B_2188 && Steps(8, 0x195B_2188) == 0x0836_3896;
    hide Update, Steps, Xor;
    Advance(0x7B04_1311, s, i, 0xE24E_407F);
    Advance(0xE24E_407F, s, i + 1, 0x2F69_2669);
    Advance(0x2F69_2669, s, i + 2, 0x195B_2188);
    Advance(0x195B_2188, s, i + 3, 0x0836_3896);
  }

  lemma {:induction false} Zeros8(s: seq<byte>, i: nat)
    requires i + 4 <= |s|
    requires s[i] == 0 && s[i + 1] == 0 && s[i + 2] == 0 && s[i + 3] == 0
    ensures Update(0x0836_3896, s[i..]) == Update(0x756E_C955, s[i + 4..])
  {
    assert Xor(0x0836_3896, 0) == 0x0836_3896 && Steps(8, 0x0836_3896) == 0xB401_2DC7;
    assert Xor(0xB401_2DC7, 0) == 0xB401_2DC7 && Steps(8, 0xB401_2DC7) == 0x17F3_4302;
    assert Xor(0x17F3_4302, 0) == 0x17F3_4302 && Steps(8, 0x17F3_4302) == 0xE12C_83B4;
    assert Xor(0xE12C_83B4, 0) == 0xE12C_83B4 && Steps(8, 0xE12C_83B4) == 0x756E_C955;
    hide Update, Steps, Xor;
    Advance(0x0836_3896, s, i, 0xB401_2DC7);
    Advance(0xB401_2DC7, s, i + 1, 0x17F3_4302);
    Advance(0x17F3_4302, s, i + 2, 0xE12C_83B4);
    Advance(0xE12C_83B4, s, i + 3, 0x756E_C955);
  }

  lemma {:induction false} FirstZeros(s: seq<byte>)
    requires |s| == 32 && forall i :: 0 <= i < 32 ==> s[i] == 0
    ensures Update(0xFFFF_FFFF, s[0..]) == Update(0xBD8F_6515, s[16..])
  {
    hide Update;
    Zeros1(s, 0);
    Zeros2(s, 4);
    Zeros3(s, 8);
    Zeros4(s, 12);
  }

  /** Thirty-two zero bytes. */
  lemma {:induction false} ZerosValue(s: seq<byte>)
    requires |s| == 32 && forall i :: 0 <= i < 32 ==> s[i] == 0
    ensures Block.Crc(s) == 0x8A91_36AA
  {
    hide Update;
    FirstZeros(s);
    Zeros5(s, 16);
    Zeros6(s, 20);
    Zeros7(s, 24);
    Zeros8(s, 28);
    assert s[0..] == s;
    NothingLeft(0x756E_C955, s[32..]);
  }
}
