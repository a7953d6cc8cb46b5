/** CRC-32C (Castagnoli), reflected, polynomial 0x82F63B78 (section 12.1 of RFC 3720). */
module Crc32c {
  import opened Bytes

  const POLY: bv32 := 0x82F63B78

  function Xor(a: bv32, b: bv32): bv32 {
    a ^ b
  }

  /** One bit of the register. */
  function Step(r: bv32): bv32 {
    (r >> 1) ^ (POLY & (0 - (r & 1)))
  }

  function Steps(n: nat, r: bv32): bv32 {
    if n == 0 then r else Step(Steps(n - 1, r))
  }

  /** The definition: each byte is added to the register, then eight bit steps. */
  function Update(r: bv32, s: seq<byte>): bv32
    decreases |s|
  {
    if |s| == 0 then r else Update(Steps(8, Xor(r, s[0] as bv32)), s[1..])
  }

  // ----- the register is linear and loses nothing

  lemma {:induction false} XorComm(a: bv32, b: bv32)
    ensures Xor(a, b) == Xor(b, a)
  {
  }

  lemma {:induction false} XorUnit(a: bv32)
    ensures Xor(a, 0) == a && Xor(0, a) == a && Xor(a, a) == 0
  {
  }

  lemma {:induction false} XorUnfold(a: bv32, b: bv32, c: bv32, t: bv32)
    ensures t == a ^ b ==> Xor(t, c) == (a ^ b) ^ c
    ensures t == b ^ c ==> Xor(a, t) == a ^ (b ^ c)
  {
  }

  lemma {:induction false} XorAssoc(a: bv32, b: bv32, c: bv32)
    ensures Xor(Xor(a, b), c) == Xor(a, Xor(b, c))
  {
    XorUnfold(a, b, c, Xor(a, b));
    XorUnfold(a, b, c, Xor(b, c));
    assert (a ^ b) ^ c == a ^ (b ^ c);
  }

  lemma {:induction false} StepCases(r: bv32)
    ensures r & 1 == 0 || r & 1 == 1
    ensures r & 1 == 0 ==> Step(r) == r >> 1
    ensures r & 1 == 1 ==> Step(r) == (r >> 1) ^ POLY
  {
    if r & 1 == 1 {
      assert 0 - (r & 1) == 0xFFFF_FFFF;
    }
  }

  lemma {:induction false} StepXor(a: bv32, b: bv32)
    ensures Step(Xor(a, b)) == Xor(Step(a), Step(b))
  {
    hide Step;
    StepCases(a); StepCases(b); StepCases(a ^ b);
    assert (a ^ b) & 1 == (a & 1) ^ (b & 1);
    assert (a ^ b) >> 1 == (a >> 1) ^ (b >> 1);
    if a & 1 == 1 {
      if b & 1 == 1 {
      }
    }
  }

  lemma {:induction false} StepKernel(r: bv32)
    requires Step(r) == 0
    ensures r == 0
  {
    hide Step;
    StepCases(r);
  }

  lemma {:induction false} StepsXor(n: nat, a: bv32, b: bv32)
    ensures Steps(n, Xor(a, b)) == Xor(Steps(n, a), Steps(n, b))
  {
    hide Xor, Step;
    if n > 0 {
      StepsXor(n - 1, a, b);
      StepXor(Steps(n - 1, a), Steps(n - 1, b));
    }
  }

  lemma {:induction false} StepsAdd(m: nat, n: nat, r: bv32)
    ensures Steps(m + n, r) == Steps(m, Steps(n, r))
  {
    hide Step;
    if m > 0 { StepsAdd(m - 1, n, r); }
  }

  lemma {:induction false} StepsKernel(n: nat, r: bv32)
    requires Steps(n, r) == 0
    ensures r == 0
  {
    hide Step;
    if n > 0 {
      StepKernel(Steps(n - 1, r));
      StepsKernel(n - 1, r);
    }
  }

  lemma {:induction false} StepsInjective(n: nat, a: bv32, b: bv32)
    requires Steps(n, a) == Steps(n, b)
    ensures a == b
  {
    hide Step, Steps, Xor;
    StepsXor(n, a, b);
    XorUnit(Steps(n, a));
    StepsKernel(n, Xor(a, b));
    XorIsZero(a, b);
  }

  lemma {:induction false} XorIsZero(a: bv32, b: bv32)
    ensures Xor(a, b) == 0 <==> a == b
  {
  }

  // ----- whole bytes

  lemma {:induction false} EvenStep(x: bv32)
    requires x & 1 == 0
    ensures Step(x) == x >> 1
  {
  }

  lemma {:induction false} PeelOne(n: nat, x: bv32)
    requires n >= 1 && x & 1 == 0
    ensures Steps(n, x) == Steps(n - 1, x >> 1)
  {
    hide Step;
    EvenStep(x);
    StepsAdd(n - 1, 1, x);
    assert Steps(1, x) == Step(Steps(0, x));
  }

  lemma {:induction false} PeelTwo(n: nat, x: bv32)
    requires n >= 2 && x & 3 == 0
    ensures Steps(n, x) == Steps(n - 2, x >> 2)
  {
    hide *;
    assert x & 1 == 0 && (x >> 1) & 1 == 0 && (x >> 1) >> 1 == x >> 2;
    PeelOne(n, x);
    PeelOne(n - 1, x >> 1);
  }

  lemma {:induction false} PeelFour(n: nat, x: bv32)
    requires n >= 4 && x & 0xF == 0
    ensures Steps(n, x) == Steps(n - 4, x >> 4)
  {
    hide *;
    assert x & 3 == 0 && (x >> 2) & 3 == 0 && (x >> 2) >> 2 == x >> 4;
    PeelTwo(n, x);
    PeelTwo(n - 2, x >> 2);
  }

  /** Eight zero low bits are shifted out unchanged. */
  lemma {:induction false} PeelByte(n: nat, x: bv32)
    requires n >= 8 && x & 0xFF == 0
    ensures Steps(n, x) == Steps(n - 8, x >> 8)
  {
    hide *;
    assert x & 0xF == 0 && (x >> 4) & 0xF == 0 && (x >> 4) >> 4 == x >> 8;
    PeelFour(n, x);
    PeelFour(n - 4, x >> 4);
  }

  lemma {:induction false} ZeroSteps(r: bv32)
    ensures Steps(0, r) == r
  {
  }

  lemma {:induction false} HighAndLow(r: bv32)
    ensures Xor(r & 0xFFFF_FF00, r & 0xFF) == r
    ensures (r & 0xFFFF_FF00) & 0xFF == 0 && (r & 0xFFFF_FF00) >> 8 == r >> 8
  {
  }

  /** The low byte can be handled apart from the rest: what every table lookup relies on. */
  lemma {:induction false} SplitLowByte(n: nat, r: bv32)
    requires n >= 8
    ensures Steps(n, r) == Xor(Steps(n - 8, r >> 8), Steps(n, r & 0xFF))
  {
    hide *;
    HighAndLow(r);
    var hi := r & 0xFFFF_FF00;
    StepsXor(n, hi, r & 0xFF);
    PeelByte(n, hi);
  }

  // ----- the definition, several bytes at a time

  lemma {:induction false} UpdateConcat(r: bv32, s: seq<byte>, t: seq<byte>)
    ensures Update(r, s + t) == Update(Update(r, s), t)
    decreases |s|
  {
    hide Xor, Steps;
    if |s| == 0 {
      assert s + t == t;
    } else {
      assert (s + t)[1..] == s[1..] + t;
      UpdateConcat(Steps(8, Xor(r, s[0] as bv32)), s[1..], t);
    }
  }

  /** A byte below a word. */
  function Cons(b: byte, w: bv32): bv32 {
    Xor(b as bv32, w << 8)
  }

  /** Up to four bytes as a little-endian word. */
  function Word(s: seq<byte>): bv32
    requires |s| <= 4
  {
    if |s| == 0 then 0 else Cons(s[0], Word(s[1..]))
  }

  lemma {:induction false} ConsSmall(b: byte, w: bv32)
    ensures w & 0xFFFF_0000 == 0 ==> Cons(b, w) & 0xFF00_0000 == 0
    ensures w & 0xFFFF_FF00 == 0 ==> Cons(b, w) & 0xFFFF_0000 == 0
    ensures w == 0 ==> Cons(b, w) & 0xFFFF_FF00 == 0
  {
  }

  lemma {:induction false} WordSmall(s: seq<byte>)
    requires |s| <= 3
    ensures Word(s) & 0xFF00_0000 == 0
    ensures |s| <= 2 ==> Word(s) & 0xFFFF_0000 == 0
    ensures |s| <= 1 ==> Word(s) & 0xFFFF_FF00 == 0
    ensures |s| <= 0 ==> Word(s) == 0
  {
    hide Cons;
    if |s| > 0 {
      WordSmall(s[1..]);
      ConsSmall(s[0], Word(s[1..]));
    }
  }

  /** Adding up to four bytes one by one is adding their word at once. */
  lemma {:induction false} UpdateWord(r: bv32, s: seq<byte>)
    requires |s| <= 4
    ensures Update(r, s) == Steps(8 * |s|, Xor(r, Word(s)))
    decreases |s|
  {
    hide Xor, Step, Steps;
    if |s| == 0 {
      XorUnit(r); ZeroSteps(r);
    } else {
      var b, w, n := s[0] as bv32, Word(s[1..]), |s| - 1;
      var r' := Steps(8, Xor(r, b));
      UpdateWord(r', s[1..]);
      WordSmall(s[1..]);
      ShiftUp(w);
      assert Word(s) == Xor(b, w << 8);
      StepsXor(8, Xor(r, b), w << 8);
      XorAssoc(r, b, w << 8);
      StepsAdd(8 * n, 8, Xor(r, Word(s)));
    }
  }

  lemma {:induction false} ShiftedUp(w: bv32)
    requires w & 0xFF00_0000 == 0
    ensures (w << 8) & 0xFF == 0 && (w << 8) >> 8 == w
  {
  }

  lemma {:induction false} ShiftUp(w: bv32)
    requires w & 0xFF00_0000 == 0
    ensures Steps(8, w << 8) == w
  {
    hide *;
    ShiftedUp(w);
    PeelByte(8, w << 8);
    ZeroSteps(w);
  }

  lemma {:induction false} ByteWidening(a: byte, b: byte)
    requires a as bv32 == b as bv32
    ensures a == b
  {
  }

  lemma {:induction false} ConsInjective(b: byte, w: bv32, c: byte, v: bv32)
    requires w & 0xFF00_0000 == 0 && v & 0xFF00_0000 == 0
    requires Cons(b, w) == Cons(c, v)
    ensures b == c && w == v
  {
    WordParts(b, w);
    WordParts(c, v);
    ByteWidening(b, c);
  }

  lemma {:induction false} WordInjective(s: seq<byte>, t: seq<byte>)
    requires |s| == |t| <= 4 && Word(s) == Word(t)
    ensures s == t
    decreases |s|
  {
    hide Cons;
    if |s| > 0 {
      WordSmall(s[1..]); WordSmall(t[1..]);
      ConsInjective(s[0], Word(s[1..]), t[0], Word(t[1..]));
      WordInjective(s[1..], t[1..]);
      assert s == [s[0]] + s[1..] && t == [t[0]] + t[1..];
    }
  }

  lemma {:induction false} WordParts(b: byte, w: bv32)
    requires w & 0xFF00_0000 == 0
    ensures Xor(b as bv32, w << 8) & 0xFF == b as bv32
    ensures Xor(b as bv32, w << 8) >> 8 == w
  {
  }

  // ----- bursts

  lemma {:induction false} UpdateInjective(a: bv32, b: bv32, s: seq<byte>)
    requires Update(a, s) == Update(b, s)
    ensures a == b
    decreases |s|
  {
    hide Xor, Steps;
    if |s| > 0 {
      var c := s[0] as bv32;
      UpdateInjective(Steps(8, Xor(a, c)), Steps(8, Xor(b, c)), s[1..]);
      StepsInjective(8, Xor(a, c), Xor(b, c));
      XorCancels(a, b, c);
    }
  }

  lemma {:induction false} XorCancels(a: bv32, b: bv32, c: bv32)
    ensures Xor(a, c) == Xor(b, c) ==> a == b
    ensures Xor(c, a) == Xor(c, b) ==> a == b
  {
    hide *;
    XorAssoc(a, c, c); XorAssoc(b, c, c); XorUnit(c); XorUnit(a); XorUnit(b); XorComm(a, c); XorComm(b, c);
  }

  /** Two inputs that differ only within a window of at most four bytes never share a checksum. */
  lemma {:induction false} BurstDetected(r: bv32, pre: seq<byte>, s: seq<byte>, t: seq<byte>, post: seq<byte>)
    requires |s| == |t| <= 4 && s != t
    ensures Update(r, pre + s + post) != Update(r, pre + t + post)
  {
    hide *;
    var a := Update(r, pre);
    UpdateConcat(r, pre, s); UpdateConcat(r, pre + s, post);
    UpdateConcat(r, pre, t); UpdateConcat(r, pre + t, post);
    if Update(r, pre + s + post) == Update(r, pre + t + post) {
      UpdateInjective(Update(a, s), Update(a, t), post);
      UpdateWord(a, s); UpdateWord(a, t);
      StepsInjective(8 * |s|, Xor(a, Word(s)), Xor(a, Word(t)));
      XorCancels(Word(s), Word(t), a);
      WordInjective(s, t);
    }
  }

  // ----- slicing by eight

  lemma {:induction false} SplitSecond(n: nat, w: bv32)
    requires n >= 8
    ensures Steps(n, w >> 8) == Xor(Steps(n - 8, w >> 16), Steps(n, (w >> 8) & 0xFF))
  {
    hide *;
    SplitLowByte(n, w >> 8);
    assert (w >> 8) >> 8 == w >> 16;
  }

  lemma {:induction false} SplitThird(n: nat, w: bv32)
    requires n >= 8
    ensures Steps(n, w >> 16) == Xor(Steps(n - 8, w >> 24), Steps(n, (w >> 16) & 0xFF))
  {
    hide *;
    SplitLowByte(n, w >> 16);
    assert (w >> 16) >> 8 == w >> 24;
  }

  lemma {:induction false} Reassociate(x: bv32, y: bv32, z: bv32, p: bv32, q: bv32, r: bv32, s: bv32)
    requires x == Xor(y, p) && y == Xor(z, q) && z == Xor(s, r)
    ensures x == Xor(Xor(Xor(p, q), r), s)
  {
    hide *;
    XorComm(s, r); XorComm(z, q); XorAssoc(q, r, s); XorComm(y, p);
    XorAssoc(p, Xor(q, r), s); XorAssoc(p, q, r);
  }

  /** A register, byte by byte. */
  lemma {:induction false} SplitWord(n: nat, w: bv32)
    requires n >= 32
    ensures Steps(n, w) ==
            Xor(Xor(Xor(Steps(n, w & 0xFF), Steps(n - 8, (w >> 8) & 0xFF)), Steps(n - 16, (w >> 16) & 0xFF)),
                Steps(n - 24, w >> 24))
  {
    hide *;
    SplitLowByte(n, w);
    SplitSecond(n - 8, w);
    SplitThird(n - 16, w);
    Reassociate(Steps(n, w), Steps(n - 8, w >> 8), Steps(n - 16, w >> 16),
                Steps(n, w & 0xFF), Steps(n - 8, (w >> 8) & 0xFF), Steps(n - 16, (w >> 16) & 0xFF),
                  Steps(n - 24, w >> 24));
  }

  lemma {:induction false} UpdateEight(r: bv32, s: seq<byte>)
    requires |s| == 8
    ensures Update(r, s) == Xor(Steps(64, Xor(r, Word(s[..4]))), Steps(32, Word(s[4..])))
  {
    hide *;
    assert s == s[..4] + s[4..];
    UpdateConcat(r, s[..4], s[4..]);
    UpdateWord(r, s[..4]);
    var a := Steps(32, Xor(r, Word(s[..4])));
    UpdateWord(a, s[4..]);
    StepsXor(32, a, Word(s[4..]));
    StepsAdd(32, 32, Xor(r, Word(s[..4])));
  }

  function Pack4(a: byte, b: byte, c: byte, d: byte): bv32 {
    (a as bv32) | (b as bv32 << 8) | (c as bv32 << 16) | (d as bv32 << 24)
  }

  /** The register added to the low half of eight input bytes, read as a little-endian word. */
  function Mix(crc: bv32, a: byte, b: byte, c: byte, d: byte, e: byte, f: byte, g: byte, h: byte): bv64 {
    (crc as bv64) ^
    ((a as bv64) | (b as bv64 << 8) | (c as bv64 << 16) | (d as bv64 << 24) |
     (e as bv64 << 32) | (f as bv64 << 40) | (g as bv64 << 48) | (h as bv64 << 56))
  }

  function Load(crc: bv32, s: seq<byte>): bv64
    requires |s| == 8
  {
    Mix(crc, s[0], s[1], s[2], s[3], s[4], s[5], s[6], s[7])
  }

  lemma {:induction false} WordUnfold(b: byte, s: seq<byte>)
    requires |s| <= 3
    ensures Word([b] + s) == Cons(b, Word(s)) && Word([]) == 0
  {
    hide Cons;
    assert ([b] + s)[1..] == s;
  }

  lemma {:induction false} ConsExplicit(a: byte, b: byte, c: byte, d: byte, w: bv32)
    ensures w == 0 ==> Cons(d, w) == d as bv32
    ensures w == d as bv32 ==> Cons(c, w) == (c as bv32) | (d as bv32 << 8)
    ensures w == (c as bv32) | (d as bv32 << 8) ==> Cons(b, w) == (b as bv32) | (c as bv32 << 8) | (d as bv32 << 16)
    ensures w == (b as bv32) | (c as bv32 << 8) | (d as bv32 << 16) ==>
            Cons(a, w) == Pack4(a, b, c, d)
  {
  }

  lemma {:induction false} WordExplicit(a: byte, b: byte, c: byte, d: byte)
    ensures Word([a, b, c, d]) == Pack4(a, b, c, d)
  {
    hide *;
    WordUnfold(d, []); WordUnfold(c, [d]); WordUnfold(b, [c, d]); WordUnfold(a, [b, c, d]);
    assert [d] + [] == [d] && [c] + [d] == [c, d] && [b] + [c, d] == [b, c, d] && [a] + [b, c, d] == [a, b, c, d];
    ConsExplicit(a, b, c, d, Word([]));
    ConsExplicit(a, b, c, d, Word([d]));
    ConsExplicit(a, b, c, d, Word([c, d]));
    ConsExplicit(a, b, c, d, Word([b, c, d]));
  }

  function Low(c: bv64): bv32 {
    (c & 0xFFFF_FFFF) as bv32
  }

  function High(c: bv64): bv32 {
    (c >> 32) as bv32
  }

  lemma {:induction false} Halves(crc: bv32, a: byte, b: byte, c: byte, d: byte, e: byte, f: byte, g: byte, h: byte,
                                  x: bv64)
    requires x == (crc as bv64) ^ ((a as bv64) | (b as bv64 << 8) | (c as bv64 << 16) | (d as bv64 << 24) |
             (e as bv64 << 32) | (f as bv64 << 40) | (g as bv64 << 48) | (h as bv64 << 56))
    ensures Low(x) == crc ^ ((a as bv32) | (b as bv32 << 8) | (c as bv32 << 16) | (d as bv32 << 24))
    ensures High(x) == (e as bv32) | (f as bv32 << 8) | (g as bv32 << 16) | (h as bv32 << 24)
  {
  }

  lemma {:induction false} XorOfPacked(crc: bv32, a: byte, b: byte, c: byte, d: byte, w: bv32)
    requires w == (a as bv32) | (b as bv32 << 8) | (c as bv32 << 16) | (d as bv32 << 24)
    ensures Xor(crc, w) == crc ^ ((a as bv32) | (b as bv32 << 8) | (c as bv32 << 16) | (d as bv32 << 24))
  {
  }

  lemma {:induction false} MixHalves(crc: bv32, a: byte, b: byte, c: byte, d: byte, e: byte, f: byte, g: byte, h: byte)
    ensures Low(Mix(crc, a, b, c, d, e, f, g, h)) ==
      crc ^ ((a as bv32) | (b as bv32 << 8) | (c as bv32 << 16) | (d as bv32 << 24))
    ensures High(Mix(crc, a, b, c, d, e, f, g, h)) ==
      (e as bv32) | (f as bv32 << 8) | (g as bv32 << 16) | (h as bv32 << 24)
  {
    hide Low, High;
    Halves(crc, a, b, c, d, e, f, g, h, Mix(crc, a, b, c, d, e, f, g, h));
  }

  lemma {:induction false} XorPack(crc: bv32, a: byte, b: byte, c: byte, d: byte)
    ensures Xor(crc, Pack4(a, b, c, d)) ==
      crc ^ ((a as bv32) | (b as bv32 << 8) | (c as bv32 << 16) | (d as bv32 << 24))
  {
    hide Xor;
    XorOfPacked(crc, a, b, c, d, Pack4(a, b, c, d));
  }

  lemma {:induction false} LowOfMix(crc: bv32, a: byte, b: byte, c: byte, d: byte, e: byte, f: byte, g: byte, h: byte)
    ensures Low(Mix(crc, a, b, c, d, e, f, g, h)) == Xor(crc, Pack4(a, b, c, d))
  {
    hide *;
    MixHalves(crc, a, b, c, d, e, f, g, h);
    XorPack(crc, a, b, c, d);
  }

  lemma {:induction false} HighOfMix(crc: bv32, a: byte, b: byte, c: byte, d: byte, e: byte, f: byte, g: byte, h: byte)
    ensures High(Mix(crc, a, b, c, d, e, f, g, h)) == Pack4(e, f, g, h)
  {
    MixHalves(crc, a, b, c, d, e, f, g, h);
    hide Mix, High;
  }

  lemma {:induction false} LoadHalves(crc: bv32, s: seq<byte>)
    requires |s| == 8
    ensures Low(Load(crc, s)) == Xor(crc, Word(s[..4]))
    ensures High(Load(crc, s)) == Word(s[4..])
  {
    hide Word, Xor, Low, High, Mix, Pack4;
    WordExplicit(s[0], s[1], s[2], s[3]);
    WordExplicit(s[4], s[5], s[6], s[7]);
    assert s[..4] == [s[0], s[1], s[2], s[3]] && s[4..] == [s[4], s[5], s[6], s[7]];
    LowOfMix(crc, s[0], s[1], s[2], s[3], s[4], s[5], s[6], s[7]);
    HighOfMix(crc, s[0], s[1], s[2], s[3], s[4], s[5], s[6], s[7]);
  }

  lemma {:induction false} BytesOfLow(c: bv64)
    ensures (c & 0xFF) as bv32 == Low(c) & 0xFF && ((c >> 8) & 0xFF) as bv32 == (Low(c) >> 8) & 0xFF
    ensures ((c >> 16) & 0xFF) as bv32 == (Low(c) >> 16) & 0xFF && ((c >> 24) & 0xFF) as bv32 == Low(c) >> 24
  {
  }

  lemma {:induction false} BytesOfHigh(c: bv64)
    ensures ((c >> 32) & 0xFF) as bv32 == High(c) & 0xFF && ((c >> 40) & 0xFF) as bv32 == (High(c) >> 8) & 0xFF
    ensures ((c >> 48) & 0xFF) as bv32 == (High(c) >> 16) & 0xFF && ((c >> 56) & 0xFF) as bv32 == High(c) >> 24
  {
  }

  lemma {:induction false} SliceLow(c: bv64)
    ensures Steps(64, Low(c)) ==
      Xor(Xor(Xor(Steps(64, (c & 0xFF) as bv32), Steps(56, ((c >> 8) & 0xFF) as bv32)),
                  Steps(48, ((c >> 16) & 0xFF) as bv32)), Steps(40, ((c >> 24) & 0xFF) as bv32))
  {
    hide *;
    SplitWord(64, Low(c));
    BytesOfLow(c);
  }

  lemma {:induction false} SliceHigh(c: bv64)
    ensures Steps(32, High(c)) ==
      Xor(Xor(Xor(Steps(32, ((c >> 32) & 0xFF) as bv32), Steps(24, ((c >> 40) & 0xFF) as bv32)),
                  Steps(16, ((c >> 48) & 0xFF) as bv32)), Steps(8, ((c >> 56) & 0xFF) as bv32))
  {
    hide *;
    SplitWord(32, High(c));
    BytesOfHigh(c);
  }

  /** The eight lookups of one slicing step. */
  lemma {:induction false} SliceStep(crc: bv32, s: seq<byte>, c: bv64)
    requires |s| == 8 && c == Load(crc, s)
    ensures Update(crc, s) ==
      Xor(Xor(Xor(Xor(Steps(64, (c & 0xFF) as bv32), Steps(56, ((c >> 8) & 0xFF) as bv32)),
                      Steps(48, ((c >> 16) & 0xFF) as bv32)), Steps(40, ((c >> 24) & 0xFF) as bv32)),
          Xor(Xor(Xor(Steps(32, ((c >> 32) & 0xFF) as bv32), Steps(24, ((c >> 40) & 0xFF) as bv32)),
                      Steps(16, ((c >> 48) & 0xFF) as bv32)), Steps(8, ((c >> 56) & 0xFF) as bv32)))
  {
    hide *;
    LoadHalves(crc, s);
    UpdateEight(crc, s);
    SliceLow(c);
    SliceHigh(c);
  }

  /** tbl[k, b] is the register b after k + 1 zero bytes. */
  class Tables {
    const tbl: array2<bv32>

    function At(k: nat, b: byte): bv32
      requires k < 8 && tbl.Length0 == 8 && tbl.Length1 == 256
      reads tbl
    {
      tbl[k, b as int]
    }

    ghost predicate Valid()
      reads tbl
    {
      && tbl.Length0 == 8 && tbl.Length1 == 256
      && forall k: nat, b: byte :: k < 8 ==> At(k, b) == Steps(8 * k + 8, b as bv32)
    }

    method SetEntry(k: nat, b: byte, v: bv32)
      requires k < 8 && tbl.Length0 == 8 && tbl.Length1 == 256
      modifies tbl
      ensures forall j: nat, c: byte :: j < 8 ==> At(j, c) == if j == k && c == b then v else old(At(j, c))
    {
      tbl[k, b as int] := v;
    }

    constructor ()
      ensures Valid() && fresh(tbl)
    {
      tbl := new bv32[8, 256];
      new;
      FillFirst();
      for k := 1 to 8
        invariant fresh(tbl)
        invariant forall j: nat, b: byte :: j < k ==> At(j, b) == Steps(8 * j + 8, b as bv32)
      {
        FillNext(k);
      }
    }

    /** Bit by bit, for every byte. */
    method FillFirst()
      requires tbl.Length0 == 8 && tbl.Length1 == 256
      modifies tbl
      ensures forall b: byte :: At(0, b) == Steps(8 * 0 + 8, b as bv32)
    {
      hide Steps, Step, At;
      for i := 0 to 256
        invariant forall b: byte :: b as int < i ==> At(0, b) == Steps(8 * 0 + 8, b as bv32)
      {
        var byteValue := i as bv8;
        ByteRoundTrip(i);
        var r := BitByBit(byteValue as bv32);
        SetEntry(0, byteValue, r);
        forall b: byte | b as int < i + 1 ensures At(0, b) == Steps(8 * 0 + 8, b as bv32) {
          if b as int == i { ByteOfValue(b, i); }
        }
      }
    }

    static method BitByBit(start: bv32) returns (r: bv32)
      ensures r == Steps(8, start)
    {
      r := start;
      for k := 0 to 8
        invariant r == Steps(k, start)
      {
        r := (r >> 1) ^ (POLY & (0 - (r & 1)));
      }
    }

    /** Each further table advances the one before by a zero byte. */
    method FillNext(k: nat)
      requires 1 <= k < 8 && tbl.Length0 == 8 && tbl.Length1 == 256
      requires forall j: nat, b: byte :: j < k ==> At(j, b) == Steps(8 * j + 8, b as bv32)
      modifies tbl
      ensures forall j: nat, b: byte :: j <= k ==> At(j, b) == Steps(8 * j + 8, b as bv32)
    {
      hide Steps, Step, At;
      for i := 0 to 256
        invariant forall j: nat, b: byte :: j < k ==> At(j, b) == Steps(8 * j + 8, b as bv32)
        invariant forall b: byte :: b as int < i ==> At(k, b) == Steps(8 * k + 8, b as bv32)
      {
        var byteValue := i as bv8;
        ByteRoundTrip(i);
        var r := At(k - 1, byteValue);
        var v := Xor(r >> 8, At(0, (r & 0xFF) as bv8));
        assert At(k - 1, byteValue) == Steps(8 * (k - 1) + 8, byteValue as bv32) &&
          At(0, (r & 0xFF) as bv8) == Steps(8 * 0 + 8, ((r & 0xFF) as bv8) as bv32);
        AdvanceByte(r, (r & 0xFF) as bv8);
        StepsAdd(8, 8 * (k - 1) + 8, byteValue as bv32);
        SetEntry(k, byteValue, v);
        forall b: byte | b as int < i + 1 ensures At(k, b) == Steps(8 * k + 8, b as bv32) {
          if b as int == i { ByteOfValue(b, i); }
        }
      }
    }

    /** The slicing loop with its byte-at-a-time tail computes the definition. */
    method Run(crc0: bv32, buf: seq<byte>) returns (crc: bv32)
      requires Valid()
      ensures crc == Update(crc0, buf)
    {
      hide *;
      crc := crc0;
      var pos := 0;
      while |buf| - pos >= 8
        invariant 0 <= pos <= |buf| && Update(crc, buf[pos..]) == Update(crc0, buf)
      {
        UpdateConcat(crc, buf[pos..pos + 8], buf[pos + 8..]);
        assert buf[pos..] == buf[pos..pos + 8] + buf[pos + 8..];
        crc := Slice(crc, buf[pos..pos + 8]);
        pos := pos + 8;
      }
      while pos < |buf|
        invariant 0 <= pos <= |buf| && Update(crc, buf[pos..]) == Update(crc0, buf)
      {
        UpdateConcat(crc, [buf[pos]], buf[pos + 1..]);
        assert buf[pos..] == [buf[pos]] + buf[pos + 1..];
        crc := OneByte(crc, buf[pos]);
        pos := pos + 1;
      }
      UpdateNothing(crc, buf[pos..]);
    }

    method Slice(crc: bv32, s: seq<byte>) returns (r: bv32)
      requires Valid() && |s| == 8
      ensures r == Update(crc, s)
    {
      var c := Load(crc, s);
      hide *;
      SliceStep(crc, s, c);
      LookupEntry(7, c & 0xFF); LookupEntry(6, (c >> 8) & 0xFF);
      LookupEntry(5, (c >> 16) & 0xFF); LookupEntry(4, (c >> 24) & 0xFF);
      LookupEntry(3, (c >> 32) & 0xFF); LookupEntry(2, (c >> 40) & 0xFF);
      LookupEntry(1, (c >> 48) & 0xFF); LookupEntry(0, (c >> 56) & 0xFF);
      r := Xor(Xor(Xor(Xor(Lookup(7, c & 0xFF), Lookup(6, (c >> 8) & 0xFF)),
                       Lookup(5, (c >> 16) & 0xFF)), Lookup(4, (c >> 24) & 0xFF)),
               Xor(Xor(Xor(Lookup(3, (c >> 32) & 0xFF), Lookup(2, (c >> 40) & 0xFF)),
                       Lookup(1, (c >> 48) & 0xFF)), Lookup(0, (c >> 56) & 0xFF)));
    }

    function Lookup(k: nat, x: bv64): bv32
      requires k < 8 && tbl.Length0 == 8 && tbl.Length1 == 256 && x <= 0xFF
      reads tbl
    {
      At(k, x as bv8)
    }

    lemma {:induction false} LookupEntry(k: nat, x: bv64)
      requires Valid() && k < 8 && x <= 0xFF
      ensures Lookup(k, x) == Steps(8 * k + 8, x as bv32)
    {
      hide At, Steps;
      assert (x as bv8) as bv32 == x as bv32;
      var b := x as bv8;
      assert At(k, b) == Steps(8 * k + 8, b as bv32);
    }

    lemma {:induction false} FirstEntry(b: byte)
      requires Valid()
      ensures At(0, b) == Steps(8, b as bv32)
    {
      hide At, Steps;
    }

    method OneByte(crc: bv32, b: byte) returns (r: bv32)
      requires Valid()
      ensures r == Update(crc, [b])
    {
      hide Update, Steps, Xor, At;
      var x := Xor(crc, b as bv32);
      var low := (x & 0xFF) as bv8;
      FirstEntry(low);
      hide *;
      r := Xor(At(0, low), crc >> 8);
      OneByteStep(crc, b, low);
    }
  }

  lemma {:induction false} OneByteStep(crc: bv32, b: byte, low: byte)
    requires low == (Xor(crc, b as bv32) & 0xFF) as bv8
    ensures Xor(Steps(8, low as bv32), crc >> 8) == Update(crc, [b])
  {
    hide *;
    AdvanceByte(Xor(crc, b as bv32), low);
    UpdateOne(crc, b);
    HighUntouched(crc, b);
    XorComm(Steps(8, low as bv32), crc >> 8);
  }

  lemma {:induction false} AdvanceByte(r: bv32, low: byte)
    requires low == (r & 0xFF) as bv8
    ensures Xor(r >> 8, Steps(8, low as bv32)) == Steps(8, r)
  {
    hide Steps, Xor;
    SplitLowByte(8, r);
    ZeroSteps(r >> 8);
    LowByteWidened(r);
  }

  lemma {:induction false} LowByteWidened(r: bv32)
    ensures ((r & 0xFF) as bv8) as bv32 == r & 0xFF
  {
  }

  lemma {:induction false} UpdateNothing(r: bv32, s: seq<byte>)
    ensures |s| == 0 ==> Update(r, s) == r
  {
  }

  lemma {:induction false} UpdateOne(r: bv32, b: byte)
    ensures Update(r, [b]) == Steps(8, Xor(r, b as bv32))
  {
    hide Steps, Xor;
    UpdateNothing(Steps(8, Xor(r, b as bv32)), [b][1..]);
  }

  lemma {:induction false} HighUntouched(crc: bv32, b: byte)
    ensures Xor(crc, b as bv32) >> 8 == crc >> 8
  {
  }
}
