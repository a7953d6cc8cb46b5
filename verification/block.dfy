/** The 4096-byte checksummed block. */
module Block {
  import opened Bytes
  import opened Crc32c

  const SIZE := 4096
  const HEADER := 24
  const PAYLOAD_MAX := 4072

  datatype DecodeResult = Ok(lsn: u64, flags: byte, payload: seq<byte>) | ErrCrc | ErrLen

  function Complement(r: bv32): bv32 {
    !r
  }

  /** The CRC-32C of a byte string. */
  function Crc(s: seq<byte>): bv32 {
    Complement(Update(0xFFFF_FFFF, s))
  }

  /** The block checksum, in the four pieces the code runs through the register. */
  function Checksum(blk: seq<byte>, len: nat): bv32
    requires |blk| == SIZE && len <= PAYLOAD_MAX
  {
    Complement(Update(Update(Update(Update(0xFFFF_FFFF, blk[..12]), [0, 0, 0, 0]), blk[16..24]), blk[24..24 + len]))
  }

  /** The bytes a checksum covers: the header with its checksum field zeroed, then the payload. */
  function Covered(blk: seq<byte>, len: nat): seq<byte>
    requires |blk| == SIZE && len <= PAYLOAD_MAX
  {
    blk[..12] + [0, 0, 0, 0] + blk[16..24 + len]
  }

  lemma {:induction false} ChecksumIsCrc(blk: seq<byte>, len: nat)
    requires |blk| == SIZE && len <= PAYLOAD_MAX
    ensures Checksum(blk, len) == Crc(Covered(blk, len))
  {
    hide Update, Complement;
    var r: bv32 := 0xFFFF_FFFF;
    var a, z, b, c := blk[..12], [0, 0, 0, 0], blk[16..24], blk[24..24 + len];
    UpdateConcat(r, a, z);
    UpdateConcat(r, a + z, b);
    UpdateConcat(r, a + z + b, c);
    assert a + z + b + c == Covered(blk, len);
  }

  /** LSN and payload length. */
  function Front(lsn: u64, len: nat): (s: seq<byte>)
    ensures |s| == 12
  {
    LittleEndian(lsn, 8) + LittleEndian(len, 4)
  }

  /** Flags, header padding, payload, and zeros to the end of the block. */
  function Back(flags: byte, payload: seq<byte>): (s: seq<byte>)
    requires |payload| <= PAYLOAD_MAX
    ensures |s| == SIZE - 16
  {
    [flags] + Padding(7) + payload + Padding(PAYLOAD_MAX - |payload|)
  }

  /** The layout of a block with the given checksum field. */
  function Layout(lsn: u64, payload: seq<byte>, flags: byte, crc: nat): (s: seq<byte>)
    requires |payload| <= PAYLOAD_MAX
    ensures |s| == SIZE
  {
    Front(lsn, |payload|) + LittleEndian(crc, 4) + Back(flags, payload)
  }

  function Encoded(lsn: u64, payload: seq<byte>, flags: byte): (s: seq<byte>)
    requires |payload| <= PAYLOAD_MAX
    ensures |s| == SIZE
  {
    Layout(lsn, payload, flags, Checksum(Layout(lsn, payload, flags, 0), |payload|) as int)
  }

  function Decoded(blk: seq<byte>): DecodeResult
    requires |blk| == SIZE
  {
    var len := Number(blk[8..12]);
    if len > PAYLOAD_MAX then ErrLen
    else if Checksum(blk, len) as int != Number(blk[12..16]) then ErrCrc
    else
      NumberBound(blk[..8]);
      Widths();
      Ok(Number(blk[..8]), blk[16], blk[24..24 + len])
  }

  lemma {:induction false} LayoutParts(lsn: u64, payload: seq<byte>, flags: byte, crc: nat)
    requires |payload| <= PAYLOAD_MAX
    ensures var s := Layout(lsn, payload, flags, crc);
            s[..12] == Front(lsn, |payload|) && s[12..16] == LittleEndian(crc, 4) && s[16..] == Back(flags, payload)
  {
    hide Front, Back, LittleEndian;
  }

  lemma {:induction false} FrontFields(lsn: u64, len: nat)
    ensures Front(lsn, len)[..8] == LittleEndian(lsn, 8) && Front(lsn, len)[8..] == LittleEndian(len, 4)
  {
    hide LittleEndian;
  }

  lemma {:induction false} BackFields(flags: byte, payload: seq<byte>)
    requires |payload| <= PAYLOAD_MAX
    ensures Back(flags, payload)[0] == flags && Back(flags, payload)[8..8 + |payload|] == payload
  {
  }

  /** Where the fields of a block are found. */
  lemma {:induction false} LayoutFields(lsn: u64, payload: seq<byte>, flags: byte, crc: nat)
    requires |payload| <= PAYLOAD_MAX
    ensures var s := Layout(lsn, payload, flags, crc);
            && s[..8] == LittleEndian(lsn, 8) && s[8..12] == LittleEndian(|payload|, 4)
            && s[12..16] == LittleEndian(crc, 4) && s[16] == flags && s[24..24 + |payload|] == payload
  {
    hide Front, Back, LittleEndian, Layout;
    var s := Layout(lsn, payload, flags, crc);
    LayoutParts(lsn, payload, flags, crc);
    FrontFields(lsn, |payload|);
    BackFields(flags, payload);
    assert s[..8] == s[..12][..8] && s[8..12] == s[..12][8..];
    assert s[16] == s[16..][0] && s[24..24 + |payload|] == s[16..][8..8 + |payload|];
  }

  /** The checksum does not depend on the checksum field. */
  lemma {:induction false} ChecksumIgnoresField(lsn: u64, payload: seq<byte>, flags: byte, crc: nat)
    requires |payload| <= PAYLOAD_MAX
    ensures Checksum(Layout(lsn, payload, flags, crc), |payload|) == Checksum(Layout(lsn, payload, flags, 0), |payload|)
  {
    hide Front, Back, LittleEndian, Layout, Update, Complement;
    LayoutParts(lsn, payload, flags, crc);
    LayoutParts(lsn, payload, flags, 0);
    var s, t := Layout(lsn, payload, flags, crc), Layout(lsn, payload, flags, 0);
    assert s[16..24] == s[16..][..8] && s[24..24 + |payload|] == s[16..][8..8 + |payload|];
    assert t[16..24] == t[16..][..8] && t[24..24 + |payload|] == t[16..][8..8 + |payload|];
  }

  /** Decoding a block gives back what was encoded. */
  lemma {:induction false} DecodeEncoded(lsn: u64, payload: seq<byte>, flags: byte)
    requires |payload| <= PAYLOAD_MAX
    ensures Decoded(Encoded(lsn, payload, flags)) == Ok(lsn, flags, payload)
  {
    hide Checksum, Layout;
    var blank := Layout(lsn, payload, flags, 0);
    var crc := Checksum(blank, |payload|);
    var blk := Layout(lsn, payload, flags, crc as int);
    LayoutFields(lsn, payload, flags, crc as int);
    Widths();
    LittleEndianRoundTrip(lsn, 8);
    LittleEndianRoundTrip(|payload|, 4);
    LittleEndianRoundTrip(crc as int, 4);
    ChecksumIgnoresField(lsn, payload, flags, crc as int);
  }

  // ----- damage

  /** The two blocks agree outside the window [i, i + w). */
  ghost predicate DifferOnlyIn(blk: seq<byte>, other: seq<byte>, i: nat, w: nat) {
    |blk| == |other| && i + w <= |blk| && other[..i] == blk[..i] && other[i + w..] == blk[i + w..]
  }

  lemma {:induction false} ComplementInjective(a: bv32, b: bv32)
    requires Complement(a) == Complement(b)
    ensures a == b
  {
    hide *;
    ComplementTwice(a, Complement(a));
    ComplementTwice(b, Complement(b));
  }

  lemma {:induction false} ComplementTwice(a: bv32, t: bv32)
    requires t == Complement(a)
    ensures Complement(t) == a
  {
  }

  lemma {:induction false} WordValueInjective(a: bv32, b: bv32)
    requires a as int == b as int
    ensures a == b
  {
    assert (a as int) as bv32 == a && (b as int) as bv32 == b;
  }

  lemma {:induction false} CrcBurst(pre: seq<byte>, s: seq<byte>, t: seq<byte>, post: seq<byte>)
    requires |s| == |t| <= 4 && s != t
    ensures Crc(pre + s + post) as int != Crc(pre + t + post) as int
  {
    hide Update, Complement;
    var a, b := Update(0xFFFF_FFFF, pre + s + post), Update(0xFFFF_FFFF, pre + t + post);
    BurstDetected(0xFFFF_FFFF, pre, s, t, post);
    if Complement(a) as int == Complement(b) as int {
      WordValueInjective(Complement(a), Complement(b));
      ComplementInjective(a, b);
    }
  }

  /** A burst of up to four bytes in the covered stream, at offset i of the stream. */
  lemma {:induction false} StreamBurst(a: seq<byte>, b: seq<byte>, i: nat, w: nat)
    requires DifferOnlyIn(a, b, i, w) && w <= 4 && a != b
    ensures Crc(a) as int != Crc(b) as int
  {
    hide Crc;
    var s, t := a[i..i + w], b[i..i + w];
    assert a == a[..i] + s + a[i + w..] && b == a[..i] + t + a[i + w..];
    CrcBurst(a[..i], s, t, a[i + w..]);
  }

  /** The windows the checksum answers for: within the LSN, within the checksum
      field, or within the flags, padding and payload. */
  ghost predicate Protected(i: nat, w: nat, len: nat) {
    i + w <= 8 || (12 <= i && i + w <= 16) || (16 <= i && i + w <= HEADER + len)
  }

  lemma {:induction false} LsnBurst(blk: seq<byte>, other: seq<byte>, i: nat, w: nat, len: nat)
    requires |blk| == SIZE && len <= PAYLOAD_MAX
    requires DifferOnlyIn(blk, other, i, w) && w <= 4 && other != blk && i + w <= 8
    ensures Checksum(blk, len) as int != Checksum(other, len) as int
  {
    hide Checksum, Crc;
    FieldsUntouched(blk, other, i, w, len);
    ChecksumIsCrc(blk, len);
    ChecksumIsCrc(other, len);
    assert blk == blk[..12] + blk[12..] && other == other[..12] + blk[12..];
    assert other[16..HEADER + len] == blk[16..HEADER + len];
    var a, b := Covered(blk, len), Covered(other, len);
    assert a[..12] == blk[..12] && b[..12] == other[..12];
    assert b[i + w..] == a[i + w..] by {
      assert blk[..12][i + w..] == blk[i + w..][..12 - i - w];
      assert other[..12][i + w..] == other[i + w..][..12 - i - w];
    }
    assert b[..i] == blk[..i] == a[..i];
    StreamBurst(a, b, i, w);
  }

  lemma {:induction false} BodyBurst(blk: seq<byte>, other: seq<byte>, i: nat, w: nat, len: nat)
    requires |blk| == SIZE && len <= PAYLOAD_MAX
    requires DifferOnlyIn(blk, other, i, w) && w <= 4 && other != blk && 16 <= i && i + w <= HEADER + len
    ensures Checksum(blk, len) as int != Checksum(other, len) as int
  {
    hide Checksum, Crc;
    var n := HEADER + len;
    FieldsUntouched(blk, other, i, w, len);
    ChecksumIsCrc(blk, len);
    ChecksumIsCrc(other, len);
    var a, b := Covered(blk, len), Covered(other, len);
    assert blk == blk[..16] + blk[16..n] + blk[n..] && other == blk[..16] + other[16..n] + blk[n..];
    assert a[16..] == blk[16..n] && b[16..] == other[16..n];
    assert b[..i] == a[..i] by {
      assert blk[16..n][..i - 16] == blk[..i][16..] && other[16..n][..i - 16] == other[..i][16..];
    }
    assert b[i + w..] == a[i + w..] by {
      assert blk[16..n][i + w - 16..] == blk[i + w..][..n - i - w];
      assert other[16..n][i + w - 16..] == other[i + w..][..n - i - w];
    }
    StreamBurst(a, b, i, w);
  }

  lemma {:induction false} FieldBurst(blk: seq<byte>, other: seq<byte>, i: nat, w: nat, len: nat)
    requires |blk| == SIZE && len <= PAYLOAD_MAX
    requires DifferOnlyIn(blk, other, i, w) && other != blk && 12 <= i && i + w <= 16
    ensures Checksum(blk, len) == Checksum(other, len)
    ensures Number(blk[12..16]) != Number(other[12..16])
  {
    hide Update, Complement;
    FieldsUntouched(blk, other, i, w, len);
    assert blk == blk[..12] + blk[12..16] + blk[16..] && other == other[..12] + other[12..16] + other[16..];
    if Number(blk[12..16]) == Number(other[12..16]) {
      NumberInjective(blk[12..16], other[12..16]);
    }
    assert other[16..24] == other[16..][..8] && other[24..24 + len] == other[16..][8..8 + len];
    assert blk[16..24] == blk[16..][..8] && blk[24..24 + len] == blk[16..][8..8 + len];
  }

  /** Any change of up to four consecutive protected bytes is reported as a checksum error. */
  lemma {:induction false} BurstReported(blk: seq<byte>, other: seq<byte>, i: nat, w: nat)
    requires |blk| == SIZE && Decoded(blk).Ok?
    requires DifferOnlyIn(blk, other, i, w) && w <= 4 && other != blk
    requires Protected(i, w, |Decoded(blk).payload|)
    ensures Decoded(other) == ErrCrc
  {
    hide Checksum;
    var len := Number(blk[8..12]);
    FieldsUntouched(blk, other, i, w, len);
    if i + w <= 8 {
      LsnBurst(blk, other, i, w, len);
    } else if 16 <= i {
      BodyBurst(blk, other, i, w, len);
    } else {
      FieldBurst(blk, other, i, w, len);
    }
  }

  lemma {:induction false} FieldsUntouched(blk: seq<byte>, other: seq<byte>, i: nat, w: nat, len: nat)
    requires |blk| == SIZE && len <= PAYLOAD_MAX && DifferOnlyIn(blk, other, i, w) && Protected(i, w, len)
    ensures |other| == SIZE && other[8..12] == blk[8..12]
    ensures !(12 <= i && i + w <= 16) ==> other[12..16] == blk[12..16]
    ensures i + w <= 8 ==> other[12..] == blk[12..]
    ensures 12 <= i ==> other[..12] == blk[..12]
    ensures i + w <= 16 ==> other[16..] == blk[16..]
    ensures 16 <= i ==> other[..16] == blk[..16] && other[HEADER + len..] == blk[HEADER + len..]
  {
    assert forall j :: 0 <= j < i || i + w <= j < SIZE ==> other[j] == blk[j] by {
      assert forall j :: 0 <= j < i ==> other[j] == other[..i][j] && blk[j] == blk[..i][j];
      assert forall j :: i + w <= j < SIZE ==>
        other[j] == other[i + w..][j - i - w] && blk[j] == blk[i + w..][j - i - w];
    }
  }

  /** Bytes past the payload are covered by nothing: no change there is ever noticed. */
  lemma {:induction false} PaddingUnprotected(blk: seq<byte>, other: seq<byte>)
    requires |blk| == |other| == SIZE && Decoded(blk).Ok?
    requires other[..HEADER + |Decoded(blk).payload|] == blk[..HEADER + |Decoded(blk).payload|]
    ensures Decoded(other) == Decoded(blk)
  {
    hide Update, Complement;
    var n := HEADER + |Decoded(blk).payload|;
    assert forall j :: 0 <= j < n ==> other[j] == other[..n][j] == blk[..n][j] == blk[j];
    assert other[..8] == blk[..8] && other[8..12] == blk[8..12] && other[12..16] == blk[12..16];
    assert other[..12] == blk[..12] && other[16..24] == blk[16..24] && other[24..n] == blk[24..n];
  }

  /** Overwriting one byte of a good block, outside the length field, is noticed
      exactly when the byte lies before the end of the payload. */
  lemma {:induction false} ByteDamageNoticed(blk: seq<byte>, p: nat, v: byte)
    requires |blk| == SIZE && Decoded(blk).Ok? && p < SIZE && v != blk[p] && !(8 <= p < 12)
    ensures Decoded(blk[p := v]) == ErrCrc <==> p < HEADER + |Decoded(blk).payload|
    ensures p >= HEADER + |Decoded(blk).payload| ==> Decoded(blk[p := v]) == Decoded(blk)
  {
    hide Decoded;
    var other := blk[p := v];
    var len := PayloadLength(blk);
    if p < HEADER + len {
      assert DifferOnlyIn(blk, other, p, 1);
      BurstReported(blk, other, p, 1);
    } else {
      assert other[..HEADER + len] == blk[..HEADER + len];
      PaddingUnprotected(blk, other);
    }
  }

  lemma {:induction false} PayloadLength(blk: seq<byte>) returns (len: nat)
    requires |blk| == SIZE && Decoded(blk).Ok?
    ensures len == |Decoded(blk).payload| <= PAYLOAD_MAX
  {
    len := |Decoded(blk).payload|;
  }

  /** "Any bit flip is detected" does not hold for the whole block: the last byte of a
      block with an empty payload can take any value. */
  lemma {:induction false} UndetectedFlip()
    ensures var blk := Encoded(0, [], 0);
            Decoded(blk[SIZE - 1 := blk[SIZE - 1] ^ 1]) == Decoded(blk) && blk[SIZE - 1 := blk[SIZE - 1] ^ 1] != blk
  {
    var blk := Encoded(0, [], 0);
    var v := blk[SIZE - 1] ^ 1;
    DecodeEncoded(0, [], 0);
    assert v != blk[SIZE - 1];
    ByteDamageNoticed(blk, SIZE - 1, v);
    assert blk[SIZE - 1 := v][SIZE - 1] == v;
  }
}
