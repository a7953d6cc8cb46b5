/** Block encoding and decoding over byte buffers. */
module BlockCodec {
  import opened Bytes
  import Crc32c
  import opened Block

  /** Writes the k low bytes of v at `at`, lowest first. */
  method PutLittleEndian(out: array<byte>, at: nat, v: nat, k: nat)
    requires at + k <= out.Length
    modifies out
    ensures out[..] == old(out[..at]) + LittleEndian(v, k) + old(out[at + k..])
  {
    ghost var full := LittleEndian(v, k);
    var rest := v;
    for i := 0 to k
      invariant out[..at] == old(out[..at]) && out[at + k..] == old(out[at + k..])
      invariant full == out[at..at + i] + LittleEndian(rest, k - i)
    {
      ghost var before := out[at..at + i];
      out[at + i] := (rest % 256) as bv8;
      rest := rest / 256;
      assert out[at..at + i + 1] == before + [out[at + i]];
    }
    assert out[..] == out[..at] + out[at..at + k] + out[at + k..];
  }

  method GetLittleEndian(buf: array<byte>, at: nat, k: nat) returns (v: nat)
    requires at + k <= buf.Length
    ensures v == Number(buf[at..at + k])
  {
    v := 0;
    for i := k downto 0
      invariant v == Number(buf[at + i..at + k])
    {
      v := buf[at + i] as int + 256 * v;
      assert buf[at + i..at + k][1..] == buf[at + i + 1..at + k];
    }
  }

  method BlockChecksum(t: Crc32c.Tables, blk: array<byte>, len: nat) returns (crc: bv32)
    requires t.Valid() && blk.Length == SIZE && len <= PAYLOAD_MAX
    ensures crc == Checksum(blk[..], len)
  {
    hide Crc32c.Update;
    crc := t.Run(0xFFFF_FFFF, blk[..12]);
    crc := t.Run(crc, [0, 0, 0, 0]);
    crc := t.Run(crc, blk[16..24]);
    crc := t.Run(crc, blk[24..24 + len]);
    crc := Complement(crc);
    assert blk[..12] == blk[..][..12] && blk[16..24] == blk[..][16..24] && blk[24..24 + len] == blk[..][24..24 + len];
  }

  /** Fills `out` with the block, or refuses a payload that is too long and leaves `out` alone. */
  method Encode(t: Crc32c.Tables, out: array<byte>, lsn: u64, payload: seq<byte>, flags: byte) returns (ok: bool)
    requires t.Valid() && out.Length == SIZE && out as object != t.tbl
    modifies out
    ensures ok <==> |payload| <= PAYLOAD_MAX
    ensures ok ==> out[..] == Encoded(lsn, payload, flags)
    ensures !ok ==> out[..] == old(out[..])
  {
    if |payload| > PAYLOAD_MAX {
      return false;
    }
    hide Crc32c.Tables.Valid, Checksum;
    FillBlank(out, lsn, payload, flags);
    ghost var blank := out[..];
    var crc := BlockChecksum(t, out, |payload|);
    PutLittleEndian(out, 12, crc as int, 4);
    ReplaceChecksum(lsn, payload, flags, crc as int, blank, out[..]);
    return true;
  }

  /** Everything but the checksum. */
  method FillBlank(out: array<byte>, lsn: u64, payload: seq<byte>, flags: byte)
    requires out.Length == SIZE && |payload| <= PAYLOAD_MAX
    modifies out
    ensures out[..] == Layout(lsn, payload, flags, 0)
  {
    hide Front, Back, LittleEndian;
    forall i | 0 <= i < SIZE { out[i] := 0; }
    FillFront(out, lsn, |payload|);
    assert out[12..16] == out[12..][..4] && out[16..] == out[12..][4..];
    ghost var front := out[..16];
    assert front == out[..12] + out[12..16];
    FillBack(out, payload, flags);
    ZeroField();
    assert out[..] == front + out[16..];
  }

  method FillFront(out: array<byte>, lsn: u64, len: nat)
    requires out.Length == SIZE
    modifies out
    ensures out[..12] == Front(lsn, len) && out[12..] == old(out[12..])
  {
    hide LittleEndian;
    ghost var start := out[..];
    PutLittleEndian(out, 0, lsn, 8);
    ghost var middle := out[..];
    assert middle[..8] == LittleEndian(lsn, 8) && middle[12..] == start[12..];
    PutLittleEndian(out, 8, len, 4);
    assert out[..] == middle[..8] + LittleEndian(len, 4) + middle[12..];
    assert out[..12] == out[..][..12] && out[12..] == out[..][12..];
  }

  method FillBack(out: array<byte>, payload: seq<byte>, flags: byte)
    requires out.Length == SIZE && |payload| <= PAYLOAD_MAX
    requires out[16..] == Padding(SIZE - 16)
    modifies out
    ensures out[16..] == Back(flags, payload) && out[..16] == old(out[..16])
  {
    assert forall i :: 16 <= i < SIZE ==> out[i] == out[16..][i - 16];
    out[16] := flags;
    forall i | 0 <= i < |payload| { out[HEADER + i] := payload[i]; }
    assert out[17..24] == Padding(7);
    assert out[24..24 + |payload|] == payload;
    assert out[24 + |payload|..] == Padding(PAYLOAD_MAX - |payload|);
    assert out[16..] == [out[16]] + out[17..24] + out[24..24 + |payload|] + out[24 + |payload|..];
  }

  lemma {:induction false} ZeroField()
    ensures LittleEndian(0, 4) == [0, 0, 0, 0]
  {
  }

  lemma {:induction false} ReplaceChecksum(lsn: u64, payload: seq<byte>, flags: byte, crc: nat, blank: seq<byte>,
                                           s: seq<byte>)
    requires |payload| <= PAYLOAD_MAX && blank == Layout(lsn, payload, flags, 0)
    requires s == blank[..12] + LittleEndian(crc, 4) + blank[16..]
    ensures s == Layout(lsn, payload, flags, crc)
  {
    hide Front, Back, LittleEndian;
    LayoutParts(lsn, payload, flags, 0);
  }

  method Decode(t: Crc32c.Tables, blk: array<byte>) returns (r: DecodeResult)
    requires t.Valid() && blk.Length == SIZE
    ensures r == Decoded(blk[..])
  {
    hide Checksum;
    assert blk[8..12] == blk[..][8..12] && blk[12..16] == blk[..][12..16] && blk[0..8] == blk[..][..8];
    var len := GetLittleEndian(blk, 8, 4);
    if len > PAYLOAD_MAX {
      return ErrLen;
    }
    var crc := BlockChecksum(t, blk, len);
    var stored := GetLittleEndian(blk, 12, 4);
    if crc as int != stored {
      return ErrCrc;
    }
    var lsn := GetLittleEndian(blk, 0, 8);
    NumberBound(blk[..8]);
    Widths();
    assert blk[24..24 + len] == blk[..][24..24 + len];
    return Ok(lsn, blk[16], blk[24..24 + len]);
  }
}
