/** The bytes on disk, field by field: where each number of a block or a record is, how wide it is, and what it says. */
module Format {
  import opened Bytes
  import opened Records
  import Block
  import RecordCodec
  import Wal

  // ----- numbers

  function Digit(v: nat, i: nat): nat
    decreases i
  {
    if i == 0 then v % 256 else Digit(v / 256, i - 1)
  }

  /** The bytes are the number, lowest first. */
  ghost predicate Little(s: seq<byte>, v: nat) {
    forall i :: 0 <= i < |s| ==> s[i] as int == Digit(v, i)
  }

  lemma {:induction false} LittleEndianIs(v: nat, k: nat)
    ensures Little(LittleEndian(v, k), v)
    decreases k
  {
    if k > 0 {
      LittleEndianIs(v / 256, k - 1);
      ByteRoundTrip(v % 256);
      var s := LittleEndian(v, k);
      forall i | 0 <= i < k ensures s[i] as int == Digit(v, i) {
        if i > 0 { assert s[i] == LittleEndian(v / 256, k - 1)[i - 1]; }
      }
    }
  }

  /** A field of a longer string. */
  lemma {:induction false} Field(v: nat, k: nat, before: seq<byte>, after: seq<byte>)
    ensures var s := before + LittleEndian(v, k) + after;
      s[|before|..|before| + k] == LittleEndian(v, k) && Little(s[|before|..|before| + k], v)
  {
    LittleEndianIs(v, k);
    Middle(before, LittleEndian(v, k), after);
  }

  lemma {:induction false} Middle<T>(a: seq<T>, b: seq<T>, c: seq<T>)
    ensures (a + b + c)[|a|..|a| + |b|] == b && (a + b + c)[..|a|] == a && (a + b + c)[|a| + |b|..] == c
  {
  }

  // ----- records

  ghost predicate PutLayout(b: seq<byte>, key: Text, len: u32, stripeId: u64) {
    && |b| == 15 + |key| && b[0] == 0 && Little(b[1..9], stripeId) && Little(b[9..13], len)
    && Little(b[13..15], |key|) && b[15..] == key
  }

  /** A kind and one or two numbers of eight bytes. */
  ghost predicate NumbersLayout(b: seq<byte>, tag: byte, ns: seq<nat>) {
    |b| == 1 + 8 * |ns| && b[0] == tag &&
    forall i :: 0 <= i < |ns| ==> Little(b[1 + 8 * i..9 + 8 * i], ns[i])
  }

  lemma {:induction false} PutBytes(key: Text, len: u32, stripeId: u64)
    ensures PutLayout(RecordBytes(Put(key, len, stripeId)), key, len, stripeId)
  {
    hide LittleEndian, Little;
    var b := RecordBytes(Put(key, len, stripeId));
    var a, c, d, t: seq<byte> := LittleEndian(stripeId, 8), LittleEndian(len, 4), LittleEndian(|key|, 2), [0];
    assert b == t + a + (c + d + key);
    assert b == (t + a) + c + (d + key);
    assert b == (t + a + c) + d + key;
    Field(stripeId, 8, t, c + d + key);
    Field(len, 4, t + a, d + key);
    Field(|key|, 2, t + a + c, key);
    Middle(t + a + c, d, key);
  }

  lemma {:induction false} OneNumber(tag: byte, v: nat)
    ensures NumbersLayout([tag] + LittleEndian(v, 8), tag, [v])
  {
    hide LittleEndian, Little;
    assert [tag] + LittleEndian(v, 8) == [tag] + LittleEndian(v, 8) + [];
    Field(v, 8, [tag], []);
  }

  lemma {:induction false} TwoNumbers(tag: byte, v: nat, w: nat)
    ensures NumbersLayout([tag] + (LittleEndian(v, 8) + LittleEndian(w, 8)), tag, [v, w])
  {
    hide LittleEndian, Little;
    var b, c := LittleEndian(v, 8), LittleEndian(w, 8);
    var s, ns := [tag] + (b + c), [v, w];
    assert s == [tag] + b + c && s == ([tag] + b) + c + [];
    Field(v, 8, [tag], c);
    Field(w, 8, [tag] + b, []);
    forall i | 0 <= i < 2 ensures Little(s[1 + 8 * i..9 + 8 * i], ns[i]) {
      if i == 0 {} else {}
    }
  }

  /** Records of fixed shape: the kind, then their numbers. */
  lemma {:induction false} FixedBytes(rec: Record)
    ensures rec.Commit? ==> NumbersLayout(RecordBytes(rec), 1, [rec.lsn])
    ensures rec.SegmentSeal? ==> NumbersLayout(RecordBytes(rec), 2, [rec.segmentId, rec.nextSegmentId])
    ensures rec.SegmentSwap? ==> NumbersLayout(RecordBytes(rec), 4, [rec.oldSegmentId, rec.newSegmentId])
  {
    hide LittleEndian, NumbersLayout;
    match rec
    case Commit(lsn) => OneNumber(1, lsn);
    case SegmentSeal(id, next) => TwoNumbers(2, id, next);
    case SegmentSwap(o, n) => TwoNumbers(4, o, n);
    case _ =>
  }

  /** A text behind its length, then numbers of the given widths. */
  ghost predicate DeltaLayout(b: seq<byte>, d: AggDeltaEntry) {
    var n := |d.prefix|;
    && |b| == n + 18 && Little(b[..2], n) && b[2..2 + n] == d.prefix
    && Little(b[2 + n..10 + n], d.objectDelta) && Little(b[10 + n..], d.byteDelta)
  }

  ghost predicate EntryLayout(b: seq<byte>, e: RemapEntry) {
    var n := |e.key|;
    && |b| == n + 22 && Little(b[..2], n) && b[2..2 + n] == e.key
    && Little(b[2 + n..10 + n], e.lsn) && Little(b[10 + n..18 + n], e.offset) && Little(b[18 + n..], e.len)
  }

  lemma {:induction false} DeltaBytesIs(d: AggDeltaEntry)
    ensures DeltaLayout(DeltaBytes(d), d)
  {
    hide LittleEndian, Little;
    var n, a, b, c := |d.prefix|, LittleEndian(|d.prefix|, 2), LittleEndian(d.objectDelta, 8),
      LittleEndian(d.byteDelta, 8);
    var s := DeltaBytes(d);
    assert s == [] + a + (d.prefix + b + c) && s == a + d.prefix + (b + c);
    assert s == (a + d.prefix) + b + c && s == (a + d.prefix + b) + c + [];
    Field(n, 2, [], d.prefix + b + c);
    Middle(a, d.prefix, b + c);
    Field(d.objectDelta, 8, a + d.prefix, c);
    Field(d.byteDelta, 8, a + d.prefix + b, []);
  }

  lemma {:induction false} EntryBytesIs(e: RemapEntry)
    ensures EntryLayout(EntryBytes(e), e)
  {
    hide LittleEndian, Little;
    var n, a, b := |e.key|, LittleEndian(|e.key|, 2), LittleEndian(e.lsn, 8);
    var c, d := LittleEndian(e.offset, 8), LittleEndian(e.len, 4);
    var s := EntryBytes(e);
    assert s == [] + a + (e.key + b + c + d) && s == a + e.key + (b + c + d);
    assert s == (a + e.key) + b + (c + d) && s == (a + e.key + b) + c + d && s == (a + e.key + b + c) + d + [];
    Field(n, 2, [], e.key + b + c + d);
    Middle(a, e.key, b + c + d);
    Field(e.lsn, 8, a + e.key, c + d);
    Field(e.offset, 8, a + e.key + b, d);
    Field(e.len, 4, a + e.key + b + c, []);
  }

  /** Where the i-th delta of a list starts. */
  function DeltaStart(ds: seq<AggDeltaEntry>, i: nat): nat
    requires i <= |ds|
  {
    if i == 0 then 0 else DeltaStart(ds, i - 1) + |ds[i - 1].prefix| + 18
  }

  function EntryStart(es: seq<RemapEntry>, i: nat): nat
    requires i <= |es|
  {
    if i == 0 then 0 else EntryStart(es, i - 1) + |es[i - 1].key| + 22
  }

  lemma {:induction false} DeltasPrefix(ds: seq<AggDeltaEntry>, n: nat)
    requires n <= |ds|
    ensures |DeltasBytes(ds[..n])| == DeltaStart(ds, n) && DeltasBytes(ds[..n]) <= DeltasBytes(ds)
  {
    hide DeltaBytes;
    if n > 0 {
      DeltasPrefix(ds, n - 1);
      assert ds[..n] == ds[..n - 1] + [ds[n - 1]];
      RecordCodec.DeltasSnoc(ds[..n - 1], ds[n - 1]);
      DeltaBytesIs(ds[n - 1]);
    }
    DeltasSplit(ds, n);
  }

  lemma {:induction false} DeltasSplit(ds: seq<AggDeltaEntry>, n: nat)
    requires n <= |ds|
    ensures DeltasBytes(ds) == DeltasBytes(ds[..n]) + DeltasBytes(ds[n..])
    decreases n
  {
    hide DeltaBytes;
    if n == 0 {
      assert ds[..n] == [] && ds[n..] == ds;
    } else {
      DeltasSplit(ds[1..], n - 1);
      assert ds[..n][1..] == ds[1..][..n - 1] && ds[n..] == ds[1..][n - 1..];
    }
  }

  lemma {:induction false} EntriesPrefix(es: seq<RemapEntry>, n: nat)
    requires n <= |es|
    ensures |EntriesBytes(es[..n])| == EntryStart(es, n) && EntriesBytes(es[..n]) <= EntriesBytes(es)
  {
    hide EntryBytes;
    if n > 0 {
      EntriesPrefix(es, n - 1);
      assert es[..n] == es[..n - 1] + [es[n - 1]];
      RecordCodec.EntriesSnoc(es[..n - 1], es[n - 1]);
      EntryBytesIs(es[n - 1]);
    }
    EntriesSplit(es, n);
  }

  lemma {:induction false} EntriesSplit(es: seq<RemapEntry>, n: nat)
    requires n <= |es|
    ensures EntriesBytes(es) == EntriesBytes(es[..n]) + EntriesBytes(es[n..])
    decreases n
  {
    hide EntryBytes;
    if n == 0 {
      assert es[..n] == [] && es[n..] == es;
    } else {
      EntriesSplit(es[1..], n - 1);
      assert es[..n][1..] == es[1..][..n - 1] && es[n..] == es[1..][n - 1..];
    }
  }

  /** A slice of a string that begins with p, where q has one more part than p. */
  lemma {:induction false} Slice<T>(head: seq<T>, s: seq<T>, p: seq<T>, part: seq<T>)
    requires p + part <= s
    ensures (head + s)[|head| + |p|..|head| + |p| + |part|] == part
  {
    assert s == p + part + s[|p| + |part|..];
    assert head + s == (head + p) + part + s[|p| + |part|..];
    Middle(head + p, part, s[|p| + |part|..]);
  }

  /** The deltas of a put: kind 3, how many, and each behind the other. */
  lemma {:induction false} AggDeltaBytes(ds: seq<AggDeltaEntry>, i: nat)
    requires LengthsFit(AggDelta(ds)) && i < |ds|
    ensures var b, at := RecordBytes(AggDelta(ds)), 3 + DeltaStart(ds, i);
      && |b| == 3 + DeltaStart(ds, |ds|) && b[0] == 3 && Little(b[1..3], |ds|)
      && at + |ds[i].prefix| + 18 <= |b| && DeltaLayout(b[at..at + |ds[i].prefix| + 18], ds[i])
  {
    hide LittleEndian, Little, DeltaBytes, DeltaLayout, DeltasBytes;
    var b, head := RecordBytes(AggDelta(ds)), [3] + LittleEndian(|ds|, 2);
    assert b == [3] + LittleEndian(|ds|, 2) + DeltasBytes(ds);
    Field(|ds|, 2, [3], DeltasBytes(ds));
    DeltasPrefix(ds, |ds|);
    assert ds[..|ds|] == ds;
    DeltasPrefix(ds, i);
    DeltasPrefix(ds, i + 1);
    assert ds[..i + 1] == ds[..i] + [ds[i]];
    RecordCodec.DeltasSnoc(ds[..i], ds[i]);
    DeltaBytesIs(ds[i]);
    assert |DeltaBytes(ds[i])| == |ds[i].prefix| + 18 by { DeltaSize(ds[i]); }
    Slice(head, DeltasBytes(ds), DeltasBytes(ds[..i]), DeltaBytes(ds[i]));
  }

  lemma {:induction false} DeltaSize(d: AggDeltaEntry)
    ensures |DeltaBytes(d)| == |d.prefix| + 18
  {
  }

  /** The entries of a compaction: kind 5, the new segment, how many, and each behind the other. */
  lemma {:induction false} RemapBytes(target: u64, es: seq<RemapEntry>, i: nat)
    requires LengthsFit(SegmentRemap(target, es)) && i < |es|
    ensures var b, at := RecordBytes(SegmentRemap(target, es)), 11 + EntryStart(es, i);
      && |b| == 11 + EntryStart(es, |es|) && b[0] == 5 && Little(b[1..9], target) && Little(b[9..11], |es|)
      && at + |es[i].key| + 22 <= |b| && EntryLayout(b[at..at + |es[i].key| + 22], es[i])
  {
    hide LittleEndian, Little, EntryBytes, EntryLayout, EntriesBytes;
    var b, t, c := RecordBytes(SegmentRemap(target, es)), LittleEndian(target, 8), LittleEndian(|es|, 2);
    assert b == [5] + t + (c + EntriesBytes(es)) && b == ([5] + t) + c + EntriesBytes(es);
    Field(target, 8, [5], c + EntriesBytes(es));
    Field(|es|, 2, [5] + t, EntriesBytes(es));
    EntriesPrefix(es, |es|);
    assert es[..|es|] == es;
    EntriesPrefix(es, i);
    EntriesPrefix(es, i + 1);
    assert es[..i + 1] == es[..i] + [es[i]];
    RecordCodec.EntriesSnoc(es[..i], es[i]);
    EntryBytesIs(es[i]);
    RecordCodec.EntrySize(es[i]);
    Slice([5] + t + c, EntriesBytes(es), EntriesBytes(es[..i]), EntryBytes(es[i]));
  }

  // ----- blocks

  lemma {:induction false} LittleUnique(s: seq<byte>, v: nat)
    requires v < Pow256(|s|)
    ensures Little(s, v) <==> v == Number(s)
  {
    LittleEndianIs(v, |s|);
    LittleEndianRoundTrip(v, |s|);
    var t := LittleEndian(v, |s|);
    if Little(s, v) {
      forall i | 0 <= i < |s| ensures s[i] == t[i] { SameByte(s[i], t[i]); }
      assert s == t;
    }
    if v == Number(s) { NumberInjective(s, t); }
  }

  ghost predicate AllZero(s: seq<byte>) {
    forall i :: 0 <= i < |s| ==> s[i] == 0
  }

  lemma {:induction false} PaddingZero(n: nat)
    ensures AllZero(Padding(n))
  {
  }

  lemma {:induction false} BackParts(flags: byte, payload: seq<byte>)
    requires |payload| <= 4072
    ensures var s, n := Block.Back(flags, payload), |payload|;
      && |s| == 4080 && s[0] == flags && AllZero(s[1..8]) && s[8..8 + n] == payload && AllZero(s[8 + n..])
  {
    hide AllZero, Padding;
    var z, n := Padding(7), |payload|;
    PaddingZero(7);
    PaddingZero(4072 - n);
    var s, e := Block.Back(flags, payload), Padding(4072 - n);
    assert s == [flags] + z + (payload + e) && s == ([flags] + z) + payload + e;
    Middle([flags], z, payload + e);
    Middle([flags] + z, payload, e);
  }

  /** An encoded block of 4096 bytes: LSN at 0, payload length at 8, checksum at 12, flags at 16, payload at 24, zeros
      elsewhere; the checksum is the CRC-32C of header and payload with its own field zero. */
  lemma {:induction false} BlockBytes(lsn: u64, payload: seq<byte>, flags: byte)
    requires |payload| <= 4072
    ensures var b, n := Block.Encoded(lsn, payload, flags), |payload|;
      && |b| == 4096 && Little(b[..8], lsn) && Little(b[8..12], n)
      && Little(b[12..16], Block.Crc(b[..12] + [0, 0, 0, 0] + b[16..24 + n]) as int)
      && b[16] == flags && AllZero(b[17..24]) && b[24..24 + n] == payload && AllZero(b[24 + n..])
  {
    hide Block.Crc, Block.Checksum, Block.Layout, LittleEndian, Little, AllZero, Block.Back;
    var n, blank := |payload|, Block.Layout(lsn, payload, flags, 0);
    var crc := Block.Checksum(blank, n) as int;
    var b := Block.Encoded(lsn, payload, flags);
    Block.LayoutFields(lsn, payload, flags, crc);
    Block.LayoutParts(lsn, payload, flags, crc);
    LittleEndianIs(lsn, 8);
    LittleEndianIs(n, 4);
    LittleEndianIs(crc, 4);
    BackParts(flags, payload);
    assert b[17..24] == b[16..][1..8] && b[24 + n..] == b[16..][8 + n..];
    Block.ChecksumIgnoresField(lsn, payload, flags, crc);
    Block.ChecksumIsCrc(b, n);
    hide Block.Encoded;
    assert Block.Covered(b, n) == b[..12] + [0, 0, 0, 0] + b[16..24 + n];
  }

  /** What a block decodes to, exactly: a length above 4072 is an error; else a stored checksum other than the
      CRC-32C of header and payload is one; else the fields are what the header says. */
  lemma {:induction false} BlockDecodes(b: seq<byte>, lsn: u64, len: u32, crc: u32)
    requires |b| == 4096 && Little(b[..8], lsn) && Little(b[8..12], len) && Little(b[12..16], crc)
    ensures Block.Decoded(b) ==
      if len > 4072 then Block.ErrLen
      else if Block.Crc(b[..12] + [0, 0, 0, 0] + b[16..24 + len]) as int != crc then Block.ErrCrc
      else Block.Ok(lsn, b[16], b[24..24 + len])
  {
    hide Block.Crc, Block.Checksum, Little;
    Widths();
    LittleUnique(b[..8], lsn);
    LittleUnique(b[8..12], len);
    LittleUnique(b[12..16], crc);
    if len <= 4072 { Block.ChecksumIsCrc(b, len); }
  }

  // ----- the log file

  lemma {:induction false} LogFileParts(log: seq<Wal.Entry>, i: nat)
    requires Wal.AllEncodable(log) && i < |log|
    ensures Wal.LogBytes(log) == Wal.LogBytes(log[..i]) + Wal.BlockOf(log[i]) + Wal.LogBytes(log[i + 1..])
  {
    hide Encodable, Wal.BlockOf;
    Wal.LogBytesSplit(log, i);
    var rest := log[i..];
    assert rest[0] == log[i] && rest[1..] == log[i + 1..];
    Regroup(Wal.LogBytes(log[..i]), Wal.BlockOf(log[i]), Wal.LogBytes(log[i + 1..]));
  }

  lemma {:induction false} Regroup<T>(a: seq<T>, b: seq<T>, c: seq<T>)
    ensures a + (b + c) == a + b + c
  {
  }

  /** Block i of the log file has the i-th record, its LSN, and the record's kind as flags. */
  lemma {:induction false} LogFileBytes(log: seq<Wal.Entry>, i: nat)
    requires Wal.AllEncodable(log) && i < |log|
    ensures var f, b := Wal.LogBytes(log), RecordBytes(log[i].rec);
      && |f| == 4096 * |log| && 0 < |b| <= 4072
      && f[4096 * i..4096 * i + 4096] == Block.Encoded(log[i].lsn, b, b[0])
  {
    Wal.Wal.BlockOfEntry(log[i]);
    LogFileBlock(log, i);
    hide Encodable, Block.Encoded, RecordBytes, Wal.BlockOf, Wal.LogBytes;
  }

  lemma {:induction false} LogFileBlock(log: seq<Wal.Entry>, i: nat)
    requires Wal.AllEncodable(log) && i < |log|
    ensures Wal.LogBytes(log)[4096 * i..4096 * i + 4096] == Wal.BlockOf(log[i])
  {
    hide Encodable, Wal.BlockOf, Wal.LogBytes;
    LogFileParts(log, i);
    MiddleAt(Wal.LogBytes(log), Wal.LogBytes(log[..i]), Wal.BlockOf(log[i]), Wal.LogBytes(log[i + 1..]), 4096 * i,
      4096);
  }

  lemma {:induction false} MiddleAt<T>(s: seq<T>, a: seq<T>, b: seq<T>, c: seq<T>, n: nat, m: nat)
    requires s == a + b + c && |a| == n && |b| == m
    ensures |s| >= n + m && s[n..n + m] == b
  {
  }
}
