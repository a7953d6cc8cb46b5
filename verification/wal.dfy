/** The write-ahead log: one record per block, scanned up to the first damage. */
module Wal {
  import opened Bytes
  import opened Records
  import RecordCodec
  import Block
  import BlockCodec
  import Crc32c

  datatype Entry = Entry(lsn: u64, rec: Record)

  // ----- the file

  function BlockOf(e: Entry): (s: seq<byte>)
    requires Encodable(e.rec)
    ensures |s| == Block.SIZE
  {
    Block.Encoded(e.lsn, RecordBytes(e.rec), Tag(e.rec))
  }

  predicate AllEncodable(log: seq<Entry>) {
    forall i :: 0 <= i < |log| ==> Encodable(log[i].rec)
  }

  ghost predicate AllValid(utf8: Text -> bool, log: seq<Entry>) {
    AllEncodable(log) && forall i :: 0 <= i < |log| ==> TextsValid(utf8, log[i].rec)
  }

  /** The blocks of a run of entries. */
  function LogBytes(log: seq<Entry>): (s: seq<byte>)
    requires AllEncodable(log)
    ensures |s| == Block.SIZE * |log|
  {
    if |log| == 0 then [] else BlockOf(log[0]) + LogBytes(log[1..])
  }

  /** The entry in a block, if the block and the record in it decode. */
  function EntryIn(utf8: Text -> bool, blk: seq<byte>): Option<Entry>
    requires |blk| == Block.SIZE
  {
    match Block.Decoded(blk)
    case Ok(lsn, _, payload) =>
      (match DecodeRecord(utf8, payload)
       case Got(rec, _) => Some(Entry(lsn, rec))
       case Fail => None)
    case _ => None
  }

  /** Entries from the start of the file up to the first short or undecodable block. */
  function Scan(utf8: Text -> bool, f: seq<byte>): (log: seq<Entry>)
    ensures Block.SIZE * |log| <= |f|
    decreases |f|
  {
    if |f| < Block.SIZE then []
    else
      var e := EntryIn(utf8, f[..Block.SIZE]);
      if e.None? then [] else [e.value] + Scan(utf8, f[Block.SIZE..])
  }

  /** Scanning stops at once: the next block is short, fails its checksum, or holds no record. */
  ghost predicate Damaged(utf8: Text -> bool, tail: seq<byte>) {
    |tail| < Block.SIZE || EntryIn(utf8, tail[..Block.SIZE]).None?
  }

  lemma {:induction false} EntryRoundTrip(utf8: Text -> bool, e: Entry)
    requires Encodable(e.rec) && TextsValid(utf8, e.rec)
    ensures EntryIn(utf8, BlockOf(e)) == Some(e)
  {
    hide Block.Encoded, Block.Decoded, DecodeRecord, RecordBytes;
    Block.DecodeEncoded(e.lsn, RecordBytes(e.rec), Tag(e.rec));
    RecordRoundTrip(utf8, e.rec);
  }

  /** Records written after a fully valid part are scanned back, with their LSNs, up to the damage. */
  lemma {:induction false} ScanAfter(utf8: Text -> bool, f: seq<byte>, log: seq<Entry>, tail: seq<byte>)
    requires |f| == Block.SIZE * |Scan(utf8, f)|
    requires AllValid(utf8, log) && Damaged(utf8, tail)
    ensures Scan(utf8, f + LogBytes(log) + tail) == Scan(utf8, f) + log
    decreases |f| + |log|
  {
    hide BlockOf, EntryIn, Encodable, TextsValid;
    var all := f + LogBytes(log) + tail;
    if |f| > 0 {
      var rest := f[Block.SIZE..];
      assert all[..Block.SIZE] == f[..Block.SIZE];
      assert all[Block.SIZE..] == rest + LogBytes(log) + tail;
      ScanAfter(utf8, rest, log, tail);
    } else if |log| > 0 {
      EntryRoundTrip(utf8, log[0]);
      assert all[..Block.SIZE] == BlockOf(log[0]);
      assert all[Block.SIZE..] == [] + LogBytes(log[1..]) + tail;
      ScanAfter(utf8, [], log[1..], tail);
      assert log == [log[0]] + log[1..];
    } else {
      assert all == tail;
    }
  }

  /** A write cut short after n bytes leaves exactly the whole blocks. */
  lemma {:induction false} ScanTorn(utf8: Text -> bool, f: seq<byte>, log: seq<Entry>, n: nat)
    requires |f| == Block.SIZE * |Scan(utf8, f)|
    requires AllValid(utf8, log) && n <= Block.SIZE * |log|
    ensures Scan(utf8, f + LogBytes(log)[..n]) == Scan(utf8, f) + log[..n / Block.SIZE]
  {
    hide BlockOf, EntryIn, Encodable, TextsValid, Scan;
    var k := n / Block.SIZE;
    LogBytesSplit(log, k);
    var part := LogBytes(log[k..])[..n - Block.SIZE * k];
    assert LogBytes(log)[..n] == LogBytes(log[..k]) + part;
    ScanAfter(utf8, f, log[..k], part);
    assert f + (LogBytes(log[..k]) + part) == f + LogBytes(log[..k]) + part;
  }

  lemma {:induction false} LogBytesSplit(log: seq<Entry>, k: nat)
    requires AllEncodable(log) && k <= |log|
    ensures LogBytes(log) == LogBytes(log[..k]) + LogBytes(log[k..])
    decreases k
  {
    hide BlockOf, Encodable;
    if k > 0 {
      LogBytesSplit(log[1..], k - 1);
      assert log[..k][1..] == log[1..][..k - 1] && log[k..] == log[1..][k - 1..];
    } else {
      assert log[..k] == [] && log[k..] == log;
    }
  }

  /** Cutting a file after n scanned blocks leaves the first n entries. */
  lemma {:induction false} ScanCut(utf8: Text -> bool, f: seq<byte>, n: nat)
    requires n <= |Scan(utf8, f)|
    ensures Block.SIZE * n <= |f| && Scan(utf8, f[..Block.SIZE * n]) == Scan(utf8, f)[..n]
    decreases |f|
  {
    hide EntryIn;
    if n > 0 {
      ScanCut(utf8, f[Block.SIZE..], n - 1);
      var cut := f[..Block.SIZE * n];
      assert cut[..Block.SIZE] == f[..Block.SIZE];
      assert cut[Block.SIZE..] == f[Block.SIZE..][..Block.SIZE * (n - 1)];
    }
  }

  // ----- replay

  /** How many entries survive: everything up to and including the last Commit. */
  function Committed(log: seq<Entry>): (n: nat)
    ensures n <= |log|
    ensures n > 0 ==> log[n - 1].rec.Commit?
    ensures forall i :: n <= i < |log| ==> !log[i].rec.Commit?
  {
    if |log| == 0 then 0
    else if log[|log| - 1].rec.Commit? then |log|
    else Committed(log[..|log| - 1])
  }

  /** The larger of the LSN named by the last Commit and the LSN of the last entry scanned. */
  function HighWater(log: seq<Entry>): nat {
    var n := Committed(log);
    var commit := if n > 0 then log[n - 1].rec.lsn else 0;
    var last := if |log| > 0 then log[|log| - 1].lsn else 0;
    if commit > last then commit else last
  }

  /** It is one of the two and no less than either, and zero for an empty log. */
  lemma {:induction false} HighWaterIs(log: seq<Entry>)
    ensures |log| == 0 ==> HighWater(log) == 0
    ensures |log| > 0 ==> HighWater(log) >= log[|log| - 1].lsn
    ensures |log| > 0 && HighWater(log) != log[|log| - 1].lsn ==> exists i ::
      && 0 <= i < |log| && log[i].rec.Commit? && HighWater(log) == log[i].rec.lsn
      && forall j :: i < j < |log| ==> !log[j].rec.Commit?
    ensures forall i :: 0 <= i < |log| && log[i].rec.Commit? && (forall j :: i < j < |log| ==> !log[j].rec.Commit?) ==>
      HighWater(log) >= log[i].rec.lsn
  {
    var n := Committed(log);
    if |log| > 0 && HighWater(log) != log[|log| - 1].lsn { assert log[n - 1].rec.Commit?; }
    forall i | 0 <= i < |log| && log[i].rec.Commit? && (forall j :: i < j < |log| ==> !log[j].rec.Commit?)
      ensures HighWater(log) >= log[i].rec.lsn
    {
      assert n == i + 1;
    }
  }

  ghost predicate Ascending(log: seq<Entry>) {
    forall i, j :: 0 <= i < j < |log| ==> log[i].lsn < log[j].lsn
  }

  ghost predicate Below(log: seq<Entry>, bound: nat) {
    forall i :: 0 <= i < |log| ==> log[i].lsn < bound
  }

  /** The state of an open log: `inFile` and `inBuf` are the entries of the file and of the buffer. */
  ghost predicate Consistent(utf8: Text -> bool, file: seq<byte>, buf: seq<byte>, dirty: bool, inFile: seq<Entry>,
                             inBuf: seq<Entry>) {
    && |file| == Block.SIZE * |inFile| && Scan(utf8, file) == inFile
    && AllValid(utf8, inBuf) && buf == LogBytes(inBuf)
    && (dirty <==> inBuf != [])
  }

  /** LSNs rise in file order, and the next one is above them all. */
  ghost predicate Rising(log: seq<Entry>, nextLsn: nat) {
    Ascending(log) && Below(log, nextLsn)
  }

  lemma {:induction false} OpenConsistent(utf8: Text -> bool, disk: seq<byte>)
    ensures var log := Scan(utf8, disk);
      var keep := Committed(log);
      && Block.SIZE * keep <= |disk| && Consistent(utf8, disk[..Block.SIZE * keep], [], false, log[..keep], [])
      && (Ascending(log) ==> Below(log, HighWater(log) + 1) && Rising(log[..keep], HighWater(log) + 1))
  {
    hide Scan, LogBytes;
    var log := Scan(utf8, disk);
    ScanCut(utf8, disk, Committed(log));
    NothingLogged();
  }

  lemma {:induction false} AppendConsistent(utf8: Text -> bool, file: seq<byte>, buf: seq<byte>, dirty: bool,
                                            inFile: seq<Entry>, inBuf: seq<Entry>, e: Entry)
    requires Consistent(utf8, file, buf, dirty, inFile, inBuf) && Encodable(e.rec) && TextsValid(utf8, e.rec)
    ensures Consistent(utf8, file, buf + BlockOf(e), true, inFile, inBuf + [e])
  {
    hide Scan, LogBytes, BlockOf, Encodable, TextsValid;
    LogBytesSnoc(inBuf, e);
  }

  lemma {:induction false} SyncConsistent(utf8: Text -> bool, file: seq<byte>, buf: seq<byte>, dirty: bool,
                                          inFile: seq<Entry>, inBuf: seq<Entry>)
    requires Consistent(utf8, file, buf, dirty, inFile, inBuf)
    ensures Consistent(utf8, file + buf, [], false, inFile + inBuf, [])
  {
    hide Scan, LogBytes, EntryIn, Encodable, TextsValid;
    ScanAfter(utf8, file, inBuf, []);
    assert file + buf + [] == file + buf;
    NothingLogged();
  }

  lemma {:induction false} NothingLogged()
    ensures LogBytes([]) == []
  {
  }

  class Wal {
    const utf8: Text -> bool
    const tables: Crc32c.Tables
    var file: seq<byte>
    var buf: seq<byte>
    var nextLsn: nat
    var dirty: bool
    /** The entries in the file, and those still in the buffer. */
    ghost var inFile: seq<Entry>
    ghost var inBuf: seq<Entry>

    ghost function Log(): seq<Entry>
      reads this
    {
      inFile + inBuf
    }

    ghost predicate Valid()
      reads this, tables.tbl
    {
      tables.Valid() && Consistent(utf8, file, buf, dirty, inFile, inBuf)
    }

    /** Recovers a log file: keeps it up to the last Commit and continues past everything scanned. */
    constructor Open(utf8: Text -> bool, tables: Crc32c.Tables, disk: seq<byte>)
      requires tables.Valid()
      ensures Valid() && this.utf8 == utf8 && this.tables == tables
      ensures var scanned := Scan(utf8, disk);
        && inFile == scanned[..Committed(scanned)] && inBuf == []
        && file == disk[..Block.SIZE * Committed(scanned)] && nextLsn == HighWater(scanned) + 1
        && (Ascending(scanned) ==> Below(scanned, nextLsn) && Rising(Log(), nextLsn))
    {
      hide Scan, Committed, HighWater, Consistent, Below, Ascending, Rising, Crc32c.Tables.Valid;
      var records := ScanFile(utf8, tables, disk);
      var keep, highWater := Replay(records);
      OpenConsistent(utf8, disk);
      this.utf8, this.tables := utf8, tables;
      file := disk[..Block.SIZE * keep];
      buf, dirty, nextLsn := [], false, highWater + 1;
      inFile, inBuf := records[..keep], [];
      new;
      assert inFile + inBuf == inFile;
    }

    static method ScanFile(utf8: Text -> bool, tables: Crc32c.Tables, f: seq<byte>) returns (log: seq<Entry>)
      requires tables.Valid()
      ensures log == Scan(utf8, f)
    {
      hide Crc32c.Tables.Valid, Block.Decoded, DecodeRecord;
      log := [];
      var pos := 0;
      assert f[0..] == f;
      while true
        invariant 0 <= pos <= |f| && Scan(utf8, f) == log + Scan(utf8, f[pos..])
        decreases |f| - pos
      {
        if |f| - pos < Block.SIZE {
          assert log + [] == log;
          return;
        }
        var blk := new byte[Block.SIZE](j requires 0 <= j < Block.SIZE => f[pos + j]);
        assert blk[..] == f[pos..][..Block.SIZE];
        var decoded := BlockCodec.Decode(tables, blk);
        if !decoded.Ok? {
          assert log + [] == log;
          return;
        }
        var rec := RecordCodec.Decode(utf8, decoded.payload);
        if rec.None? {
          assert log + [] == log;
          return;
        }
        var e := Entry(decoded.lsn, rec.value);
        assert f[pos..][Block.SIZE..] == f[pos + Block.SIZE..];
        ghost var rest := Scan(utf8, f[pos + Block.SIZE..]);
        assert log + ([e] + rest) == (log + [e]) + rest;
        log := log + [e];
        pos := pos + Block.SIZE;
      }
    }

    /** The backward search for the last Commit. */
    static method Replay(log: seq<Entry>) returns (keep: nat, highWater: nat)
      ensures keep == Committed(log) && highWater == HighWater(log)
    {
      keep, highWater := 0, 0;
      var i := |log|;
      assert log[..i] == log;
      while i > 0
        invariant 0 <= i <= |log| && Committed(log[..i]) == Committed(log)
        invariant keep == 0 && highWater == 0
      {
        assert log[..i][..i - 1] == log[..i - 1];
        if log[i - 1].rec.Commit? {
          keep, highWater := i, log[i - 1].rec.lsn;
          break;
        }
        i := i - 1;
      }
      var last := if |log| > 0 then log[|log| - 1].lsn else 0;
      highWater := if highWater > last then highWater else last;
    }

    /** Appends a record at an explicit LSN to the buffer, or refuses one that does not fit a block. The LSN may
        lie below the next one, as when a leader resends what a restarted follower had dropped; the next one
        never falls. */
    method AppendAt(rec: Record, lsn: u64) returns (ok: bool)
      requires Valid() && TextsValid(utf8, rec)
      modifies this
      ensures Valid() && file == old(file) && inFile == old(inFile)
      ensures ok <==> Encodable(rec)
      ensures ok ==> buf == old(buf) + Block.Encoded(lsn, RecordBytes(rec), RecordBytes(rec)[0])
      ensures ok ==>
        inBuf == old(inBuf) + [Entry(lsn, rec)] && nextLsn == if lsn + 1 > old(nextLsn) then lsn + 1 else old(nextLsn)
      ensures ok && old(Rising(Log(), nextLsn)) && old(Below(Log(), lsn)) ==> Rising(Log(), nextLsn)
      ensures !ok ==> buf == old(buf) && inBuf == old(inBuf) && nextLsn == old(nextLsn)
    {
      hide Crc32c.Tables.Valid, Consistent, TextsValid, Encodable, BlockOf, Block.Encoded, RecordBytes;
      var blk := EncodeBlock(tables, rec, lsn);
      if blk.None? {
        return false;
      }
      ghost var e := Entry(lsn, rec);
      AppendConsistent(utf8, file, buf, dirty, inFile, inBuf, e);
      assert inFile + (inBuf + [e]) == (inFile + inBuf) + [e];
      BlockOfEntry(e);
      buf := buf + blk.value;
      inBuf := inBuf + [e];
      nextLsn := if lsn + 1 > nextLsn then lsn + 1 else nextLsn;
      dirty := true;
      return true;
    }

    /** The block of a record, or nothing if it does not fit. */
    static method EncodeBlock(tables: Crc32c.Tables, rec: Record, lsn: u64) returns (out: Option<seq<byte>>)
      requires tables.Valid()
      ensures out == if Encodable(rec) then Some(BlockOf(Entry(lsn, rec))) else None
    {
      hide Crc32c.Tables.Valid, Block.Encoded, RecordBytes;
      var payload := RecordCodec.EncodeRecord(rec);
      if payload.None? {
        return None;
      }
      PayloadFits(rec);
      var blk := new byte[Block.SIZE];
      var encoded := BlockCodec.Encode(tables, blk, lsn, payload.value, Tag(rec));
      return Some(blk[..]);
    }

    static lemma {:induction false} BlockOfEntry(e: Entry)
      requires Encodable(e.rec)
      ensures var b := RecordBytes(e.rec);
        0 < |b| <= Block.PAYLOAD_MAX && BlockOf(e) == Block.Encoded(e.lsn, b, b[0])
    {
      hide Block.Encoded;
    }

    static lemma {:induction false} PayloadFits(rec: Record)
      requires Encodable(rec)
      ensures |RecordBytes(rec)| <= Block.PAYLOAD_MAX
    {
    }

    method Append(rec: Record) returns (ok: bool)
      requires Valid() && nextLsn < 0x1_0000_0000_0000_0000 && TextsValid(utf8, rec)
      modifies this
      ensures Valid() && file == old(file) && inFile == old(inFile)
      ensures ok <==> Encodable(rec)
      ensures ok ==> buf == old(buf) + Block.Encoded(old(nextLsn), RecordBytes(rec), RecordBytes(rec)[0])
      ensures ok ==> inBuf == old(inBuf) + [Entry(old(nextLsn), rec)] && nextLsn == old(nextLsn) + 1
      ensures ok && old(Rising(Log(), nextLsn)) ==> Rising(Log(), nextLsn)
      ensures !ok ==> buf == old(buf) && inBuf == old(inBuf) && nextLsn == old(nextLsn)
    {
      ok := AppendAt(rec, nextLsn);
    }

    /** Writes the buffer to the file: the file now scans to the whole log. */
    method Sync()
      requires Valid()
      modifies this
      ensures Valid() && inFile == old(Log()) && inBuf == [] && nextLsn == old(nextLsn)
      ensures Scan(utf8, file) == old(Log()) && Log() == old(Log())
      ensures file == old(file) + old(buf) && buf == []
    {
      hide Crc32c.Tables.Valid, Scan, LogBytes;
      SyncConsistent(utf8, file, buf, dirty, inFile, inBuf);
      if !dirty {
        assert inFile + [] == inFile;
        return;
      }
      hide Consistent;
      file := file + buf;
      buf, dirty := [], false;
      inFile, inBuf := inFile + inBuf, [];
      ScansToLog(utf8, file, buf, dirty, inFile, inBuf);
      assert inFile + [] == inFile;
    }
  }

  lemma {:induction false} ScansToLog(utf8: Text -> bool, file: seq<byte>, buf: seq<byte>, dirty: bool,
                                      inFile: seq<Entry>, inBuf: seq<Entry>)
    requires Consistent(utf8, file, buf, dirty, inFile, inBuf)
    ensures Scan(utf8, file) == inFile
  {
  }

  lemma {:induction false} LogBytesSnoc(log: seq<Entry>, e: Entry)
    requires AllEncodable(log) && Encodable(e.rec)
    ensures AllEncodable(log + [e]) && LogBytes(log + [e]) == LogBytes(log) + BlockOf(e)
  {
    hide BlockOf, Encodable;
    LogBytesSplit(log + [e], |log|);
    assert (log + [e])[..|log|] == log && (log + [e])[|log|..] == [e];
    assert [e][1..] == [];
    assert LogBytes([e]) == BlockOf(e) + LogBytes([]);
  }
}
