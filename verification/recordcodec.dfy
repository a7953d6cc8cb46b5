/** Encoding records into byte vectors, decoding them with a moving cursor, and cutting a remap into records. */
module RecordCodec {
  import Block
  import opened Bytes
  import opened Records

  lemma {:induction false} DeltasSnoc(ds: seq<AggDeltaEntry>, d: AggDeltaEntry)
    ensures DeltasBytes(ds + [d]) == DeltasBytes(ds) + DeltaBytes(d)
    decreases |ds|
  {
    hide DeltaBytes;
    if |ds| == 0 {
      assert ds + [d] == [d] && [d][1..] == [];
      assert DeltasBytes([d]) == DeltaBytes(d) + DeltasBytes([]);
    } else {
      assert (ds + [d])[1..] == ds[1..] + [d];
      DeltasSnoc(ds[1..], d);
    }
  }

  lemma {:induction false} EntriesSnoc(es: seq<RemapEntry>, e: RemapEntry)
    ensures EntriesBytes(es + [e]) == EntriesBytes(es) + EntryBytes(e)
    decreases |es|
  {
    hide EntryBytes;
    if |es| == 0 {
      assert es + [e] == [e] && [e][1..] == [];
      assert EntriesBytes([e]) == EntryBytes(e) + EntriesBytes([]);
    } else {
      assert (es + [e])[1..] == es[1..] + [e];
      EntriesSnoc(es[1..], e);
    }
  }

  /** The bytes of a record, or nothing if a length or the whole record is too large. */
  method EncodeRecord(rec: Record) returns (out: Option<seq<byte>>)
    ensures out == if Encodable(rec) then Some(RecordBytes(rec)) else None
  {
    hide TextBytes, DeltasBytes, EntriesBytes, LittleEndian;
    var v: seq<byte> := [Tag(rec)];
    match rec {
      case Put(key, len, stripeId) =>
        if |key| >= 0x1_0000 {
          return None;
        }
        v := v + (LittleEndian(stripeId, 8) + LittleEndian(len, 4) + TextBytes(key));
      case Commit(lsn) =>
        v := v + LittleEndian(lsn, 8);
      case SegmentSeal(id, next) =>
        v := v + (LittleEndian(id, 8) + LittleEndian(next, 8));
      case AggDelta(ds) =>
        var body := EncodeDeltas(ds);
        if body.None? {
          return None;
        }
        v := v + (LittleEndian(|ds|, 2) + body.value);
      case SegmentSwap(o, n) =>
        v := v + (LittleEndian(o, 8) + LittleEndian(n, 8));
      case SegmentRemap(target, es) =>
        var body := EncodeEntries(es);
        if body.None? {
          return None;
        }
        v := v + (LittleEndian(target, 8) + LittleEndian(|es|, 2) + body.value);
    }
    if |v| > Block.PAYLOAD_MAX {
      return None;
    }
    return Some(v);
  }

  method EncodeDeltas(ds: seq<AggDeltaEntry>) returns (out: Option<seq<byte>>)
    ensures out.Some? <==> LengthsFit(AggDelta(ds))
    ensures out.Some? ==> out.value == DeltasBytes(ds)
  {
    hide DeltasBytes, DeltaBytes;
    NoBytes();
    assert ds[..0] == [];
    if |ds| >= 0x1_0000 {
      return None;
    }
    var v: seq<byte> := [];
    for i := 0 to |ds|
      invariant v == DeltasBytes(ds[..i])
      invariant forall j :: 0 <= j < i ==> Short(ds[j].prefix)
    {
      var d := ds[i];
      if |d.prefix| >= 0x1_0000 {
        TooLongPrefix(ds, i);
        return None;
      }
      DeltasSnoc(ds[..i], d);
      assert ds[..i + 1] == ds[..i] + [d];
      v := v + DeltaBytes(d);
      ShortText(d.prefix);
    }
    assert ds[..|ds|] == ds;
    return Some(v);
  }

  lemma {:induction false} NoBytes()
    ensures DeltasBytes([]) == [] && EntriesBytes([]) == []
  {
  }

  lemma {:induction false} ShortText(s: Text)
    ensures |s| < 0x1_0000 ==> Short(s)
  {
  }

  lemma {:induction false} TooLongPrefix(ds: seq<AggDeltaEntry>, i: nat)
    requires i < |ds| && |ds[i].prefix| >= 0x1_0000
    ensures !LengthsFit(AggDelta(ds))
  {
    assert !Short(ds[i].prefix);
  }

  lemma {:induction false} TooLongKey(es: seq<RemapEntry>, i: nat)
    requires i < |es| && |es[i].key| >= 0x1_0000
    ensures !LengthsFit(SegmentRemap(0, es))
  {
    assert !Short(es[i].key);
  }

  method EncodeEntries(es: seq<RemapEntry>) returns (out: Option<seq<byte>>)
    ensures out.Some? <==> LengthsFit(SegmentRemap(0, es))
    ensures out.Some? ==> out.value == EntriesBytes(es)
  {
    hide EntriesBytes, EntryBytes;
    NoBytes();
    assert es[..0] == [];
    if |es| >= 0x1_0000 {
      return None;
    }
    var v: seq<byte> := [];
    for i := 0 to |es|
      invariant v == EntriesBytes(es[..i])
      invariant forall j :: 0 <= j < i ==> Short(es[j].key)
    {
      var e := es[i];
      if |e.key| >= 0x1_0000 {
        TooLongKey(es, i);
        return None;
      }
      EntriesSnoc(es[..i], e);
      assert es[..i + 1] == es[..i] + [e];
      v := v + EntryBytes(e);
      ShortText(e.key);
    }
    assert es[..|es|] == es;
    return Some(v);
  }

  /** A cursor over a payload: each read returns a value and moves on, or fails. */
  class Cursor {
    var p: seq<byte>

    constructor (payload: seq<byte>)
      ensures p == payload
    {
      p := payload;
    }

    method U64() returns (v: Option<u64>)
      modifies this
      ensures match TakeU64(old(p)) { case Got(x, rest) => v == Some(x) && p == rest case Fail => v == None }
    {
      if |p| < 8 { return None; }
      Widths();
      NumberBound(p[..8]);
      v, p := Some(Number(p[..8])), p[8..];
    }

    method U32() returns (v: Option<u32>)
      modifies this
      ensures match TakeU32(old(p)) { case Got(x, rest) => v == Some(x) && p == rest case Fail => v == None }
    {
      if |p| < 4 { return None; }
      Widths();
      NumberBound(p[..4]);
      v, p := Some(Number(p[..4])), p[4..];
    }

    method U16() returns (v: Option<u16>)
      modifies this
      ensures match TakeU16(old(p)) { case Got(x, rest) => v == Some(x) && p == rest case Fail => v == None }
    {
      if |p| < 2 { return None; }
      Widths();
      NumberBound(p[..2]);
      v, p := Some(Number(p[..2])), p[2..];
    }

    /** A length, and a text of that many bytes. */
    method ReadText(utf8: Text -> bool) returns (v: Option<Text>)
      modifies this
      ensures match TakeText(utf8, old(p)) { case Got(x, rest) => v == Some(x) && p == rest case Fail => v == None }
    {
      hide TakeU16;
      var n := U16();
      if n.None? || |p| < n.value { return None; }
      var s := p[..n.value];
      if !utf8(s) { return None; }
      v, p := Some(s), p[n.value..];
    }

    method Delta(utf8: Text -> bool) returns (v: Option<AggDeltaEntry>)
      modifies this
      ensures match TakeDelta(utf8, old(p)) { case Got(x, rest) => v == Some(x) && p == rest case Fail => v == None }
    {
      hide TakeText, TakeU64;
      var prefix := ReadText(utf8);
      if prefix.None? { return None; }
      var objects := U64();
      if objects.None? { return None; }
      var bytes := U64();
      if bytes.None? { return None; }
      v := Some(AggDeltaEntry(prefix.value, objects.value, bytes.value));
    }

    method Entry(utf8: Text -> bool) returns (v: Option<RemapEntry>)
      modifies this
      ensures match TakeEntry(utf8, old(p)) { case Got(x, rest) => v == Some(x) && p == rest case Fail => v == None }
    {
      hide TakeText, TakeU64, TakeU32;
      var key := ReadText(utf8);
      if key.None? { return None; }
      var lsn := U64();
      if lsn.None? { return None; }
      var offset := U64();
      if offset.None? { return None; }
      var len := U32();
      if len.None? { return None; }
      v := Some(RemapEntry(key.value, lsn.value, offset.value, len.value));
    }

    method Deltas(utf8: Text -> bool, n: nat) returns (out: Option<seq<AggDeltaEntry>>)
      modifies this
      ensures match TakeDeltas(utf8, old(p), n) { case Got(ds, _) => out == Some(ds) case Fail => out == None }
    {
      hide TakeDelta;
      ghost var start := p;
      var ds: seq<AggDeltaEntry> := [];
      ghost var all := TakeDeltas(utf8, start, n);
      assert all.Got? ==> ds + all.value == all.value;
      for i := 0 to n
        invariant TakeDeltas(utf8, start, n) ==
          match TakeDeltas(utf8, p, n - i) { case Got(rest, q) => Got(ds + rest, q) case Fail => Fail }
      {
        var d := Delta(utf8);
        if d.None? { return None; }
        ghost var rest := TakeDeltas(utf8, p, n - i - 1);
        assert rest.Got? ==> ds + ([d.value] + rest.value) == (ds + [d.value]) + rest.value;
        ds := ds + [d.value];
      }
      assert ds + [] == ds;
      out := Some(ds);
    }

    method Entries(utf8: Text -> bool, n: nat) returns (out: Option<seq<RemapEntry>>)
      modifies this
      ensures match TakeEntries(utf8, old(p), n) { case Got(es, _) => out == Some(es) case Fail => out == None }
    {
      hide TakeEntry;
      ghost var start := p;
      var es: seq<RemapEntry> := [];
      ghost var all := TakeEntries(utf8, start, n);
      assert all.Got? ==> es + all.value == all.value;
      for i := 0 to n
        invariant TakeEntries(utf8, start, n) ==
          match TakeEntries(utf8, p, n - i) { case Got(rest, q) => Got(es + rest, q) case Fail => Fail }
      {
        var e := Entry(utf8);
        if e.None? { return None; }
        ghost var rest := TakeEntries(utf8, p, n - i - 1);
        assert rest.Got? ==> es + ([e.value] + rest.value) == (es + [e.value]) + rest.value;
        es := es + [e.value];
      }
      assert es + [] == es;
      out := Some(es);
    }
  }

  /** Decodes with a cursor that moves over the payload, whatever the kind of record. */
  method Decode(utf8: Text -> bool, payload: seq<byte>) returns (rec: Option<Record>)
    ensures rec == match DecodeRecord(utf8, payload) { case Got(r, _) => Some(r) case Fail => None }
  {
    hide TakeU16, TakeU64, TakeU32, TakeText, TakeDeltas, TakeEntries;
    if |payload| < 1 {
      return None;
    }
    var c := new Cursor(payload[1..]);
    match payload[0]
    case 0 =>
      var stripeId := c.U64();
      if stripeId.None? { return None; }
      var len := c.U32();
      if len.None? { return None; }
      var key := c.ReadText(utf8);
      return if key.None? then None else Some(Put(key.value, len.value, stripeId.value));
    case 1 =>
      var lsn := c.U64();
      return if lsn.None? then None else Some(Commit(lsn.value));
    case 2 =>
      var id := c.U64();
      if id.None? { return None; }
      var next := c.U64();
      return if next.None? then None else Some(SegmentSeal(id.value, next.value));
    case 3 =>
      var n := c.U16();
      if n.None? { return None; }
      var ds := c.Deltas(utf8, n.value);
      return if ds.None? then None else Some(AggDelta(ds.value));
    case 4 =>
      var old_ := c.U64();
      if old_.None? { return None; }
      var new_ := c.U64();
      return if new_.None? then None else Some(SegmentSwap(old_.value, new_.value));
    case 5 =>
      var target := c.U64();
      if target.None? { return None; }
      var n := c.U16();
      if n.None? { return None; }
      var es := c.Entries(utf8, n.value);
      return if es.None? then None else Some(SegmentRemap(target.value, es.value));
    case _ => return None;
  }

  // ----- cutting a remap into records

  const CHUNK_BUDGET := 4061
  const MAX_COMPACTABLE_KEY := 4039

  function Cost(e: RemapEntry): nat {
    2 + |e.key| + 20
  }

  /** Where the chunk that starts at i ends: entries are taken while they fit the budget. */
  function ChunkEnd(es: seq<RemapEntry>, j: nat, budget: nat): (end: nat)
    requires j <= |es|
    ensures j <= end <= |es|
    decreases |es| - j
  {
    if j < |es| && Cost(es[j]) <= budget then ChunkEnd(es, j + 1, budget - Cost(es[j])) else j
  }

  /** The chunk loop advances exactly when the next key is at most 4039 bytes long. */
  lemma {:induction false} ChunkProgress(es: seq<RemapEntry>, i: nat)
    requires i < |es|
    ensures ChunkEnd(es, i, CHUNK_BUDGET) > i <==> |es[i].key| <= MAX_COMPACTABLE_KEY
  {
  }

  lemma {:induction false} ChunkFits(es: seq<RemapEntry>, j: nat, budget: nat)
    requires j <= |es| && budget < 0x1_0000
    ensures |EntriesBytes(es[j..ChunkEnd(es, j, budget)])| <= budget
    ensures forall i :: j <= i < ChunkEnd(es, j, budget) ==> Short(es[i].key)
    ensures ChunkEnd(es, j, budget) - j <= budget
    decreases |es| - j
  {
    hide EntryBytes;
    var end := ChunkEnd(es, j, budget);
    if j < |es| && Cost(es[j]) <= budget {
      ChunkFits(es, j + 1, budget - Cost(es[j]));
      assert es[j..end][1..] == es[j + 1..end];
      EntrySize(es[j]);
    } else {
      assert es[j..end] == [];
    }
  }

  lemma {:induction false} EntrySize(e: RemapEntry)
    ensures |EntryBytes(e)| == Cost(e)
  {
  }

  lemma {:induction false} ChunkEncodable(target: u64, es: seq<RemapEntry>, i: nat)
    requires i <= |es|
    ensures Encodable(SegmentRemap(target, es[i..ChunkEnd(es, i, CHUNK_BUDGET)]))
  {
    hide EntriesBytes, LittleEndian;
    ChunkFits(es, i, CHUNK_BUDGET);
  }

  /** One more entry would not fit the budget. */
  lemma {:induction false} ChunkFull(es: seq<RemapEntry>, j: nat, budget: nat)
    requires j <= |es|
    ensures var end := ChunkEnd(es, j, budget); end < |es| ==> |EntriesBytes(es[j..end + 1])| > budget
    decreases |es| - j
  {
    hide EntryBytes;
    var end := ChunkEnd(es, j, budget);
    if end < |es| {
      EntrySize(es[j]);
      if Cost(es[j]) <= budget {
        ChunkFull(es, j + 1, budget - Cost(es[j]));
        assert es[j..end + 1][1..] == es[j + 1..end + 1];
      }
    }
  }

  /** A chunk takes as many entries as fit a block: with the next one the record would be refused. */
  lemma {:induction false} ChunkMaximal(target: u64, es: seq<RemapEntry>, i: nat)
    requires i <= |es|
    ensures var end := ChunkEnd(es, i, CHUNK_BUDGET);
      end < |es| ==> !Encodable(SegmentRemap(target, es[i..end] + [es[end]]))
  {
    hide EntriesBytes;
    var end := ChunkEnd(es, i, CHUNK_BUDGET);
    ChunkFull(es, i, CHUNK_BUDGET);
    if end < |es| { assert es[i..end] + [es[end]] == es[i..end + 1]; }
  }

  /** Each chunk but the last is full. */
  ghost predicate AllFull(target: u64, chunks: seq<seq<RemapEntry>>) {
    forall c :: 0 <= c < |chunks| - 1 && chunks[c + 1] != [] ==>
      !Encodable(SegmentRemap(target, chunks[c] + [chunks[c + 1][0]]))
  }

  function Flatten(chunks: seq<seq<RemapEntry>>): seq<RemapEntry> {
    if |chunks| == 0 then [] else Flatten(chunks[..|chunks| - 1]) + chunks[|chunks| - 1]
  }

  /** Cuts the entries into records that each fit one block, losing and reordering nothing. */
  method ChunkEntries(target: u64, es: seq<RemapEntry>) returns (chunks: seq<seq<RemapEntry>>)
    requires forall i :: 0 <= i < |es| ==> |es[i].key| <= MAX_COMPACTABLE_KEY
    ensures Flatten(chunks) == es
    ensures forall c :: 0 <= c < |chunks| ==> chunks[c] != [] && Encodable(SegmentRemap(target, chunks[c]))
    ensures AllFull(target, chunks)
  {
    hide Encodable;
    chunks := [];
    var i := 0;
    while i < |es|
      invariant 0 <= i <= |es| && Flatten(chunks) == es[..i]
      invariant forall c :: 0 <= c < |chunks| ==> chunks[c] != [] && Encodable(SegmentRemap(target, chunks[c]))
      invariant AllFull(target, chunks)
      invariant |chunks| > 0 && i < |es| ==> !Encodable(SegmentRemap(target, chunks[|chunks| - 1] + [es[i]]))
    {
      var j := TakeChunk(es, i);
      ChunkProgress(es, i);
      ChunkEncodable(target, es, i);
      ChunkMaximal(target, es, i);
      ghost var before := chunks;
      chunks := chunks + [es[i..j]];
      assert chunks[..|chunks| - 1] == before;
      assert es[..i] + es[i..j] == es[..j];
      i := j;
    }
    assert es[..i] == es;
  }

  method TakeChunk(es: seq<RemapEntry>, i: nat) returns (j: nat)
    requires i <= |es|
    ensures j == ChunkEnd(es, i, CHUNK_BUDGET)
  {
    var budget := CHUNK_BUDGET;
    j := i;
    while j < |es| && Cost(es[j]) <= budget
      invariant i <= j <= |es| && 0 <= budget
      invariant ChunkEnd(es, j, budget) == ChunkEnd(es, i, CHUNK_BUDGET)
    {
      budget := budget - Cost(es[j]);
      j := j + 1;
    }
  }
}
