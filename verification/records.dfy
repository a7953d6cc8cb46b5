/** WAL records and their byte encoding. */
module Records {
  import Block
  import opened Bytes

  /** Keys and prefixes, as the bytes of a UTF-8 string. */
  type Text = seq<byte>

  datatype AggDeltaEntry = AggDeltaEntry(prefix: Text, objectDelta: u64, byteDelta: u64)
  datatype RemapEntry = RemapEntry(key: Text, lsn: u64, offset: u64, len: u32)

  datatype Record =
    | Put(key: Text, len: u32, stripeId: u64)
    | Commit(lsn: u64)
    | SegmentSeal(segmentId: u64, nextSegmentId: u64)
    | AggDelta(deltas: seq<AggDeltaEntry>)
    | SegmentSwap(oldSegmentId: u64, newSegmentId: u64)
    | SegmentRemap(targetId: u64, entries: seq<RemapEntry>)

  function Tag(rec: Record): byte {
    match rec
    case Put(_, _, _) => 0
    case Commit(_) => 1
    case SegmentSeal(_, _) => 2
    case AggDelta(_) => 3
    case SegmentSwap(_, _) => 4
    case SegmentRemap(_, _) => 5
  }

  // ----- encoding

  predicate Short(s: Text) {
    |s| < 0x1_0000
  }

  function TextBytes(s: Text): seq<byte> {
    LittleEndian(|s|, 2) + s
  }

  function DeltaBytes(d: AggDeltaEntry): seq<byte> {
    TextBytes(d.prefix) + LittleEndian(d.objectDelta, 8) + LittleEndian(d.byteDelta, 8)
  }

  function DeltasBytes(ds: seq<AggDeltaEntry>): seq<byte> {
    if |ds| == 0 then [] else DeltaBytes(ds[0]) + DeltasBytes(ds[1..])
  }

  function EntryBytes(e: RemapEntry): seq<byte> {
    TextBytes(e.key) + LittleEndian(e.lsn, 8) + LittleEndian(e.offset, 8) + LittleEndian(e.len, 4)
  }

  function EntriesBytes(es: seq<RemapEntry>): seq<byte> {
    if |es| == 0 then [] else EntryBytes(es[0]) + EntriesBytes(es[1..])
  }

  function RecordBytes(rec: Record): seq<byte> {
    [Tag(rec)] +
    match rec
    case Put(key, len, stripeId) => LittleEndian(stripeId, 8) + LittleEndian(len, 4) + TextBytes(key)
    case Commit(lsn) => LittleEndian(lsn, 8)
    case SegmentSeal(id, next) => LittleEndian(id, 8) + LittleEndian(next, 8)
    case AggDelta(ds) => LittleEndian(|ds|, 2) + DeltasBytes(ds)
    case SegmentSwap(old_, new_) => LittleEndian(old_, 8) + LittleEndian(new_, 8)
    case SegmentRemap(target, es) => LittleEndian(target, 8) + LittleEndian(|es|, 2) + EntriesBytes(es)
  }

  /** Every length fits its 16-bit field. */
  predicate LengthsFit(rec: Record) {
    match rec
    case Put(key, _, _) => Short(key)
    case AggDelta(ds) => |ds| < 0x1_0000 && forall i :: 0 <= i < |ds| ==> Short(ds[i].prefix)
    case SegmentRemap(_, es) => |es| < 0x1_0000 && forall i :: 0 <= i < |es| ==> Short(es[i].key)
    case _ => true
  }

  predicate Encodable(rec: Record) {
    LengthsFit(rec) && |RecordBytes(rec)| <= Block.PAYLOAD_MAX
  }

  // ----- decoding

  datatype Parsed<+T> = Fail | Got(value: T, rest: seq<byte>) {
    predicate IsFailure() { Fail? }
    function PropagateFailure<U>(): Parsed<U> requires Fail? { Fail }
    function Extract(): (T, seq<byte>) requires Got? { (value, rest) }
  }

  function Take(p: seq<byte>, n: nat): Parsed<seq<byte>> {
    if |p| < n then Fail else Got(p[..n], p[n..])
  }

  function TakeNumber(p: seq<byte>, n: nat): (r: Parsed<nat>)
    ensures r.Got? ==> r.value < Pow256(n)
  {
    var (b, rest) :- Take(p, n);
    NumberBound(b);
    Got(Number(b), rest)
  }

  function TakeU64(p: seq<byte>): Parsed<u64> {
    Widths();
    var (v, rest) :- TakeNumber(p, 8);
    Got(v, rest)
  }

  function TakeU32(p: seq<byte>): Parsed<u32> {
    Widths();
    var (v, rest) :- TakeNumber(p, 4);
    Got(v, rest)
  }

  function TakeU16(p: seq<byte>): Parsed<u16> {
    Widths();
    var (v, rest) :- TakeNumber(p, 2);
    Got(v, rest)
  }

  /** A length-prefixed text; `utf8` stands for the validity test of the string library. */
  function TakeText(utf8: Text -> bool, p: seq<byte>): Parsed<Text> {
    var (n, p1) :- TakeU16(p);
    var (s, p2) :- Take(p1, n);
    if utf8(s) then Got(s, p2) else Fail
  }

  function TakeDelta(utf8: Text -> bool, p: seq<byte>): Parsed<AggDeltaEntry> {
    var (prefix, p1) :- TakeText(utf8, p);
    var (objects, p2) :- TakeU64(p1);
    var (bytes, p3) :- TakeU64(p2);
    Got(AggDeltaEntry(prefix, objects, bytes), p3)
  }

  function TakeDeltas(utf8: Text -> bool, p: seq<byte>, n: nat): Parsed<seq<AggDeltaEntry>>
    decreases n
  {
    if n == 0 then Got([], p)
    else
      var (d, p1) :- TakeDelta(utf8, p);
      var (ds, p2) :- TakeDeltas(utf8, p1, n - 1);
      Got([d] + ds, p2)
  }

  function TakeEntry(utf8: Text -> bool, p: seq<byte>): Parsed<RemapEntry> {
    var (key, p1) :- TakeText(utf8, p);
    var (lsn, p2) :- TakeU64(p1);
    var (offset, p3) :- TakeU64(p2);
    var (len, p4) :- TakeU32(p3);
    Got(RemapEntry(key, lsn, offset, len), p4)
  }

  function TakeEntries(utf8: Text -> bool, p: seq<byte>, n: nat): Parsed<seq<RemapEntry>>
    decreases n
  {
    if n == 0 then Got([], p)
    else
      var (e, p1) :- TakeEntry(utf8, p);
      var (es, p2) :- TakeEntries(utf8, p1, n - 1);
      Got([e] + es, p2)
  }

  function DecodeRecord(utf8: Text -> bool, payload: seq<byte>): Parsed<Record> {
    var (tag, p) :- Take(payload, 1);
    match tag[0]
    case 0 =>
      var (stripeId, p1) :- TakeU64(p);
      var (len, p2) :- TakeU32(p1);
      var (key, p3) :- TakeText(utf8, p2);
      Got(Put(key, len, stripeId), p3)
    case 1 =>
      var (lsn, p1) :- TakeU64(p);
      Got(Commit(lsn), p1)
    case 2 =>
      var (id, p1) :- TakeU64(p);
      var (next, p2) :- TakeU64(p1);
      Got(SegmentSeal(id, next), p2)
    case 3 =>
      var (n, p1) :- TakeU16(p);
      var (ds, p2) :- TakeDeltas(utf8, p1, n);
      Got(AggDelta(ds), p2)
    case 4 =>
      var (old_, p1) :- TakeU64(p);
      var (new_, p2) :- TakeU64(p1);
      Got(SegmentSwap(old_, new_), p2)
    case 5 =>
      var (target, p1) :- TakeU64(p);
      var (n, p2) :- TakeU16(p1);
      var (es, p3) :- TakeEntries(utf8, p2, n);
      Got(SegmentRemap(target, es), p3)
    case _ => Fail
  }

  // ----- round trip

  ghost predicate TextsValid(utf8: Text -> bool, rec: Record) {
    match rec
    case Put(key, _, _) => utf8(key)
    case AggDelta(ds) => forall i :: 0 <= i < |ds| ==> utf8(ds[i].prefix)
    case SegmentRemap(_, es) => forall i :: 0 <= i < |es| ==> utf8(es[i].key)
    case _ => true
  }

  lemma {:induction false} TakeLittleEndian(v: nat, n: nat, rest: seq<byte>)
    requires v < Pow256(n)
    ensures TakeNumber(LittleEndian(v, n) + rest, n) == Got(v, rest)
  {
    var s := LittleEndian(v, n);
    assert (s + rest)[..n] == s && (s + rest)[n..] == rest;
    LittleEndianRoundTrip(v, n);
  }

  lemma {:induction false} TakeNumbers(rest: seq<byte>)
    ensures forall v: u64 :: TakeU64(LittleEndian(v, 8) + rest) == Got(v, rest)
    ensures forall v: u32 :: TakeU32(LittleEndian(v, 4) + rest) == Got(v, rest)
    ensures forall v: u16 :: TakeU16(LittleEndian(v, 2) + rest) == Got(v, rest)
  {
    Widths();
    forall v: u64 ensures TakeU64(LittleEndian(v, 8) + rest) == Got(v, rest) { TakeLittleEndian(v, 8, rest); }
    forall v: u32 ensures TakeU32(LittleEndian(v, 4) + rest) == Got(v, rest) { TakeLittleEndian(v, 4, rest); }
    forall v: u16 ensures TakeU16(LittleEndian(v, 2) + rest) == Got(v, rest) { TakeLittleEndian(v, 2, rest); }
  }

  lemma {:induction false} TakeTextBytes(utf8: Text -> bool, s: Text, rest: seq<byte>)
    requires Short(s) && utf8(s)
    ensures TakeText(utf8, TextBytes(s) + rest) == Got(s, rest)
  {
    hide TakeU16, LittleEndian;
    assert TextBytes(s) + rest == LittleEndian(|s|, 2) + (s + rest);
    TakeNumbers(s + rest);
    assert (s + rest)[..|s|] == s && (s + rest)[|s|..] == rest;
  }

  lemma {:induction false} TakeDeltaBytes(utf8: Text -> bool, d: AggDeltaEntry, rest: seq<byte>)
    requires Short(d.prefix) && utf8(d.prefix)
    ensures TakeDelta(utf8, DeltaBytes(d) + rest) == Got(d, rest)
  {
    hide TakeU64, TakeText, TextBytes, LittleEndian;
    var b := LittleEndian(d.byteDelta, 8) + rest;
    var a := LittleEndian(d.objectDelta, 8) + b;
    assert DeltaBytes(d) + rest == TextBytes(d.prefix) + a;
    TakeTextBytes(utf8, d.prefix, a);
    TakeNumbers(b);
    TakeNumbers(rest);
  }

  lemma {:induction false} TakeDeltasBytes(utf8: Text -> bool, ds: seq<AggDeltaEntry>, rest: seq<byte>)
    requires forall i :: 0 <= i < |ds| ==> Short(ds[i].prefix) && utf8(ds[i].prefix)
    ensures TakeDeltas(utf8, DeltasBytes(ds) + rest, |ds|) == Got(ds, rest)
    decreases |ds|
  {
    hide TakeDelta, DeltaBytes;
    if |ds| == 0 {
      assert DeltasBytes(ds) + rest == rest;
    } else {
      var tail := DeltasBytes(ds[1..]) + rest;
      assert DeltasBytes(ds) + rest == DeltaBytes(ds[0]) + tail;
      TakeDeltaBytes(utf8, ds[0], tail);
      TakeDeltasBytes(utf8, ds[1..], rest);
      assert [ds[0]] + ds[1..] == ds;
    }
  }

  lemma {:induction false} TakeEntryBytes(utf8: Text -> bool, e: RemapEntry, rest: seq<byte>)
    requires Short(e.key) && utf8(e.key)
    ensures TakeEntry(utf8, EntryBytes(e) + rest) == Got(e, rest)
  {
    hide TakeU64, TakeU32, TakeText, TextBytes, LittleEndian;
    var c := LittleEndian(e.len, 4) + rest;
    var b := LittleEndian(e.offset, 8) + c;
    var a := LittleEndian(e.lsn, 8) + b;
    assert EntryBytes(e) + rest == TextBytes(e.key) + a;
    TakeTextBytes(utf8, e.key, a);
    TakeNumbers(b);
    TakeNumbers(c);
    TakeNumbers(rest);
  }

  lemma {:induction false} TakeEntriesBytes(utf8: Text -> bool, es: seq<RemapEntry>, rest: seq<byte>)
    requires forall i :: 0 <= i < |es| ==> Short(es[i].key) && utf8(es[i].key)
    ensures TakeEntries(utf8, EntriesBytes(es) + rest, |es|) == Got(es, rest)
    decreases |es|
  {
    hide TakeEntry, EntryBytes;
    if |es| == 0 {
      assert EntriesBytes(es) + rest == rest;
    } else {
      var tail := EntriesBytes(es[1..]) + rest;
      assert EntriesBytes(es) + rest == EntryBytes(es[0]) + tail;
      TakeEntryBytes(utf8, es[0], tail);
      TakeEntriesBytes(utf8, es[1..], rest);
      assert [es[0]] + es[1..] == es;
    }
  }

  /** Decoding an encoded record gives the record back, and consumes exactly its bytes, whatever follows. */
  lemma {:induction false} RecordPrefix(utf8: Text -> bool, rec: Record, rest: seq<byte>)
    requires LengthsFit(rec) && TextsValid(utf8, rec)
    ensures DecodeRecord(utf8, RecordBytes(rec) + rest) == Got(rec, rest)
  {
    hide TakeU64, TakeU32, TakeU16, TakeText, TextBytes, LittleEndian, TakeDeltas, TakeEntries, DeltasBytes;
    hide EntriesBytes;
    var p := RecordBytes(rec) + rest;
    var body := p[1..];
    assert p[..1] == [Tag(rec)];
    TakeNumbers(rest);
    match rec {
      case Put(key, len, stripeId) =>
        var b := TextBytes(key) + rest;
        var a := LittleEndian(len, 4) + b;
        assert body == LittleEndian(stripeId, 8) + a;
        TakeNumbers(a); TakeNumbers(b);
        TakeTextBytes(utf8, key, rest);
      case Commit(lsn) =>
        assert body == LittleEndian(lsn, 8) + rest;
      case SegmentSeal(id, next) =>
        var a := LittleEndian(next, 8) + rest;
        assert body == LittleEndian(id, 8) + a;
        TakeNumbers(a);
      case AggDelta(ds) =>
        var a := DeltasBytes(ds) + rest;
        assert body == LittleEndian(|ds|, 2) + a;
        TakeNumbers(a);
        TakeDeltasBytes(utf8, ds, rest);
      case SegmentSwap(o, n) =>
        var a := LittleEndian(n, 8) + rest;
        assert body == LittleEndian(o, 8) + a;
        TakeNumbers(a);
      case SegmentRemap(target, es) =>
        var b := EntriesBytes(es) + rest;
        var a := LittleEndian(|es|, 2) + b;
        assert body == LittleEndian(target, 8) + a;
        TakeNumbers(a); TakeNumbers(b);
        TakeEntriesBytes(utf8, es, rest);
    }
  }

  lemma {:induction false} RecordRoundTrip(utf8: Text -> bool, rec: Record)
    requires LengthsFit(rec) && TextsValid(utf8, rec)
    ensures DecodeRecord(utf8, RecordBytes(rec)) == Got(rec, [])
  {
    hide DecodeRecord, RecordBytes;
    RecordPrefix(utf8, rec, []);
    assert RecordBytes(rec) + [] == RecordBytes(rec);
  }

  // ----- only encoded records decode

  lemma {:induction false} LittleEndianOfNumber(s: seq<byte>)
    ensures LittleEndian(Number(s), |s|) == s
  {
    NumberBound(s);
    LittleEndianRoundTrip(Number(s), |s|);
    NumberInjective(LittleEndian(Number(s), |s|), s);
  }

  lemma {:induction false} NumberTaken(p: seq<byte>, n: nat)
    requires TakeNumber(p, n).Got?
    ensures var t := TakeNumber(p, n); p == LittleEndian(t.value, n) + t.rest
  {
    LittleEndianOfNumber(p[..n]);
    assert p == p[..n] + p[n..];
  }

  lemma {:induction false} NumbersTaken(p: seq<byte>)
    ensures var t := TakeU64(p); t.Got? ==> p == LittleEndian(t.value, 8) + t.rest
    ensures var t := TakeU32(p); t.Got? ==> p == LittleEndian(t.value, 4) + t.rest
    ensures var t := TakeU16(p); t.Got? ==> p == LittleEndian(t.value, 2) + t.rest
  {
    hide LittleEndian;
    if |p| >= 8 { NumberTaken(p, 8); }
    if |p| >= 4 { NumberTaken(p, 4); }
    if |p| >= 2 { NumberTaken(p, 2); }
  }

  lemma {:induction false} TextTaken(utf8: Text -> bool, p: seq<byte>)
    ensures var t := TakeText(utf8, p);
      t.Got? ==> Short(t.value) && utf8(t.value) && p == TextBytes(t.value) + t.rest
  {
    hide LittleEndian, TakeU16;
    NumbersTaken(p);
    var t := TakeU16(p);
    if t.Got? && |t.rest| >= t.value {
      assert t.rest == t.rest[..t.value] + t.rest[t.value..];
    }
  }

  lemma {:induction false} DeltaTaken(utf8: Text -> bool, p: seq<byte>)
    ensures var t := TakeDelta(utf8, p);
      t.Got? ==> Short(t.value.prefix) && utf8(t.value.prefix) && p == DeltaBytes(t.value) + t.rest
  {
    hide LittleEndian, TakeText, TakeU64, TextBytes;
    TextTaken(utf8, p);
    var t := TakeText(utf8, p);
    if t.Got? {
      NumbersTaken(t.rest);
      var o := TakeU64(t.rest);
      if o.Got? { NumbersTaken(o.rest); }
    }
  }

  lemma {:induction false} EntryTaken(utf8: Text -> bool, p: seq<byte>)
    ensures var t := TakeEntry(utf8, p);
      t.Got? ==> Short(t.value.key) && utf8(t.value.key) && p == EntryBytes(t.value) + t.rest
  {
    hide LittleEndian, TakeText, TakeU64, TakeU32, TextBytes;
    TextTaken(utf8, p);
    var t := TakeText(utf8, p);
    if t.Got? {
      NumbersTaken(t.rest);
      var l := TakeU64(t.rest);
      if l.Got? {
        NumbersTaken(l.rest);
        var o := TakeU64(l.rest);
        if o.Got? { NumbersTaken(o.rest); }
      }
    }
  }

  lemma {:induction false} DeltasTaken(utf8: Text -> bool, p: seq<byte>, n: nat)
    ensures var t := TakeDeltas(utf8, p, n);
      t.Got? ==>
        && |t.value| == n && p == DeltasBytes(t.value) + t.rest
        && forall i :: 0 <= i < n ==> Short(t.value[i].prefix) && utf8(t.value[i].prefix)
    decreases n
  {
    hide TakeDelta, DeltaBytes;
    if n == 0 {
      assert p == [] + p;
    } else {
      DeltaTaken(utf8, p);
      var d := TakeDelta(utf8, p);
      if d.Got? {
        DeltasTaken(utf8, d.rest, n - 1);
        var t := TakeDeltas(utf8, d.rest, n - 1);
        if t.Got? {
          var ds := [d.value] + t.value;
          assert ds[1..] == t.value;
          assert DeltasBytes(ds) + t.rest == DeltaBytes(d.value) + (DeltasBytes(t.value) + t.rest);
        }
      }
    }
  }

  lemma {:induction false} EntriesTaken(utf8: Text -> bool, p: seq<byte>, n: nat)
    ensures var t := TakeEntries(utf8, p, n);
      t.Got? ==>
        && |t.value| == n && p == EntriesBytes(t.value) + t.rest
        && forall i :: 0 <= i < n ==> Short(t.value[i].key) && utf8(t.value[i].key)
    decreases n
  {
    hide TakeEntry, EntryBytes;
    if n == 0 {
      assert p == [] + p;
    } else {
      EntryTaken(utf8, p);
      var e := TakeEntry(utf8, p);
      if e.Got? {
        EntriesTaken(utf8, e.rest, n - 1);
        var t := TakeEntries(utf8, e.rest, n - 1);
        if t.Got? {
          var es := [e.value] + t.value;
          assert es[1..] == t.value;
          assert EntriesBytes(es) + t.rest == EntryBytes(e.value) + (EntriesBytes(t.value) + t.rest);
        }
      }
    }
  }

  /** What decodes is the encoding of a record, and its lengths and texts are valid. */
  ghost predicate Faithful(utf8: Text -> bool, p: seq<byte>) {
    var t := DecodeRecord(utf8, p);
    t.Got? ==> LengthsFit(t.value) && TextsValid(utf8, t.value) && p == RecordBytes(t.value) + t.rest
  }

  lemma {:induction false} PutTaken(utf8: Text -> bool, p: seq<byte>)
    requires |p| > 0 && p[0] == 0
    ensures Faithful(utf8, p)
  {
    hide LittleEndian, TakeText, TakeU64, TakeU32, TakeU16, TextBytes, TakeDeltas, TakeEntries, DeltasBytes;
    hide EntriesBytes;
    var q := p[1..];
    assert p == [p[0]] + q;
    NumbersTaken(q);
    var a := TakeU64(q);
    if a.Got? {
      NumbersTaken(a.rest);
      var l := TakeU32(a.rest);
      if l.Got? { TextTaken(utf8, l.rest); }
    }
  }

  lemma {:induction false} FixedTaken(utf8: Text -> bool, p: seq<byte>)
    requires |p| > 0 && (p[0] == 1 || p[0] == 2 || p[0] == 4)
    ensures Faithful(utf8, p)
  {
    hide LittleEndian, TakeText, TakeU64, TakeU32, TakeU16, TextBytes, TakeDeltas, TakeEntries, DeltasBytes;
    hide EntriesBytes;
    var q := p[1..];
    assert p == [p[0]] + q;
    NumbersTaken(q);
    var a := TakeU64(q);
    if a.Got? { NumbersTaken(a.rest); }
  }

  lemma {:induction false} AggTaken(utf8: Text -> bool, p: seq<byte>)
    requires |p| > 0 && p[0] == 3
    ensures Faithful(utf8, p)
  {
    hide LittleEndian, TakeText, TakeU64, TakeU32, TakeU16, TextBytes, TakeDeltas, TakeEntries, DeltasBytes;
    hide EntriesBytes;
    var q := p[1..];
    assert p == [p[0]] + q;
    NumbersTaken(q);
    var n := TakeU16(q);
    if n.Got? { DeltasTaken(utf8, n.rest, n.value); }
  }

  lemma {:induction false} RemapTaken(utf8: Text -> bool, p: seq<byte>)
    requires |p| > 0 && p[0] == 5
    ensures Faithful(utf8, p)
  {
    hide LittleEndian, TakeText, TakeU64, TakeU32, TakeU16, TextBytes, TakeDeltas, TakeEntries, DeltasBytes;
    hide EntriesBytes;
    var q := p[1..];
    assert p == [p[0]] + q;
    NumbersTaken(q);
    var a := TakeU64(q);
    if a.Got? {
      NumbersTaken(a.rest);
      var n := TakeU16(a.rest);
      if n.Got? { EntriesTaken(utf8, n.rest, n.value); }
    }
  }

  lemma {:induction false} RecordTaken(utf8: Text -> bool, p: seq<byte>)
    ensures Faithful(utf8, p)
  {
    if |p| > 0 {
      if p[0] == 0 { PutTaken(utf8, p); }
      if p[0] == 1 || p[0] == 2 || p[0] == 4 { FixedTaken(utf8, p); }
      if p[0] == 3 { AggTaken(utf8, p); }
      if p[0] == 5 { RemapTaken(utf8, p); }
    }
    hide LengthsFit, TextsValid, RecordBytes, TakeU64, TakeU32, TakeU16, TakeText, TakeDeltas, TakeEntries;
  }

  /** Decoding, exactly: a payload decodes to a record with some bytes left over if and only if it is the
      encoding of that record, of valid lengths and texts, followed by those bytes. */
  lemma {:induction false} DecodesExactly(utf8: Text -> bool, p: seq<byte>, rec: Record, rest: seq<byte>)
    ensures DecodeRecord(utf8, p) == Got(rec, rest) <==>
      LengthsFit(rec) && TextsValid(utf8, rec) && p == RecordBytes(rec) + rest
  {
    hide DecodeRecord, RecordBytes, LengthsFit, TextsValid;
    RecordTaken(utf8, p);
    if LengthsFit(rec) && TextsValid(utf8, rec) { RecordPrefix(utf8, rec, rest); }
  }
}
