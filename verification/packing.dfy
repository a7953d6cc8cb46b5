/** How puts fill segments: a segment is sealed when the next value does not fit, or when its only value is larger than
    the limit, and for no other reason. */
module Packing {
  import opened Bytes
  import opened Records
  import opened Wal
  import opened LogModel
  import opened Disk
  import opened Leader
  import RecordCodec
  import Runs

  /** The value does not fit behind what the open segment has. */
  predicate Overflows(off: nat, len: nat, limit: nat) {
    off > 0 && off + len > limit
  }

  /** What a put adds to the log. */
  function PutRecords(m: Memory, nextFree: nat, lsn: nat, key: Text, len: u32, deltas: seq<AggDeltaEntry>,
                      limit: nat): seq<Entry>
    requires lsn + 6 <= MAX_U64 && nextFree + 2 < MAX_U64 && m.active <= MAX_U64
  {
    var over := Overflows(m.off, len, limit);
    var n, at := if over then lsn + 1 else lsn, if over then nextFree else m.active;
    var next := if over then nextFree + 1 else nextFree;
    (if over then [Entry(lsn, SegmentSeal(m.active, nextFree))] else []) +
    [Entry(n, Put(key, len, n)), Entry(n + 1, AggDelta(deltas))] +
    (if len > limit then [Entry(n + 2, SegmentSeal(at, next))] else [])
  }

  /** A put in full: the records, the place of the value, and what is open afterwards. */
  lemma {:induction false} StagedFields(s: Store, key: Text, value: seq<byte>, deltas: seq<AggDeltaEntry>, limit: nat)
    requires RoomForPut(s) && |value| < 0x1_0000_0000
    ensures var t, len := StagePut(s, key, value, deltas, limit), |value|;
      var over, big := s.mem.off > 0 && s.mem.off + len > limit, len > limit;
      var at, off := if over then s.nextFree else s.mem.active, if over then 0 else s.mem.off;
      && t.log == s.log + PutRecords(s.mem, s.nextFree, s.nextLsn, key, len, deltas, limit)
      && |t.log| == |s.log| + 2 + (if over then 1 else 0) + (if big then 1 else 0)
      && t.mem.index == s.mem.index[key := Loc(at, off, len, if over then s.nextLsn + 1 else s.nextLsn)]
      && t.nextFree == s.nextFree + (if over then 1 else 0) + (if big then 1 else 0)
      && t.mem.active == (if big then t.nextFree - 1 else at) && t.mem.off == (if big then 0 else off + len)
  {
    hide PutOn, SealOn, WriteAt, Opened;
  }

  // ----- segments of a whole run

  /** Why a segment was sealed: the next record is a put that did not fit, or its only value exceeds the limit. */
  ghost predicate Needed(log: seq<Entry>, i: nat, limit: nat)
    requires i < |log|
  {
    var off := On(log[..i]).r.off;
    || (off > 0 && i + 1 < |log| && log[i + 1].rec.Put? && off + log[i + 1].rec.len > limit)
    || (i >= 2 && log[i - 2].rec.Put? && log[i - 2].rec.len == off > limit)
  }

  /** No segment is sealed without need. */
  ghost predicate SealedByNeed(log: seq<Entry>, limit: nat) {
    forall i :: 0 <= i < |log| && log[i].rec.SegmentSeal? ==> Needed(log, i, limit)
  }

  /** No segment has more than the limit, but for a single value. */
  ghost predicate Bounded(log: seq<Entry>, limit: nat) {
    forall i :: 0 <= i < |log| && log[i].rec.Put? ==>
      On(log[..i + 1]).r.off <= limit || On(log[..i + 1]).r.off == log[i].rec.len
  }

  ghost predicate Packed(log: seq<Entry>, limit: nat) {
    SealedByNeed(log, limit) && Bounded(log, limit) && On(log).r.off <= limit
  }

  lemma {:induction false} PrefixOver<T>(log: seq<T>, es: seq<T>, i: nat)
    requires i <= |log|
    ensures (log + es)[..i] == log[..i]
  {
  }

  lemma {:induction false} PrefixStep<T>(l: seq<T>, i: nat)
    requires i < |l|
    ensures l[..i + 1] == l[..i] + [l[i]]
  {
  }

  lemma {:induction false} WholePrefix<T>(l: seq<T>)
    ensures l[..|l|] == l
  {
  }

  lemma {:induction false} NeededOver(log: seq<Entry>, es: seq<Entry>, i: nat, limit: nat)
    requires i < |log| && Needed(log, i, limit)
    ensures Needed(log + es, i, limit)
  {
    hide On;
    PrefixOver(log, es, i);
  }

  /** Records behind a packed log: only their own seals and puts are in question. */
  lemma {:induction false} PackedOver(log: seq<Entry>, es: seq<Entry>, limit: nat)
    requires Packed(log, limit) && On(log + es).r.off <= limit
    requires forall i :: |log| <= i < |log + es| && (log + es)[i].rec.SegmentSeal? ==> Needed(log + es, i, limit)
    requires forall i :: |log| <= i < |log + es| && (log + es)[i].rec.Put? ==>
      On((log + es)[..i + 1]).r.off <= limit || On((log + es)[..i + 1]).r.off == (log + es)[i].rec.len
    ensures Packed(log + es, limit)
  {
    hide On, Needed;
    var l := log + es;
    forall i | 0 <= i < |l| && l[i].rec.SegmentSeal? ensures Needed(l, i, limit) {
      if i < |log| { assert log[i] == l[i]; NeededOver(log, es, i, limit); }
    }
    forall i | 0 <= i < |l| && l[i].rec.Put?
      ensures On(l[..i + 1]).r.off <= limit || On(l[..i + 1]).r.off == l[i].rec.len
    {
      if i < |log| { assert log[i] == l[i]; PrefixOver(log, es, i + 1); }
    }
  }

  /** Records that are neither puts nor seals leave the open segment as it is. */
  lemma {:induction false} SameOffset(log: seq<Entry>, es: seq<Entry>)
    requires forall i :: 0 <= i < |es| ==> !es[i].rec.Put? && !es[i].rec.SegmentSeal?
    ensures On(log + es).r.off == On(log).r.off
    decreases |es|
  {
    hide On, After;
    if |es| == 0 {
      assert log + es == log;
    } else {
      var n := |es| - 1;
      SameOffset(log, es[..n]);
      assert log + es == log + es[..n] + [es[n]];
      OnAppend(log + es[..n], es[n]);
      OffsetAfter(On(log + es[..n]), es[n]);
    }
  }

  lemma {:induction false} OffsetAfter(s: Live, e: Entry)
    ensures After(s, e).r.off ==
      if e.rec.Put? then s.r.off + e.rec.len else if e.rec.SegmentSeal? then 0 else s.r.off
  {
    hide MoveIndex, MoveLocs, Extent;
  }

  lemma {:induction false} OffsetAppend(log: seq<Entry>, e: Entry)
    ensures On(log + [e]).r.off ==
      if e.rec.Put? then On(log).r.off + e.rec.len else if e.rec.SegmentSeal? then 0 else On(log).r.off
  {
    hide On, After;
    OnAppend(log, e);
    OffsetAfter(On(log), e);
  }

  lemma {:induction false} PackedByOthers(log: seq<Entry>, es: seq<Entry>, limit: nat)
    requires Packed(log, limit) && forall i :: 0 <= i < |es| ==> !es[i].rec.Put? && !es[i].rec.SegmentSeal?
    ensures Packed(log + es, limit)
  {
    hide On, Needed;
    SameOffset(log, es);
    forall i | |log| <= i < |log + es| ensures !(log + es)[i].rec.Put? && !(log + es)[i].rec.SegmentSeal? {
      assert (log + es)[i] == es[i - |log|];
    }
    PackedOver(log, es, limit);
  }

  /** Where the parts of a put's records are. */
  lemma {:induction false} PutParts(log: seq<Entry>, m: Memory, nextFree: nat, lsn: nat, key: Text, len: u32,
                                    deltas: seq<AggDeltaEntry>, limit: nat)
    requires lsn + 6 <= MAX_U64 && nextFree + 2 < MAX_U64 && m.active <= MAX_U64
    ensures var l, over := log + PutRecords(m, nextFree, lsn, key, len, deltas, limit), Overflows(m.off, len, limit);
      var p := |log| + (if over then 1 else 0);
      && |l| == p + 2 + (if len > limit then 1 else 0) && l[..|log|] == log
      && (over ==> l[|log|].rec.SegmentSeal?) && l[p].rec == Put(key, len, l[p].lsn)
      && l[p + 1].rec == AggDelta(deltas) && (len > limit ==> l[p + 2].rec.SegmentSeal?)
  {
    hide Overflows;
  }

  /** How much the open segment has before each of them. */
  lemma {:induction false} PutOffsets(log: seq<Entry>, m: Memory, nextFree: nat, lsn: nat, key: Text, len: u32,
                                      deltas: seq<AggDeltaEntry>, limit: nat)
    requires lsn + 6 <= MAX_U64 && nextFree + 2 < MAX_U64 && m.active <= MAX_U64 && On(log).r.off == m.off
    ensures var l, over := log + PutRecords(m, nextFree, lsn, key, len, deltas, limit), Overflows(m.off, len, limit);
      var p, off := |log| + (if over then 1 else 0), if over then 0 else m.off;
      && |l| == p + 2 + (if len > limit then 1 else 0)
      && (over ==> l[|log|].rec.SegmentSeal? && On(l[..|log|]).r.off == m.off)
      && l[p].rec == Put(key, len, l[p].lsn) && l[p + 1].rec == AggDelta(deltas)
      && On(l[..p + 1]).r.off == off + len && On(l[..p + 2]).r.off == off + len
      && (len > limit ==> l[p + 2].rec.SegmentSeal?) && On(l).r.off == if len > limit then 0 else off + len
  {
    hide On, Overflows, PutRecords;
    PutParts(log, m, nextFree, lsn, key, len, deltas, limit);
    var l, over := log + PutRecords(m, nextFree, lsn, key, len, deltas, limit), Overflows(m.off, len, limit);
    var p := |log| + (if over then 1 else 0);
    if over { OffsetStep(l, |log|); }
    OffsetStep(l, p);
    OffsetStep(l, p + 1);
    if len > limit { OffsetStep(l, p + 2); }
    WholePrefix(l);
  }

  lemma {:induction false} OffsetStep(l: seq<Entry>, i: nat)
    requires i < |l|
    ensures On(l[..i + 1]).r.off ==
      if l[i].rec.Put? then On(l[..i]).r.off + l[i].rec.len
      else if l[i].rec.SegmentSeal? then 0 else On(l[..i]).r.off
  {
    hide On;
    PrefixStep(l, i);
    OffsetAppend(l[..i], l[i]);
  }

  lemma {:induction false} PackedByPut(log: seq<Entry>, m: Memory, nextFree: nat, lsn: nat, key: Text, len: u32,
                                       deltas: seq<AggDeltaEntry>, limit: nat)
    requires lsn + 6 <= MAX_U64 && nextFree + 2 < MAX_U64 && m.active <= MAX_U64
    requires Packed(log, limit) && On(log).r.off == m.off
    ensures Packed(log + PutRecords(m, nextFree, lsn, key, len, deltas, limit), limit)
  {
    hide On, PutRecords, SealedByNeed, Bounded;
    PutOffsets(log, m, nextFree, lsn, key, len, deltas, limit);
    PackedOver(log, PutRecords(m, nextFree, lsn, key, len, deltas, limit), limit);
  }

  /** What a client does: puts, commits, and compactions, each of them carried to its end. */
  datatype Op =
    | PutValue(key: Text, value: seq<byte>, deltas: seq<AggDeltaEntry>)
    | CommitAt(lsn: u64)
    | CompactAt(from: nat, horizon: nat, chunks: seq<seq<RemapEntry>>, lsn: u64)

  ghost predicate Can(s: Store, op: Op) {
    && s.plan.None?
    && match op
       case PutValue(_, value, _) => RoomForPut(s) && |value| < 0x1_0000_0000
       case CommitAt(_) => s.nextLsn <= MAX_U64
       case CompactAt(from, horizon, chunks, _) =>
         CanCompact(s, from, horizon, chunks) && SourcesIn(s, from, RecordCodec.Flatten(chunks))
  }

  ghost function Did(s: Store, op: Op, limit: nat): Store
    requires Can(s, op)
  {
    match op
    case PutValue(key, value, deltas) => StagePut(s, key, value, deltas, limit)
    case CommitAt(lsn) => CommitAll(s, lsn)
    case CompactAt(from, _, chunks, lsn) => CompactCommit(CommitAll(CompactStage(s, from, chunks), lsn))
  }

  ghost predicate Leads(s: Store, ops: seq<Op>, limit: nat, t: Store)
    decreases |ops|
  {
    if |ops| == 0 then s == t else Can(s, ops[0]) && Leads(Did(s, ops[0], limit), ops[1..], limit, t)
  }

  lemma {:induction false} OpenOffset(s: Store)
    requires Inv(s) && s.plan.None?
    ensures On(s.log).r.off == s.mem.off
  {
    hide LogInv, FileInv, Backed, On;
  }

  lemma {:induction false} CommittedLog(s: Store, lsn: u64)
    requires s.nextLsn <= MAX_U64
    ensures var t := CommitAll(s, lsn);
      && t.log == s.log + [Entry(s.nextLsn, Commit(lsn))] && t.durable == |t.log| && t.plan == s.plan
      && Committed(t.log) == |t.log|
  {
    hide Fsynced;
  }

  lemma {:induction false} CompactedLog(s: Store, from: nat, horizon: nat, chunks: seq<seq<RemapEntry>>, limit: nat)
    requires CanCompact(s, from, horizon, chunks) && SourcesIn(s, from, RecordCodec.Flatten(chunks))
    requires Packed(s.log, limit)
    ensures var t := CompactStage(s, from, chunks); Packed(t.log, limit) && t.plan.Some? && t.nextLsn <= MAX_U64
  {
    hide Packed, SourcesIn, RemapRecords, Copied, PlanFor;
    RemapsAreRemaps(s.nextLsn + 1, s.nextFree, chunks);
    PackedByOthers(s.log, [Entry(s.nextLsn, SegmentSwap(from, s.nextFree))] +
                          RemapRecords(s.nextLsn + 1, s.nextFree, chunks), limit);
  }

  lemma {:induction false} PutKeeps(s: Store, key: Text, value: seq<byte>, deltas: seq<AggDeltaEntry>, limit: nat)
    requires Inv(s) && Packed(s.log, limit) && s.plan.None? && RoomForPut(s) && |value| < 0x1_0000_0000
    ensures var t := StagePut(s, key, value, deltas, limit); Inv(t) && Packed(t.log, limit)
  {
    hide Inv, Packed, On, PutRecords, StagePut;
    StagePutKeeps(s, key, value, deltas, limit);
    StagedFields(s, key, value, deltas, limit);
    OpenOffset(s);
    PackedByPut(s.log, s.mem, s.nextFree, s.nextLsn, key, |value|, deltas, limit);
  }

  lemma {:induction false} CommitPacks(s: Store, lsn: u64, limit: nat)
    requires Inv(s) && Packed(s.log, limit) && s.nextLsn <= MAX_U64 && (s.plan.Some? ==> On(s.log).pend.Some?)
    ensures var t := CommitAll(s, lsn);
      && Inv(t) && Packed(t.log, limit) && t.plan == s.plan && t.durable == |t.log| && Committed(t.log) == |t.log|
  {
    hide Inv, Packed, On, CommitAll, Committed;
    CommitKeeps(s, lsn);
    CommittedLog(s, lsn);
    PackedByOthers(s.log, [Entry(s.nextLsn, Commit(lsn))], limit);
  }

  lemma {:induction false} CompactKeeps(s: Store, from: nat, horizon: nat, chunks: seq<seq<RemapEntry>>, lsn: u64,
                                        limit: nat)
    requires Inv(s) && Packed(s.log, limit) && Can(s, CompactAt(from, horizon, chunks, lsn))
    ensures var t := Did(s, CompactAt(from, horizon, chunks, lsn), limit); Inv(t) && Packed(t.log, limit)
  {
    hide Inv, Packed, On, SourcesIn, CompactStage, CommitAll, SwapMemory, SwapOn, PlanFor, Committed;
    CompactStageKeeps(s, from, horizon, chunks);
    CompactedLog(s, from, horizon, chunks, limit);
    var t := CompactStage(s, from, chunks);
    CommitPacks(t, lsn, limit);
    CompactCommitKeeps(CommitAll(t, lsn));
  }

  lemma {:induction false} OpKeeps(s: Store, op: Op, limit: nat)
    requires Inv(s) && Packed(s.log, limit) && Can(s, op)
    ensures Inv(Did(s, op, limit)) && Packed(Did(s, op, limit).log, limit)
  {
    hide Inv, Packed, On, SourcesIn, StagePut, CommitAll, CompactStage, CompactCommit, CanCompact;
    match op
    case PutValue(key, value, deltas) => PutKeeps(s, key, value, deltas, limit);
    case CommitAt(lsn) => CommitPacks(s, lsn, limit);
    case CompactAt(from, horizon, chunks, lsn) => CompactKeeps(s, from, horizon, chunks, lsn, limit);
  }

  lemma {:induction false} RunPacks(s: Store, ops: seq<Op>, limit: nat, t: Store)
    requires Inv(s) && Packed(s.log, limit) && Leads(s, ops, limit, t)
    ensures Inv(t) && Packed(t.log, limit)
    decreases |ops|
  {
    hide Inv, Packed, Can, Did;
    if |ops| > 0 {
      OpKeeps(s, ops[0], limit);
      RunPacks(Did(s, ops[0], limit), ops[1..], limit, t);
    }
  }

  /** Every run of puts, commits and compactions under one limit: a segment is sealed only if the next value did not fit
      or its single value exceeds the limit, and none has more than the limit but for a single value. */
  lemma {:induction false} SegmentsArePacked(ops: seq<Op>, limit: nat, t: Store)
    requires Leads(Runs.FRESH, ops, limit, t)
    ensures SealedByNeed(t.log, limit) && Bounded(t.log, limit) && t.mem.off <= limit
  {
    Runs.FreshInv();
    hide Inv, Leads;
    assert Packed([], limit);
    hide Needed;
    RunPacks(Runs.FRESH, ops, limit, t);
    LastPlan(Runs.FRESH, ops, limit, t);
    OpenOffset(t);
  }

  /** Every operation ends with no compaction under way. */
  lemma {:induction false} LastPlan(s: Store, ops: seq<Op>, limit: nat, t: Store)
    requires s.plan.None? && Leads(s, ops, limit, t)
    ensures t.plan.None?
    decreases |ops|
  {
    hide CanCompact, SourcesIn, Copied, RemapRecords, Fsynced, SwapMemory, SwapOn, PutOn, SealOn, WriteAt, Opened;
    if |ops| > 0 { LastPlan(Did(s, ops[0], limit), ops[1..], limit, t); }
  }
}
