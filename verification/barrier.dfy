/** A compaction that reaches a follower without a barrier after the last put of its segment, as in a
    backfill, and the crash that then loses the follower's store. */
module MissingBarrier {
  import opened Bytes
  import opened Records
  import opened Wal
  import opened LogModel
  import opened Disk
  import opened CrashSafety
  import opened Follower
  import opened FollowerRuns
  import opened FollowerGuarantees
  import Leader
  import Rollups
  import Runs

  // The leader's log. Key k is put and committed, which the follower has durably; while it is away, k is put again,
  // then j, for which segment 0 is sealed; then segment 0 is compacted to the second put of k. The first put, which
  // is dropped, is at or below the follower's last durable Commit.

  function Early(k: Text, ds: seq<AggDeltaEntry>): seq<Entry> {
    [Entry(1, Put(k, 1, 1)), Entry(2, AggDelta(ds)), Entry(3, Commit(2))]
  }

  function Overwrite(k: Text, ds: seq<AggDeltaEntry>): seq<Entry> {
    [Entry(4, Put(k, 1, 4)), Entry(5, AggDelta(ds)), Entry(6, Commit(5))]
  }

  function Other(j: Text, ds: seq<AggDeltaEntry>): seq<Entry> {
    [Entry(7, SegmentSeal(0, 1)), Entry(8, Put(j, 1, 8)), Entry(9, AggDelta(ds)), Entry(10, Commit(9))]
  }

  function Compaction(k: Text): seq<Entry> {
    [Entry(11, SegmentSwap(0, 2)), Entry(12, SegmentRemap(2, [RemapEntry(k, 4, 0, 1)])), Entry(13, Commit(12))]
  }

  function WholeLog(k: Text, j: Text, ds: seq<AggDeltaEntry>): seq<Entry> {
    Early(k, ds) + Overwrite(k, ds) + Other(j, ds) + Compaction(k)
  }

  function BackfillStream(k: Text, j: Text, ds: seq<AggDeltaEntry>, a: byte, b: byte, c: byte): Stream {
    Stream(WholeLog(k, j, ds), map[1 := [a], 4 := [b], 8 := [c]])
  }

  // ----- what it means

  function AfterEarly(k: Text): Layout {
    Layout(map[k := Loc(0, 0, 1, 1)], map[1 := PutLoc(k, 0, 0, 1)], 0, 1, {}, map[0 := 1])
  }

  function AfterOverwrite(k: Text): Layout {
    Layout(map[k := Loc(0, 1, 1, 4)], map[1 := PutLoc(k, 0, 0, 1), 4 := PutLoc(k, 0, 1, 1)], 0, 2, {}, map[0 := 2])
  }

  function AfterOther(k: Text, j: Text): Layout {
    PutOn(SealOn(AfterOverwrite(k), 1), j, 1, 8)
  }

  /** One more record, in one step of the proof. */
  lemma {:induction false} Extend(log: seq<Entry>, s: Live, e: Entry)
    requires Legal(log) && On(log) == s && Allowed(s, e)
    ensures Legal(log + [e]) && On(log + [e]) == After(s, e)
  {
    hide On, Legal, Allowed, After;
    LegalAppend(log, e);
    OnAppend(log, e);
  }

  lemma {:induction false} EarlyMeans(k: Text, ds: seq<AggDeltaEntry>)
    ensures Legal(Early(k, ds)) && On(Early(k, ds)) == Live(AfterEarly(k), None, 3, 1)
  {
    hide On, Legal;
    var e := Early(k, ds);
    StartOn();
    EmptyLegal();
    var s1 := Live(PutOn(EMPTY, k, 1, 1), None, 1, 1);
    Extend([], START, e[0]);
    assert [] + [e[0]] == [e[0]] && After(START, e[0]) == s1;
    Extend([e[0]], s1, e[1]);
    assert [e[0]] + [e[1]] == [e[0], e[1]];
    Extend([e[0], e[1]], s1.(lastLsn := 2), e[2]);
    assert [e[0], e[1]] + [e[2]] == e;
    assert s1.r == AfterEarly(k);
  }

  lemma {:induction false} EmptyLegal()
    ensures Legal([])
  {
  }

  lemma {:induction false} OverwriteMeans(k: Text, ds: seq<AggDeltaEntry>)
    ensures var l := Early(k, ds) + Overwrite(k, ds); Legal(l) && On(l) == Live(AfterOverwrite(k), None, 6, 1)
  {
    hide On, Legal;
    EarlyMeans(k, ds);
    var l, e := Early(k, ds), Overwrite(k, ds);
    var s, s1 := Live(AfterEarly(k), None, 3, 1), Live(PutOn(AfterEarly(k), k, 1, 4), None, 4, 1);
    Extend(l, s, e[0]);
    Extend(l + [e[0]], s1, e[1]);
    Extend(l + [e[0]] + [e[1]], s1.(lastLsn := 5), e[2]);
    assert l + [e[0]] + [e[1]] + [e[2]] == l + e;
    assert s1.r == AfterOverwrite(k);
  }

  lemma {:induction false} OtherMeans(k: Text, j: Text, ds: seq<AggDeltaEntry>)
    ensures var l := Early(k, ds) + Overwrite(k, ds) + Other(j, ds);
      Legal(l) && On(l) == Live(AfterOther(k, j), None, 10, 2)
  {
    hide On, Legal;
    OverwriteMeans(k, ds);
    var l, e := Early(k, ds) + Overwrite(k, ds), Other(j, ds);
    var s := Live(AfterOverwrite(k), None, 6, 1);
    var s1, s2 := Live(SealOn(s.r, 1), None, 7, 2), Live(AfterOther(k, j), None, 8, 2);
    Extend(l, s, e[0]);
    Extend(l + [e[0]], s1, e[1]);
    Extend(l + [e[0]] + [e[1]], s2, e[2]);
    Extend(l + [e[0]] + [e[1]] + [e[2]], s2.(lastLsn := 9), e[3]);
    assert l + [e[0]] + [e[1]] + [e[2]] + [e[3]] == l + e;
  }

  lemma {:induction false} EntryOfK(k: Text, j: Text)
    requires k != j
    ensures var es := [RemapEntry(k, 4, 0, 1)];
      EntriesFit(AfterOther(k, j), 0, [] + es, 0) && LogModel.Covers(AfterOther(k, j), Pending(0, 2, es))
  {
    var es, r := [RemapEntry(k, 4, 0, 1)], AfterOther(k, j);
    assert [] + es == es && es[..0] == [];
    assert EntriesFit(r, 0, es[..0], 0) && Total(es[..0]) == 0;
    assert Moved(es, k, 4).Some?;
  }

  lemma {:induction false} WholeLogLegal(k: Text, j: Text, ds: seq<AggDeltaEntry>)
    requires k != j
    ensures Legal(WholeLog(k, j, ds))
  {
    hide On, Legal, EntriesFit, LogModel.Covers;
    OtherMeans(k, j, ds);
    EntryOfK(k, j);
    var l, e, es := Early(k, ds) + Overwrite(k, ds) + Other(j, ds), Compaction(k), [RemapEntry(k, 4, 0, 1)];
    var s := Live(AfterOther(k, j), None, 10, 2);
    var s1, s2 := Live(s.r, Some(Pending(0, 2, [])), 11, 3), Live(s.r, Some(Pending(0, 2, es)), 12, 3);
    Extend(l, s, e[0]);
    Extend(l + [e[0]], s1, e[1]);
    assert [] + es == es;
    Extend(l + [e[0]] + [e[1]], s2, e[2]);
    assert l + [e[0]] + [e[1]] + [e[2]] == l + e;
  }

  // ----- the run

  lemma {:induction false} LeadsOn(st: Stream, m: Node, acts: seq<Action>, n: Node, a: Action, k: Node)
    requires Leads(st, m, acts, n) && Steps(st, n, a, k) && !a.CrashAndReopen?
    ensures Leads(st, m, acts + [a], k)
    decreases |acts|
  {
    hide Steps, Backed;
    if |acts| == 0 {
      assert acts + [a] == [a] && [a][1..] == [];
      assert Leads(st, k, [a][1..], k);
    } else {
      var h :| Steps(st, m, acts[0], h) && (acts[0].CrashAndReopen? ==> Backed(m.f, st.vals)) &&
        Leads(st, h, acts[1..], n);
      LeadsOn(st, h, acts[1..], n, a, k);
      assert (acts + [a])[0] == acts[0] && (acts + [a])[1..] == acts[1..] + [a];
    }
  }

  lemma {:induction false} Go(st: Stream, m: Node, a: Action) returns (n: Node)
    requires Reachable(st, m) && Enabled(st, m, a) && !a.CrashAndReopen?
    ensures Reachable(st, n) && Steps(st, m, a, n)
  {
    hide Leads, Enabled, NodeInv, NextReplica, GoodStream;
    ReachableInv(st, m);
    ReplicaKept(st, m, a);
    n := Node(NextReplica(st, m, a).value, NextPhase(m.phase, a),
      Runs.Seen(m.handles, NextReplica(st, m, a).value.files));
    var acts :| Leads(st, BOOT, acts, m);
    LeadsOn(st, BOOT, acts, m, a, n);
  }

  /** Applying a record with no compaction pending leaves the fsynced part of every file alone. */
  lemma {:induction false} ApplyFsyncsNothing(st: Stream, m: Node, n: Node, id: nat)
    requires Steps(st, m, ApplyNext, n) && (m.f.swap.None? || !st.log[|m.f.log|].rec.SegmentSwap?)
    ensures DurableLength(n.f.files, id) <= DurableLength(m.f.files, id) && n.f.durable == m.f.durable
    ensures n.phase == m.phase
    ensures n.f.log == m.f.log + [st.log[|m.f.log|]]
    ensures n.f.swap.Some? <==> m.f.swap.Some? || st.log[|m.f.log|].rec.SegmentSwap?
  {
    hide CopyEntries, PutOn, SealOn, SwapOn, Runs.Seen, Rollups.Recorded;
  }

  ghost predicate Ordinary(rec: Record) {
    !rec.SegmentSwap? && !rec.SegmentRemap?
  }

  lemma {:induction false} CanApply(st: Stream, m: Node)
    requires m.phase.Idle? && |m.f.log| < |st.log| && !st.log[|m.f.log|].rec.SegmentRemap?
    ensures Enabled(st, m, ApplyNext)
  {
  }

  lemma {:induction false} NothingRetired(st: Stream, m: Node, n: Node)
    requires Steps(st, m, ApplyNext, n) && m.f.swap.None?
    ensures n.f.retired == m.f.retired
  {
    hide CopyEntries, PutOn, SealOn, SwapOn, Runs.Seen, Rollups.Recorded, Leader.WriteAt;
  }

  /** The next `k` records, none of a compaction, one after the other. */
  lemma {:induction false} ApplySome(st: Stream, m: Node, k: nat, id: nat) returns (n: Node)
    requires Reachable(st, m) && m.phase.Idle? && m.f.swap.None? && |m.f.log| + k <= |st.log|
    requires m.f.log == st.log[..|m.f.log|]
    requires forall i :: |m.f.log| <= i < |m.f.log| + k ==> Ordinary(st.log[i].rec)
    ensures Reachable(st, n) && n.phase.Idle? && n.f.swap.None? && n.f.log == st.log[..|m.f.log| + k]
    ensures n.f.durable == m.f.durable && n.f.retired == m.f.retired
    ensures DurableLength(n.f.files, id) <= DurableLength(m.f.files, id)
    decreases k
  {
    hide Reachable, Enabled, Steps, DurableLength;
    if k == 0 {
      n := m;
    } else {
      CanApply(st, m);
      var h := Go(st, m, ApplyNext);
      ApplyFsyncsNothing(st, m, h, id);
      NothingRetired(st, m, h);
      assert st.log[..|m.f.log|] + [st.log[|m.f.log|]] == st.log[..|m.f.log| + 1];
      n := ApplySome(st, h, k - 1, id);
    }
  }

  lemma {:induction false} BarrierSteps(st: Stream, m: Node, a: Action, n: Node)
    requires Steps(st, m, a, n) && m.f.swap.None? && m.f.retired == []
    ensures a.BeginSync? ==> n.f == m.f && n.phase == Finalized
    ensures a.FsyncSegments? ==>
      n.phase == SegmentsSynced && n.f.log == m.f.log && n.f.swap == m.f.swap && n.f.retired == []
    ensures a.WriteLog? ==>
      n.phase == LogWritten && n.f.written == |m.f.log| && n.f.log == m.f.log &&
      n.f.swap == m.f.swap && n.f.retired == []
    ensures a.FsyncLog? ==>
      n.phase == Deleting(0) && n.f.durable == m.f.written && n.f.log == m.f.log &&
      n.f.swap == m.f.swap && n.f.retired == []
    ensures a.FinishSync? ==>
      n.phase == Idle && n.f.durable == m.f.durable && n.f.log == m.f.log && n.f.swap == m.f.swap
  {
    hide Fsynced, Runs.Seen;
  }

  /** A whole barrier with nothing to finalize or delete. */
  lemma {:induction false} Barrier(st: Stream, m: Node) returns (n: Node)
    requires Reachable(st, m) && m.phase.Idle? && m.f.swap.None? && m.f.retired == []
    ensures Reachable(st, n) && n.phase.Idle? && n.f.swap.None? && n.f.log == m.f.log && n.f.durable == |m.f.log|
  {
    hide Reachable, Steps;
    var m1 := Go(st, m, BeginSync);
    BarrierSteps(st, m, BeginSync, m1);
    var m2 := Go(st, m1, FsyncSegments);
    BarrierSteps(st, m1, FsyncSegments, m2);
    var m3 := Go(st, m2, WriteLog);
    BarrierSteps(st, m2, WriteLog, m3);
    var m4 := Go(st, m3, FsyncLog);
    BarrierSteps(st, m3, FsyncLog, m4);
    n := Go(st, m4, FinishSync);
    BarrierSteps(st, m4, FinishSync, n);
  }

  lemma {:induction false} OpenSegmentDurable(st: Stream, n: Node)
    requires NodeInv(st, n) && n.f.swap.None?
    ensures DurableLength(n.f.files, On(n.f.log).r.active) <= On(n.f.log).r.off
  {
    hide On, Legal, Holds, Synced, Rebuilt, OrphansEmpty, HandlesOpen, RetiredIn, HandlesFollow, PhaseInv, InStep;
    hide CommitBlock, Rollups.RollupOf;
  }

  lemma {:induction false} ReachBoot(st: Stream)
    requires GoodStream(st)
    ensures Reachable(st, BOOT)
  {
    hide GoodStream;
    assert Leads(st, BOOT, [], BOOT);
  }

  lemma {:induction false} StreamIsGood(k: Text, j: Text, ds: seq<AggDeltaEntry>, a: byte, b: byte, c: byte)
    requires k != j
    ensures GoodStream(BackfillStream(k, j, ds, a, b, c))
  {
    hide Legal;
    WholeLogLegal(k, j, ds);
  }

  /** The follower has the first put durable and applies the rest, as a backfill sends it, without a barrier. */
  lemma {:induction false} BackfilledFollower(k: Text, j: Text, ds: seq<AggDeltaEntry>, a: byte, b: byte,
                                              c: byte) returns (m: Node)
    requires k != j
    ensures var st := BackfillStream(k, j, ds, a, b, c);
      && Reachable(st, m) && m.phase.Idle? && m.f.log == st.log && m.f.durable == 3 && m.f.swap.Some? &&
           m.f.swap.value.from == 0
      && DurableLength(m.f.files, 0) <= 1
  {
    hide On, Legal, GoodStream, DurableLength, Reachable, Steps;
    var st := BackfillStream(k, j, ds, a, b, c);
    StreamIsGood(k, j, ds, a, b, c);
    ReachBoot(st);
    assert st.log[..0] == [];
    var m1 := ApplySome(st, BOOT, 3, 0);
    assert st.log[..3] == Early(k, ds);
    var m2 := Barrier(st, m1);
    ReachableInv(st, m2);
    hide NodeInv;
    EarlyMeans(k, ds);
    OpenSegmentDurable(st, m2);
    var m3 := ApplySome(st, m2, 7, 0);
    CanApply(st, m3);
    var m4 := Go(st, m3, ApplyNext);
    ApplyFsyncsNothing(st, m3, m4, 0);
    SwapStarted(st, m3, m4);
    var m5 := Go(st, m4, ApplyNext);
    ApplyFsyncsNothing(st, m4, m5, 0);
    SwapGoesOn(st, m4, m5);
    m := Go(st, m5, ApplyNext);
    ApplyFsyncsNothing(st, m5, m, 0);
    SwapGoesOn(st, m5, m);
    assert m.f.log == st.log[..10] + [st.log[10]] + [st.log[11]] + [st.log[12]] == st.log;
  }

  lemma {:induction false} SwapStarted(st: Stream, m: Node, n: Node)
    requires Steps(st, m, ApplyNext, n) && st.log[|m.f.log|].rec.SegmentSwap?
    ensures n.f.swap.Some? && n.f.swap.value.from == st.log[|m.f.log|].rec.oldSegmentId
  {
    hide SwapOn, Runs.Seen;
  }

  lemma {:induction false} SwapGoesOn(st: Stream, m: Node, n: Node)
    requires Steps(st, m, ApplyNext, n) && m.f.swap.Some?
    requires (st.log[|m.f.log|].rec.SegmentRemap? || st.log[|m.f.log|].rec.Commit?)
    ensures n.f.swap.Some? && n.f.swap.value.from == m.f.swap.value.from
  {
    hide Runs.Seen, CopyEntry;
    if st.log[|m.f.log|].rec.SegmentRemap? { CopyKeepsFrom(m.f, m.f.swap.value, st.log[|m.f.log|].rec.entries); }
  }

  lemma {:induction false} CopyKeepsFrom(f: Replica, q: Swap, es: seq<RemapEntry>)
    ensures CopyEntries(f, q, es).Some? ==> CopyEntries(f, q, es).value.from == q.from
  {
    hide Leader.WriteAt;
    if |es| > 0 { CopyKeepsFrom(f, q, es[..|es| - 1]); }
  }

  /** Without the barrier a follower can lose its store: a reachable follower whose last durable Commit covers the put
      the compaction drops, and a crash in its next barrier after which it does not open. */
  lemma {:induction false} MissingBarrierLoses(k: Text, j: Text, ds: seq<AggDeltaEntry>, a: byte, b: byte,
                                               c: byte) returns (m: Node)
    requires k != j
    ensures var st := BackfillStream(k, j, ds, a, b, c);
      && Reachable(st, m) && m.phase.Idle? && m.f.log == st.log
      && m.f.durable == 3 && CommitBlock(m.f.log[..m.f.durable]) == 3
      && !Survives(UpToWrite(m.f))
  {
    hide On, Legal, DurableLength, Reachable, Survives, UpToWrite;
    m := BackfilledFollower(k, j, ds, a, b, c);
    var st := BackfillStream(k, j, ds, a, b, c);
    ReachableInv(st, m);
    assert m.f.log[..3] == Early(k, ds);
    assert Committed(m.f.log[..3]) == 3 by { assert Early(k, ds)[2].rec.Commit?; }
    assert m.f.log[..6] == Early(k, ds) + Overwrite(k, ds);
    OverwriteMeans(k, ds);
    assert Leader.IsCut(m.f.log, 6);
    assert Need(On(m.f.log[..6]).r, 0) == 2;
    hide Need, Committed;
    assert !Flushed(m.f, 0);
    hide Content, Flushed;
    UnflushedLoses(m.f, st.vals);
  }
}
