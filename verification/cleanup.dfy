/** What a follower's barriers leave on disk: every segment that a covered compaction replaced is gone, and nothing
    else is. */
module FollowerCleanup {
  import opened Bytes
  import opened Records
  import opened Wal
  import opened LogModel
  import opened Disk
  import Leader
  import Recovery
  import Runs
  import Rollups
  import opened CrashSafety
  import opened Follower
  import opened FollowerRuns
  import FollowerObject

  // ----- a barrier of the object is a barrier of the runs

  /** The steps of a barrier that has k replaced segments to look at. */
  function BarrierActions(k: nat): seq<Action> {
    [BeginSync, FsyncSegments, WriteLog, FsyncLog] + seq(k, i => DeleteNext) + [FinishSync]
  }

  ghost function Next(m: Node, f: Replica, phase: Phase): Node {
    Node(f, phase, Runs.Seen(m.handles, f.files))
  }

  /** From the i-th deletion on. */
  lemma {:induction false} DeletesLead(st: Stream, m: Node, g: Replica, i: nat) returns (n: Node)
    requires i <= |g.retired| && m.phase == Deleting(i) && m.f == FollowerObject.Removed(g, i)
    ensures Leads(st, m, seq(|g.retired| - i, j => DeleteNext) + [FinishSync], n)
    ensures n.phase == Idle && n.f == EndSync(FollowerObject.Removed(g, |g.retired|))
    decreases |g.retired| - i
  {
    hide Steps, Leads, Covered, Runs.Seen;
    var dels: seq<Action> := seq(|g.retired| - i, j => DeleteNext);
    if i == |g.retired| {
      n := Next(m, EndSync(m.f), Idle);
      LastStep(st, m, n);
      assert dels + [FinishSync] == [FinishSync];
    } else {
      var k := Next(m, RemoveRetired(m.f, i), Deleting(i + 1));
      OneDelete(st, m, i, k);
      n := DeletesLead(st, k, g, i + 1);
      var rest: seq<Action> := seq(|g.retired| - (i + 1), j => DeleteNext);
      Prepend(st, m, DeleteNext, k, rest + [FinishSync], n);
      assert dels + [FinishSync] == [DeleteNext] + (rest + [FinishSync]);
    }
  }

  lemma {:induction false} OneDelete(st: Stream, m: Node, i: nat, k: Node)
    requires m.phase == Deleting(i) && i < |m.f.retired| && k == Next(m, RemoveRetired(m.f, i), Deleting(i + 1))
    ensures Steps(st, m, DeleteNext, k)
  {
    hide Runs.Seen;
  }

  lemma {:induction false} LastStep(st: Stream, m: Node, n: Node)
    requires m.phase.Deleting? && m.phase.next >= |m.f.retired| && n == Next(m, EndSync(m.f), Idle)
    ensures Leads(st, m, [FinishSync], n)
  {
    hide Runs.Seen, Covered;
    assert Steps(st, m, FinishSync, n);
    assert [FinishSync][1..] == [];
    assert Leads(st, n, [], n);
  }

  /** The four steps before the deletions. */
  lemma {:induction false} FirstSteps(st: Stream, m: Node)
    requires m.phase.Idle?
    ensures var g := Finalize(m.f);
      var m1, m2 := Next(m, g, Finalized), Next(Next(m, g, Finalized), FsyncOpen(g), SegmentsSynced);
      var m3 := Next(m2, WriteWal(m2.f), LogWritten);
      && Steps(st, m, BeginSync, m1) && Steps(st, m1, FsyncSegments, m2) && Steps(st, m2, WriteLog, m3)
      && Steps(st, m3, FsyncLog, Next(m3, FsyncWal(m3.f), Deleting(0)))
  {
    hide Finalize, Fsynced, Runs.Seen;
  }

  lemma {:induction false} InOrderOfSteps<T>(a: T, b: T, c: T, d: T, rest: seq<T>, last: T)
    ensures [a, b, c, d] + rest + [last] == [a] + ([b] + ([c] + ([d] + (rest + [last]))))
  {
  }

  /** The barrier in one go is what its steps, one after the other, come to. */
  lemma {:induction false} BarrierIsRun(st: Stream, m: Node) returns (n: Node)
    requires m.phase.Idle?
    ensures Leads(st, m, BarrierActions(|Finalize(m.f).retired|), n)
    ensures n.phase.Idle? && n.f == FollowerObject.SyncAll(m.f)
  {
    hide Finalize, Fsynced, Covered, Steps, Leads, FollowerObject.Removed, Runs.Seen;
    FirstSteps(st, m);
    var g := Finalize(m.f);
    var m1 := Next(m, g, Finalized);
    var m2 := Next(m1, FsyncOpen(g), SegmentsSynced);
    var m3 := Next(m2, WriteWal(m2.f), LogWritten);
    var m4 := Next(m3, FsyncWal(m3.f), Deleting(0));
    NoneRemoved(m4.f);
    n := DeletesLead(st, m4, m4.f, 0);
    var dels: seq<Action> := seq(|g.retired|, j => DeleteNext);
    assert seq(|m4.f.retired| - 0, j => DeleteNext) == dels;
    var rest := dels + [FinishSync];
    Prepend(st, m3, FsyncLog, m4, rest, n);
    Prepend(st, m2, WriteLog, m3, [FsyncLog] + rest, n);
    Prepend(st, m1, FsyncSegments, m2, [WriteLog] + ([FsyncLog] + rest), n);
    Prepend(st, m, BeginSync, m1, [FsyncSegments] + ([WriteLog] + ([FsyncLog] + rest)), n);
    InOrderOfSteps(BeginSync, FsyncSegments, WriteLog, FsyncLog, dels, FinishSync);
    assert BarrierActions(|g.retired|) == [BeginSync, FsyncSegments, WriteLog, FsyncLog] + dels + [FinishSync];
  }

  lemma {:induction false} NoneRemoved(f: Replica)
    ensures FollowerObject.Removed(f, 0) == f
  {
  }

  lemma {:induction false} Prepend(st: Stream, m: Node, a: Action, k: Node, acts: seq<Action>, n: Node)
    requires Steps(st, m, a, k) && !a.CrashAndReopen? && Leads(st, k, acts, n)
    ensures Leads(st, m, [a] + acts, n)
  {
    hide Steps;
    assert ([a] + acts)[1..] == acts;
  }

  // ----- no replaced segment is forgotten

  ghost predicate Vacant(fs: Files, id: nat) {
    id in fs ==> fs[id].content == []
  }

  /** The replaced segment is still being rebuilt, or on the list, or its space is free. */
  ghost predicate Accounted(f: Replica, lsn: nat, id: nat) {
    || (f.swap.Some? && f.swap.value.lsn == lsn && f.swap.value.from == id)
    || (lsn, id) in f.retired
    || Vacant(f.files, id)
  }

  ghost predicate Tracked(f: Replica) {
    forall i :: 0 <= i < |f.log| && f.log[i].rec.SegmentSwap? ==>
      Accounted(f, f.log[i].lsn, f.log[i].rec.oldSegmentId)
  }

  /** The compaction being rebuilt is the last of the log. */
  ghost predicate LatestSwap(f: Replica) {
    f.swap.Some? ==>
      var swaps := Recovery.Gather(f.log).swaps;
      |swaps| > 0 && swaps[|swaps| - 1] == (f.swap.value.from, f.swap.value.to)
  }

  /** The deletions of the barrier so far. */
  ghost predicate Deleted(f: Replica, k: nat) {
    forall i :: 0 <= i < k && i < |f.retired| && f.retired[i].0 <= f.lastCommit ==> Vacant(f.files, f.retired[i].1)
  }

  ghost predicate CleanupInv(m: Node) {
    Tracked(m.f) && LatestSwap(m.f) && (m.phase.Deleting? ==> Deleted(m.f, m.phase.next))
  }

  /** A replaced segment is neither open nor the target of a compaction up to now. */
  lemma {:induction false} ReplacedIs(log: seq<Entry>, i: nat)
    requires Legal(log) && i < |log| && log[i].rec.SegmentSwap?
    ensures log[i].rec.oldSegmentId != On(log).r.active
    ensures var swaps := Recovery.Gather(log).swaps; |swaps| > 0 && log[i].rec.oldSegmentId != swaps[|swaps| - 1].1
  {
    hide On, Legal, Recovery.Gather, Recovery.Agree;
    SwapGathered(log, i);
    Recovery.GatherAgrees(log);
  }

  lemma {:induction false} GatherAppend(log: seq<Entry>, e: Entry)
    ensures Recovery.Gather(log + [e]).swaps ==
      if e.rec.SegmentSwap? then Recovery.Gather(log).swaps + [(e.rec.oldSegmentId, e.rec.newSegmentId)]
      else Recovery.Gather(log).swaps
  {
    assert (log + [e])[..|log|] == log;
  }

  /** Files that only lose or keep what they had. */
  ghost predicate NoMore(fs: Files, fs': Files) {
    forall id :: id in fs' ==> id in fs && fs'[id].content == fs[id].content
  }

  lemma {:induction false} TrackedFewer(f: Replica, g: Replica)
    requires Tracked(f) && g.log == f.log && g.swap == f.swap && g.retired == f.retired && NoMore(f.files, g.files)
    ensures Tracked(g)
  {
    hide Accounted;
    forall i | 0 <= i < |g.log| && g.log[i].rec.SegmentSwap?
      ensures Accounted(g, g.log[i].lsn, g.log[i].rec.oldSegmentId)
    {
      assert Accounted(f, f.log[i].lsn, f.log[i].rec.oldSegmentId);
      AccountedFewer(f, g, f.log[i].lsn, f.log[i].rec.oldSegmentId);
    }
  }

  lemma {:induction false} AccountedFewer(f: Replica, g: Replica, lsn: nat, id: nat)
    requires Accounted(f, lsn, id) && g.swap == f.swap && g.retired == f.retired && NoMore(f.files, g.files)
    ensures Accounted(g, lsn, id)
  {
  }

  /** Finalizing puts the replaced segment on the list and fills the new one. */
  lemma {:induction false} TrackedFinalize(f: Replica)
    requires Tracked(f) && LatestSwap(f) && Legal(f.log)
    ensures Tracked(Finalize(f))
  {
    hide Legal, SwapOn, Recovery.Gather;
    var g := Finalize(f);
    forall i | 0 <= i < |g.log| && g.log[i].rec.SegmentSwap?
      ensures Accounted(g, g.log[i].lsn, g.log[i].rec.oldSegmentId)
    {
      assert Accounted(f, f.log[i].lsn, f.log[i].rec.oldSegmentId);
      ReplacedIs(f.log, i);
    }
  }

  lemma {:induction false} TrackedAppend(f: Replica, g: Replica, e: Entry)
    requires Tracked(f) && g.log == f.log + [e] && g.retired == f.retired
    requires forall i :: 0 <= i < |f.log| && f.log[i].rec.SegmentSwap? ==>
      (Accounted(f, f.log[i].lsn, f.log[i].rec.oldSegmentId) ==> Accounted(g, f.log[i].lsn, f.log[i].rec.oldSegmentId))
    requires e.rec.SegmentSwap? ==> Accounted(g, e.lsn, e.rec.oldSegmentId)
    ensures Tracked(g)
  {
    hide Accounted;
    forall i | 0 <= i < |g.log| && g.log[i].rec.SegmentSwap?
      ensures Accounted(g, g.log[i].lsn, g.log[i].rec.oldSegmentId)
    {
      if i < |f.log| { assert g.log[i] == f.log[i]; }
    }
  }

  lemma {:induction false} CopyKeepsIds(f: Replica, q: Swap, es: seq<RemapEntry>)
    ensures CopyEntries(f, q, es).Some? ==>
      var p := CopyEntries(f, q, es).value; p.lsn == q.lsn && p.from == q.from && p.to == q.to
  {
    hide Leader.WriteAt;
    if |es| > 0 { CopyKeepsIds(f, q, es[..|es| - 1]); }
  }

  lemma {:induction false} PutTracked(f: Replica, e: Entry, data: Option<seq<byte>>)
    requires e.rec.Put? && ApplyPut(f, e, data).Some? && Tracked(f) && LatestSwap(f) && Legal(f.log)
    requires f.view.active == On(f.log).r.active
    ensures Tracked(ApplyPut(f, e, data).value) && LatestSwap(ApplyPut(f, e, data).value)
  {
    hide Legal, On, PutOn, Leader.WriteAt, Rollups.Recorded, Recovery.Gather;
    var g := ApplyPut(f, e, data).value;
    GatherAppend(f.log, e);
    forall i | 0 <= i < |f.log| && f.log[i].rec.SegmentSwap?
      ensures Accounted(f, f.log[i].lsn, f.log[i].rec.oldSegmentId) ==>
        Accounted(g, f.log[i].lsn, f.log[i].rec.oldSegmentId)
    {
      ReplacedIs(f.log, i);
    }
    TrackedAppend(f, g, e);
  }

  /** Records that touch no file. */
  lemma {:induction false} OtherTracked(f: Replica, g: Replica, e: Entry)
    requires Tracked(f) && LatestSwap(f) && g.log == f.log + [e] && !e.rec.SegmentSwap?
    requires g.retired == f.retired && g.files == f.files && g.swap.Some? == f.swap.Some?
    requires f.swap.Some? ==> var p, q := f.swap.value, g.swap.value; p.lsn == q.lsn && p.from == q.from && p.to == q.to
    ensures Tracked(g) && LatestSwap(g)
  {
    hide Recovery.Gather;
    GatherAppend(f.log, e);
    TrackedAppend(f, g, e);
  }

  lemma {:induction false} SwapTracked(f: Replica, e: Entry)
    requires e.rec.SegmentSwap? && Tracked(f) && LatestSwap(f) && Legal(f.log)
    ensures Tracked(ApplySwap(f, e)) && LatestSwap(ApplySwap(f, e))
  {
    TrackedFinalize(f);
    FinalizeLog(f);
    assert Finalize(f).swap.None?;
    hide Legal, Finalize, Recovery.Gather;
    var h, g := Finalize(f), ApplySwap(f, e);
    GatherAppend(f.log, e);
    TrackedAppend(h, g, e);
  }

  lemma {:induction false} ApplyTracked(f: Replica, e: Entry, data: Option<seq<byte>>)
    requires Apply(f, e, data).Some? && Tracked(f) && LatestSwap(f) && Legal(f.log)
    requires f.view.active == On(f.log).r.active
    ensures Tracked(Apply(f, e, data).value) && LatestSwap(Apply(f, e, data).value)
  {
    hide Tracked, LatestSwap, Legal, On, ApplyPut, ApplySwap, SealOn, CopyEntries;
    match e.rec
    case Put(_, _, _) => PutTracked(f, e, data);
    case SegmentSwap(_, _) => SwapTracked(f, e);
    case SegmentRemap(_, _) =>
      CopyKeepsIds(f, f.swap.value, e.rec.entries);
      OtherTracked(f, Apply(f, e, data).value, e);
    case _ => OtherTracked(f, Apply(f, e, data).value, e);
  }

  lemma {:induction false} SameActive(f: Replica)
    requires InStep(f)
    ensures f.view.active == On(f.log).r.active
  {
    hide On, MoveIndex, MoveLocs, Extent;
  }

  /** Recovery leaves nothing in a replaced segment. */
  lemma {:induction false} ReopenedTracked(f: Replica, vals: Values, n: nat, image: Files)
    requires LogOk(f) && Backed(f, vals) && f.durable <= n <= f.written <= |f.log|
    ensures Tracked(ReopenedReplica(f, n, image)) && LatestSwap(ReopenedReplica(f, n, image))
  {
    hide On, Legal, LogOk, Backed, CommitBlock, Rollups.RollupOf, Recovery.Recovered, Recovery.Gather, Safe, Committed;
    CrashSurvivor(f, vals, n);
    var p, g := Surviving(f.log, n), ReopenedReplica(f, n, image);
    forall i | 0 <= i < |p| && p[i].rec.SegmentSwap? ensures Vacant(g.files, p[i].rec.oldSegmentId) {
      SwapGathered(p, i);
      var k :| 0 <= k < |Recovery.Gather(p).swaps| && Recovery.Gather(p).swaps[k].0 == p[i].rec.oldSegmentId;
      Recovery.ReplacedNotCurrent(p, k);
    }
  }

  lemma {:induction false} RemoveTracked(f: Replica, i: nat)
    requires i < |f.retired| && Tracked(f) && LatestSwap(f) && Deleted(f, i)
    ensures var g := RemoveRetired(f, i); Tracked(g) && LatestSwap(g) && Deleted(g, i + 1)
  {
    hide Tracked;
    TrackedFewer(f, RemoveRetired(f, i));
  }

  lemma {:induction false} EndTracked(f: Replica, k: nat)
    requires k >= |f.retired| && Tracked(f) && LatestSwap(f) && Deleted(f, k)
    ensures Tracked(EndSync(f)) && LatestSwap(EndSync(f))
  {
    hide Recovery.Gather;
    var g := EndSync(f);
    FollowerObject.CoveredExactly(f.retired, f.lastCommit);
    hide Covered;
    forall i | 0 <= i < |g.log| && g.log[i].rec.SegmentSwap?
      ensures Accounted(g, g.log[i].lsn, g.log[i].rec.oldSegmentId)
    {
      assert Accounted(f, f.log[i].lsn, f.log[i].rec.oldSegmentId);
    }
  }

  lemma {:induction false} ContentParts(f: Replica, vals: Values)
    requires Content(f, vals)
    ensures LogOk(f) && Legal(f.log) && InStep(f)
  {
    hide FilesOk, InStep, Carries, Synced, Rebuilt, OrphansEmpty, HandlesOpen, SwapOrphan, RetiredIn, On, Legal;
  }

  lemma {:induction false} CleanupKept(st: Stream, m: Node, a: Action, n: Node)
    requires NodeInv(st, m) && CleanupInv(m) && Steps(st, m, a, n) && (a.CrashAndReopen? ==> Backed(m.f, st.vals))
    ensures CleanupInv(n)
  {
    assert Content(m.f, st.vals);
    hide NodeInv, Content, Tracked, LatestSwap, Deleted, LogOk, Legal, InStep, Backed, Apply, Finalize, Runs.Seen;
    hide Fsynced, RemoveRetired, EndSync, ReopenedReplica, CrashImage, Data;
    ContentParts(m.f, st.vals);
    SameActive(m.f);
    match a
    case ApplyNext => ApplyTracked(m.f, st.log[|m.f.log|], Data(st, st.log[|m.f.log|]));
    case BeginSync => TrackedFinalize(m.f); FinalizedSwap(m.f);
    case FsyncSegments => FsyncTracked(m.f, n.f);
    case WriteLog => FsyncTracked(m.f, n.f);
    case FsyncLog => FsyncTracked(m.f, n.f);
    case DeleteNext => RemoveTracked(m.f, m.phase.next);
    case FinishSync => EndTracked(m.f, m.phase.next);
    case CrashAndReopen(k, image) => ReopenedTracked(m.f, st.vals, k, image);
  }

  lemma {:induction false} FinalizedSwap(f: Replica)
    ensures LatestSwap(Finalize(f))
  {
  }

  lemma {:induction false} FsyncTracked(f: Replica, g: Replica)
    requires Tracked(f) && LatestSwap(f) && g.log == f.log && g.swap == f.swap && g.retired == f.retired
    requires g.files == f.files || g.files == Fsynced(f.files, f.dirty * f.open)
    ensures Tracked(g) && LatestSwap(g) && Deleted(g, 0)
  {
    assert NoMore(f.files, g.files);
    hide Tracked, Fsynced, Recovery.Gather;
    TrackedFewer(f, g);
  }

  lemma {:induction false} RunCleans(st: Stream, m: Node, acts: seq<Action>, n: Node)
    requires GoodStream(st) && NodeInv(st, m) && CleanupInv(m) && Leads(st, m, acts, n)
    ensures CleanupInv(n)
    decreases |acts|
  {
    hide NodeInv, Steps, GoodStream, Backed, CleanupInv;
    if |acts| > 0 {
      var k :| Steps(st, m, acts[0], k) && (acts[0].CrashAndReopen? ==> Backed(m.f, st.vals)) &&
        Leads(st, k, acts[1..], n);
      NodeKept(st, m, acts[0], k);
      CleanupKept(st, m, acts[0], k);
      RunCleans(st, k, acts[1..], n);
    }
  }

  lemma {:induction false} ReachableClean(st: Stream, m: Node)
    requires Reachable(st, m)
    ensures CleanupInv(m)
  {
    assert CleanupInv(BOOT);
    hide NodeInv, Leads, GoodStream, CleanupInv;
    BootInv(st);
    var acts :| Leads(st, BOOT, acts, m);
    RunCleans(st, BOOT, acts, m);
  }

  /** After every barrier of every run, the space of each segment replaced by a compaction that the last Commit
      covers is free: its file is deleted, or was emptied by a recovery. */
  lemma {:induction false} BarrierFreesReplaced(st: Stream, m: Node, n: Node, i: nat)
    requires Reachable(st, m) && Steps(st, m, FinishSync, n) && i < |n.f.log| && n.f.log[i].rec.SegmentSwap?
    requires n.f.log[i].lsn <= n.f.lastCommit
    ensures var id := n.f.log[i].rec.oldSegmentId; id in n.f.files ==> n.f.files[id].content == []
  {
    ReachableInv(st, m);
    ReachableClean(st, m);
    assert m.f.swap.None?;
    hide Reachable, Content, HandlesFollow;
    assert n.f == EndSync(m.f);
    EndTracked(m.f, m.phase.next);
    FollowerObject.CoveredExactly(m.f.retired, m.f.lastCommit);
    hide Covered;
    assert Accounted(n.f, n.f.log[i].lsn, n.f.log[i].rec.oldSegmentId);
  }
}
