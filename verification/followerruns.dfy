/** Runs of a follower: records of one leader log applied in order, sync barriers as their separate
    steps, and crashes at any of them. */
module FollowerRuns {
  import opened Bytes
  import opened Records
  import opened Wal
  import opened LogModel
  import opened Disk
  import Leader
  import opened CrashSafety
  import opened Follower
  import Recovery
  import Runs
  import Rollups

  /** Where a sync barrier stands; deleting goes through the retired segments in order. */
  datatype Phase = Idle | Finalized | SegmentsSynced | LogWritten | Deleting(next: nat)

  /** The log being replicated, and the value of each of its puts. */
  datatype Stream = Stream(log: seq<Entry>, vals: Values)

  /** A follower and the bytes behind every file handle of its process. */
  datatype Node = Node(f: Replica, phase: Phase, handles: map<nat, seq<byte>>)

  datatype Action =
    | ApplyNext
    | BeginSync
    | FsyncSegments
    | WriteLog
    | FsyncLog
    | DeleteNext
    | FinishSync
    | CrashAndReopen(scanned: nat, image: Files)

  ghost predicate GoodStream(st: Stream) {
    && Legal(st.log)
    && forall i :: 0 <= i < |st.log| && st.log[i].rec.Put? ==>
         st.log[i].lsn in st.vals && |st.vals[st.log[i].lsn]| == st.log[i].rec.len
  }

  function Data(st: Stream, e: Entry): Option<seq<byte>> {
    if e.rec.Put? && e.lsn in st.vals then Some(st.vals[e.lsn]) else None
  }

  /** A compaction's remaps arrive before the next barrier. */
  predicate InOrder(f: Replica, e: Entry) {
    e.rec.SegmentRemap? ==> f.swap.Some?
  }

  ghost predicate Enabled(st: Stream, m: Node, a: Action) {
    match a
    case ApplyNext => m.phase.Idle? && |m.f.log| < |st.log| && InOrder(m.f, st.log[|m.f.log|])
    case BeginSync => m.phase.Idle?
    case FsyncSegments => m.phase.Finalized?
    case WriteLog => m.phase.SegmentsSynced?
    case FsyncLog => m.phase.LogWritten?
    case DeleteNext => m.phase.Deleting? && m.phase.next < |m.f.retired|
    case FinishSync => m.phase.Deleting? && m.phase.next >= |m.f.retired|
    case CrashAndReopen(n, image) => m.f.durable <= n <= m.f.written <= |m.f.log| && CrashImage(m.f.files, image)
  }

  function NextPhase(p: Phase, a: Action): Phase {
    match a
    case ApplyNext => p
    case BeginSync => Finalized
    case FsyncSegments => SegmentsSynced
    case WriteLog => LogWritten
    case FsyncLog => Deleting(0)
    case DeleteNext => if p.Deleting? then Deleting(p.next + 1) else p
    case FinishSync => Idle
    case CrashAndReopen(_, _) => Idle
  }

  /** None where the record is refused. */
  ghost function NextReplica(st: Stream, m: Node, a: Action): Option<Replica>
    requires Enabled(st, m, a)
  {
    hide CrashImage;
    match a
    case ApplyNext => Apply(m.f, st.log[|m.f.log|], Data(st, st.log[|m.f.log|]))
    case BeginSync => Some(Finalize(m.f))
    case FsyncSegments => Some(FsyncOpen(m.f))
    case WriteLog => Some(WriteWal(m.f))
    case FsyncLog => Some(FsyncWal(m.f))
    case DeleteNext => Some(RemoveRetired(m.f, m.phase.next))
    case FinishSync => Some(EndSync(m.f))
    case CrashAndReopen(n, image) => Some(ReopenedReplica(m.f, n, image))
  }

  ghost predicate Steps(st: Stream, m: Node, a: Action, n: Node) {
    && Enabled(st, m, a) && NextReplica(st, m, a) == Some(n.f) && n.phase == NextPhase(m.phase, a)
    && n.handles == Runs.Seen(if a.CrashAndReopen? then map[] else m.handles, n.f.files)
  }

  const EMPTY_REPLICA := Replica([], 0, 0, map[0 := File([], 0)], {}, {0}, EMPTY, None, [], 0, Rollups.NOTHING)

  const BOOT := Node(EMPTY_REPLICA, Idle, map[0 := []])

  /** A run in which the follower survives its crashes: each of them finds a disk that backs the log. */
  ghost predicate Leads(st: Stream, m: Node, acts: seq<Action>, n: Node)
    decreases |acts|
  {
    if |acts| == 0 then m == n
    else exists k ::
      Steps(st, m, acts[0], k) && (acts[0].CrashAndReopen? ==> Backed(m.f, st.vals)) && Leads(st, k, acts[1..], n)
  }

  /** A compaction starts only when no Commit a crash may cut back to needs more of the replaced segment than is
      fsynced. */
  ghost predicate Prudent(st: Stream, m: Node, a: Action) {
    a.ApplyNext? && |m.f.log| < |st.log| && st.log[|m.f.log|].rec.SegmentSwap? ==>
      Flushed(Finalize(m.f), st.log[|m.f.log|].rec.oldSegmentId)
  }

  /** A run of prudent steps, with crashes anywhere. */
  ghost predicate LeadsPrudently(st: Stream, m: Node, acts: seq<Action>, n: Node)
    decreases |acts|
  {
    if |acts| == 0 then m == n
    else exists k :: Steps(st, m, acts[0], k) && Prudent(st, m, acts[0]) && LeadsPrudently(st, k, acts[1..], n)
  }

  // ----- invariant

  ghost predicate PhaseInv(m: Node) {
    && (m.phase.Finalized? ==> m.f.swap.None?)
    && (m.phase.SegmentsSynced? || m.phase.LogWritten? || m.phase.Deleting? ==>
         m.f.swap.None? && m.f.files == Settled(m.f))
    && (m.phase.LogWritten? ==> m.f.written == |m.f.log|)
    && (m.phase.Deleting? ==> m.f.durable == |m.f.log|)
  }

  /** Deleted segments stay replaced, so their names are never written again. */
  ghost predicate HandlesFollow(f: Replica, handles: map<nat, seq<byte>>) {
    && (forall id :: id in f.files ==> id in handles && handles[id] == f.files[id].content)
    && (forall id :: id in handles && id !in f.files ==> id in f.view.lens && id !in LiveSegs(f.view))
    && (forall id :: id in f.view.lens ==> id < On(f.log).bound)
  }

  ghost predicate NodeInv(st: Stream, m: Node) {
    && Content(m.f, st.vals) && |m.f.log| <= |st.log| && m.f.log == st.log[..|m.f.log|]
    && PhaseInv(m) && HandlesFollow(m.f, m.handles)
  }

  // ----- applying

  lemma {:induction false} NextAllowed(st: Stream, f: Replica)
    requires GoodStream(st) && |f.log| < |st.log| && f.log == st.log[..|f.log|]
    ensures Allowed(On(f.log), st.log[|f.log|])
    ensures f.log + [st.log[|f.log|]] == st.log[..|f.log| + 1]
  {
    hide On, Allowed;
  }

  /** No record of the stream is refused, and applying it keeps the invariant. */
  lemma {:induction false} ApplyKeeps(st: Stream, f: Replica)
    requires GoodStream(st) && Content(f, st.vals) && |f.log| < |st.log| && f.log == st.log[..|f.log|]
    requires InOrder(f, st.log[|f.log|])
    ensures var e := st.log[|f.log|];
      var g := Apply(f, e, Data(st, e));
      && g.Some? && Content(g.value, st.vals) && g.value.log == st.log[..|f.log| + 1]
      && (Secure(f, st.vals) && (e.rec.SegmentSwap? ==> Flushed(Finalize(f), e.rec.oldSegmentId)) ==>
           Secure(g.value, st.vals))
  {
    var e := st.log[|f.log|];
    NextAllowed(st, f);
    assert e.rec.Put? ==> e.lsn in st.vals && |st.vals[e.lsn]| == e.rec.len;
    hide Content, Secure, Flushed, On, Legal, Allowed, GoodStream, Finalize, CopyEntries, Leader.WriteAt;
    hide Rollups.Recorded;
    match e.rec
    case Put(_, _, _) => ApplyPutKeeps(f, st.vals, e);
    case SegmentSeal(_, _) => ApplySealKeeps(f, st.vals, e);
    case AggDelta(_) => ApplyAggKeeps(f, st.vals, e);
    case SegmentSwap(_, _) => ApplySwapKeeps(f, st.vals, e); FinalizeLog(f);
    case SegmentRemap(_, _) => ApplyRemapKeeps(f, st.vals, e);
    case Commit(_) => ApplyCommitKeeps(f, st.vals, e);
  }

  // ----- barriers

  lemma {:induction false} FsyncSettled(f: Replica)
    requires f.swap.None? && FilesOk(f.files)
    ensures FsyncOpen(f).files == Settled(f) && Settled(FsyncOpen(f)) == Settled(f) && Grown(f.files, Settled(f))
  {
    var ids := f.dirty * f.open;
    assert Fsynced(Fsynced(f.files, ids), ids) == Fsynced(f.files, ids);
  }

  lemma {:induction false} OrphansFsynced(f: Replica, s: Live)
    requires OrphansEmpty(f.files, s)
    ensures OrphansEmpty(Fsynced(f.files, f.dirty * f.open), s)
  {
  }

  lemma {:induction false} FsyncOpenKeeps(f: Replica, vals: Values)
    requires Content(f, vals) && f.swap.None?
    ensures var g := FsyncOpen(f);
      Content(g, vals) && g.files == Settled(g) && (Secure(f, vals) ==> Secure(g, vals))
  {
    hide On, Legal, Carries, Synced, Settled, Fsynced, Grown, CommitBlock, Backed, RetiredIn, SwapOn, OrphansEmpty;
    hide HandlesOpen, Rebuilt, Rollups.RollupOf;
    FsyncSettled(f);
    SettledOk(f);
    hide FilesOk;
    Leader.SameFilesGrown(Settled(f));
    if Secure(f, vals) { BackedFiles(f, FsyncOpen(f), vals); }
    OrphansFsynced(f, On(f.log));
    SameHandles(f, FsyncOpen(f));
    SameRetired(f, FsyncOpen(f));
  }

  lemma {:induction false} WriteKeeps(f: Replica, vals: Values)
    requires Content(f, vals) && f.files == Settled(f)
    ensures Content(WriteWal(f), vals) && (Secure(f, vals) ==> Secure(WriteWal(f), vals))
  {
    hide On, Legal, Carries, Synced, Safe, Settled, FilesOk, CommitBlock, RetiredIn, SwapOn, Committed, HandlesOpen;
    hide Rebuilt, OrphansEmpty, Rollups.RollupOf;
    var g := WriteWal(f);
    SameSettled(f, g);
    assert InStep(g);
    if Secure(f, vals) { assert Backed(g, vals); assert f.swap.Some? ==> Flushed(g, f.swap.value.from); }
    SameHandles(f, g);
    SameRetired(f, g);
  }

  lemma {:induction false} SameSettled(f: Replica, g: Replica)
    requires g.files == f.files && g.dirty == f.dirty && g.open == f.open && g.swap == f.swap
    ensures Settled(g) == Settled(f)
  {
  }

  lemma {:induction false} SameHandles(f: Replica, g: Replica)
    requires HandlesOpen(f) && g.view == f.view && g.log == f.log && g.open == f.open
    ensures HandlesOpen(g)
  {
    hide On;
  }

  lemma {:induction false} SameRetired(f: Replica, g: Replica)
    requires RetiredIn(f) && g.log == f.log && g.retired == f.retired && g.swap == f.swap
    ensures RetiredIn(g)
  {
    hide SwapIn;
  }

  lemma {:induction false} FsyncWalKeeps(f: Replica, vals: Values)
    requires Content(f, vals)
    ensures Content(FsyncWal(f), vals) && (Secure(f, vals) ==> Secure(FsyncWal(f), vals))
  {
    hide On, Legal, Carries, Synced, Safe, Settled, FilesOk, CommitBlock, RetiredIn, SwapOn, Committed, HandlesOpen;
    hide Rebuilt, OrphansEmpty, Need, Rollups.RollupOf;
    var g := FsyncWal(f);
    Leader.CommittedMonotone(f.log, f.durable, f.written);
    SameSettled(f, g);
    SameHandles(f, g);
    SameRetired(f, g);
  }

  lemma {:induction false} CoveredFrom(retired: seq<(nat, nat)>, lastCommit: nat)
    ensures forall i :: 0 <= i < |Covered(retired, lastCommit)| ==> Covered(retired, lastCommit)[i] in retired
  {
    if |retired| > 0 { CoveredFrom(retired[..|retired| - 1], lastCommit); }
  }

  lemma {:induction false} EndSettled(f: Replica)
    requires f.swap.None? && f.files == Settled(f)
    ensures Settled(EndSync(f)) == Settled(f)
  {
    hide Covered;
    assert Fsynced(f.files, {} * f.open) == f.files;
  }

  lemma {:induction false} EndRetired(f: Replica)
    requires RetiredIn(f)
    ensures RetiredIn(EndSync(f))
  {
    hide SwapIn, Covered;
    CoveredFrom(f.retired, f.lastCommit);
  }

  lemma {:induction false} EndSyncKeeps(f: Replica, vals: Values)
    requires Content(f, vals) && f.swap.None? && f.files == Settled(f)
    ensures Content(EndSync(f), vals) && (Secure(f, vals) ==> Secure(EndSync(f), vals))
  {
    hide On, Legal, Carries, Synced, Settled, Fsynced, FilesOk, CommitBlock, RetiredIn, SwapOn, Committed, Backed;
    hide Covered, Rebuilt, OrphansEmpty, Rollups.RollupOf;
    EndSettled(f);
    EndRetired(f);
    Leader.SameFilesGrown(Settled(f));
    Leader.SameFilesGrown(f.files);
    if Secure(f, vals) { BackedFiles(f, EndSync(f), vals); }
  }

  // ----- deleting

  /** The segment was replaced: known to the log, and not current. */
  ghost predicate Gone(s: Live, id: nat) {
    id in s.r.lens && id !in LiveSegs(s.r)
  }

  lemma {:induction false} GoneStays(s: Live, e: Entry, id: nat)
    requires Sound(s) && Allowed(s, e) && Gone(s, id)
    ensures Gone(After(s, e), id)
  {
    hide IndexIn, LocsIn, EntriesFit, LogModel.Covers, MoveIndex, MoveLocs, Extent;
  }

  lemma {:induction false} GoneForever(log: seq<Entry>, c: nat, id: nat)
    requires Legal(log) && c <= |log| && Gone(On(log[..c]), id)
    ensures Gone(On(log), id)
    decreases |log|
  {
    hide On, Legal, Gone, Sound, Allowed, After;
    if c == |log| {
      assert log[..c] == log;
    } else {
      var n := |log| - 1;
      LegalPrefix(log, n);
      assert log[..n][..c] == log[..c];
      GoneForever(log[..n], c, id);
      OnSound(log[..n]);
      assert Allowed(On(log[..n]), log[n]) by { LastAllowedAt(log, n); }
      GoneStays(On(log[..n]), log[n], id);
      OnAppend(log[..n], log[n]);
      assert log[..n] + [log[n]] == log;
    }
  }

  lemma {:induction false} LastAllowedAt(log: seq<Entry>, i: nat)
    requires Legal(log) && i < |log|
    ensures Allowed(On(log[..i]), log[i])
  {
    hide On, Allowed;
  }

  lemma {:induction false} LensGrow(s: Live, e: Entry, id: nat)
    requires id in s.r.lens
    ensures id in After(s, e).r.lens
  {
    hide MoveIndex, MoveLocs, Extent;
  }

  /** A replaced segment is among those recovery would delete, and known to the log. */
  lemma {:induction false} SwapGathered(log: seq<Entry>, i: nat)
    requires Legal(log) && i < |log| && log[i].rec.SegmentSwap?
    ensures exists k ::
      0 <= k < |Recovery.Gather(log).swaps| && Recovery.Gather(log).swaps[k].0 == log[i].rec.oldSegmentId
    ensures log[i].rec.oldSegmentId in On(log).r.lens
    decreases |log|
  {
    hide Legal, After, Allowed, Sound;
    var n, id := |log| - 1, log[i].rec.oldSegmentId;
    LegalPrefix(log, n);
    var g, h := Recovery.Gather(log[..n]), Recovery.Gather(log);
    if i < n {
      SwapGathered(log[..n], i);
      var k :| 0 <= k < |g.swaps| && g.swaps[k].0 == id;
      assert h.swaps[k].0 == id;
      LensGrow(On(log[..n]), log[n], id);
    } else {
      assert h.swaps[|g.swaps|].0 == id;
      OnSound(log[..n]);
      LastAllowedAt(log, n);
      SwapKnown(On(log[..n]), log[n]);
    }
  }

  lemma {:induction false} SwapKnown(s: Live, e: Entry)
    requires Sound(s) && Allowed(s, e) && e.rec.SegmentSwap?
    ensures e.rec.oldSegmentId in After(s, e).r.lens
  {
    hide IndexIn, LocsIn, EntriesFit;
  }

  /** A segment whose swap is at or below the last Commit is gone, at that Commit and ever after. */
  lemma {:induction false} CoveredIsGone(log: seq<Entry>, lsn: nat, from: nat)
    requires Legal(log) && SwapIn(log, lsn, from) && lsn <= CommitBlock(log)
    ensures exists i ::
      0 <= i < Committed(log) && log[i].lsn == lsn && log[i].rec.SegmentSwap? && log[i].rec.oldSegmentId == from
    ensures Gone(On(log[..Committed(log)]), from) && Gone(On(log), from)
  {
    hide On, Legal, Gone, Recovery.Gather;
    var c := Committed(log);
    var i :| 0 <= i < |log| && log[i].lsn == lsn && log[i].rec.SegmentSwap? && log[i].rec.oldSegmentId == from;
    SwapBeforeCommit(log, i);
    var p := log[..c];
    LegalPrefix(log, c);
    assert p[i] == log[i];
    SwapGathered(p, i);
    CommittedTwice(log);
    Leader.CommittedIsClosed(p);
    var k :| 0 <= k < |Recovery.Gather(p).swaps| && Recovery.Gather(p).swaps[k].0 == from;
    Recovery.ReplacedNotCurrent(p, k);
    assert Gone(On(p), from) by { GoneIntro(On(p), from); }
    GoneForever(log, c, from);
  }

  lemma {:induction false} GoneIntro(s: Live, id: nat)
    requires id in s.r.lens && id !in LiveSegs(s.r)
    ensures Gone(s, id)
  {
  }

  lemma {:induction false} SwapBeforeCommit(log: seq<Entry>, i: nat)
    requires Legal(log) && i < |log| && log[i].lsn <= CommitBlock(log)
    ensures i < Committed(log)
  {
    hide On, Legal, After;
    var c := Committed(log);
    LastAllowedAt(log, i);
    if c <= i {
      LastLsnBelow(log, i, c);
      LastLsnBelow(log, c, c);
    }
  }

  lemma {:induction false} RemoveSettled(f: Replica, id: nat)
    requires f.swap.None? && f.files == Settled(f)
    ensures var g := f.(files := f.files - {id}); Settled(g) == g.files
  {
  }

  lemma {:induction false} RemoveFiles(fs: Files, s: Live, vals: Values, id: nat)
    requires Sound(s) && Gone(s, id) && Carries(fs, s.r, vals) && Rebuilt(fs, s, vals) && OrphansEmpty(fs, s)
    requires FilesOk(fs)
    requires Synced(fs, Closing(s))
    ensures Carries(fs - {id}, s.r, vals) && Rebuilt(fs - {id}, s, vals) && OrphansEmpty(fs - {id}, s)
    ensures FilesOk(fs - {id})
    ensures Synced(fs - {id}, Closing(s))
  {
    hide Leader.Hosted, Leader.CopyOk, EntriesFit, IndexIn, LocsIn, Total, MoveIndex, MoveLocs, Extent;
    Leader.HostedWithout(fs, LiveSegs(s.r), s.r, vals, id);
  }

  /** With the whole log durable, its last Commit is the only place a crash can cut it. */
  lemma {:induction false} BackedRemove(f: Replica, g: Replica, vals: Values, id: nat)
    requires Backed(f, vals) && f.durable == |f.log| && f.files == Settled(f) && Gone(On(f.log[..Committed(f.log)]), id)
    requires g.log == f.log && g.durable == f.durable && g.written == f.written && g.files == f.files - {id}
    requires Settled(g) == g.files
    ensures Backed(g, vals)
  {
    hide Safe, On, Settled;
    assert f.log[..|f.log|] == f.log;
    var c := Committed(f.log);
    assert Leader.IsCut(f.log, c);
    var r := On(f.log[..c]).r;
    assert Safe(f.files, r, vals);
    Leader.SafeWithout(f.files, r, vals, id);
  }

  lemma {:induction false} RemoveKeeps(f: Replica, vals: Values, i: nat)
    requires Content(f, vals) && f.swap.None? && f.files == Settled(f) && f.durable == |f.log| && i < |f.retired|
    ensures var g := RemoveRetired(f, i);
      Content(g, vals) && g.files == Settled(g) && (Secure(f, vals) ==> Secure(g, vals))
    ensures f.retired[i].0 <= f.lastCommit ==> Gone(On(f.log), f.retired[i].1)
  {
    hide On, Legal, Carries, Synced, Sound, Settled, FilesOk, CommitBlock, SwapIn, SwapOn, Committed, HandlesOpen;
    hide Backed, Gone, Rebuilt, OrphansEmpty, Rollups.RollupOf;
    var (lsn, id) := f.retired[i];
    if lsn <= f.lastCommit {
      var g := RemoveRetired(f, i);
      CoveredIsGone(f.log, lsn, id);
      OnSound(f.log);
      RemoveSettled(f, id);
      RemoveFiles(f.files, On(f.log), vals, id);
      if Secure(f, vals) { BackedRemove(f, g, vals, id); }
      SameHandles(f, g);
      SameRetired(f, g);
    }
  }

  // ----- crashing

  lemma {:induction false} CrashSurvivor(f: Replica, vals: Values, n: nat)
    requires LogOk(f) && Backed(f, vals) && f.durable <= n <= f.written <= |f.log|
    ensures var p := Surviving(f.log, n);
      && Legal(p) && Committed(p) == |p| && On(p).pend.None? && Recovery.Recovered(p) == On(p).r &&
           Safe(f.files, On(p).r, vals)
      && Committed(f.log[..f.durable]) <= |p|
  {
    hide On, Legal, Safe, Committed, Settled, Recovery.Recovered, CommitBlock;
    var c := Committed(f.log[..n]);
    var p := Surviving(f.log, n);
    LegalPrefix(f.log, c);
    CommittedTwice(f.log[..n]);
    assert f.log[..n][..c] == p;
    Leader.CommittedIsClosed(p);
    Recovery.ReplayIsLive(p);
    Leader.CommittedMonotone(f.log, f.durable, n);
    CutAtCommit(f.log, n);
  }

  lemma {:induction false} CleanSettled(f: Replica)
    requires f.swap.None? && f.dirty == {}
    ensures Settled(f) == f.files
  {
    assert f.dirty * f.open == {};
    assert Fsynced(f.files, {}) == f.files;
  }

  lemma {:induction false} RepairedOrphans(image: Files, s: Live)
    requires Sound(s)
    ensures OrphansEmpty(Repaired(image, s.r), s)
  {
    hide IndexIn, LocsIn, EntriesFit;
  }

  lemma {:induction false} OneCutBacked(g: Replica, vals: Values)
    requires g.durable == |g.log| && Committed(g.log) == |g.log| && Safe(g.files, On(g.log).r, vals)
    requires Settled(g) == g.files
    ensures Backed(g, vals)
  {
    hide Safe, On, Committed, Settled;
    assert g.log[..|g.log|] == g.log;
  }

  lemma {:induction false} AllOpen(s: Live)
    requires Sound(s)
    ensures forall l :: l in s.r.locs ==> s.r.locs[l].seg < s.bound && s.r.locs[l].seg in s.r.lens
    ensures forall id :: id in s.r.lens ==> id < s.bound
  {
    hide IndexIn, LocsIn, EntriesFit;
  }

  /** A follower that starts from a closed log and a safe disk. */
  lemma {:induction false} Starts(g: Replica, vals: Values)
    requires Legal(g.log) && Committed(g.log) == |g.log| && g.written == |g.log| && g.durable == |g.log|
    requires g.lastCommit == CommitBlock(g.log)
    requires On(g.log).pend.None? && g.view == On(g.log).r && g.swap.None? && g.dirty == {} && g.retired == []
    requires g.open == g.view.lens.Keys
    requires FilesOk(g.files) && Carries(g.files, g.view, vals) && Safe(g.files, g.view, vals)
    requires OrphansEmpty(g.files, On(g.log))
    requires g.tally == Rollups.RollupOf(g.log)
    ensures Content(g, vals) && Secure(g, vals)
  {
    hide On, Legal, Holds, Committed, Carries, Settled, Sound, FilesOk, OrphansEmpty, LocsIn, IndexIn, Backed;
    hide CommitBlock, Synced, Rollups.RollupOf;
    OnSound(g.log);
    CleanSettled(g);
    OneCutBacked(g, vals);
    AllOpen(On(g.log));
  }

  lemma {:induction false} ReopenReplicaKeeps(f: Replica, vals: Values, n: nat, image: Files)
    requires f.durable <= n <= f.written <= |f.log| && CrashImage(f.files, image) && LogOk(f) && Backed(f, vals)
    ensures Content(ReopenedReplica(f, n, image), vals) && Secure(ReopenedReplica(f, n, image), vals)
  {
    hide On, Legal, Safe, Committed, Leader.Hosted, Sound, Repaired, CrashImage, FilesOk, Recovery.Recovered;
    hide OrphansEmpty, LocsIn, IndexIn, LogOk, Backed, CommitBlock, Content, Secure, Rollups.RollupOf;
    CrashSurvivor(f, vals, n);
    var p, g := Surviving(f.log, n), ReopenedReplica(f, n, image);
    var live := On(p);
    OnSound(p);
    Leader.SoundFacts(live);
    SafeCrash(f.files, image, live.r, vals);
    HostedReopened(f.files, image, live, vals);
    RepairedLengths(f.files, image, live.r, vals);
    Leader.SoundEnd(live);
    HostedCarries(g.files, {}, live.r, vals);
    RepairedSafe(image, live.r, vals);
    RepairedOrphans(image, live);
    Starts(g, vals);
  }

  // ----- handles

  /** Behind every handle, bytes are only added at the end. */
  ghost predicate HandlesGrown(h: map<nat, seq<byte>>, h': map<nat, seq<byte>>) {
    forall id :: id in h ==> id in h' && h[id] <= h'[id]
  }

  ghost predicate Gentle(f: Replica, g: Replica, handles: map<nat, seq<byte>>) {
    && (forall id :: id in f.files && id in g.files ==> f.files[id].content <= g.files[id].content)
    && (forall id :: id in g.files && id !in f.files ==> id !in handles)
    && (forall id :: (id in f.files || id in handles) && id !in g.files ==>
         id in g.view.lens && id !in LiveSegs(g.view))
    && (forall id :: id in g.view.lens ==> id < On(g.log).bound)
  }

  lemma {:induction false} GentleFollows(f: Replica, g: Replica, handles: map<nat, seq<byte>>)
    requires HandlesFollow(f, handles) && Gentle(f, g, handles)
    ensures HandlesFollow(g, Runs.Seen(handles, g.files)) && HandlesGrown(handles, Runs.Seen(handles, g.files))
  {
    hide On;
  }

  lemma {:induction false} GentlePut(f: Replica, vals: Values, e: Entry, handles: map<nat, seq<byte>>)
    requires Content(f, vals) && Allowed(On(f.log), e) && e.rec.Put? && e.lsn in vals && |vals[e.lsn]| == e.rec.len
    requires HandlesFollow(f, handles)
    ensures Gentle(f, ApplyPut(f, e, Some(vals[e.lsn])).value, handles)
  {
    hide On, Legal, Carries, Synced, Sound, Settled, Grown, CommitBlock, InStep, RetiredIn, Leader.WriteAt;
    hide Leader.Opened, SwapOrphan, Rebuilt, Rollups.RollupOf, Rollups.Recorded;
    var s, g := On(f.log), ApplyPut(f, e, Some(vals[e.lsn])).value;
    OnSound(f.log);
    StepActive(f);
    CarriesEnd(Settled(f), s, vals);
    SettledPut(f, e, vals[e.lsn]);
    PutFiles(f, e, vals[e.lsn]);
    LogOkAppend(f, g, e);
    assert Grown(f.files, g.files);
    GrownContents(f.files, g.files);
  }

  lemma {:induction false} GrownContents(fs: Files, fs': Files)
    requires Grown(fs, fs')
    ensures forall id :: id in fs ==> id in fs' && fs[id].content <= fs'[id].content
  {
  }

  lemma {:induction false} GentleSeal(f: Replica, vals: Values, e: Entry, handles: map<nat, seq<byte>>)
    requires Content(f, vals) && Allowed(On(f.log), e) && e.rec.SegmentSeal? && HandlesFollow(f, handles)
    requires ApplySeal(f, e).Some?
    ensures Gentle(f, ApplySeal(f, e).value, handles)
  {
    hide On, Legal, Carries, Synced, Sound, Settled, Grown, CommitBlock, RetiredIn, SwapOrphan, Rebuilt, InStep;
    hide Rollups.RollupOf;
    OnSound(f.log);
    StepActive(f);
    AllOpen(On(f.log));
    LogOkAppend(f, ApplySeal(f, e).value, e);
    assert On(f.log).r.active < On(f.log).bound by { ActiveBelow(On(f.log)); }
  }

  lemma {:induction false} ActiveBelow(s: Live)
    requires Sound(s)
    ensures s.r.active < s.bound
  {
    hide IndexIn, LocsIn, EntriesFit;
  }

  lemma {:induction false} GentleFinalize(f: Replica, vals: Values, handles: map<nat, seq<byte>>)
    requires Content(f, vals) && HandlesFollow(f, handles)
    ensures Gentle(f, Finalize(f), handles)
  {
    hide On, Legal, Carries, Synced, Sound, Settled, Grown, CommitBlock, RetiredIn, Rebuilt, FilesOk, HandlesOpen;
    hide MoveIndex, MoveLocs, Extent, Rollups.RollupOf;
    if f.swap.None? { SameGentle(f, f, handles); }
  }

  /** A step that leaves the files alone and the layout as it is. */
  lemma {:induction false} SameGentle(f: Replica, g: Replica, handles: map<nat, seq<byte>>)
    requires HandlesFollow(f, handles) && g.view == f.view && On(f.log).bound <= On(g.log).bound
    requires g.files.Keys == f.files.Keys && forall id :: id in f.files ==> f.files[id].content == g.files[id].content
    ensures Gentle(f, g, handles)
  {
    hide On;
  }

  lemma {:induction false} GentleSwap(f: Replica, vals: Values, e: Entry, handles: map<nat, seq<byte>>)
    requires Content(f, vals) && Allowed(On(f.log), e) && e.rec.SegmentSwap? && HandlesFollow(f, handles)
    ensures Gentle(f, ApplySwap(f, e), handles)
  {
    hide On, Finalize, Allowed, After, Content;
    GentleFinalize(f, vals, handles);
    FinalizeLog(f);
    assert On(f.log + [e]).bound >= On(f.log).bound by { OnAppend(f.log, e); Leader.BoundGrows(On(f.log), e); }
  }

  lemma {:induction false} RecordGentle(f: Replica, vals: Values, e: Entry, data: Option<seq<byte>>, handles: map<nat,
                                        seq<byte>>)
    requires Content(f, vals) && HandlesFollow(f, handles) && Allowed(On(f.log), e) && Apply(f, e, data).Some?
    requires e.rec.Put? ==> e.lsn in vals && |vals[e.lsn]| == e.rec.len && data == Some(vals[e.lsn])
    ensures Gentle(f, Apply(f, e, data).value, handles)
  {
    hide Content, On, Legal, Allowed, Finalize, CopyEntries, Leader.WriteAt, HandlesFollow, Gentle, After, ApplyPut;
    hide ApplySeal, ApplySwap, Rollups.Recorded;
    OnAppend(f.log, e);
    Leader.BoundGrows(On(f.log), e);
    match e.rec
    case Put(_, _, _) => GentlePut(f, vals, e, handles);
    case SegmentSeal(_, _) => GentleSeal(f, vals, e, handles);
    case AggDelta(_) => SameGentle(f, Append(f, e), handles);
    case SegmentSwap(_, _) => GentleSwap(f, vals, e, handles);
    case SegmentRemap(_, _) => SameGentle(f, ApplyRemap(f, e).value, handles);
    case Commit(_) => SameGentle(f, Apply(f, e, data).value, handles);
  }

  lemma {:induction false} ApplyGentle(st: Stream, m: Node)
    requires GoodStream(st) && NodeInv(st, m) && Enabled(st, m, ApplyNext)
    requires NextReplica(st, m, ApplyNext).Some?
    ensures Gentle(m.f, NextReplica(st, m, ApplyNext).value, m.handles)
  {
    hide Content, On, Legal, Allowed, HandlesFollow, Gentle, PhaseInv, Apply;
    var f, e := m.f, st.log[|m.f.log|];
    NextAllowed(st, f);
    assert e.rec.Put? ==> e.lsn in st.vals && |st.vals[e.lsn]| == e.rec.len;
    RecordGentle(f, st.vals, e, Data(st, e), m.handles);
  }

  lemma {:induction false} GentleRemove(f: Replica, vals: Values, i: nat, handles: map<nat, seq<byte>>)
    requires Content(f, vals) && f.swap.None? && f.files == Settled(f) && f.durable == |f.log| && i < |f.retired|
    requires HandlesFollow(f, handles)
    ensures Gentle(f, RemoveRetired(f, i), handles)
  {
    hide Content, On, Settled, Gone;
    RemoveKeeps(f, vals, i);
    if f.retired[i].0 <= f.lastCommit {
      GoneFromView(f, vals, f.retired[i].1);
    }
  }

  lemma {:induction false} GoneFromView(f: Replica, vals: Values, id: nat)
    requires Content(f, vals) && f.swap.None? && Gone(On(f.log), id)
    ensures id in f.view.lens && id !in LiveSegs(f.view)
  {
    hide On, Legal, Carries, Synced, Settled, CommitBlock, RetiredIn, Rebuilt, FilesOk, HandlesOpen, OrphansEmpty;
    hide MoveIndex, MoveLocs, Extent, IndexIn, LocsIn, EntriesFit, Rollups.RollupOf;
    OnSound(f.log);
  }

  lemma {:induction false} StepGentle(st: Stream, m: Node, a: Action)
    requires GoodStream(st) && NodeInv(st, m) && Enabled(st, m, a) && !a.CrashAndReopen? && NextReplica(st, m, a).Some?
    ensures Gentle(m.f, NextReplica(st, m, a).value, m.handles)
  {
    hide Content, On, GoodStream, HandlesFollow, Gentle, Settled, Covered, InOrder;
    match a
    case ApplyNext => ApplyGentle(st, m);
    case BeginSync => GentleFinalize(m.f, st.vals, m.handles);
    case FsyncSegments => SameGentle(m.f, FsyncOpen(m.f), m.handles);
    case WriteLog => SameGentle(m.f, WriteWal(m.f), m.handles);
    case FsyncLog => SameGentle(m.f, FsyncWal(m.f), m.handles);
    case DeleteNext => GentleRemove(m.f, st.vals, m.phase.next, m.handles);
    case FinishSync => SameGentle(m.f, EndSync(m.f), m.handles);
  }

  // ----- every step keeps the invariant

  lemma {:induction false} ContentLog(f: Replica, vals: Values)
    requires Content(f, vals)
    ensures LogOk(f)
  {
    hide FilesOk, LogOk, InStep, Carries, Synced, Rebuilt, OrphansEmpty, HandlesOpen, SwapOrphan, RetiredIn;
  }

  lemma {:induction false} ReplicaKept(st: Stream, m: Node, a: Action)
    requires GoodStream(st) && NodeInv(st, m) && Enabled(st, m, a) && (a.CrashAndReopen? ==> Backed(m.f, st.vals))
    ensures NextReplica(st, m, a).Some?
    ensures var g := NextReplica(st, m, a).value;
      && Content(g, st.vals) && |g.log| <= |st.log| && g.log == st.log[..|g.log|]
      && PhaseInv(Node(g, NextPhase(m.phase, a), m.handles))
      && (Secure(m.f, st.vals) && Prudent(st, m, a) ==> Secure(g, st.vals))
  {
    hide Content, Secure, Flushed, Backed, On, GoodStream, HandlesFollow, Settled, Finalize, Fsynced, FilesOk, Covered;
    hide CrashImage, InOrder;
    match a
    case ApplyNext => ApplyKeeps(st, m.f);
    case BeginSync => FinalizeKeeps(m.f, st.vals); FinalizeLog(m.f);
    case FsyncSegments => FsyncOpenKeeps(m.f, st.vals);
    case WriteLog => WriteKeeps(m.f, st.vals); SameSettled(m.f, WriteWal(m.f));
    case FsyncLog => FsyncWalKeeps(m.f, st.vals); SameSettled(m.f, FsyncWal(m.f));
    case DeleteNext => RemoveKeeps(m.f, st.vals, m.phase.next);
    case FinishSync => EndSyncKeeps(m.f, st.vals);
    case CrashAndReopen(n, image) =>
      ContentLog(m.f, st.vals);
      ReopenReplicaKeeps(m.f, st.vals, n, image);
      PrefixOfPrefix(st.log, m.f.log, n);
  }

  lemma {:induction false} PrefixOfPrefix(all: seq<Entry>, log: seq<Entry>, n: nat)
    requires |log| <= |all| && log == all[..|log|] && n <= |log|
    ensures Surviving(log, n) == all[..|Surviving(log, n)|]
  {
    hide Committed;
  }

  lemma {:induction false} ReopenedHandles(f: Replica, vals: Values)
    requires Content(f, vals) && f.swap.None? && On(f.log).pend.None?
    ensures HandlesFollow(f, Runs.Seen(map[], f.files))
  {
    hide On, Legal, Carries, Synced, Settled, CommitBlock, RetiredIn, Rebuilt, FilesOk, HandlesOpen, OrphansEmpty;
    hide Sound, Rollups.RollupOf;
    OnSound(f.log);
    AllOpen(On(f.log));
  }

  lemma {:induction false} NodeKept(st: Stream, m: Node, a: Action, n: Node)
    requires GoodStream(st) && NodeInv(st, m) && Steps(st, m, a, n) && (a.CrashAndReopen? ==> Backed(m.f, st.vals))
    ensures NodeInv(st, n) && (!a.CrashAndReopen? ==> HandlesGrown(m.handles, n.handles))
    ensures Secure(m.f, st.vals) && Prudent(st, m, a) ==> Secure(n.f, st.vals)
  {
    hide Content, Secure, Backed, Prudent, On, GoodStream, HandlesFollow, Settled, Enabled, HandlesGrown, Runs.Seen;
    ReplicaKept(st, m, a);
    if a.CrashAndReopen? {
      ClosedAfterCrash(st, m, a);
      ReopenedHandles(n.f, st.vals);
    } else {
      StepGentle(st, m, a);
      GentleFollows(m.f, n.f, m.handles);
    }
  }

  lemma {:induction false} ClosedAfterCrash(st: Stream, m: Node, a: Action)
    requires NodeInv(st, m) && Enabled(st, m, a) && a.CrashAndReopen? && Backed(m.f, st.vals)
    ensures var g := NextReplica(st, m, a).value; g.swap.None? && On(g.log).pend.None?
  {
    hide Content, Backed, LogOk, On, HandlesFollow, PhaseInv, CrashImage, Recovery.Recovered, Repaired, CommitBlock;
    hide Rollups.RollupOf;
    ContentLog(m.f, st.vals);
    CrashSurvivor(m.f, st.vals, a.scanned);
  }

  lemma {:induction false} BootInv(st: Stream)
    ensures NodeInv(st, BOOT) && Secure(BOOT.f, st.vals)
  {
    Runs.FreshLog();
    hide On, Legal, Committed;
    var f := EMPTY_REPLICA;
    assert Carries(f.files, EMPTY, st.vals) && Safe(f.files, EMPTY, st.vals) by { EmptyCarries(st.vals); }
    assert FilesOk(f.files);
    hide Carries, Safe, Content, Secure;
    Starts(f, st.vals);
    assert st.log[..0] == [];
  }

  lemma {:induction false} EmptyCarries(vals: Values)
    ensures Carries(map[0 := File([], 0)], EMPTY, vals) && Safe(map[0 := File([], 0)], EMPTY, vals)
  {
  }

  lemma {:induction false} RunKeeps(st: Stream, m: Node, acts: seq<Action>, n: Node)
    requires GoodStream(st) && NodeInv(st, m) && Leads(st, m, acts, n)
    ensures NodeInv(st, n)
    decreases |acts|
  {
    hide NodeInv, Steps, GoodStream, Backed;
    if |acts| > 0 {
      var k :| Steps(st, m, acts[0], k) && (acts[0].CrashAndReopen? ==> Backed(m.f, st.vals)) &&
        Leads(st, k, acts[1..], n);
      NodeKept(st, m, acts[0], k);
      RunKeeps(st, k, acts[1..], n);
    }
  }

  /** A prudent run keeps the follower secure, so that it survives every crash. */
  lemma {:induction false} PrudentRunKeeps(st: Stream, m: Node, acts: seq<Action>, n: Node)
    requires GoodStream(st) && NodeInv(st, m) && Secure(m.f, st.vals) && LeadsPrudently(st, m, acts, n)
    ensures NodeInv(st, n) && Secure(n.f, st.vals) && Leads(st, m, acts, n)
    decreases |acts|
  {
    hide NodeInv, Steps, GoodStream, Backed, Flushed, Prudent;
    if |acts| > 0 {
      var k :| Steps(st, m, acts[0], k) && Prudent(st, m, acts[0]) && LeadsPrudently(st, k, acts[1..], n);
      NodeKept(st, m, acts[0], k);
      PrudentRunKeeps(st, k, acts[1..], n);
    }
  }

  /** Reached by a run whose crashes were survived. */
  ghost predicate Reachable(st: Stream, m: Node) {
    GoodStream(st) && exists acts :: Leads(st, BOOT, acts, m)
  }

  /** Reached by a prudent run, whatever its crashes. */
  ghost predicate PrudentlyReachable(st: Stream, m: Node) {
    GoodStream(st) && exists acts :: LeadsPrudently(st, BOOT, acts, m)
  }

  lemma {:induction false} ReachableInv(st: Stream, m: Node)
    requires Reachable(st, m)
    ensures NodeInv(st, m)
  {
    hide NodeInv, Leads, GoodStream;
    BootInv(st);
    var acts :| Leads(st, BOOT, acts, m);
    RunKeeps(st, BOOT, acts, m);
  }

  lemma {:induction false} PrudentlyReachableInv(st: Stream, m: Node)
    requires PrudentlyReachable(st, m)
    ensures NodeInv(st, m) && Secure(m.f, st.vals) && Reachable(st, m)
  {
    hide NodeInv, Leads, LeadsPrudently, GoodStream, Secure;
    BootInv(st);
    var acts :| LeadsPrudently(st, BOOT, acts, m);
    PrudentRunKeeps(st, BOOT, acts, m);
  }
}
