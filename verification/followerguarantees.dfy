/** What a follower promises: it survives a crash at any step, deletes nothing recovery could need,
    and arrives at the leader's state; and why the barrier before a compaction matters. */
module FollowerGuarantees {
  import opened Bytes
  import opened Records
  import opened Wal
  import opened LogModel
  import opened Disk
  import Leader
  import opened CrashSafety
  import opened Follower
  import opened FollowerRuns
  import Guarantees
  import Recovery
  import Runs
  import Rollups

  /** Every record of the leader's log is accepted, with or without barriers between a put and a compaction. */
  lemma {:induction false} RecordsNeverRefused(st: Stream, m: Node)
    requires Reachable(st, m) && Enabled(st, m, ApplyNext)
    ensures NextReplica(st, m, ApplyNext).Some?
  {
    ReachableInv(st, m);
    hide NodeInv, Enabled, NextReplica;
    ReplicaKept(st, m, ApplyNext);
  }

  /** After every prudent run, each segment that the durable, committed part of the log refers to is
      on disk, fsynced to the length the log gives it, with every put of it in place. */
  lemma {:induction false} DurablePrefixOnDisk(st: Stream, m: Node)
    requires PrudentlyReachable(st, m)
    ensures m.f.durable <= |m.f.log|
    ensures var r := On(m.f.log[..Committed(m.f.log[..m.f.durable])]).r;
      Synced(m.f.files, r) && Holds(m.f.files, r, st.vals)
  {
    PrudentlyReachableInv(st, m);
    ContentLog(m.f, st.vals);
    hide Reachable, PrudentlyReachable, On, Legal, Content, CommitBlock, Settled, HandlesFollow, PhaseInv, Holds;
    hide Synced;
    CutAtCommit(m.f.log, m.f.durable);
  }

  /** A crash anywhere, also around renames, log writes and deletions, and also during the recovery
      that follows, leaves a follower that opens again and serves the last puts of what survived:
      a prefix of the leader's log no shorter than the durable committed part. */
  lemma {:induction false} FollowerCrashSafety(st: Stream, m: Node, n: nat, image: Files, ms: seq<Guarantees.Mishap>,
                                               found: Files, key: Text)
    requires PrudentlyReachable(st, m) && m.f.durable <= n <= m.f.written <= |m.f.log| && CrashImage(m.f.files, image)
    requires Guarantees.Interrupted(image, Recovery.Recovered(Surviving(m.f.log, n)), ms, found)
    ensures var p := Surviving(m.f.log, n);
      var r := Recovery.Recovered(p);
      && |p| <= |st.log| && p == st.log[..|p|] && Committed(m.f.log[..m.f.durable]) <= |p|
      && Recoverable(found, r)
      && Guarantees.ReadsLastPut(Get(Repaired(found, r), r.index, key), p, st.vals, key)
  {
    PrudentlyReachableInv(st, m);
    ContentLog(m.f, st.vals);
    hide Reachable, PrudentlyReachable, On, Legal, Safe, FilesOk, Sound, Recoverable, Repaired, LocsIn, IndexIn;
    hide CrashImage, Guarantees.Interrupted, Guarantees.ReadsLastPut, Committed, Recovery.Recovered, Content, Backed;
    hide LogOk, PhaseInv, HandlesFollow;
    var f, p := m.f, Surviving(m.f.log, n);
    CrashSurvivor(f, st.vals, n);
    PrefixOfPrefix(st.log, f.log, n);
    OnSound(p);
    Leader.SoundFacts(On(p));
    SafeCrash(f.files, image, On(p).r, st.vals);
    Guarantees.CrashFilesOk(f.files, image);
    Guarantees.InterruptedSafe(image, On(p).r, st.vals, ms, found);
    Guarantees.RecoveryServes(found, p, st.vals, key);
  }

  /** A file disappears only by deleting a segment whose replacement precedes a durable Commit. */
  lemma {:induction false} DeletedOnlyWhenCovered(st: Stream, m: Node, a: Action, n: Node, id: nat)
    requires Reachable(st, m) && Steps(st, m, a, n) && !a.CrashAndReopen? && id in m.f.files && id !in n.f.files
    ensures m.f.durable == |m.f.log|
    ensures exists i, j ::
      0 <= i < j < m.f.durable && m.f.log[i].rec.SegmentSwap? &&
      m.f.log[i].rec.oldSegmentId == id && m.f.log[j].rec.Commit?
  {
    ReachableInv(st, m);
    OnlyDeletes(st, m, a, n, id);
    hide Reachable, Steps, HandlesFollow, PhaseInv, Content;
    DeletingState(st, m);
    WhatIsDeleted(st, m, a, n, id);
    CoveredReplacement(m.f, st.vals, m.phase.next);
  }

  lemma {:induction false} DeletingState(st: Stream, m: Node)
    requires NodeInv(st, m)
    ensures m.phase.Deleting? ==> m.f.durable == |m.f.log|
  {
    hide Content, HandlesFollow, Settled;
  }

  lemma {:induction false} WhatIsDeleted(st: Stream, m: Node, a: Action, n: Node, id: nat)
    requires Steps(st, m, a, n) && a.DeleteNext? && id in m.f.files && id !in n.f.files
    ensures m.phase.Deleting? && m.phase.next < |m.f.retired| && m.f.retired[m.phase.next].1 == id
    ensures m.f.retired[m.phase.next].0 <= m.f.lastCommit
  {
  }

  lemma {:induction false} CoveredReplacement(f: Replica, vals: Values, k: nat)
    requires Content(f, vals) && k < |f.retired| && f.retired[k].0 <= f.lastCommit
    ensures exists i, j ::
      0 <= i < j < |f.log| && f.log[i].rec.SegmentSwap? &&
      f.log[i].rec.oldSegmentId == f.retired[k].1 && f.log[j].rec.Commit?
  {
    hide On, Legal, Carries, Synced, Rebuilt, OrphansEmpty, HandlesOpen, Settled, FilesOk, InStep, SwapOrphan;
    hide Rollups.RollupOf;
    CoveredIsGone(f.log, f.retired[k].0, f.retired[k].1);
    var i :| 0 <= i < Committed(f.log) && f.log[i].lsn == f.retired[k].0 && f.log[i].rec.SegmentSwap? &&
      f.log[i].rec.oldSegmentId == f.retired[k].1;
    var j := Committed(f.log) - 1;
    assert f.log[j].rec.Commit?;
  }

  lemma {:induction false} OnlyDeletes(st: Stream, m: Node, a: Action, n: Node, id: nat)
    requires Steps(st, m, a, n) && !a.CrashAndReopen? && id in m.f.files && id !in n.f.files
    ensures a.DeleteNext?
  {
    hide CopyEntries, Leader.WriteAt, SwapOn, Covered, InOrder, Rollups.Recorded;
  }

  // ----- simulation

  lemma {:induction false} SettledWhenQuiet(st: Stream, m: Node)
    requires NodeInv(st, m) && m.f.swap.None? && On(m.f.log).pend.None?
    ensures m.f.view == On(m.f.log).r && Holds(Settled(m.f), m.f.view, st.vals)
    ensures forall id :: id in Settled(m.f) <==> id in m.f.files
    ensures forall id :: id in m.f.files ==> Settled(m.f)[id].content == m.f.files[id].content
  {
    hide On, Legal, Holds, Rebuilt, OrphansEmpty, HandlesOpen, HandlesFollow, FilesOk, RetiredIn, PhaseInv, Synced;
    hide Rollups.RollupOf;
  }

  /** The follower's index, open segment and offset, and sealed segments are the leader's. */
  ghost predicate SameMemory(f: Replica, s: Leader.Store) {
    f.view.index == s.mem.index && f.view.active == s.mem.active && f.view.off == s.mem.off &&
      f.view.sealed == s.mem.sealed
  }

  /** The put is at the same place on both, with the same bytes there. */
  ghost predicate SamePut(f: Replica, s: Leader.Store, value: seq<byte>, lsn: nat) {
    && lsn in f.view.locs && lsn in s.mem.locs && f.view.locs[lsn] == s.mem.locs[lsn]
    && var l := s.mem.locs[lsn];
       && l.seg in f.files && l.seg in s.files
       && l.off + l.len <= |f.files[l.seg].content| && l.off + l.len <= |s.files[l.seg].content|
       && f.files[l.seg].content[l.off..l.off + l.len] == value
       && s.files[l.seg].content[l.off..l.off + l.len] == value
  }

  /** Follower simulation: once a follower has applied a log that ends in a Commit and gone through a
      barrier, memory and counters are the leader's, and so are the place and bytes of every put in a
      current segment, among them the current value of every key; however many compactions and
      overwrites there were between barriers. */
  lemma {:induction false} FollowerSimulates(st: Stream, m: Node, s: Leader.Store)
    requires Reachable(st, m) && m.f.swap.None?
    requires Leader.Inv(s) && s.plan.None? && s.log == m.f.log && s.vals == st.vals
    ensures SameMemory(m.f, s) && m.f.tally == Rollups.RollupOf(s.log)
    ensures forall lsn :: lsn in s.mem.locs && s.mem.locs[lsn].seg in s.mem.sealed + {s.mem.active} ==>
      lsn in st.vals && SamePut(m.f, s, st.vals[lsn], lsn)
    ensures forall key :: key in s.mem.index ==>
      s.mem.index[key].lsn in s.mem.locs && s.mem.locs[s.mem.index[key].lsn].seg in s.mem.sealed + {s.mem.active}
  {
    ReachableInv(st, m);
    hide Reachable, NodeInv, On, Legal, Sound, Leader.Inv, SamePut, Rollups.RollupOf;
    FollowerCounts(st, m);
    QuietLeader(s);
    LeaderHosts(s);
    SettledWhenQuiet(st, m);
    OnSound(s.log);
    Leader.SoundFacts(On(s.log));
    hide Leader.Hosted, Settled, Holds, LocsIn;
    MirroredLocs(s);
    forall lsn | lsn in s.mem.locs && s.mem.locs[lsn].seg in s.mem.sealed + {s.mem.active}
      ensures lsn in st.vals && SamePut(m.f, s, st.vals[lsn], lsn)
    {
      SamePlace(st, m, s, lsn);
    }
  }

  lemma {:induction false} FollowerCounts(st: Stream, m: Node)
    requires NodeInv(st, m)
    ensures m.f.tally == Rollups.RollupOf(m.f.log)
  {
    hide LogOk, InStep, FilesOk, Carries, Rebuilt, Synced, OrphansEmpty, HandlesOpen, SwapOrphan, RetiredIn, PhaseInv;
    hide HandlesFollow;
  }

  lemma {:induction false} MirroredLocs(s: Leader.Store)
    requires Leader.Mirrors(s.mem, s.view) && IndexIn(s.view)
    ensures forall lsn :: lsn in s.mem.locs ==> lsn in s.view.locs && s.view.locs[lsn] == s.mem.locs[lsn]
    ensures LiveSegs(s.view) == s.mem.sealed + {s.mem.active} && s.mem.index == s.view.index
    ensures forall key :: key in s.mem.index ==>
      s.mem.index[key].lsn in s.mem.locs && s.mem.locs[s.mem.index[key].lsn].seg in s.mem.sealed + {s.mem.active}
  {
  }

  lemma {:induction false} SamePlace(st: Stream, m: Node, s: Leader.Store, lsn: nat)
    requires NodeInv(st, m) && m.f.swap.None? && On(m.f.log).pend.None? && m.f.view == On(m.f.log).r
    requires s.view == m.f.view && s.vals == st.vals
    requires Leader.Hosted(s.files, s.dirty, s.view, s.vals) && LocsIn(s.view)
    requires lsn in s.mem.locs && lsn in s.view.locs && s.view.locs[lsn] == s.mem.locs[lsn]
    requires s.view.locs[lsn].seg in LiveSegs(s.view)
    ensures lsn in st.vals && SamePut(m.f, s, st.vals[lsn], lsn)
  {
    hide NodeInv, On, Leader.Hosted, LocsIn;
    Leader.SourceRead(s.files, s.dirty, s.view, s.vals, lsn);
    FollowerReads(st, m, lsn);
  }

  lemma {:induction false} QuietLeader(s: Leader.Store)
    requires Leader.Inv(s) && s.plan.None?
    ensures On(s.log).pend.None? && s.view == On(s.log).r && Legal(s.log)
  {
    hide On, Legal, Leader.Hosted, Leader.Mirrors, Leader.Backed;
  }

  lemma {:induction false} LeaderHosts(s: Leader.Store)
    requires Leader.Inv(s)
    ensures Leader.Hosted(s.files, s.dirty, s.view, s.vals) && Leader.Mirrors(s.mem, s.view)
  {
    hide On, Legal, Leader.Hosted, Leader.Mirrors, Leader.Backed;
  }

  lemma {:induction false} FollowerReads(st: Stream, m: Node, lsn: nat)
    requires NodeInv(st, m) && m.f.swap.None? && On(m.f.log).pend.None? && m.f.view == On(m.f.log).r
    requires lsn in m.f.view.locs && m.f.view.locs[lsn].seg in LiveSegs(m.f.view)
    ensures var l := m.f.view.locs[lsn];
      && lsn in st.vals && l.seg in m.f.files && l.off + l.len <= |m.f.files[l.seg].content|
      && m.f.files[l.seg].content[l.off..l.off + l.len] == st.vals[lsn]
  {
    SettledWhenQuiet(st, m);
    hide On, Legal, Sound, Settled, Leader.Hosted, Rebuilt, OrphansEmpty, HandlesOpen, HandlesFollow, FilesOk;
    hide RetiredIn, PhaseInv, LocsIn, IndexIn, Synced, Rollups.RollupOf;
    OnSound(m.f.log);
    Leader.SoundFacts(On(m.f.log));
    Leader.SourceRead(Settled(m.f), LiveSegs(m.f.view), m.f.view, st.vals, lsn);
  }

  // ----- readers

  ghost predicate NoCrash(acts: seq<Action>) {
    forall i :: 0 <= i < |acts| ==> !acts[i].CrashAndReopen?
  }

  lemma {:induction false} HandlesKept(st: Stream, m: Node, acts: seq<Action>, n: Node)
    requires GoodStream(st) && NodeInv(st, m) && Leads(st, m, acts, n) && NoCrash(acts)
    ensures HandlesGrown(m.handles, n.handles)
    decreases |acts|
  {
    hide NodeInv, Steps, GoodStream, Backed;
    if |acts| > 0 {
      var k :| Steps(st, m, acts[0], k) && (acts[0].CrashAndReopen? ==> Backed(m.f, st.vals)) &&
        Leads(st, k, acts[1..], n);
      NodeKept(st, m, acts[0], k);
      HandlesKept(st, k, acts[1..], n);
    }
  }

  lemma {:induction false} SameReading(snap: Runs.Snap, h: map<nat, seq<byte>>, h': map<nat, seq<byte>>, key: Text)
    requires HandlesGrown(h, h') && Guarantees.Read(snap, h, key).Bytes?
    ensures Guarantees.Read(snap, h', key) == Guarantees.Read(snap, h, key)
  {
    var l := snap.index[key];
    SameBelow(h[l.seg], h'[l.seg], |h[l.seg]|, l.off, l.off + l.len);
  }

  /** The snapshot a barrier publishes when it ends. */
  function Published(f: Replica): Runs.Snap {
    Runs.Snap(f.view.index, f.view.locs, f.open)
  }

  /** The records of a batch are complete: no compaction is open, or it has an entry for every key it must move. */
  ghost predicate AtBatchEnd(f: Replica) {
    On(f.log).pend.Some? ==> LogModel.Covers(On(f.log).r, On(f.log).pend.value)
  }

  /** At a batch's end, memory's index names the last put of every key, in a segment that holds it. */
  lemma {:induction false} ViewIndex(f: Replica, vals: Values, key: Text)
    requires Content(f, vals) && f.swap.None? && AtBatchEnd(f)
    ensures IndexIn(f.view) && LocsIn(f.view) && Carries(Settled(f), f.view, vals)
    ensures match LastPut(f.log, key)
      case None => key !in f.view.index
      case Some(lsn) => key in f.view.index && f.view.index[key].lsn == lsn
  {
    hide On, Legal, Synced, Settled, FilesOk, CommitBlock, RetiredIn, HandlesOpen, OrphansEmpty, Rebuilt, Carries;
    hide Rollups.RollupOf, IndexIn, LocsIn, LogModel.Covers, LastPut, Sound;
    OnSound(f.log);
    IndexIsLastPut(f.log, key);
    var s := On(f.log);
    Leader.SoundFacts(s);
    if s.pend.Some? {
      CarriesCommit(Settled(f), s, vals);
      SwapIndexIn(s, s.pend.value);
      SwapLocsIn(s, s.pend.value);
      if key in s.r.index { MovedAt(s.pend.value.entries, key, s.r.index[key].lsn); }
    }
  }

  lemma {:induction false} PublishedReads(st: Stream, m: Node, key: Text)
    requires NodeInv(st, m) && m.f.swap.None? && m.f.files == Settled(m.f) && AtBatchEnd(m.f) && key in m.f.view.index
    ensures m.f.view.index[key].lsn in st.vals
    ensures Guarantees.Read(Published(m.f), m.handles, key) == Guarantees.Bytes(st.vals[m.f.view.index[key].lsn])
  {
    hide On, Legal, Synced, Settled, FilesOk, CommitBlock, RetiredIn, OrphansEmpty, Rebuilt, Leader.Hosted;
    hide Rollups.RollupOf, LocsIn, AtBatchEnd, PhaseInv, InStep;
    ViewIndex(m.f, st.vals, key);
    Leader.SourceRead(m.f.files, LiveSegs(m.f.view), m.f.view, st.vals, m.f.view.index[key].lsn);
  }

  /** Readers of a follower: the snapshot a barrier publishes serves the last put of every key, and goes on
      doing so through every later record, swap and deletion. */
  lemma {:induction false} FollowerSnapshotIsolation(st: Stream, m: Node, n: Node, later: seq<Action>, k: Node,
                                                     key: Text)
    requires Reachable(st, m) && Steps(st, m, FinishSync, n) && AtBatchEnd(n.f) && Leads(st, n, later, k)
    requires NoCrash(later)
    ensures match LastPut(n.f.log, key)
      case None => Guarantees.Read(Published(n.f), k.handles, key) == Guarantees.Absent
      case Some(lsn) =>
        lsn in st.vals && Guarantees.Read(Published(n.f), k.handles, key) == Guarantees.Bytes(st.vals[lsn])
  {
    ReachableInv(st, m);
    hide NodeInv, Leads, GoodStream, LastPut, AtBatchEnd, Guarantees.Read, Steps, Reachable;
    NodeKept(st, m, FinishSync, n);
    QuietAfterBarrier(st, m, n);
    ViewOfNode(st, n, key);
    Guarantees.AbsentKey(Published(n.f), k.handles, key);
    if key in n.f.view.index {
      PublishedReads(st, n, key);
      HandlesKept(st, n, later, k);
      SameReading(Published(n.f), n.handles, k.handles, key);
    }
  }

  lemma {:induction false} ViewOfNode(st: Stream, n: Node, key: Text)
    requires NodeInv(st, n) && n.f.swap.None? && AtBatchEnd(n.f)
    ensures match LastPut(n.f.log, key)
      case None => key !in n.f.view.index
      case Some(lsn) => key in n.f.view.index && n.f.view.index[key].lsn == lsn
  {
    hide Content, LastPut, AtBatchEnd, PhaseInv, HandlesFollow;
    ViewIndex(n.f, st.vals, key);
  }

  lemma {:induction false} QuietAfterBarrier(st: Stream, m: Node, n: Node)
    requires NodeInv(st, m) && Steps(st, m, FinishSync, n)
    ensures n.f.swap.None? && n.f.files == Settled(n.f)
  {
    hide Content, HandlesFollow, Settled, Covered;
    EndSettled(m.f);
  }

  // ----- the barrier

  /** Every crash from here leaves a disk that opens. */
  ghost predicate Survives(g: Replica) {
    forall n: nat, image: Files :: g.durable <= n <= g.written <= |g.log| && CrashImage(g.files, image) ==>
      Recoverable(image, Recovery.Recovered(Surviving(g.log, n)))
  }

  lemma {:induction false} SecureSurvives(g: Replica, vals: Values)
    requires LogOk(g) && Secure(g, vals)
    ensures Survives(g)
  {
    hide LogOk, Backed, Flushed, CrashImage, Recoverable, Safe, On, Legal, Recovery.Recovered, Sound, LocsIn, IndexIn;
    hide FilesOk, Committed;
    forall n: nat, image: Files | g.durable <= n <= g.written <= |g.log| && CrashImage(g.files, image)
      ensures Recoverable(image, Recovery.Recovered(Surviving(g.log, n)))
    {
      var p := Surviving(g.log, n);
      CrashSurvivor(g, vals, n);
      OnSound(p);
      Leader.SoundFacts(On(p));
      SafeCrash(g.files, image, On(p).r, vals);
      Guarantees.CrashFilesOk(g.files, image);
      SafeIsRecoverable(image, On(p).r, vals);
    }
  }

  /** Bytes the log needs but no fsync covered may be gone after a crash, and then the store does not open. */
  lemma {:induction false} UnsyncedIsLost(fs: Files, r: Layout, id: nat)
    requires FilesOk(fs) && DurableLength(fs, id) < Need(r, id)
    ensures exists image :: CrashImage(fs, image) && !Recoverable(image, r)
  {
    var image := map i | i in fs :: File(fs[i].content[..fs[i].durable], fs[i].durable);
    assert CrashImage(fs, image);
    assert !(id in image && r.lens[id] <= |image[id].content|);
    assert !Recoverable(image, r);
  }

  /** A barrier up to the moment the log is written. */
  function UpToWrite(f: Replica): Replica {
    WriteWal(FsyncOpen(Finalize(f)))
  }

  lemma {:induction false} UpToWriteKeeps(f: Replica, vals: Values)
    requires Content(f, vals)
    ensures var g := UpToWrite(f);
      Content(g, vals) && g.log == f.log && g.durable == f.durable && g.written == |f.log| &&
        (Secure(f, vals) ==> Secure(g, vals))
  {
    hide Content, Secure, Settled, Finalize, Fsynced;
    FinalizeKeeps(f, vals);
    FinalizeLog(f);
    FsyncOpenKeeps(Finalize(f), vals);
    WriteKeeps(FsyncOpen(Finalize(f)), vals);
  }

  /** The barrier does not fsync the replaced segment: its handle is closed. */
  lemma {:induction false} OldSegmentStays(f: Replica)
    requires f.swap.Some? && f.swap.value.from != f.swap.value.to
    ensures DurableLength(UpToWrite(f).files, f.swap.value.from) == DurableLength(f.files, f.swap.value.from)
  {
    hide SwapOn;
  }

  /** The position a crash can cut back to, and where the scan must then have ended. */
  lemma {:induction false} CutReached(log: seq<Entry>, durable: nat, c: nat) returns (n: nat)
    requires Leader.IsCut(log, c) && durable <= |log| && Committed(log[..durable]) <= c
    ensures durable <= n <= |log| && Surviving(log, n) == log[..c]
  {
    if durable <= c {
      n := c;
      CutIsCommitted(log, c);
    } else {
      n := durable;
      if c > 0 { assert log[..durable][c - 1].rec.Commit?; }
    }
  }

  lemma {:induction false} CutIsCommitted(log: seq<Entry>, c: nat)
    requires Leader.IsCut(log, c)
    ensures Committed(log[..c]) == c
  {
  }

  lemma {:induction false} UnflushedLoses(f: Replica, vals: Values)
    requires Content(f, vals) && f.swap.Some? && !Flushed(f, f.swap.value.from)
    ensures !Survives(UpToWrite(f))
  {
    hide On, Legal, Carries, Synced, Rebuilt, HandlesOpen, RetiredIn, OrphansEmpty, Need, DurableLength, Recoverable;
    hide CrashImage, Recovery.Recovered, Committed, UpToWrite, CommitBlock, Settled, Rollups.RollupOf, SwapOn;
    var g, from := UpToWrite(f), f.swap.value.from;
    var c: nat :| Leader.IsCut(f.log, c) && f.durable <= |f.log| && Committed(f.log[..f.durable]) <= c &&
      Need(On(f.log[..c]).r, from) > DurableLength(f.files, from);
    UpToWriteKeeps(f, vals);
    OldSegmentStays(f);
    var n := CutReached(f.log, f.durable, c);
    ClosedCut(f.log, c);
    UnsyncedIsLost(g.files, On(f.log[..c]).r, from);
    var image :| CrashImage(g.files, image) && !Recoverable(image, On(f.log[..c]).r);
    assert !Recoverable(image, Recovery.Recovered(Surviving(g.log, n)));
  }

  lemma {:induction false} ClosedCut(log: seq<Entry>, c: nat)
    requires Legal(log) && Leader.IsCut(log, c)
    ensures Recovery.Recovered(log[..c]) == On(log[..c]).r
  {
    hide On, Legal, Recovery.Recovered;
    LegalPrefix(log, c);
    CutIsCommitted(log, c);
    Leader.CommittedIsClosed(log[..c]);
    Recovery.ReplayIsLive(log[..c]);
  }

  /** Exactly when a barrier is dangerous: with a compaction pending on a follower that has survived so far, every crash
      while the barrier writes the log leaves a disk that opens if, and only if, no Commit such a crash may cut back to
      needs more of the replaced segment than is fsynced. */
  lemma {:induction false} BarrierExactly(st: Stream, m: Node)
    requires Reachable(st, m) && m.f.swap.Some? && Backed(m.f, st.vals)
    ensures Survives(UpToWrite(m.f)) <==> Flushed(m.f, m.f.swap.value.from)
  {
    ReachableInv(st, m);
    hide Reachable, Content, Backed, Flushed, Survives, UpToWrite, PhaseInv, HandlesFollow, LogOk;
    if Flushed(m.f, m.f.swap.value.from) {
      UpToWriteKeeps(m.f, st.vals);
      ContentLog(UpToWrite(m.f), st.vals);
      SecureSurvives(UpToWrite(m.f), st.vals);
    } else {
      UnflushedLoses(m.f, st.vals);
    }
  }

  lemma {:induction false} FlushedBefore(f: Replica, g: Replica, e: Entry, id: nat)
    requires Flushed(g, id) && f.durable <= |f.log| && g.log == f.log + [e] && g.durable == f.durable
    requires g.files == f.files
    ensures Flushed(f, id)
  {
    hide On, Committed, Need;
    assert g.log[..g.durable] == f.log[..f.durable];
    forall c: nat | Leader.IsCut(f.log, c) && Committed(f.log[..f.durable]) <= c
      ensures Need(On(f.log[..c]).r, id) <= DurableLength(f.files, id)
    {
      assert g.log[..c] == f.log[..c];
      assert Leader.IsCut(g.log, c);
    }
  }

  /** Prudence is exact: for a secure follower about to apply a compaction, every crash in the barrier that follows is
      survived if, and only if, the step was prudent. */
  lemma {:induction false} PrudenceIsExact(st: Stream, m: Node)
    requires Reachable(st, m) && Secure(m.f, st.vals) && Enabled(st, m, ApplyNext) && st.log[|m.f.log|].rec.SegmentSwap?
    ensures Survives(UpToWrite(ApplySwap(m.f, st.log[|m.f.log|]))) <==> Prudent(st, m, ApplyNext)
  {
    ReachableInv(st, m);
    var e := st.log[|m.f.log|];
    var g := ApplySwap(m.f, e);
    hide Reachable, Content, Backed, Flushed, Survives, UpToWrite, PhaseInv, HandlesFollow, LogOk, Finalize, On;
    hide Allowed, GoodStream;
    assert GoodStream(st) by { StreamOf(st, m); }
    NextAllowed(st, m.f);
    ApplySwapKeeps(m.f, st.vals, e);
    FinalizeLog(m.f);
    if Prudent(st, m, ApplyNext) {
      UpToWriteKeeps(g, st.vals);
      ContentLog(UpToWrite(g), st.vals);
      SecureSurvives(UpToWrite(g), st.vals);
    } else {
      if Flushed(g, e.rec.oldSegmentId) {
        FlushedBefore(Finalize(m.f), g, e, e.rec.oldSegmentId);
      }
      UnflushedLoses(g, st.vals);
    }
  }

  lemma {:induction false} StreamOf(st: Stream, m: Node)
    requires Reachable(st, m)
    ensures GoodStream(st)
  {
  }

  /** A completed barrier on a closed log makes the follower secure again, prudent or not. */
  lemma {:induction false} BarrierRestores(st: Stream, m: Node, n: Node)
    requires Reachable(st, m) && Steps(st, m, FinishSync, n) && Committed(m.f.log) == |m.f.log|
    ensures Secure(n.f, st.vals)
  {
    ReachableInv(st, m);
    hide Reachable, NodeInv, Steps, Committed, Secure, Settled;
    NodeKept(st, m, FinishSync, n);
    QuietAfterBarrier(st, m, n);
    WholeLogDurable(st, m, n);
    ClosedSecure(st, n);
  }

  lemma {:induction false} WholeLogDurable(st: Stream, m: Node, n: Node)
    requires NodeInv(st, m) && Steps(st, m, FinishSync, n)
    ensures n.f.durable == |n.f.log| && n.f.log == m.f.log
  {
    hide Content, HandlesFollow, Settled, Covered;
  }

  lemma {:induction false} ClosedSecure(st: Stream, n: Node)
    requires NodeInv(st, n) && n.f.swap.None? && n.f.files == Settled(n.f) && n.f.durable == |n.f.log|
    requires Committed(n.f.log) == |n.f.log|
    ensures Secure(n.f, st.vals)
  {
    hide On, Legal, Carries, Synced, Settled, Rebuilt, OrphansEmpty, HandlesOpen, RetiredIn, FilesOk, HandlesFollow;
    hide PhaseInv, Backed, CommitBlock, Committed, Rollups.RollupOf;
    Leader.CommittedIsClosed(n.f.log);
    CarriesSafe(n.f.files, On(n.f.log).r, st.vals);
    OneCutBacked(n.f, st.vals);
  }
}
