/** What the store promises its users, for every run: crash consistency, snapshot isolation,
    fresh ids, and that puts above the compaction horizon stay readable. */
module Guarantees {
  import opened Bytes
  import opened Records
  import RecordCodec
  import Block
  import opened Wal
  import opened LogModel
  import opened Disk
  import opened Leader
  import opened CrashSafety
  import opened Runs
  import Recovery

  // ----- crashes, also during recovery

  /** What can happen to the segment files between a crash and a completed recovery. */
  datatype Mishap = Step(step: RepairStep) | CrashAgain(image: Files)

  /** Steps of interrupted recoveries, and further crashes, lead from one disk to the other. */
  ghost predicate Interrupted(fs: Files, r: Layout, ms: seq<Mishap>, found: Files)
    decreases |ms|
  {
    if |ms| == 0 then fs == found
    else match ms[0]
      case Step(step) => Interrupted(Repair(fs, r, step), r, ms[1..], found)
      case CrashAgain(image) => CrashImage(fs, image) && Interrupted(image, r, ms[1..], found)
  }

  lemma {:induction false} RepairFilesOk(fs: Files, r: Layout, step: RepairStep)
    requires FilesOk(fs)
    ensures FilesOk(Repair(fs, r, step))
  {
  }

  lemma {:induction false} CrashFilesOk(fs: Files, image: Files)
    requires CrashImage(fs, image)
    ensures FilesOk(image)
  {
  }

  lemma {:induction false} InterruptedSafe(fs: Files, r: Layout, vals: Values, ms: seq<Mishap>, found: Files)
    requires Safe(fs, r, vals) && FilesOk(fs) && LocsIn(r) && LiveSegs(r) <= r.lens.Keys
    requires Interrupted(fs, r, ms, found)
    ensures Safe(found, r, vals) && FilesOk(found)
    decreases |ms|
  {
    hide Safe, FilesOk, LocsIn, CrashImage, Repair;
    if |ms| > 0 {
      match ms[0]
      case Step(step) =>
        RepairSafe(fs, r, vals, step);
        RepairFilesOk(fs, r, step);
        InterruptedSafe(Repair(fs, r, step), r, vals, ms[1..], found);
      case CrashAgain(image) =>
        SafeCrash(fs, image, r, vals);
        CrashFilesOk(fs, image);
        InterruptedSafe(image, r, vals, ms[1..], found);
    }
  }

  lemma {:induction false} RepairedComplete(fs: Files, r: Layout, vals: Values)
    requires Safe(fs, r, vals) && FilesOk(fs) && LiveSegs(r) <= r.lens.Keys
    requires forall id :: id in r.lens && id !in LiveSegs(r) ==> r.lens[id] == 0
    ensures LiveSegs(r) <= Repaired(fs, r).Keys
    ensures forall id :: id in Repaired(fs, r) && id in r.lens ==> r.lens[id] <= |Repaired(fs, r)[id].content|
  {
    hide Holds;
  }

  /** The value a reader must get: that of the last put of the key in the log. */
  ghost predicate ReadsLastPut(got: Option<seq<byte>>, log: seq<Entry>, vals: Values, key: Text) {
    match LastPut(log, key)
    case None => got == None
    case Some(lsn) => lsn in vals && got == Some(vals[lsn])
  }

  /** A disk that is safe for a closed log can be recovered, and then serves the log's last puts. */
  lemma {:induction false} RecoveryServes(fs: Files, log: seq<Entry>, vals: Values, key: Text)
    requires Legal(log) && On(log).pend.None? && Safe(fs, On(log).r, vals) && FilesOk(fs)
    ensures var r := Recovery.Recovered(log);
      Recoverable(fs, r) && ReadsLastPut(Get(Repaired(fs, r), r.index, key), log, vals, key)
  {
    hide Legal, On, Safe, FilesOk, Sound, Recoverable, Repaired, Holds, LocsIn, IndexIn, Get, LastPut;
    hide Recovery.Recovered;
    var r := On(log).r;
    Recovery.ReplayIsLive(log);
    OnSound(log);
    SoundFacts(On(log));
    SafeIsRecoverable(fs, r, vals);
    RepairedComplete(fs, r, vals);
    RepairedSafe(fs, r, vals);
    SafeHolds(Repaired(fs, r), r, vals);
    GetIsLastPut(Repaired(fs, r), log, vals, key);
  }

  /** Crash consistency: at any point of any run, whatever the crash makes of the unsynced bytes and
      however often recovery is itself interrupted, the store opens again, has everything that was
      acknowledged, and serves for each key the bytes of the last put before the last Commit that survived. */
  lemma {:induction false} CrashConsistency(m: Machine, n: nat, image: Files, ms: seq<Mishap>, found: Files, key: Text)
    requires Reachable(m) && m.store.durable <= n <= m.store.written <= |m.store.log|
    requires CrashImage(m.store.files, image)
    requires Interrupted(image, Recovery.Recovered(Surviving(m.store.log, n)), ms, found)
    ensures var p := Surviving(m.store.log, n);
      var r := Recovery.Recovered(p);
      && m.store.acked <= |p| && p == m.store.log[..|p|]
      && Recoverable(found, r)
      && ReadsLastPut(Get(Repaired(found, r), r.index, key), p, m.store.vals, key)
  {
    ReachableInv(m);
    hide Reachable, PhaseInv, HandlesFollow, SnapsOk, Inv, On, Legal, Safe, FilesOk, Sound, Recoverable, Repaired;
    hide LocsIn, IndexIn, CrashImage, Interrupted, ReadsLastPut, Committed, Recovery.Recovered;
    var s, p := m.store, Surviving(m.store.log, n);
    SurvivorFacts(s, n);
    OnSound(p);
    SoundFacts(On(p));
    SafeCrash(s.files, image, On(p).r, s.vals);
    CrashFilesOk(s.files, image);
    InterruptedSafe(image, On(p).r, s.vals, ms, found);
    RecoveryServes(found, p, s.vals, key);
  }

  /** Whole runs: with no room for doubt about what a read must return once its put was acknowledged. */
  lemma {:induction false} AcknowledgedPutSurvives(m: Machine, n: nat, i: nat, key: Text)
    requires Reachable(m) && m.store.durable <= n <= m.store.written <= |m.store.log|
    requires i < m.store.acked <= |m.store.log| && m.store.log[i].rec.Put? && m.store.log[i].rec.key == key
    ensures var p := Surviving(m.store.log, n);
      LastPut(p, key).Some? && m.store.log[i].lsn <= LastPut(p, key).value
  {
    ReachableInv(m);
    hide Reachable, PhaseInv, HandlesFollow, SnapsOk, Inv, On, Legal, Safe, Committed, Recovery.Recovered, LastPut;
    SurvivorFacts(m.store, n);
    LastPutIsLatest(Surviving(m.store.log, n), i, key);
  }

  lemma {:induction false} LastPutIsLatest(log: seq<Entry>, i: nat, key: Text)
    requires Legal(log) && i < |log| && log[i].rec.Put? && log[i].rec.key == key
    ensures LastPut(log, key).Some? && log[i].lsn <= LastPut(log, key).value
  {
    hide On, Legal, Allowed;
    var n := |log| - 1;
    if i < n {
      LegalPrefix(log, n);
      LastPutIsLatest(log[..n], i, key);
      LsnsRise(log, i, n);
    }
  }

  lemma {:induction false} LsnsRise(log: seq<Entry>, i: nat, j: nat)
    requires Legal(log) && i < j < |log|
    ensures log[i].lsn < log[j].lsn
  {
    hide On, After;
    LastLsnBelow(log, j, i + 1);
    LastLsnBelow(log, i + 1, i + 1);
    assert Allowed(On(log[..j]), log[j]);
  }

  // ----- the log as bytes

  /** What a crash leaves of the log file: some number of whole records, no fewer than were fsynced,
      and then a block that is short or fails to decode. */
  ghost predicate WalImage(utf8: Text -> bool, s: Store, n: nat, wal: seq<byte>)
    requires AllEncodable(s.log)
  {
    && s.durable <= n <= s.written <= |s.log|
    && exists tail :: Damaged(utf8, tail) && wal == LogBytes(s.log[..n]) + tail
  }

  lemma {:induction false} WalScanned(utf8: Text -> bool, log: seq<Entry>, tail: seq<byte>)
    requires AllValid(utf8, log) && Damaged(utf8, tail)
    ensures Scan(utf8, LogBytes(log) + tail) == log
  {
    hide Scan, LogBytes, Damaged, Encodable, TextsValid;
    assert [] + LogBytes(log) + tail == LogBytes(log) + tail;
    EmptyScan(utf8);
    ScanAfter(utf8, [], log, tail);
    assert [] + log == log;
  }

  lemma {:induction false} ValidPrefix(utf8: Text -> bool, log: seq<Entry>, n: nat)
    requires AllValid(utf8, log) && n <= |log|
    ensures AllValid(utf8, log[..n])
  {
    hide Encodable, TextsValid;
  }

  /** Opening scans exactly those records, cuts the file after the last Commit, and what is left
      scans as the surviving log. */
  lemma {:induction false} WalSurvives(utf8: Text -> bool, s: Store, n: nat, wal: seq<byte>)
    requires AllValid(utf8, s.log) && WalImage(utf8, s, n, wal)
    ensures Scan(utf8, wal) == s.log[..n]
    ensures var k := Committed(Scan(utf8, wal));
      Block.SIZE * k <= |wal| && Scan(utf8, wal[..Block.SIZE * k]) == Surviving(s.log, n)
  {
    hide Scan, LogBytes, Damaged, Committed, Encodable, TextsValid;
    ValidPrefix(utf8, s.log, n);
    var tail :| Damaged(utf8, tail) && wal == LogBytes(s.log[..n]) + tail;
    WalScanned(utf8, s.log[..n], tail);
    SurvivingScan(utf8, s.log, n, wal);
  }

  lemma {:induction false} SurvivingScan(utf8: Text -> bool, log: seq<Entry>, n: nat, wal: seq<byte>)
    requires n <= |log| && Scan(utf8, wal) == log[..n]
    ensures var k := Committed(Scan(utf8, wal));
      Block.SIZE * k <= |wal| && Scan(utf8, wal[..Block.SIZE * k]) == Surviving(log, n)
  {
    hide Scan, Committed;
    var k := Committed(log[..n]);
    ScanCut(utf8, wal, k);
    assert log[..n][..k] == Surviving(log, n);
  }

  lemma {:induction false} EmptyScan(utf8: Text -> bool)
    ensures Scan(utf8, []) == []
  {
  }

  // ----- snapshots

  datatype Reading = Absent | NotOpen | Short | Bytes(value: seq<byte>)

  /** A read through a snapshot's index and file handles. */
  function ReadValue(open: set<nat>, handles: map<nat, seq<byte>>, seg: nat, off: nat, len: nat): Reading {
    if seg !in open || seg !in handles then NotOpen
    else if off + len > |handles[seg]| then Short
    else Bytes(handles[seg][off..off + len])
  }

  function Read(snap: Snap, handles: map<nat, seq<byte>>, key: Text): Reading {
    if key !in snap.index then Absent
    else ReadValue(snap.open, handles, snap.index[key].seg, snap.index[key].off, snap.index[key].len)
  }

  ghost predicate NoCrash(acts: seq<Action>) {
    forall i :: 0 <= i < |acts| ==> !acts[i].CrashAndReopen?
  }

  lemma {:induction false} StepKeepsSnaps(m: Machine, a: Action)
    requires MachineInv(m) && Enabled(m, a) && InBounds(m.store, a) && !a.CrashAndReopen?
    ensures m.snaps <= Do(m, a).snaps
    ensures forall l :: l in m.store.vals ==> l in Do(m, a).store.vals && Do(m, a).store.vals[l] == m.store.vals[l]
  {
    ValuesKept(m, a);
    hide MachineInv, Enabled, InBounds, NextStore;
  }

  lemma {:induction false} RunKeepsSnaps(m: Machine, acts: seq<Action>, n: Machine)
    requires MachineInv(m) && Leads(m, acts, n) && NoCrash(acts)
    ensures MachineInv(n) && m.snaps <= n.snaps
    ensures forall l :: l in m.store.vals ==> l in n.store.vals && n.store.vals[l] == m.store.vals[l]
    decreases |acts|
  {
    hide MachineInv, Enabled, InBounds;
    if |acts| > 0 {
      StepKeeps(m, acts[0]);
      StepKeepsSnaps(m, acts[0]);
      RunKeepsSnaps(Do(m, acts[0]), acts[1..], n);
    }
  }

  lemma {:induction false} SnapReads(m: Machine, i: nat, key: Text)
    requires MachineInv(m) && i < |m.snaps|
    ensures key in m.snaps[i].index ==>
      m.snaps[i].index[key].lsn in m.store.vals &&
      Read(m.snaps[i], m.handles, key) == Bytes(m.store.vals[m.snaps[i].index[key].lsn])
  {
    hide Inv, PhaseInv, HandlesFollow;
    assert key in m.snaps[i].index ==> Usable(m.snaps[i], m.handles, m.store.vals, key);
  }

  /** Snapshot isolation: whatever the writer does afterwards, a published snapshot reads for every key
      the same bytes, those of the put it was taken with, and never fails. */
  lemma {:induction false} SnapshotIsolation(m: Machine, later: seq<Action>, n: Machine, i: nat, key: Text)
    requires Reachable(m) && Leads(m, later, n) && NoCrash(later) && i < |m.snaps|
    ensures i < |n.snaps| && n.snaps[i] == m.snaps[i]
    ensures Read(m.snaps[i], n.handles, key) == Read(m.snaps[i], m.handles, key)
    ensures key in m.snaps[i].index ==>
      m.snaps[i].index[key].lsn in m.store.vals &&
      Read(m.snaps[i], n.handles, key) == Bytes(m.store.vals[m.snaps[i].index[key].lsn])
  {
    ReachableInv(m);
    hide Reachable, MachineInv, Leads;
    RunKeepsSnaps(m, later, n);
    SnapReads(m, i, key);
    SnapReads(n, i, key);
  }

  /** A compaction that memory has not caught up with does not change which put is current. */
  lemma {:induction false} ViewNamesLastPut(s: Store, key: Text)
    requires Inv(s)
    ensures match LastPut(s.log, key)
      case None => key !in s.mem.index
      case Some(lsn) => key in s.mem.index && s.mem.index[key].lsn == lsn
  {
    hide FileInv, Backed, IndexIn, LocsIn, On, EntriesFit, Covers, Sound, LastPut;
    IndexIsLastPut(s.log, key);
    if s.plan.Some? && key in s.view.index {
      MovedAt(s.plan.value.entries, key, s.view.index[key].lsn);
    }
  }

  /** The snapshot published when a commit returns serves the last put of every key. */
  lemma {:induction false} CommitPublishesLastPuts(m: Machine, key: Text)
    requires Reachable(m) && Enabled(m, Finish)
    ensures InBounds(m.store, Finish)
    ensures var n := Do(m, Finish);
      && |n.snaps| > 0 && n.store.acked == |n.store.log|
      && match LastPut(n.store.log, key)
         case None => Read(n.snaps[|n.snaps| - 1], n.handles, key) == Absent
         case Some(lsn) =>
           lsn in n.store.vals && Read(n.snaps[|n.snaps| - 1], n.handles, key) == Bytes(n.store.vals[lsn])
  {
    hide Reachable, LastPut, Enabled, Read;
    PublishesLastPuts(m, Finish, key);
    FinishPublishes(m);
  }

  lemma {:induction false} FinishPublishes(m: Machine)
    requires Enabled(m, Finish) && InBounds(m.store, Finish)
    ensures var n := Do(m, Finish);
      |n.snaps| > 0 && n.store.acked == |n.store.log| && n.snaps[|n.snaps| - 1] == SnapOf(n.store)
  {
  }

  /** Commits, compactions and recoveries publish what the store then has: the last put of every key, read from
      files that are there. */
  lemma {:induction false} PublishesLastPuts(m: Machine, a: Action, key: Text)
    requires Reachable(m) && Enabled(m, a) && (a.Finish? || a.FinishCompaction? || a.CrashAndReopen?)
    ensures InBounds(m.store, a)
    ensures var n := Do(m, a);
      && |n.snaps| > 0 && n.snaps[|n.snaps| - 1].open <= n.store.files.Keys
      && match LastPut(n.store.log, key)
         case None => Read(n.snaps[|n.snaps| - 1], n.handles, key) == Absent
         case Some(lsn) =>
           lsn in n.store.vals && Read(n.snaps[|n.snaps| - 1], n.handles, key) == Bytes(n.store.vals[lsn])
  {
    hide Reachable, MachineInv, LastPut, Enabled, Read, InBounds, NextStore;
    ReachableInv(m);
    StepKeeps(m, a);
    var n := Do(m, a);
    MachineStore(n);
    assert n.snaps[|n.snaps| - 1] == SnapOf(n.store);
    SnapReads(n, |n.snaps| - 1, key);
    hide Inv;
    ViewNamesLastPut(n.store, key);
    AbsentKey(n.snaps[|n.snaps| - 1], n.handles, key);
  }

  lemma {:induction false} MachineStore(m: Machine)
    requires MachineInv(m)
    ensures Inv(m.store)
  {
    hide Inv;
  }

  lemma {:induction false} AbsentKey(snap: Snap, handles: map<nat, seq<byte>>, key: Text)
    ensures key !in snap.index <==> Read(snap, handles, key) == Absent
  {
  }

  // ----- ids

  /** The next id was never used: not by a file, not by the log, not behind any handle. */
  lemma {:induction false} IdsAreFresh(m: Machine)
    requires Reachable(m)
    ensures m.store.nextFree !in m.store.files && m.store.nextFree !in m.handles
    ensures m.store.nextFree !in On(m.store.log).r.lens
    ensures forall i :: 0 <= i < |m.store.log| ==>
      match m.store.log[i].rec
      case SegmentSeal(id, next) => id < m.store.nextFree && next < m.store.nextFree
      case SegmentSwap(from, to) => from < m.store.nextFree && to < m.store.nextFree
      case _ => true
  {
    ReachableInv(m);
    hide Reachable, PhaseInv, SnapsOk, On, Legal, Hosted, Backed, ViewInv, Sound;
    OnSound(m.store.log);
    SoundFacts(On(m.store.log));
    forall i | 0 <= i < |m.store.log|
      ensures match m.store.log[i].rec
        case SegmentSeal(id, next) => id < m.store.nextFree && next < m.store.nextFree
        case SegmentSwap(from, to) => from < m.store.nextFree && to < m.store.nextFree
        case _ => true
    {
      IdsBelowBound(m.store.log, i);
    }
  }

  lemma {:induction false} IdsBelowBound(log: seq<Entry>, i: nat)
    requires Legal(log) && i < |log|
    ensures match log[i].rec
      case SegmentSeal(id, next) => id < On(log).bound && next < On(log).bound
      case SegmentSwap(from, to) => from < On(log).bound && to < On(log).bound
      case _ => true
  {
    hide Legal, After, Sound;
    var n := |log| - 1;
    LegalPrefix(log, n);
    BoundGrows(On(log[..n]), log[n]);
    if i < n {
      IdsBelowBound(log[..n], i);
    } else {
      OnSound(log[..n]);
      LegalLast(log);
      BoundCovers(On(log[..n]), log[n]);
    }
  }

  lemma {:induction false} BoundCovers(s: Live, e: Entry)
    requires Sound(s) && Allowed(s, e)
    ensures match e.rec
      case SegmentSeal(id, next) => id < After(s, e).bound && next < After(s, e).bound
      case SegmentSwap(from, to) => from < After(s, e).bound && to < After(s, e).bound
      case _ => true
  {
    hide IndexIn, LocsIn, EntriesFit, Covers;
  }

  // ----- puts above the compaction horizon

  /** A put is located in a current segment. */
  ghost predicate Located(r: Layout, lsn: nat) {
    lsn in r.locs && r.locs[lsn].seg in LiveSegs(r)
  }

  /** Every put of the log above H is located in a current segment. */
  ghost predicate AllLocated(log: seq<Entry>, r: Layout, h: nat) {
    forall i :: 0 <= i < |log| && log[i].rec.Put? && log[i].lsn > h ==> Located(r, log[i].lsn)
  }

  /** The last snapshot can read every acknowledged put above H. */
  ghost predicate LastSnapCovers(m: Machine, h: nat) {
    |m.snaps| > 0 && m.store.acked <= |m.store.log| &&
    forall i :: 0 <= i < m.store.acked && m.store.log[i].rec.Put? && m.store.log[i].lsn > h ==>
      var snap := m.snaps[|m.snaps| - 1];
      m.store.log[i].lsn in snap.locs && snap.locs[m.store.log[i].lsn].seg in snap.open
  }

  /** A staged compaction takes along every put of its segment above H. */
  ghost predicate PlanKeeps(s: Store, h: nat) {
    s.plan.Some? ==>
      forall l :: l in s.view.locs && s.view.locs[l].seg == s.plan.value.from && l > h ==>
        l in EntryLsns(s.plan.value.entries)
  }

  ghost predicate HorizonInv(m: Machine, h: nat) {
    AllLocated(m.store.log, m.store.view, h) && PlanKeeps(m.store, h) && LastSnapCovers(m, h)
  }

  /** No compaction used a horizon above H, and the store was not restarted. */
  ghost predicate HorizonAtMost(acts: seq<Action>, h: nat) {
    forall i :: 0 <= i < |acts| ==> !acts[i].CrashAndReopen? && (acts[i].Stage? ==> acts[i].horizon <= h)
  }

  lemma {:induction false} LocatedPut(r: Layout, key: Text, len: nat, lsn: nat, l: nat)
    ensures Located(r, l) || l == lsn ==> Located(PutOn(r, key, len, lsn), l)
  {
  }

  lemma {:induction false} LocatedSeal(r: Layout, next: nat, l: nat)
    ensures Located(r, l) ==> Located(SealOn(r, next), l)
  {
  }

  lemma {:induction false} LocatedSwap(r: Layout, p: Pending, l: nat)
    requires Located(r, l) && (r.locs[l].seg == p.from ==> l in EntryLsns(p.entries)) && p.from != r.active
    ensures Located(SwapOn(r, p.from, p.to, p.entries), l)
  {
    hide MoveLocs, FindLsn;
    MoveLocsFind(r.locs, p.entries, p.to, l);
    FindLsnAt(p.entries, l);
  }

  lemma {:induction false} PlanKeepsAbove(s: Store, from: nat, horizon: nat, es: seq<RemapEntry>, h: nat)
    requires PlanFor(s.mem, from, horizon, es) && Mirrors(s.mem, s.view) && horizon <= h
    ensures forall l :: l in s.view.locs && s.view.locs[l].seg == from && l > h ==> l in EntryLsns(es)
  {
    forall l | l in s.view.locs && s.view.locs[l].seg == from && l > h ensures l in EntryLsns(es) {
      assert Kept(s.mem, from, horizon, l);
    }
  }

  lemma {:induction false} MemoryMirrors(s: Store)
    requires Inv(s)
    ensures Mirrors(s.mem, s.view) && (s.plan.Some? ==> s.plan.value.from != s.view.active)
  {
    hide LogInv, FileInv, Backed, Mirrors, On, SwapOn, EntriesFit, Covers, IndexIn, LocsIn;
  }

  /** Memory's puts in current segments, with their files open. */
  lemma {:induction false} SnapCovers(s: Store, l: nat)
    requires Inv(s) && Located(s.view, l)
    ensures l in SnapOf(s).locs && SnapOf(s).locs[l].seg in SnapOf(s).open
  {
    MemoryMirrors(s);
    hide LogInv, ViewInv, Backed;
  }

  lemma {:induction false} AllLocatedKept(m: Machine, a: Action, h: nat)
    requires MachineInv(m) && Enabled(m, a) && InBounds(m.store, a) && HorizonInv(m, h) && !a.CrashAndReopen?
    ensures AllLocated(NextStore(m, a).log, NextStore(m, a).view, h)
  {
    hide Inv, PhaseInv, HandlesFollow, SnapsOk, LastSnapCovers, Located, SwapOn, SealOn, PutOn, Clean, PlanFor;
    hide SourcesIn;
    var s, t := m.store, NextStore(m, a);
    forall i | 0 <= i < |t.log| && t.log[i].rec.Put? && t.log[i].lsn > h ensures Located(t.view, t.log[i].lsn) {
      var l := t.log[i].lsn;
      match a {
        case Seal => LocatedSeal(s.view, s.nextFree, l);
        case Place(key, value) => LocatedPut(s.view, key, |value|, s.nextLsn, l);
        case Stage(from, _, chunks) => RemapsAreNotPuts(s.nextLsn + 1, s.nextFree, chunks);
        case FinishCompaction =>
          MemoryMirrors(s);
          LocatedFacts(s.view, l);
          LocatedSwap(s.view, s.plan.value, l);
        case _ =>
      }
    }
  }

  lemma {:induction false} LocatedFacts(r: Layout, l: nat)
    requires Located(r, l)
    ensures l in r.locs
  {
  }

  lemma {:induction false} RemapsAreNotPuts(lsn: nat, to: nat, chunks: seq<seq<RemapEntry>>)
    requires lsn + |chunks| <= MAX_U64 && to <= MAX_U64
    ensures forall i :: 0 <= i < |RemapRecords(lsn, to, chunks)| ==> !RemapRecords(lsn, to, chunks)[i].rec.Put?
  {
    if |chunks| > 0 { RemapsAreNotPuts(lsn, to, chunks[..|chunks| - 1]); }
  }

  lemma {:induction false} PlanKept(m: Machine, a: Action, h: nat)
    requires MachineInv(m) && Enabled(m, a) && InBounds(m.store, a) && HorizonInv(m, h)
    requires !a.CrashAndReopen? && (a.Stage? ==> a.horizon <= h)
    ensures PlanKeeps(NextStore(m, a), h)
  {
    hide Inv, PhaseInv, HandlesFollow, SnapsOk, LastSnapCovers, Located, SwapOn, SealOn, PutOn, Clean, PlanFor;
    hide SourcesIn, EntryLsns;
    if a.Stage? {
      MemoryMirrors(m.store);
      PlanKeepsAbove(m.store, a.from, a.horizon, RecordCodec.Flatten(a.chunks), h);
    }
  }

  lemma {:induction false} SnapCoverageKept(m: Machine, a: Action, h: nat)
    requires MachineInv(m) && Enabled(m, a) && InBounds(m.store, a) && HorizonInv(m, h) && !a.CrashAndReopen?
    requires Inv(NextStore(m, a)) && AllLocated(NextStore(m, a).log, NextStore(m, a).view, h)
    ensures LastSnapCovers(Do(m, a), h)
  {
    hide Inv, PhaseInv, HandlesFollow, SnapsOk, Located, SwapOn, SealOn, PutOn, Clean, PlanFor, SourcesIn, EntryLsns;
    hide SnapOf, PlanKeeps;
    var n := Do(m, a);
    if a.Finish? || a.FinishCompaction? {
      forall i | 0 <= i < n.store.acked && n.store.log[i].rec.Put? && n.store.log[i].lsn > h
        ensures n.store.log[i].lsn in SnapOf(n.store).locs
        ensures SnapOf(n.store).locs[n.store.log[i].lsn].seg in SnapOf(n.store).open
      {
        SnapCovers(n.store, n.store.log[i].lsn);
      }
    }
  }

  lemma {:induction false} HorizonKept(m: Machine, acts: seq<Action>, n: Machine, h: nat)
    requires MachineInv(m) && HorizonInv(m, h) && Leads(m, acts, n) && HorizonAtMost(acts, h)
    ensures MachineInv(n) && HorizonInv(n, h)
    decreases |acts|
  {
    hide MachineInv, Enabled, InBounds, AllLocated, LastSnapCovers, PlanKeeps, NextStore;
    if |acts| > 0 {
      var a := acts[0];
      StepKeeps(m, a);
      AllLocatedKept(m, a, h);
      PlanKept(m, a, h);
      MachineStore(Do(m, a));
      SnapCoverageKept(m, a, h);
      HorizonKept(Do(m, a), acts[1..], n, h);
    }
  }

  /** Compaction keeps every put above its horizon: after any run, the published snapshot reads the
      original bytes of every acknowledged put with a greater LSN. */
  lemma {:induction false} PutsAboveHorizonReadable(acts: seq<Action>, m: Machine, h: nat, i: nat)
    requires Leads(BOOT, acts, m) && HorizonAtMost(acts, h)
    requires i < m.store.acked <= |m.store.log| && m.store.log[i].rec.Put? && m.store.log[i].lsn > h
    ensures |m.snaps| > 0
    ensures var snap, lsn := m.snaps[|m.snaps| - 1], m.store.log[i].lsn;
      && lsn in snap.locs && lsn in m.store.vals
      && ReadValue(snap.open, m.handles, snap.locs[lsn].seg, snap.locs[lsn].off,
           snap.locs[lsn].len) == Bytes(m.store.vals[lsn])
  {
    hide Inv, PhaseInv, HandlesFollow, Leads, AllLocated;
    BootInv();
    assert HorizonInv(BOOT, h) by { BootHorizon(h); }
    HorizonKept(BOOT, acts, m, h);
    assert PutUsable(m.snaps[|m.snaps| - 1], m.handles, m.store.vals, m.store.log[i].lsn);
  }

  lemma {:induction false} BootHorizon(h: nat)
    ensures HorizonInv(BOOT, h)
  {
  }

  // ----- puts do not overlap

  /** Different puts in one current segment occupy different bytes. */
  ghost predicate Apart(r: Layout) {
    forall a, b ::
      a in r.locs && b in r.locs && a != b && r.locs[a].seg == r.locs[b].seg && r.locs[a].seg in LiveSegs(r) ==>
      r.locs[a].off + r.locs[a].len <= r.locs[b].off || r.locs[b].off + r.locs[b].len <= r.locs[a].off
  }

  lemma {:induction false} EntriesApart(r: Layout, from: nat, es: seq<RemapEntry>, i: nat, j: nat)
    requires EntriesFit(r, from, es, 0) && i < j < |es|
    ensures es[i].offset + es[i].len <= es[j].offset
  {
    if j == |es| - 1 {
      assert es[j].offset == Total(es[..j]);
      EntriesFacts(r, from, es[..j]);
      assert es[..j][i] == es[i];
    } else {
      EntriesApart(r, from, es[..|es| - 1], i, j);
    }
  }

  lemma {:induction false} SwapApartPair(r: Layout, p: Pending, a: nat, b: nat)
    requires Apart(r) && EntriesFit(r, p.from, p.entries, 0) && p.from != r.active
    requires forall l :: l in r.locs ==> r.locs[l].seg != p.to
    requires var r' := SwapOn(r, p.from, p.to, p.entries);
      a in r'.locs && b in r'.locs && a != b && r'.locs[a].seg == r'.locs[b].seg && r'.locs[a].seg in LiveSegs(r')
    ensures var x, y := SwapOn(r, p.from, p.to, p.entries).locs[a], SwapOn(r, p.from, p.to, p.entries).locs[b];
      x.off + x.len <= y.off || y.off + y.len <= x.off
  {
    hide MoveLocs, MoveIndex, Extent, EntriesFit, FindLsn;
    var es := p.entries;
    MoveLocsFind(r.locs, es, p.to, a);
    MoveLocsFind(r.locs, es, p.to, b);
    FindLsnAt(es, a);
    FindLsnAt(es, b);
    if FindLsn(es, a).Some? && FindLsn(es, b).Some? {
      var i :| 0 <= i < |es| && es[i] == FindLsn(es, a).value;
      var j :| 0 <= j < |es| && es[j] == FindLsn(es, b).value;
      if i < j { EntriesApart(r, p.from, es, i, j); } else { EntriesApart(r, p.from, es, j, i); }
    }
  }

  lemma {:induction false} SwapApart(s: Live, p: Pending)
    requires Sound(s) && s.pend == Some(p) && Apart(s.r)
    ensures Apart(SwapOn(s.r, p.from, p.to, p.entries))
  {
    hide SwapOn, EntriesFit, IndexIn, LocsIn;
    var r' := SwapOn(s.r, p.from, p.to, p.entries);
    forall a, b | a in r'.locs && b in r'.locs && a != b && r'.locs[a].seg == r'.locs[b].seg &&
      r'.locs[a].seg in LiveSegs(r')
      ensures r'.locs[a].off + r'.locs[a].len <= r'.locs[b].off || r'.locs[b].off + r'.locs[b].len <= r'.locs[a].off
    {
      SwapApartPair(s.r, p, a, b);
    }
  }

  lemma {:induction false} AfterApart(s: Live, e: Entry)
    requires Sound(s) && Allowed(s, e) && Apart(s.r)
    ensures Apart(After(s, e).r)
  {
    hide IndexIn, EntriesFit, LogModel.Covers, SwapOn;
    if e.rec.Commit? && s.pend.Some? { SwapApart(s, s.pend.value); }
  }

  lemma {:induction false} OnApart(log: seq<Entry>)
    requires Legal(log)
    ensures Apart(On(log).r)
  {
    hide Apart, After, Allowed, Sound;
    if |log| == 0 {
      assert Apart(EMPTY) by { EmptyApart(); }
    } else {
      var n := |log| - 1;
      LegalPrefix(log, n);
      OnApart(log[..n]);
      OnSound(log[..n]);
      LegalLast(log);
      AfterApart(On(log[..n]), log[n]);
    }
  }

  lemma {:induction false} EmptyApart()
    ensures Apart(EMPTY)
  {
  }

  /** The locations memory keeps for the open segment are disjoint and end where the next put goes. */
  lemma {:induction false} PutsDoNotOverlap(m: Machine, a: nat, b: nat)
    requires Reachable(m) && m.store.plan.None? && a in m.store.mem.locs && b in m.store.mem.locs && a != b
    requires m.store.mem.locs[a].seg == m.store.mem.active && m.store.mem.locs[b].seg == m.store.mem.active
    ensures var x, y := m.store.mem.locs[a], m.store.mem.locs[b];
      && (x.off + x.len <= y.off || y.off + y.len <= x.off)
      && x.off + x.len <= m.store.mem.off && y.off + y.len <= m.store.mem.off
  {
    ReachableInv(m);
    hide Reachable, PhaseInv, HandlesFollow, SnapsOk, FileInv, Backed, On, Legal, Sound;
    var s := m.store;
    OnApart(s.log);
    OnSound(s.log);
    SoundFacts(On(s.log));
    SoundLength(On(s.log));
  }
}
