/** Runs of the store at the grain at which a crash can interrupt it: commits and compactions as
    their separate steps, crashes, recoveries, and the snapshots published to readers. */
module Runs {
  import opened Bytes
  import opened Records
  import RecordCodec
  import opened Wal
  import opened LogModel
  import opened Disk
  import opened Leader
  import opened CrashSafety

  /** Where a commit stands. */
  datatype Phase = Idle | Fsynced | Logged | Written | Synced

  /** A published snapshot: a copy of the index and the handles of the open segments. */
  datatype Snap = Snap(index: map<Text, Loc>, locs: map<nat, PutLoc>, open: set<nat>)

  /** A store, and what its readers can see: the bytes behind every file handle of this process,
      unlinked or not, and every snapshot published so far. */
  datatype Machine = Machine(store: Store, phase: Phase, handles: map<nat, seq<byte>>, snaps: seq<Snap>)

  datatype Action =
    | Seal
    | Place(key: Text, value: seq<byte>)
    | Refuse(value: seq<byte>)
    | Agg(deltas: seq<AggDeltaEntry>)
    | WriteLog
    | FsyncLog
    | FsyncSegments
    | LogCommit(lsn: u64)
    | Finish
    | Stage(from: nat, horizon: nat, chunks: seq<seq<RemapEntry>>)
    | FinishCompaction
    | CrashAndReopen(scanned: nat, image: Files, nextFree: nat)

  /** Nothing is staged and no record waits for a commit. */
  predicate Pending(s: Store) {
    s.acked < |s.log|
  }

  /** A commit runs through its steps without a put in between; a staged compaction is committed and finished
      before the next put. A put whose key does not fit its record is refused when its value is already written. */
  ghost predicate Enabled(m: Machine, a: Action) {
    var s := m.store;
    match a
    case Seal => m.phase.Idle? && s.plan.None? && Room(s)
    case Place(_, value) => m.phase.Idle? && s.plan.None? && Room(s) && |value| < 0x1_0000_0000
    case Refuse(_) => m.phase.Idle? && s.plan.None?
    case Agg(_) => m.phase.Idle? && s.plan.None? && s.nextLsn <= MAX_U64
    case WriteLog => m.phase.Idle? || m.phase.Logged?
    case FsyncLog => m.phase.Idle? || m.phase.Written?
    case FsyncSegments => m.phase.Idle? && Pending(s)
    case LogCommit(_) => m.phase.Fsynced? && s.nextLsn <= MAX_U64
    case Finish => m.phase.Synced?
    case Stage(from, horizon, chunks) => m.phase.Idle? && CanCompact(s, from, horizon, chunks)
    case FinishCompaction => m.phase.Idle? && s.plan.Some? && !Pending(s)
    case CrashAndReopen(n, image, nextFree) => CanReopen(s, n, image, nextFree)
  }

  /** A compaction reads within the old segment's file; otherwise it fails with a short read. */
  ghost predicate InBounds(s: Store, a: Action) {
    match a
    case Stage(from, _, chunks) => SourcesIn(s, from, RecordCodec.Flatten(chunks))
    case _ => true
  }

  function NextPhase(p: Phase, a: Action): Phase {
    match a
    case FsyncSegments => Fsynced
    case LogCommit(_) => Logged
    case WriteLog => if p.Logged? then Written else p
    case FsyncLog => if p.Written? then Synced else p
    case Finish => Idle
    case CrashAndReopen(_, _, _) => Idle
    case _ => p
  }

  ghost function NextStore(m: Machine, a: Action): Store
    requires Enabled(m, a) && InBounds(m.store, a)
  {
    hide PlanFor, CrashImage, FirstFree, SourcesIn;
    var s := m.store;
    match a
    case Seal => SealActive(s)
    case Place(key, value) => PlacePut(s, key, value)
    case Refuse(value) => WriteValue(s, value)
    case Agg(deltas) => AppendAgg(s, deltas)
    case WriteLog => WriteWal(s)
    case FsyncLog => FsyncWal(s)
    case FsyncSegments => FsyncDirty(s)
    case LogCommit(lsn) => AppendCommit(s, lsn)
    case Finish => FinishCommit(s)
    case Stage(from, horizon, chunks) => CompactStage(s, from, chunks)
    case FinishCompaction => CompactCommit(s)
    case CrashAndReopen(n, image, nextFree) => Reopened(s, n, image, nextFree)
  }

  /** A handle sees what is written to its file, and keeps a file that was unlinked. */
  function Seen(handles: map<nat, seq<byte>>, fs: Files): map<nat, seq<byte>> {
    map id | id in handles.Keys + fs.Keys :: if id in fs then fs[id].content else handles[id]
  }

  function SnapOf(s: Store): Snap {
    Snap(s.mem.index, s.mem.locs, (s.mem.sealed + {s.mem.active}) * s.files.Keys)
  }

  /** Snapshots are published when a commit or a compaction finishes, and at the end of recovery. */
  ghost function Do(m: Machine, a: Action): Machine
    requires Enabled(m, a) && InBounds(m.store, a)
  {
    hide Enabled, InBounds;
    var t := NextStore(m, a);
    Machine(t, NextPhase(m.phase, a),
      if a.CrashAndReopen? then Seen(map[], t.files) else Seen(m.handles, t.files),
      if a.CrashAndReopen? then [SnapOf(t)]
      else if a.Finish? || a.FinishCompaction? then m.snaps + [SnapOf(t)] else m.snaps)
  }

  /** A store opened on an empty directory. */
  const FRESH := Store([], 0, 0, 1, 1, map[0 := File([], 0)], {}, Memory(map[], map[], 0, 0, {}), None, map[], EMPTY, 0)

  const BOOT := Machine(FRESH, Idle, map[0 := []], [SnapOf(FRESH)])

  /** The actions can be taken one after the other, and lead from m to n. */
  ghost predicate Leads(m: Machine, acts: seq<Action>, n: Machine)
    decreases |acts|
  {
    if |acts| == 0 then m == n
    else Enabled(m, acts[0]) && InBounds(m.store, acts[0]) && Leads(Do(m, acts[0]), acts[1..], n)
  }

  // ----- the invariant of a machine

  /** What is known at each point of a commit. */
  ghost predicate PhaseInv(m: Machine) {
    var s := m.store;
    && (!m.phase.Idle? ==> Clean(s))
    && (m.phase.Logged? || m.phase.Written? || m.phase.Synced? ==> Committed(s.log) == |s.log|)
    && (m.phase.Written? ==> s.written == |s.log|)
    && (m.phase.Synced? ==> s.durable == |s.log|)
    && (m.phase.Fsynced? ==> Pending(s))
    && (m.phase.Idle? || m.phase.Fsynced? ==> s.plan.Some? && Pending(s) ==> On(s.log).pend.Some?)
  }

  /** The value of a put can be read from its segment's handle. */
  ghost predicate Readable(handles: map<nat, seq<byte>>, vals: Values, lsn: nat, seg: nat, off: nat, len: nat) {
    lsn in vals && seg in handles && off + len <= |handles[seg]| && handles[seg][off..off + len] == vals[lsn]
  }

  ghost predicate Usable(snap: Snap, handles: map<nat, seq<byte>>, vals: Values, key: Text)
    requires key in snap.index
  {
    var l := snap.index[key];
    l.seg in snap.open && Readable(handles, vals, l.lsn, l.seg, l.off, l.len)
  }

  ghost predicate PutUsable(snap: Snap, handles: map<nat, seq<byte>>, vals: Values, lsn: nat)
    requires lsn in snap.locs
  {
    var l := snap.locs[lsn];
    l.seg in snap.open ==> Readable(handles, vals, lsn, l.seg, l.off, l.len)
  }

  /** Every key of the snapshot reads as the put the snapshot was taken with, and so does every
      put located in an open segment. */
  ghost predicate SnapOk(snap: Snap, handles: map<nat, seq<byte>>, vals: Values) {
    && (forall k :: k in snap.index ==> Usable(snap, handles, vals, k))
    && (forall l :: l in snap.locs ==> PutUsable(snap, handles, vals, l))
  }

  /** Handles follow their files; an unlinked file is of no current segment, so its name is never written again. */
  ghost predicate HandlesFollow(s: Store, handles: map<nat, seq<byte>>) {
    && (forall id :: id in s.files ==> id in handles && handles[id] == s.files[id].content)
    && (forall id :: id in handles && id !in s.files ==> id < s.nextFree && id !in s.mem.sealed && id != s.mem.active)
  }

  /** What the snapshot can read from the open segment lies below the place where the next put goes. */
  ghost predicate Below(snap: Snap, m: Memory) {
    && (forall k :: k in snap.index && snap.index[k].seg == m.active ==> snap.index[k].off + snap.index[k].len <= m.off)
    && (forall l :: l in snap.locs && snap.locs[l].seg == m.active && m.active in snap.open ==>
          snap.locs[l].off + snap.locs[l].len <= m.off)
  }

  ghost predicate SnapsOk(m: Machine) {
    forall i :: 0 <= i < |m.snaps| ==>
      SnapOk(m.snaps[i], m.handles, m.store.vals) && Below(m.snaps[i], m.store.mem)
  }

  ghost predicate MachineInv(m: Machine) {
    Inv(m.store) && PhaseInv(m) && HandlesFollow(m.store, m.handles) && SnapsOk(m)
  }

  // ----- every action keeps it

  lemma {:induction false} CommitCovers(s: Store)
    requires Inv(s) && !Pending(s)
    ensures s.durable == |s.log| && Committed(s.log) == |s.log|
  {
    hide LogInv, ViewInv, FileInv, Backed, Committed;
    assert s.durable <= |s.log| by { LogBounds(s); }
    assert s.log[..|s.log|] == s.log;
  }

  lemma {:induction false} LogBounds(s: Store)
    requires LogInv(s)
    ensures s.durable <= s.written <= |s.log|
  {
  }

  lemma {:induction false} StoreKept(m: Machine, a: Action)
    requires MachineInv(m) && Enabled(m, a)
    ensures InBounds(m.store, a) && Inv(NextStore(m, a))
  {
    hide Inv, Clean, On, Committed, PlanFor, SourcesIn, HandlesFollow, SnapsOk;
    var s := m.store;
    match a
    case Seal => SealKeeps(s);
    case Place(key, value) => PlacePutKeeps(s, key, value);
    case Refuse(value) => ActiveKnown(s); WriteValueKeeps(s, value);
    case Agg(deltas) => AppendAggKeeps(s, deltas);
    case WriteLog => WriteWalKeeps(s);
    case FsyncLog => FsyncWalKeeps(s);
    case FsyncSegments => FsyncDirtyKeeps(s);
    case LogCommit(lsn) => AppendCommitKeeps(s, lsn);
    case Finish => FinishCommitKeeps(s);
    case Stage(from, horizon, chunks) => CompactStageKeeps(s, from, horizon, chunks);
    case FinishCompaction => CommitCovers(s); CompactCommitKeeps(s);
    case CrashAndReopen(n, image, nextFree) => ReopenKeeps(s, n, image, nextFree);
  }

  lemma {:induction false} PhaseKept(m: Machine, a: Action)
    requires MachineInv(m) && Enabled(m, a) && InBounds(m.store, a)
    ensures PhaseInv(Do(m, a))
  {
    hide Inv, Clean, On, Committed, PlanFor, SourcesIn, HandlesFollow, SnapsOk;
    var s := m.store;
    match a
    case Seal =>
    case Place(key, value) =>
    case Refuse(value) =>
    case Agg(deltas) =>
    case WriteLog => WriteWalKeeps(s);
    case FsyncLog => FsyncWalKeeps(s);
    case FsyncSegments => FsyncDirtyKeeps(s);
    case LogCommit(lsn) => AppendCommitKeeps(s, lsn); CommittedByCommit(s.log, Entry(s.nextLsn, Commit(lsn)));
    case Finish =>
    case Stage(from, horizon, chunks) => CompactStageKeeps(s, from, horizon, chunks);
    case FinishCompaction =>
    case CrashAndReopen(n, image, nextFree) =>
  }

  lemma {:induction false} CommittedByCommit(log: seq<Entry>, e: Entry)
    requires e.rec.Commit?
    ensures Committed(log + [e]) == |log| + 1
  {
  }

  // ----- handles and snapshots

  /** Behind every handle, bytes are only added at the end; in the open segment, they are written from where the
      next put goes. */
  ghost predicate HandlesKeep(h: map<nat, seq<byte>>, h': map<nat, seq<byte>>, active: nat, off: nat) {
    forall id :: id in h ==>
      && id in h'
      && if id == active then off <= |h[id]| && off <= |h'[id]| && h[id][..off] == h'[id][..off] else h[id] <= h'[id]
  }

  /** What a step may do to the files: write them past what is used, create fresh or current ones, and unlink. */
  ghost predicate GentleTo(s: Store, t: Store, handles: map<nat, seq<byte>>) {
    && (forall id :: id in s.files && id in t.files && id != s.mem.active ==>
         s.files[id].content <= t.files[id].content)
    && (s.mem.active in s.files ==>
          && s.mem.active in t.files && s.mem.off <= |s.files[s.mem.active].content|
          && s.mem.off <= |t.files[s.mem.active].content|
          && s.files[s.mem.active].content[..s.mem.off] == t.files[s.mem.active].content[..s.mem.off])
    && (forall id :: id in t.files && id !in s.files ==> id !in handles)
    && (forall id :: id in s.files && id !in t.files ==> id < t.nextFree && id !in t.mem.sealed && id != t.mem.active)
    && (forall id :: id in handles && id !in s.files && id !in t.files ==>
         id < t.nextFree && id !in t.mem.sealed && id != t.mem.active)
  }

  lemma {:induction false} Follows(s: Store, t: Store, handles: map<nat, seq<byte>>)
    requires HandlesFollow(s, handles) && GentleTo(s, t, handles)
    ensures HandlesFollow(t, Seen(handles, t.files))
    ensures HandlesKeep(handles, Seen(handles, t.files), s.mem.active, s.mem.off)
  {
  }

  /** The open segment's file is at least as long as its puts. */
  lemma {:induction false} OpenEnd(s: Store)
    requires Inv(s)
    ensures s.view.active in s.view.lens && s.view.lens[s.view.active] == s.view.off && s.mem.off == s.view.off
    ensures s.mem.active == s.view.active
    ensures s.mem.active in s.files ==> s.mem.off <= |s.files[s.mem.active].content|
  {
    hide Backed, IndexIn, LocsIn, On, EntriesFit, Covers, Sound, Holds, MoveIndex, MoveLocs, Extent;
    OnSound(s.log);
    SoundEnd(On(s.log));
  }

  lemma {:induction false} GentleWrite(s: Store, t: Store, handles: map<nat, seq<byte>>)
    requires HandlesFollow(s, handles) && WrittenFrom(s.files, t.files, s.mem.active, s.mem.off)
    requires t.nextFree == s.nextFree && t.mem.active == s.mem.active && t.mem.sealed == s.mem.sealed
    ensures GentleTo(s, t, handles)
  {
  }

  lemma {:induction false} GentleStage(s: Store, from: nat, chunks: seq<seq<RemapEntry>>, handles: map<nat, seq<byte>>)
    requires Inv(s) && s.nextLsn + |chunks| < MAX_U64 && s.nextFree < MAX_U64 && from <= MAX_U64 && from in s.files
    requires SourcesIn(s, from, RecordCodec.Flatten(chunks)) && HandlesFollow(s, handles)
    ensures GentleTo(s, CompactStage(s, from, chunks), handles)
  {
    hide Inv, SourcesIn, Copied, RemapRecords;
    OpenEnd(s);
    FilesKnown(s);
  }

  lemma {:induction false} FilesKnown(s: Store)
    requires Inv(s)
    ensures forall id :: id in s.files ==> id < s.nextFree
  {
    hide LogInv, ViewInv, Hosted, Backed;
  }

  lemma {:induction false} GentleFinish(s: Store, handles: map<nat, seq<byte>>)
    requires Inv(s) && s.plan.Some? && HandlesFollow(s, handles)
    ensures GentleTo(s, CompactCommit(s), handles)
  {
    hide Inv, SwapOn, MoveIndex, MoveLocs, Reclaimed;
    OpenEnd(s);
    PlanIds(s);
  }

  lemma {:induction false} PlanIds(s: Store)
    requires Inv(s) && s.plan.Some?
    ensures s.plan.value.from != s.mem.active && s.plan.value.from != s.plan.value.to
    ensures (forall id :: id in s.files ==> id < s.nextFree) && s.plan.value.to in s.files
  {
    hide LogInv, Hosted, Backed, Mirrors, IndexIn, LocsIn, EntriesFit, Covers, On, SwapOn;
    MirrorsActive(s.mem, s.view);
  }

  lemma {:induction false} HandlesKept(m: Machine, a: Action)
    requires MachineInv(m) && Enabled(m, a) && InBounds(m.store, a) && !a.CrashAndReopen?
    ensures HandlesFollow(Do(m, a).store, Do(m, a).handles)
    ensures HandlesKeep(m.handles, Do(m, a).handles, m.store.mem.active, m.store.mem.off)
  {
    hide Inv, Clean, On, Committed, PlanFor, SourcesIn, SnapsOk, PhaseInv, HandlesKeep, WrittenFrom;
    var s, t := m.store, NextStore(m, a);
    OpenEnd(s);
    match a {
      case Place(key, value) => PlacePutKeeps(s, key, value); GentleWrite(s, t, m.handles);
      case Refuse(value) => ActiveKnown(s); WriteValueKeeps(s, value); GentleWrite(s, t, m.handles);
      case Stage(from, horizon, chunks) => GentleStage(s, from, chunks, m.handles);
      case FinishCompaction => GentleFinish(s, m.handles);
      case _ =>
    }
    Follows(s, t, m.handles);
  }

  lemma {:induction false} ReadableKept(h: map<nat, seq<byte>>, h': map<nat, seq<byte>>, mem: Memory, vals: Values,
                                        vals': Values,
                                        lsn: nat, seg: nat, off: nat, len: nat)
    requires Readable(h, vals, lsn, seg, off, len) && HandlesKeep(h, h', mem.active, mem.off)
    requires seg == mem.active ==> off + len <= mem.off
    requires forall l :: l in vals ==> l in vals' && vals'[l] == vals[l]
    ensures Readable(h', vals', lsn, seg, off, len)
  {
    if seg == mem.active {
      SameBelow(h[seg], h'[seg], mem.off, off, off + len);
    } else {
      SameBelow(h[seg], h'[seg], |h[seg]|, off, off + len);
    }
  }

  lemma {:induction false} SnapKept(snap: Snap, h: map<nat, seq<byte>>, h': map<nat, seq<byte>>, mem: Memory,
                                    vals: Values, vals': Values)
    requires SnapOk(snap, h, vals) && Below(snap, mem) && HandlesKeep(h, h', mem.active, mem.off)
    requires forall l :: l in vals ==> l in vals' && vals'[l] == vals[l]
    ensures SnapOk(snap, h', vals')
  {
    hide Readable, HandlesKeep;
    forall k | k in snap.index ensures Usable(snap, h', vals', k) {
      var l := snap.index[k];
      assert Usable(snap, h, vals, k);
      ReadableKept(h, h', mem, vals, vals', l.lsn, l.seg, l.off, l.len);
    }
    forall lsn | lsn in snap.locs ensures PutUsable(snap, h', vals', lsn) {
      var l := snap.locs[lsn];
      assert PutUsable(snap, h, vals, lsn);
      if l.seg in snap.open { ReadableKept(h, h', mem, vals, vals', lsn, l.seg, l.off, l.len); }
    }
  }

  /** The open segment only grows, until a segment takes over that nobody has opened. */
  lemma {:induction false} OpenMoves(m: Machine, a: Action)
    requires MachineInv(m) && Enabled(m, a) && InBounds(m.store, a) && !a.CrashAndReopen?
    ensures var s, t := m.store, Do(m, a).store;
      (t.mem.active == s.mem.active && s.mem.off <= t.mem.off) || t.mem.active !in m.handles
  {
    hide LogInv, ViewInv, Hosted, Backed, Clean, On, Committed, PlanFor, SourcesIn, SnapsOk, PhaseInv;
  }

  lemma {:induction false} BelowKept(snap: Snap, handles: map<nat, seq<byte>>, vals: Values, mem: Memory, mem': Memory)
    requires SnapOk(snap, handles, vals) && Below(snap, mem)
    requires (mem'.active == mem.active && mem.off <= mem'.off) || mem'.active !in handles
    ensures Below(snap, mem')
  {
    if mem'.active !in handles {
      forall k | k in snap.index ensures snap.index[k].seg != mem'.active { assert Usable(snap, handles, vals, k); }
      forall l | l in snap.locs && snap.locs[l].seg in snap.open ensures snap.locs[l].seg != mem'.active {
        assert PutUsable(snap, handles, vals, l);
      }
    }
  }

  /** Puts get fresh LSNs, so recorded values never change. */
  lemma {:induction false} ValuesKept(m: Machine, a: Action)
    requires MachineInv(m) && Enabled(m, a) && InBounds(m.store, a) && !a.CrashAndReopen?
    ensures forall l :: l in m.store.vals ==> l in Do(m, a).store.vals && Do(m, a).store.vals[l] == m.store.vals[l]
  {
    hide LogInv, ViewInv, Hosted, Backed, Clean, On, Committed, PlanFor, SourcesIn, SnapsOk, PhaseInv, HandlesFollow;
  }

  /** What memory's layout promises of a snapshot taken now. */
  lemma {:induction false} FreshSnap(s: Store, handles: map<nat, seq<byte>>)
    requires Inv(s) && HandlesFollow(s, handles)
    ensures SnapOk(SnapOf(s), handles, s.vals) && Below(SnapOf(s), s.mem)
  {
    ViewSound(s);
    OpenEnd(s);
    assert Below(SnapOf(s), s.mem) by { FreshBelow(s); }
    hide Inv, IndexIn, LocsIn, Mirrors, HandlesFollow, Usable, PutUsable, Below;
    forall k | k in s.mem.index ensures Usable(SnapOf(s), handles, s.vals, k) {
      FreshUsable(s, handles, k);
    }
    forall l | l in s.mem.locs ensures PutUsable(SnapOf(s), handles, s.vals, l) {
      FreshPutUsable(s, handles, l);
    }
  }

  lemma {:induction false} FreshBelow(s: Store)
    requires IndexIn(s.view) && LocsIn(s.view) && Mirrors(s.mem, s.view)
    requires s.view.active in s.view.lens && s.view.lens[s.view.active] == s.view.off
    ensures Below(SnapOf(s), s.mem)
  {
  }

  lemma {:induction false} ViewSound(s: Store)
    requires Inv(s)
    ensures IndexIn(s.view) && LocsIn(s.view) && Mirrors(s.mem, s.view)
  {
    hide FileInv, Backed, IndexIn, LocsIn, Mirrors, On, SwapOn, EntriesFit, Covers, Sound;
    OnSound(s.log);
    SoundFacts(On(s.log));
  }

  lemma {:induction false} FreshUsable(s: Store, handles: map<nat, seq<byte>>, key: Text)
    requires Inv(s) && HandlesFollow(s, handles) && IndexIn(s.view) && LocsIn(s.view) && Mirrors(s.mem, s.view)
    requires key in s.mem.index
    ensures Usable(SnapOf(s), handles, s.vals, key)
  {
    hide LogInv, ViewInv, Backed;
    var l := s.view.index[key];
    SourceRead(s.files, s.dirty, s.view, s.vals, l.lsn);
  }

  lemma {:induction false} FreshPutUsable(s: Store, handles: map<nat, seq<byte>>, lsn: nat)
    requires Inv(s) && HandlesFollow(s, handles) && LocsIn(s.view) && Mirrors(s.mem, s.view) && lsn in s.mem.locs
    ensures PutUsable(SnapOf(s), handles, s.vals, lsn)
  {
    hide LogInv, ViewInv, Backed;
    if s.mem.locs[lsn].seg in SnapOf(s).open {
      SourceRead(s.files, s.dirty, s.view, s.vals, lsn);
    }
  }

  lemma {:induction false} SnapsKept(m: Machine, a: Action)
    requires MachineInv(m) && Enabled(m, a) && InBounds(m.store, a) && Inv(Do(m, a).store)
    requires HandlesFollow(Do(m, a).store, Do(m, a).handles)
    ensures SnapsOk(Do(m, a))
  {
    hide Inv, PhaseInv, Enabled, InBounds, NextStore, HandlesFollow, SnapOk, HandlesKeep, Below;
    var n := Do(m, a);
    FreshSnap(n.store, n.handles);
    if !a.CrashAndReopen? {
      HandlesKept(m, a);
      ValuesKept(m, a);
      OpenMoves(m, a);
      forall i | 0 <= i < |m.snaps|
        ensures SnapOk(m.snaps[i], n.handles, n.store.vals) && Below(m.snaps[i], n.store.mem)
      {
        SnapKept(m.snaps[i], m.handles, n.handles, m.store.mem, m.store.vals, n.store.vals);
        BelowKept(m.snaps[i], m.handles, m.store.vals, m.store.mem, n.store.mem);
      }
    }
  }

  lemma {:induction false} SeenFresh(t: Store)
    ensures HandlesFollow(t, Seen(map[], t.files))
  {
  }

  /** Every action that is possible is also within bounds, and keeps the invariant. */
  lemma {:induction false} StepKeeps(m: Machine, a: Action)
    requires MachineInv(m) && Enabled(m, a)
    ensures InBounds(m.store, a) && MachineInv(Do(m, a))
  {
    hide Inv, PhaseInv, Enabled, InBounds, NextStore, HandlesFollow, SnapsOk, Seen;
    StoreKept(m, a);
    PhaseKept(m, a);
    if a.CrashAndReopen? { SeenFresh(Do(m, a).store); } else { HandlesKept(m, a); }
    SnapsKept(m, a);
  }

  lemma {:induction false} FreshHosted()
    ensures Hosted(FRESH.files, {}, EMPTY, map[]) && Safe(FRESH.files, EMPTY, map[]) && FilesOk(FRESH.files)
  {
  }

  lemma {:induction false} FreshLog()
    ensures Legal([]) && On([]) == START && Committed([]) == 0
  {
  }

  lemma {:induction false} FreshInv()
    ensures Inv(FRESH)
  {
    hide Hosted, Safe, FilesOk, Mirrors, Committed, On, Legal, Backed;
    var s := FRESH;
    assert s.log[..s.durable] == [];
    FreshHosted();
    FreshLog();
    MirrorsItself(EMPTY);
    OneCut(s);
  }

  lemma {:induction false} BootInv()
    ensures MachineInv(BOOT)
  {
    hide Inv;
    FreshInv();
    SeenFresh(FRESH);
    assert Seen(map[], FRESH.files) == map[0 := []];
  }

  lemma {:induction false} RunKeeps(m: Machine, acts: seq<Action>, n: Machine)
    requires MachineInv(m) && Leads(m, acts, n)
    ensures MachineInv(n)
    decreases |acts|
  {
    hide MachineInv, Enabled, InBounds;
    if |acts| > 0 {
      StepKeeps(m, acts[0]);
      RunKeeps(Do(m, acts[0]), acts[1..], n);
    }
  }

  ghost predicate Reachable(m: Machine) {
    exists acts :: Leads(BOOT, acts, m)
  }

  lemma {:induction false} ReachableInv(m: Machine)
    requires Reachable(m)
    ensures MachineInv(m)
  {
    hide MachineInv, Leads;
    BootInv();
    var acts :| Leads(BOOT, acts, m);
    RunKeeps(BOOT, acts, m);
  }
}
