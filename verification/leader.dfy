/** The store of a single writer: staging, the commit protocol, compaction, and crashes at any step. */
module Leader {
  import opened Bytes
  import opened Records
  import RecordCodec
  import opened Wal
  import opened LogModel
  import opened Disk

  const MAX_U64 := 0xFFFF_FFFF_FFFF_FFFF

  /** The maps and counters the writer keeps in memory. */
  datatype Memory = Memory(index: map<Text, Loc>, locs: map<nat, PutLoc>, active: nat, off: nat, sealed: set<nat>)

  /** Memory agrees with a layout; only puts reclaimed by a compaction may be missing from `locs`. */
  ghost predicate Mirrors(m: Memory, r: Layout) {
    && m.index == r.index && m.active == r.active && m.off == r.off && m.sealed == r.sealed
    && (forall l :: l in m.locs ==> l in r.locs && m.locs[l] == r.locs[l])
    && (forall l :: l in r.locs && r.locs[l].seg in LiveSegs(r) ==> l in m.locs)
  }

  datatype Store = Store(
    /** Every entry appended, in order; the first `written` are in the file, the first `durable` fsynced. */
    log: seq<Entry>, written: nat, durable: nat,
    nextLsn: nat, nextFree: nat,
    files: Files, dirty: set<nat>,
    mem: Memory,
    /** A compaction that was staged and not yet finished. */
    plan: Option<Pending>,
    /** For specification: the bytes of every put, the layout memory mirrors, and the length of the log
        when the last commit returned. */
    vals: Values, view: Layout, acked: nat)

  // ----- steps

  predicate Room(s: Store) {
    s.nextLsn + 2 <= MAX_U64 && s.nextFree < MAX_U64 && s.mem.active <= MAX_U64
  }

  function SealActive(s: Store): Store
    requires Room(s)
  {
    var e := Entry(s.nextLsn, SegmentSeal(s.mem.active, s.nextFree));
    s.(log := s.log + [e], nextLsn := s.nextLsn + 1, nextFree := s.nextFree + 1,
       mem := s.mem.(sealed := s.mem.sealed + {s.mem.active}, active := s.nextFree, off := 0),
       view := SealOn(s.view, s.nextFree))
  }

  /** The file, created empty if it is not there. */
  function Opened(fs: Files, id: nat): File {
    if id in fs then fs[id] else File([], 0)
  }

  /** A write at an offset: bytes before and after stay, and a gap past the end reads as zeros. What is written
      over is no longer fsynced. */
  function WriteAt(f: File, off: nat, value: seq<byte>): File {
    var end, len := off + |value|, |f.content|;
    if |value| == 0 then f
    else File((if off <= len then f.content[..off] else f.content + Padding(off - len))
              + value + (if end < len then f.content[end..] else []),
              if f.durable <= off then f.durable else off)
  }

  /** A value is written where the next put goes, whether or not a put follows. */
  function WriteValue(s: Store, value: seq<byte>): Store {
    s.(files := s.files[s.mem.active := WriteAt(Opened(s.files, s.mem.active), s.mem.off, value)])
  }

  /** A put whose key does not fit its record is refused after the value was written, and after a seal if it
      would overflow the open segment. */
  function RefusePut(s: Store, value: seq<byte>, limit: nat): Store
    requires Room(s)
  {
    WriteValue(Sealed(s, value, limit), value)
  }

  /** The open segment is sealed before a put that would overflow it. */
  function Sealed(s: Store, value: seq<byte>, limit: nat): Store
    requires Room(s)
  {
    if s.mem.off > 0 && s.mem.off + |value| > limit then SealActive(s) else s
  }

  /** A put whose deltas do not fit a record is refused when its own record is already logged: the log has a put
      that memory does not know. */
  function LogPut(s: Store, key: Text, value: seq<byte>): Store
    requires s.nextLsn <= MAX_U64 && |value| < 0x1_0000_0000
  {
    WriteValue(s, value).(log := s.log + [Entry(s.nextLsn, Put(key, |value|, s.nextLsn))], nextLsn := s.nextLsn + 1)
  }

  /** The value goes to the end of the open segment, its record to the log. */
  function PlacePut(s: Store, key: Text, value: seq<byte>): Store
    requires Room(s) && |value| < 0x1_0000_0000
  {
    var m, lsn := s.mem, s.nextLsn;
    s.(log := s.log + [Entry(lsn, Put(key, |value|, lsn))],
       nextLsn := lsn + 1,
       files := s.files[m.active := WriteAt(Opened(s.files, m.active), m.off, value)],
       dirty := s.dirty + {m.active},
       mem := m.(index := m.index[key := Loc(m.active, m.off, |value|, lsn)],
                 locs := m.locs[lsn := PutLoc(key, m.active, m.off, |value|)],
                 off := m.off + |value|),
       vals := s.vals[lsn := value],
       view := PutOn(s.view, key, |value|, lsn))
  }

  function AppendAgg(s: Store, deltas: seq<AggDeltaEntry>): Store
    requires s.nextLsn <= MAX_U64
  {
    s.(log := s.log + [Entry(s.nextLsn, AggDelta(deltas))], nextLsn := s.nextLsn + 1)
  }

  /** Seals before a put that would overflow the open segment, and after one that alone exceeds the limit. */
  function StagePut(s: Store, key: Text, value: seq<byte>, deltas: seq<AggDeltaEntry>, limit: nat): Store
    requires RoomForPut(s) && |value| < 0x1_0000_0000
  {
    var s2 := AppendAgg(PlacePut(Sealed(s, value, limit), key, value), deltas);
    if |value| > limit then SealActive(s2) else s2
  }

  predicate RoomForPut(s: Store) {
    s.nextLsn + 6 <= MAX_U64 && s.nextFree + 2 < MAX_U64 && s.mem.active <= MAX_U64
  }

  function FsyncDirty(s: Store): Store {
    s.(files := Fsynced(s.files, s.dirty))
  }

  function AppendCommit(s: Store, lsn: u64): Store
    requires s.nextLsn <= MAX_U64
  {
    s.(log := s.log + [Entry(s.nextLsn, Commit(lsn))], nextLsn := s.nextLsn + 1)
  }

  function WriteWal(s: Store): Store {
    s.(written := |s.log|)
  }

  function FsyncWal(s: Store): Store {
    s.(durable := s.written)
  }

  function FinishCommit(s: Store): Store {
    s.(dirty := {}, acked := |s.log|)
  }

  // ----- compaction steps

  /** A put is live if it is the current one of some key, in this segment. */
  ghost predicate IsLive(m: Memory, seg: nat, lsn: nat) {
    exists k :: k in m.index && m.index[k].seg == seg && m.index[k].lsn == lsn
  }

  /** A put of segment `from` survives the compaction: it is live, or newer than the horizon. */
  ghost predicate Kept(m: Memory, from: nat, horizon: nat, lsn: nat) {
    lsn in m.locs && m.locs[lsn].seg == from && (IsLive(m, from, lsn) || lsn > horizon)
  }

  /** The entries name exactly the kept puts, once each, and lay them end to end. */
  ghost predicate PlanFor(m: Memory, from: nat, horizon: nat, es: seq<RemapEntry>) {
    && from in m.sealed && DistinctLsns(es)
    && (forall i :: 0 <= i < |es| ==> Kept(m, from, horizon, es[i].lsn))
    && (forall lsn :: Kept(m, from, horizon, lsn) ==> exists i :: 0 <= i < |es| && es[i].lsn == lsn)
    && (forall i :: 0 <= i < |es| ==>
          m.locs[es[i].lsn] == PutLoc(es[i].key, from, m.locs[es[i].lsn].off, es[i].len) &&
          es[i].offset == Total(es[..i]))
  }

  /** The values of the entries, copied out of the old segment's file one after the other. */
  function Copied(old_: seq<byte>, locs: map<nat, PutLoc>, es: seq<RemapEntry>): seq<byte>
    requires forall i :: 0 <= i < |es| ==> es[i].lsn in locs && locs[es[i].lsn].off + es[i].len <= |old_|
  {
    if |es| == 0 then []
    else
      var e := es[|es| - 1];
      Copied(old_, locs, es[..|es| - 1]) + old_[locs[e.lsn].off..locs[e.lsn].off + e.len]
  }

  function RemapRecords(lsn: nat, to: nat, chunks: seq<seq<RemapEntry>>): seq<Entry>
    requires lsn + |chunks| <= MAX_U64 && to <= MAX_U64
  {
    if |chunks| == 0 then []
    else
      var n := |chunks| - 1;
      RemapRecords(lsn, to, chunks[..n]) + [Entry(lsn + n, SegmentRemap(to, chunks[n]))]
  }

  /** The values the entries name lie within the old segment's file. */
  ghost predicate SourcesIn(s: Store, from: nat, es: seq<RemapEntry>) {
    && from in s.files
    && forall i :: 0 <= i < |es| ==>
         es[i].lsn in s.mem.locs && s.mem.locs[es[i].lsn].off + es[i].len <= |s.files[from].content|
  }

  /** The replacement file is written, fsynced and renamed into place; then the swap and the
      remap records are logged. */
  function CompactStage(s: Store, from: nat, chunks: seq<seq<RemapEntry>>): Store
    requires s.nextLsn + |chunks| < MAX_U64 && s.nextFree < MAX_U64 && from <= MAX_U64 && from in s.files
    requires SourcesIn(s, from, RecordCodec.Flatten(chunks))
  {
    var es, to := RecordCodec.Flatten(chunks), s.nextFree;
    var copy := Copied(s.files[from].content, s.mem.locs, es);
    s.(files := s.files[to := File(copy, |copy|)],
       nextFree := to + 1,
       log := s.log + ([Entry(s.nextLsn, SegmentSwap(from, to))] + RemapRecords(s.nextLsn + 1, to, chunks)),
       nextLsn := s.nextLsn + 1 + |chunks|,
       plan := Some(Pending(from, to, es)))
  }

  function EntryLsns(es: seq<RemapEntry>): set<nat> {
    set i | 0 <= i < |es| :: es[i].lsn
  }

  /** The puts a compaction reclaims. */
  function Reclaimed(m: Memory, p: Pending): set<nat> {
    set l | l in m.locs && m.locs[l].seg == p.from && l !in EntryLsns(p.entries)
  }

  function SwapMemory(m: Memory, p: Pending): Memory {
    m.(index := MoveIndex(m.index, p.entries, p.to),
       locs := MoveLocs(m.locs, p.entries, p.to) - Reclaimed(m, p),
       sealed := m.sealed - {p.from} + {p.to})
  }

  /** Memory is repointed at the replacement, reclaimed puts are forgotten, and the old file is removed. */
  function CompactCommit(s: Store): Store
    requires s.plan.Some?
  {
    var p := s.plan.value;
    s.(mem := SwapMemory(s.mem, p),
       files := s.files - {p.from},
       plan := None,
       view := SwapOn(s.view, p.from, p.to, p.entries))
  }

  // ----- invariant

  ghost predicate LogInv(s: Store) {
    && Legal(s.log) && s.durable <= s.written <= |s.log|
    && On(s.log).lastLsn < s.nextLsn && On(s.log).bound <= s.nextFree
  }

  /** Memory lags behind the log only by a compaction that is committed and not yet finished. */
  ghost predicate ViewInv(s: Store) {
    && Mirrors(s.mem, s.view)
    && match s.plan
       case None => On(s.log).pend.None? && s.view == On(s.log).r
       case Some(p) =>
         && p.from in s.view.sealed && p.to !in s.view.lens && p.to in s.files
         && p.from != s.view.active && p.to != s.view.active && p.from in s.view.lens
         && IndexIn(s.view) && LocsIn(s.view)
         && EntriesFit(s.view, p.from, p.entries, 0) && (forall l :: l in s.view.locs ==> s.view.locs[l].seg != p.to)
         && if On(s.log).pend.Some? then On(s.log).pend == Some(p) && s.view == On(s.log).r && Covers(s.view, p)
            else On(s.log).r == SwapOn(s.view, p.from, p.to, p.entries)
  }

  /** Files carry a layout: every put is in its place, each current segment is long enough, and it
      is fsynced that far unless marked dirty. */
  ghost predicate Hosted(fs: Files, dirty: set<nat>, r: Layout, vals: Values) {
    && Holds(fs, r, vals)
    && (forall id :: id in LiveSegs(r) && id in fs && id !in dirty ==> id in r.lens && r.lens[id] <= fs[id].durable)
    && (forall id :: id in LiveSegs(r) && id in fs ==> id in r.lens && r.lens[id] <= |fs[id].content|)
    && (forall id :: id in LiveSegs(r) && id !in fs ==> id in r.lens && r.lens[id] == 0)
    && (forall l :: l in r.locs && r.locs[l].seg in LiveSegs(r) ==> r.locs[l].seg in fs)
  }

  ghost predicate FileInv(s: Store) {
    && FilesOk(s.files) && (forall id :: id in s.files ==> id < s.nextFree)
    && (forall id :: id in s.dirty ==> id < s.nextFree)
    && (forall l :: l in s.vals ==> l < s.nextLsn)
    && Hosted(s.files, s.dirty, s.view, s.vals)
    && (s.plan.Some? ==>
          var p := s.plan.value;
          Hosted(s.files, s.dirty, SwapOn(s.view, p.from, p.to, p.entries), s.vals))
  }

  ghost predicate IsCut(log: seq<Entry>, c: nat) {
    c <= |log| && (c == 0 || log[c - 1].rec.Commit?)
  }

  /** Wherever a crash may cut the log, the disk is safe for what remains. */
  ghost predicate Backed(s: Store) {
    forall c: nat :: IsCut(s.log, c) && s.durable <= |s.log| && Committed(s.log[..s.durable]) <= c ==>
      Safe(s.files, On(s.log[..c]).r, s.vals)
  }

  ghost predicate Inv(s: Store) {
    && LogInv(s) && ViewInv(s) && FileInv(s) && Backed(s)
    && s.acked <= Committed(s.log[..s.durable])
  }

  // ----- what appending does to the log's meaning

  lemma {:induction false} AppendLegal(s: Store, e: Entry)
    requires LogInv(s) && Allowed(On(s.log), e)
    ensures Legal(s.log + [e]) && On(s.log + [e]) == After(On(s.log), e)
  {
    hide Allowed, After, On;
    LegalAppend(s.log, e);
    OnAppend(s.log, e);
  }

  /** Records that are not Commits add no place where a crash can cut the log. */
  lemma {:induction false} BackedByAppends(s: Store, t: Store, es: seq<Entry>)
    requires Backed(s) && s.durable <= |s.log| && t.log == s.log + es && t.durable == s.durable
    requires forall i :: 0 <= i < |es| ==> !es[i].rec.Commit?
    requires Grown(s.files, t.files) && forall l :: l in s.vals ==> l in t.vals && t.vals[l] == s.vals[l]
    ensures Backed(t)
  {
    hide Safe, On, Committed;
    assert t.log[..t.durable] == s.log[..s.durable];
    forall c: nat | IsCut(t.log, c) && Committed(t.log[..t.durable]) <= c
      ensures Safe(t.files, On(t.log[..c]).r, t.vals)
    {
      assert c <= |s.log| && t.log[..c] == s.log[..c];
      assert IsCut(s.log, c);
      SafeGrown(s.files, t.files, On(s.log[..c]).r, s.vals);
      SafeMoreValues(t.files, On(s.log[..c]).r, s.vals, t.vals);
    }
  }

  lemma {:induction false} BackedByAppend(s: Store, t: Store, e: Entry)
    requires Backed(s) && s.durable <= |s.log| && t.log == s.log + [e] && t.durable == s.durable && !e.rec.Commit?
    requires Grown(s.files, t.files) && forall l :: l in s.vals ==> l in t.vals && t.vals[l] == s.vals[l]
    ensures Backed(t)
  {
    hide Backed;
    BackedByAppends(s, t, [e]);
  }

  lemma {:induction false} SameFilesGrown(fs: Files)
    ensures Grown(fs, fs)
  {
  }

  // ----- sealing

  lemma {:induction false} HostedSeal(fs: Files, dirty: set<nat>, s: Live, vals: Values, next: nat)
    requires Sound(s) && Hosted(fs, dirty, s.r, vals) && next >= s.bound
    ensures Hosted(fs, dirty, SealOn(s.r, next), vals)
  {
    hide Holds, IndexIn, LocsIn, EntriesFit;
    assert Holds(fs, SealOn(s.r, next), vals) by { HoldsSeal(fs, s, vals, next); }
  }

  lemma {:induction false} HoldsSeal(fs: Files, s: Live, vals: Values, next: nat)
    requires Sound(s) && Holds(fs, s.r, vals) && next >= s.bound
    ensures Holds(fs, SealOn(s.r, next), vals)
  {
    hide InPlace, IndexIn, LocsIn, EntriesFit;
  }

  lemma {:induction false} MirrorsSeal(m: Memory, s: Live, next: nat)
    requires Sound(s) && Mirrors(m, s.r) && next >= s.bound
    ensures Mirrors(m.(sealed := m.sealed + {m.active}, active := next, off := 0), SealOn(s.r, next))
  {
    hide IndexIn, LocsIn, EntriesFit;
  }

  lemma {:induction false} SealKeeps(s: Store)
    requires Inv(s) && Room(s) && s.plan.None?
    ensures Inv(SealActive(s))
  {
    hide On, Legal, Holds, Hosted, Mirrors, Backed, Sound, Safe, SealOn, Committed;
    var t, live := SealActive(s), On(s.log);
    var e := Entry(s.nextLsn, SegmentSeal(s.mem.active, s.nextFree));
    OnSound(s.log);
    assert s.mem.active == live.r.active by { MirrorsActive(s.mem, s.view); }
    AppendLegal(s, e);
    SameFilesGrown(s.files);
    BackedByAppend(s, t, e);
    HostedSeal(s.files, s.dirty, live, s.vals, s.nextFree);
    MirrorsSeal(s.mem, live, s.nextFree);
    assert t.log[..t.durable] == s.log[..s.durable];
  }

  lemma {:induction false} MirrorsActive(m: Memory, r: Layout)
    requires Mirrors(m, r)
    ensures m.active == r.active && m.off == r.off && m.sealed == r.sealed && m.index == r.index
  {
  }

  // ----- putting

  lemma {:induction false} AppendAtEnd(f: File, off: nat, value: seq<byte>)
    requires off == |f.content| && f.durable <= |f.content|
    ensures WriteAt(f, off, value) == File(f.content + value, f.durable)
  {
    assert f.content[..off] == f.content;
  }

  lemma {:induction false} WriteAtFrom(f: File, off: nat, value: seq<byte>)
    requires off <= |f.content| && f.durable <= |f.content|
    ensures var g := WriteAt(f, off, value);
      && off + |value| <= |g.content| && g.content[..off] == f.content[..off] && g.content[off..off + |value|] == value
      && g.durable <= |g.content| && (off <= g.durable || f.durable <= g.durable)
  {
  }

  lemma {:induction false} ActiveEnd(fs: Files, dirty: set<nat>, s: Live, vals: Values)
    requires Sound(s) && Hosted(fs, dirty, s.r, vals)
    ensures s.r.off <= |Opened(fs, s.r.active).content| && s.r.active < s.bound
    ensures s.r.active !in fs ==> s.r.off == 0
  {
    hide InPlace, IndexIn, LocsIn, EntriesFit;
  }

  /** Whatever is written past the end of the open segment, the layout is still carried. */
  lemma {:induction false} HostedWrite(fs: Files, dirty: set<nat>, s: Live, vals: Values, value: seq<byte>)
    requires Sound(s) && Hosted(fs, dirty, s.r, vals) && FilesOk(fs)
    ensures var id, off := s.r.active, s.r.off;
      var fs' := fs[id := WriteAt(Opened(fs, id), off, value)];
      && WrittenFrom(fs, fs', id, off) && FilesOk(fs') && Hosted(fs', dirty, s.r, vals)
      && off + |value| <= |fs'[id].content| && fs'[id].content[off..off + |value|] == value
  {
    hide IndexIn, LocsIn, EntriesFit, Holds, WriteAt;
    var id, off := s.r.active, s.r.off;
    ActiveEnd(fs, dirty, s, vals);
    WriteAtFrom(Opened(fs, id), off, value);
    var fs' := fs[id := WriteAt(Opened(fs, id), off, value)];
    SafeBelow(fs, fs', id, off, s.r, vals);
  }

  lemma {:induction false} HostedPut(fs: Files, dirty: set<nat>, r: Layout, vals: Values, key: Text, value: seq<byte>,
                                     lsn: nat)
    requires Hosted(fs, dirty, r, vals) && lsn !in vals && r.active in fs && r.off + |value| <= |fs[r.active].content|
    requires fs[r.active].content[r.off..r.off + |value|] == value
    ensures Hosted(fs, dirty + {r.active}, PutOn(r, key, |value|, lsn), vals[lsn := value])
  {
    hide Holds;
    assert Holds(fs, PutOn(r, key, |value|, lsn), vals[lsn := value]) by { HoldsPut(fs, r, vals, key, value, lsn); }
  }

  lemma {:induction false} HoldsPut(fs: Files, r: Layout, vals: Values, key: Text, value: seq<byte>, lsn: nat)
    requires Holds(fs, r, vals) && lsn !in vals && r.active in fs && r.off + |value| <= |fs[r.active].content|
    requires fs[r.active].content[r.off..r.off + |value|] == value
    ensures Holds(fs, PutOn(r, key, |value|, lsn), vals[lsn := value])
  {
  }

  /** At every earlier point of the log, the segment that is open now was no longer than it is now. */
  lemma {:induction false} EarlierEnds(log: seq<Entry>, c: nat)
    requires Legal(log) && c <= |log|
    ensures On(log).r.active in On(log[..c]).r.lens ==> On(log[..c]).r.lens[On(log).r.active] <= On(log).r.off
  {
    hide On, Legal, Sound, After;
    OnSound(log);
    if c == |log| {
      assert log[..c] == log;
      SoundEnd(On(log));
    } else {
      var n := |log| - 1;
      assert log == log[..n] + [log[n]] && log[..n][..c] == log[..c];
      LegalPrefix(log, n);
      LegalPrefix(log, c);
      OnSound(log[..n]);
      OnAppend(log[..n], log[n]);
      LegalLast(log);
      EarlierEnds(log[..n], c);
      OpenGrows(On(log[..n]), log[n]);
      EarlierBound(log[..n], c);
    }
  }

  lemma {:induction false} SoundEnd(s: Live)
    requires Sound(s)
    ensures s.r.active in s.r.lens && s.r.lens[s.r.active] == s.r.off
  {
    hide IndexIn, LocsIn, EntriesFit;
  }

  lemma {:induction false} LegalLast(log: seq<Entry>)
    requires Legal(log) && |log| > 0
    ensures Allowed(On(log[..|log| - 1]), log[|log| - 1])
  {
    hide On, Allowed;
  }

  /** The open segment grows, or another with a fresh id takes over. */
  lemma {:induction false} OpenGrows(s: Live, e: Entry)
    requires Sound(s) && Allowed(s, e)
    ensures var r := After(s, e).r;
      (r.active == s.r.active && s.r.off <= r.off) || r.active >= s.bound
  {
    hide IndexIn, LocsIn, EntriesFit, Covers, MoveIndex, MoveLocs, Extent;
  }

  lemma {:induction false} EarlierBound(log: seq<Entry>, c: nat)
    requires Legal(log) && c <= |log|
    ensures forall id :: id in On(log[..c]).r.lens ==> id < On(log).bound
  {
    hide On, Legal, Sound, After;
    LegalPrefix(log, c);
    OnSound(log[..c]);
    SoundFacts(On(log[..c]));
    BoundRises(log, c);
  }

  lemma {:induction false} BoundRises(log: seq<Entry>, c: nat)
    requires c <= |log|
    ensures On(log[..c]).bound <= On(log).bound
  {
    hide After;
    if c == |log| {
      assert log[..c] == log;
    } else {
      var n := |log| - 1;
      assert log[..n][..c] == log[..c];
      BoundRises(log[..n], c);
      BoundGrows(On(log[..n]), log[n]);
    }
  }

  lemma {:induction false} BoundGrows(s: Live, e: Entry)
    ensures s.bound <= After(s, e).bound
  {
    hide SwapOn, PutOn, SealOn;
  }

  /** A write past the end of the open segment leaves every layout a crash may bring back. */
  lemma {:induction false} BackedByWrite(s: Store, t: Store)
    requires Backed(s) && Legal(s.log) && t.log == s.log && t.durable == s.durable && t.vals == s.vals
    requires WrittenFrom(s.files, t.files, On(s.log).r.active, On(s.log).r.off)
    ensures Backed(t)
  {
    hide Safe, On, Committed, Legal, WrittenFrom, Sound, LocsIn, IndexIn;
    forall c: nat | IsCut(t.log, c) && t.durable <= |t.log| && Committed(t.log[..t.durable]) <= c
      ensures Safe(t.files, On(t.log[..c]).r, t.vals)
    {
      LegalPrefix(s.log, c);
      OnSound(s.log[..c]);
      SoundFacts(On(s.log[..c]));
      EarlierEnds(s.log, c);
      SafeBelow(s.files, t.files, On(s.log).r.active, On(s.log).r.off, On(s.log[..c]).r, s.vals);
    }
  }

  lemma {:induction false} WriteValueKeeps(s: Store, value: seq<byte>)
    requires Inv(s) && s.plan.None? && s.mem.active < s.nextFree
    ensures var t := WriteValue(s, value);
      && Inv(t) && WrittenFrom(s.files, t.files, s.mem.active, s.mem.off)
      && s.mem.off + |value| <= |t.files[s.mem.active].content|
      && t.files[s.mem.active].content[s.mem.off..s.mem.off + |value|] == value
  {
    hide On, Legal, Holds, Hosted, Mirrors, Backed, Sound, Safe, Committed, WriteAt, Opened, FilesOk;
    OnSound(s.log);
    MirrorsActive(s.mem, s.view);
    HostedWrite(s.files, s.dirty, On(s.log), s.vals, value);
    BackedByWrite(s, WriteValue(s, value));
  }

  lemma {:induction false} ActiveKnown(s: Store)
    requires Inv(s) && s.plan.None?
    ensures s.mem.active < s.nextFree
  {
    hide On, Legal, Holds, Hosted, Mirrors, Backed, Sound, Safe, Committed, FilesOk;
    OnSound(s.log);
    MirrorsActive(s.mem, s.view);
    ActiveEnd(s.files, s.dirty, On(s.log), s.vals);
  }

  lemma {:induction false} RefusePutKeeps(s: Store, value: seq<byte>, limit: nat)
    requires Inv(s) && Room(s) && s.plan.None?
    ensures Inv(RefusePut(s, value, limit))
  {
    hide Inv, WriteValue, SealActive;
    SealKeeps(s);
    SealPlan(s);
    ActiveKnown(Sealed(s, value, limit));
    WriteValueKeeps(Sealed(s, value, limit), value);
  }

  lemma {:induction false} SealPlan(s: Store)
    requires Room(s)
    ensures SealActive(s).plan == s.plan
  {
  }

  /** A logged put that memory does not know breaks the invariant. */
  lemma {:induction false} LogPutBreaks(s: Store, key: Text, value: seq<byte>)
    requires Inv(s) && s.plan.None? && s.nextLsn <= MAX_U64 && |value| < 0x1_0000_0000
    ensures !Inv(LogPut(s, key, value))
  {
    hide FileInv, Backed, Legal, On, Sound, Mirrors;
    var e := Entry(s.nextLsn, Put(key, |value|, s.nextLsn));
    OnAppend(s.log, e);
    OnSound(s.log);
    assert s.nextLsn !in On(s.log).r.locs by { LocsOld(On(s.log), s.nextLsn); }
  }

  lemma {:induction false} LocsOld(s: Live, lsn: nat)
    requires Sound(s) && lsn > s.lastLsn
    ensures lsn !in s.r.locs
  {
    hide IndexIn, LocsIn, EntriesFit;
  }

  lemma {:induction false} MirrorsPut(m: Memory, r: Layout, key: Text, len: nat, lsn: nat)
    requires Mirrors(m, r)
    ensures Mirrors(m.(index := m.index[key := Loc(m.active, m.off, len, lsn)],
                       locs := m.locs[lsn := PutLoc(key, m.active, m.off, len)], off := m.off + len),
                         PutOn(r, key, len, lsn))
  {
  }

  lemma {:induction false} PlacePutKeeps(s: Store, key: Text, value: seq<byte>)
    requires Inv(s) && Room(s) && s.plan.None? && |value| < 0x1_0000_0000
    ensures Inv(PlacePut(s, key, value)) && WrittenFrom(s.files, PlacePut(s, key, value).files, s.mem.active, s.mem.off)
  {
    hide Inv, On, Legal, Hosted, Mirrors, Backed, Sound, PutOn, Committed, WriteAt, Opened, Grown, FilesOk, WrittenFrom;
    ActiveKnown(s);
    WriteValueKeeps(s, value);
    PutLogged(WriteValue(s, value), PlacePut(s, key, value), key, value);
  }

  /** The value is in the file; now the put is logged and remembered. */
  lemma {:induction false} PutLogged(s: Store, t: Store, key: Text, value: seq<byte>)
    requires Inv(s) && Room(s) && s.plan.None? && |value| < 0x1_0000_0000
    requires s.mem.active in s.files && s.mem.off + |value| <= |s.files[s.mem.active].content|
    requires s.files[s.mem.active].content[s.mem.off..s.mem.off + |value|] == value
    requires s.mem.active < s.nextFree
    requires t == PlacePut(s, key, value).(files := s.files)
    ensures Inv(t)
  {
    hide On, Legal, Holds, Hosted, Mirrors, Backed, Sound, Safe, PutOn, Committed, WriteAt, Opened, Grown, FilesOk;
    var lsn := s.nextLsn;
    var e := Entry(lsn, Put(key, |value|, lsn));
    OnSound(s.log);
    MirrorsActive(s.mem, s.view);
    HostedPut(s.files, s.dirty, s.view, s.vals, key, value, lsn);
    MirrorsPut(s.mem, s.view, key, |value|, lsn);
    AppendLegal(s, e);
    SameFilesGrown(s.files);
    BackedByAppend(s, t, e);
    assert t.log[..t.durable] == s.log[..s.durable];
  }

  lemma {:induction false} AppendAggKeeps(s: Store, deltas: seq<AggDeltaEntry>)
    requires Inv(s) && s.plan.None? && s.nextLsn <= MAX_U64
    ensures Inv(AppendAgg(s, deltas))
  {
    hide On, Legal, Holds, Hosted, Mirrors, Backed, Sound, Safe, Committed, FilesOk;
    var t := AppendAgg(s, deltas);
    var e := Entry(s.nextLsn, AggDelta(deltas));
    AppendLegal(s, e);
    SameFilesGrown(s.files);
    BackedByAppend(s, t, e);
    assert t.log[..t.durable] == s.log[..s.durable];
  }

  lemma {:induction false} StagePutKeeps(s: Store, key: Text, value: seq<byte>, deltas: seq<AggDeltaEntry>, limit: nat)
    requires Inv(s) && s.plan.None? && RoomForPut(s) && |value| < 0x1_0000_0000
    ensures Inv(StagePut(s, key, value, deltas, limit))
  {
    hide Inv;
    var s1 := if s.mem.off > 0 && s.mem.off + |value| > limit then SealActive(s) else s;
    if s.mem.off > 0 && s.mem.off + |value| > limit { SealKeeps(s); }
    PlacePutKeeps(s, key, value);
    PlacePutKeeps(s1, key, value);
    AppendAggKeeps(PlacePut(s1, key, value), deltas);
    var s2 := AppendAgg(PlacePut(s1, key, value), deltas);
    if |value| > limit { SealKeeps(s2); }
  }

  lemma {:induction false} StillPending(s: Store, key: Text, value: seq<byte>, deltas: seq<AggDeltaEntry>, limit: nat)
    requires Inv(s) && RoomForPut(s) && |value| < 0x1_0000_0000
    ensures var t := StagePut(s, key, value, deltas, limit); t.acked < |t.log|
  {
    hide ViewInv, FileInv, Backed, Committed, Legal, On, SealOn, PutOn, WriteAt, Opened;
  }

  // ----- committing

  lemma {:induction false} HostedFsync(fs: Files, fs': Files, dirty: set<nat>, r: Layout, vals: Values)
    requires Hosted(fs, dirty, r, vals) && fs'.Keys == fs.Keys
    requires forall id :: id in fs ==> fs'[id].content == fs[id].content
    requires forall id :: id in fs && id in dirty ==> fs'[id].durable == |fs[id].content|
    requires forall id :: id in fs && id !in dirty ==> fs'[id] == fs[id]
    ensures Hosted(fs', {}, r, vals)
  {
    hide Holds;
    assert Holds(fs', r, vals) by { HoldsSame(fs, fs', r, vals); }
  }

  lemma {:induction false} HoldsSame(fs: Files, fs': Files, r: Layout, vals: Values)
    requires Holds(fs, r, vals) && forall id :: id in fs ==> id in fs' && fs'[id].content == fs[id].content
    ensures Holds(fs', r, vals)
  {
  }

  lemma {:induction false} HostedMoreDirty(fs: Files, dirty: set<nat>, dirty': set<nat>, r: Layout, vals: Values)
    requires Hosted(fs, dirty, r, vals) && dirty <= dirty'
    ensures Hosted(fs, dirty', r, vals)
  {
    hide Holds;
  }

  /** With no dirty segment, everything a layout needs is fsynced. */
  lemma {:induction false} HostedClean(fs: Files, r: Layout, vals: Values)
    requires Hosted(fs, {}, r, vals)
    ensures Safe(fs, r, vals)
  {
    hide Holds;
  }

  lemma {:induction false} BackedByFiles(s: Store, t: Store)
    requires Backed(s) && t.log == s.log && t.durable == s.durable && t.vals == s.vals && Grown(s.files, t.files)
    ensures Backed(t)
  {
    hide Safe, On, Committed;
    forall c: nat | IsCut(t.log, c) && t.durable <= |t.log| && Committed(t.log[..t.durable]) <= c
      ensures Safe(t.files, On(t.log[..c]).r, t.vals)
    {
      SafeGrown(s.files, t.files, On(s.log[..c]).r, s.vals);
    }
  }

  /** Between the segment fsync and the end of the commit, no current segment is dirty. */
  ghost predicate Clean(s: Store) {
    Hosted(s.files, {}, s.view, s.vals) &&
    (s.plan.Some? ==> Hosted(s.files, {}, SwapOn(s.view, s.plan.value.from, s.plan.value.to, s.plan.value.entries),
      s.vals))
  }

  lemma {:induction false} FsyncDirtyKeeps(s: Store)
    requires Inv(s)
    ensures Inv(FsyncDirty(s)) && Clean(FsyncDirty(s))
  {
    hide On, Legal, Holds, Hosted, Mirrors, Backed, Sound, Safe, Committed, SwapOn, IndexIn, LocsIn;
    var t := FsyncDirty(s);
    assert Grown(s.files, t.files);
    BackedByFiles(s, t);
    HostedFsync(s.files, t.files, s.dirty, s.view, s.vals);
    HostedMoreDirty(t.files, {}, s.dirty, s.view, s.vals);
    if s.plan.Some? {
      var r := SwapOn(s.view, s.plan.value.from, s.plan.value.to, s.plan.value.entries);
      HostedFsync(s.files, t.files, s.dirty, r, s.vals);
      HostedMoreDirty(t.files, {}, s.dirty, r, s.vals);
    }
  }

  /** What the log means after a Commit: memory's layout, or the compacted one if a plan was staged. */
  lemma {:induction false} BackedByCommit(s: Store, t: Store, e: Entry)
    requires Backed(s) && s.durable <= |s.log| && t.log == s.log + [e] && t.durable == s.durable
    requires t.files == s.files && t.vals == s.vals && Safe(t.files, On(t.log).r, t.vals)
    ensures Backed(t)
  {
    hide Safe, On, Committed;
    assert t.log[..t.durable] == s.log[..s.durable];
    forall c: nat | IsCut(t.log, c) && Committed(t.log[..t.durable]) <= c
      ensures Safe(t.files, On(t.log[..c]).r, t.vals)
    {
      if c <= |s.log| {
        assert t.log[..c] == s.log[..c];
        assert IsCut(s.log, c);
      } else {
        assert t.log[..c] == t.log;
      }
    }
  }

  lemma {:induction false} AppendCommitKeeps(s: Store, lsn: u64)
    requires Inv(s) && Clean(s) && s.nextLsn <= MAX_U64
    requires s.plan.Some? ==> On(s.log).pend.Some?
    ensures Inv(AppendCommit(s, lsn)) && Clean(AppendCommit(s, lsn))
  {
    hide On, Legal, Holds, Hosted, Mirrors, Backed, Sound, Safe, Committed, SwapOn, IndexIn, LocsIn;
    var t := AppendCommit(s, lsn);
    var e := Entry(s.nextLsn, Commit(lsn));
    AppendLegal(s, e);
    HostedClean(s.files, On(t.log).r, s.vals);
    BackedByCommit(s, t, e);
    assert t.log[..t.durable] == s.log[..s.durable];
  }

  lemma {:induction false} CommittedMonotone(log: seq<Entry>, m: nat, n: nat)
    requires m <= n <= |log|
    ensures Committed(log[..m]) <= Committed(log[..n])
    decreases n
  {
    if m < n {
      assert log[..n][..n - 1] == log[..n - 1];
      CommittedMonotone(log, m, n - 1);
    }
  }

  lemma {:induction false} WriteWalKeeps(s: Store)
    requires Inv(s)
    ensures Inv(WriteWal(s)) && (Clean(s) ==> Clean(WriteWal(s)))
  {
    hide Hosted, Mirrors, Backed, Sound, Safe, Committed, SwapOn, On, Legal;
    SameFilesGrown(s.files);
    BackedByFiles(s, WriteWal(s));
  }

  lemma {:induction false} FsyncWalKeeps(s: Store)
    requires Inv(s)
    ensures Inv(FsyncWal(s)) && (Clean(s) ==> Clean(FsyncWal(s)))
  {
    hide Hosted, Mirrors, Sound, Safe, Committed, SwapOn, On, Legal;
    CommittedMonotone(s.log, s.durable, s.written);
  }

  lemma {:induction false} FinishCommitKeeps(s: Store)
    requires Inv(s) && Clean(s) && s.durable == |s.log| && Committed(s.log) == |s.log|
    ensures Inv(FinishCommit(s))
  {
    hide Hosted, Mirrors, Sound, Safe, Committed, SwapOn, On, Legal, Backed;
    assert s.log[..s.durable] == s.log;
    SameFilesGrown(s.files);
    BackedByFiles(s, FinishCommit(s));
  }

  /** A whole commit. */
  function CommitAll(s: Store, lsn: u64): Store
    requires s.nextLsn <= MAX_U64
  {
    FinishCommit(FsyncWal(WriteWal(AppendCommit(FsyncDirty(s), lsn))))
  }

  lemma {:induction false} CommitKeeps(s: Store, lsn: u64)
    requires Inv(s) && s.nextLsn <= MAX_U64 && (s.plan.Some? ==> On(s.log).pend.Some?)
    ensures Inv(CommitAll(s, lsn)) && CommitAll(s, lsn).acked == |CommitAll(s, lsn).log| > 0
  {
    hide Inv, Clean, On, Fsynced;
    var s1 := FsyncDirty(s);
    FsyncDirtyKeeps(s);
    AppendCommitKeeps(s1, lsn);
    var s2 := AppendCommit(s1, lsn);
    WriteWalKeeps(s2);
    FsyncWalKeeps(WriteWal(s2));
    assert s2.log[|s2.log| - 1].rec.Commit?;
    FinishCommitKeeps(FsyncWal(WriteWal(s2)));
  }

  // ----- compacting

  lemma {:induction false} FlattenSnoc(chunks: seq<seq<RemapEntry>>)
    requires |chunks| > 0
    ensures RecordCodec.Flatten(chunks) == RecordCodec.Flatten(chunks[..|chunks| - 1]) + chunks[|chunks| - 1]
  {
  }

  /** The logged batch means a pending compaction with all the entries. */
  lemma {:induction false} StageLog(log: seq<Entry>, lsn: nat, from: nat, to: nat, chunks: seq<seq<RemapEntry>>)
    requires Legal(log) && On(log).pend.None? && On(log).lastLsn < lsn && lsn + |chunks| < MAX_U64 && from <= MAX_U64
    requires from in On(log).r.sealed && On(log).bound <= to < MAX_U64
    requires EntriesFit(On(log).r, from, RecordCodec.Flatten(chunks), 0)
    ensures var l := log + ([Entry(lsn, SegmentSwap(from, to))] + RemapRecords(lsn + 1, to, chunks));
      && Legal(l)
      && On(l) == Live(On(log).r, Some(Pending(from, to, RecordCodec.Flatten(chunks))), lsn + |chunks|, to + 1)
  {
    hide On, Legal, EntriesFit;
    var swap := Entry(lsn, SegmentSwap(from, to));
    if |chunks| == 0 {
      assert [swap] + RemapRecords(lsn + 1, to, chunks) == [swap];
      LegalAppend(log, swap);
      OnAppend(log, swap);
    } else {
      var n := |chunks| - 1;
      var before := log + ([swap] + RemapRecords(lsn + 1, to, chunks[..n]));
      var e := Entry(lsn + 1 + n, SegmentRemap(to, chunks[n]));
      FlattenSnoc(chunks);
      var all, part := RecordCodec.Flatten(chunks), RecordCodec.Flatten(chunks[..n]);
      assert all[..|part|] == part;
      EntriesFitPrefix(On(log).r, from, all, |part|);
      StageLog(log, lsn, from, to, chunks[..n]);
      assert log + ([swap] + RemapRecords(lsn + 1, to, chunks)) == before + [e];
      LegalAppend(before, e);
      OnAppend(before, e);
    }
  }

  lemma {:induction false} RemapsAreRemaps(lsn: nat, to: nat, chunks: seq<seq<RemapEntry>>)
    requires lsn + |chunks| <= MAX_U64 && to <= MAX_U64
    ensures forall i :: 0 <= i < |RemapRecords(lsn, to, chunks)| ==> RemapRecords(lsn, to, chunks)[i].rec.SegmentRemap?
  {
    if |chunks| > 0 { RemapsAreRemaps(lsn, to, chunks[..|chunks| - 1]); }
  }

  lemma {:induction false} PlanFits(m: Memory, r: Layout, from: nat, horizon: nat, es: seq<RemapEntry>, n: nat)
    requires PlanFor(m, from, horizon, es) && Mirrors(m, r) && n <= |es|
    ensures EntriesFit(r, from, es[..n], 0)
  {
    if n > 0 {
      PlanFits(m, r, from, horizon, es, n - 1);
      assert es[..n][..n - 1] == es[..n - 1];
      assert Kept(m, from, horizon, es[n - 1].lsn);
    }
  }

  lemma {:induction false} PlanCovers(m: Memory, r: Layout, from: nat, to: nat, horizon: nat, es: seq<RemapEntry>)
    requires PlanFor(m, from, horizon, es) && Mirrors(m, r) && IndexIn(r)
    ensures Covers(r, Pending(from, to, es))
  {
    forall k | k in r.index && r.index[k].seg == from ensures Moved(es, k, r.index[k].lsn).Some? {
      var l := r.index[k].lsn;
      assert m.index[k].lsn == l && IsLive(m, from, l);
      assert Kept(m, from, horizon, l);
      var i :| 0 <= i < |es| && es[i].lsn == l;
      MovedAt(es, k, l);
    }
  }

  lemma {:induction false} CopiedLength(old_: seq<byte>, locs: map<nat, PutLoc>, es: seq<RemapEntry>)
    requires forall i :: 0 <= i < |es| ==> es[i].lsn in locs && locs[es[i].lsn].off + es[i].len <= |old_|
    ensures |Copied(old_, locs, es)| == Total(es)
  {
    if |es| > 0 { CopiedLength(old_, locs, es[..|es| - 1]); }
  }

  lemma {:induction false} CopiedAt(old_: seq<byte>, locs: map<nat, PutLoc>, es: seq<RemapEntry>, i: nat)
    requires forall i :: 0 <= i < |es| ==> es[i].lsn in locs && locs[es[i].lsn].off + es[i].len <= |old_|
    requires i < |es|
    ensures var e := es[i];
      && Total(es[..i]) + e.len <= |Copied(old_, locs, es)|
      && Copied(old_, locs, es)[Total(es[..i])..Total(es[..i]) + e.len] ==
           old_[locs[e.lsn].off..locs[e.lsn].off + e.len]
  {
    var n := |es| - 1;
    var before := es[..n];
    CopiedLength(old_, locs, before);
    if i == n {
      assert es[..i] == before;
    } else {
      CopiedAt(old_, locs, before, i);
      assert before[..i] == es[..i];
    }
  }

  /** A file next to the ones a layout uses does not disturb it. */
  lemma {:induction false} HostedBeside(fs: Files, dirty: set<nat>, r: Layout, vals: Values, id: nat, f: File)
    requires Hosted(fs, dirty, r, vals) && id !in fs && id !in LiveSegs(r)
    ensures Hosted(fs[id := f], dirty, r, vals) && Grown(fs, fs[id := f])
  {
    hide Holds;
    var fs' := fs[id := f];
    assert Grown(fs, fs');
    SafeGrown(fs, fs', r, vals);
  }

  /** The copy has every entry's value at the entry's offset. */
  ghost predicate CopyOk(copy: seq<byte>, es: seq<RemapEntry>, vals: Values) {
    forall i :: 0 <= i < |es| ==>
      && es[i].lsn in vals && es[i].offset + es[i].len <= |copy|
      && copy[es[i].offset..es[i].offset + es[i].len] == vals[es[i].lsn]
  }

  lemma {:induction false} CopyInPlace(fs: Files, to: nat, copy: seq<byte>, es: seq<RemapEntry>, vals: Values, i: nat)
    requires CopyOk(copy, es, vals) && i < |es| && to in fs && fs[to].content == copy
    ensures InPlace(fs, PutLoc(es[i].key, to, es[i].offset, es[i].len), vals[es[i].lsn])
  {
  }

  lemma {:induction false} HoldsSwap(fs: Files, r: Layout, vals: Values, p: Pending, copy: seq<byte>)
    requires Holds(fs, r, vals) && p.to !in fs && EntriesFit(r, p.from, p.entries, 0) && CopyOk(copy, p.entries, vals)
    requires forall l :: l in r.locs ==> r.locs[l].seg != p.to
    ensures Holds(fs[p.to := File(copy, |copy|)], SwapOn(r, p.from, p.to, p.entries), vals)
  {
    EntriesFacts(r, p.from, p.entries);
    MoveLocsAt(r.locs, p.entries, p.to);
    var fs', r' := fs[p.to := File(copy, |copy|)], SwapOn(r, p.from, p.to, p.entries);
    SafeGrown(fs, fs', r, vals);
    hide EntriesFit, InPlace, CopyOk, MoveLocs;
    forall l | l in r'.locs && r'.locs[l].seg in LiveSegs(r') ensures l in vals && InPlace(fs', r'.locs[l], vals[l]) {
      if i :| 0 <= i < |p.entries| && p.entries[i].lsn == l {
        CopyInPlace(fs', p.to, copy, p.entries, vals, i);
        CopyHasValue(copy, p.entries, vals, i);
      } else {
        assert r'.locs[l] == r.locs[l];
      }
    }
  }

  lemma {:induction false} CopyHasValue(copy: seq<byte>, es: seq<RemapEntry>, vals: Values, i: nat)
    requires CopyOk(copy, es, vals) && i < |es|
    ensures es[i].lsn in vals
  {
  }

  /** After a swap, every put in a current segment is in the new one or where it was. */
  lemma {:induction false} SwapKeepsPlace(r: Layout, p: Pending, l: nat)
    requires EntriesFit(r, p.from, p.entries, 0) && p.from != r.active
    requires var r' := SwapOn(r, p.from, p.to, p.entries);
      l in r'.locs && r'.locs[l].seg in LiveSegs(r') && r'.locs[l].seg != p.to
    ensures l in r.locs && r.locs[l] == SwapOn(r, p.from, p.to, p.entries).locs[l] && r.locs[l].seg in LiveSegs(r)
  {
    hide MoveLocs, MoveIndex, Extent, EntriesFit, FindLsn;
    MoveLocsFind(r.locs, p.entries, p.to, l);
  }

  lemma {:induction false} HostedSwap(fs: Files, dirty: set<nat>, s: Live, vals: Values, p: Pending, copy: seq<byte>)
    requires Sound(s) && Hosted(fs, dirty, s.r, vals) && p.from in s.r.sealed
    requires p.to !in fs && p.to !in s.r.lens && p.to !in dirty
    requires EntriesFit(s.r, p.from, p.entries, 0) && |copy| == Total(p.entries)
    requires Holds(fs[p.to := File(copy, |copy|)], SwapOn(s.r, p.from, p.to, p.entries), vals)
    ensures Hosted(fs[p.to := File(copy, |copy|)], dirty, SwapOn(s.r, p.from, p.to, p.entries), vals)
  {
    hide Holds, IndexIn, LocsIn, EntriesFit, MoveIndex, MoveLocs;
    EntriesFacts(s.r, p.from, p.entries);
    var fs', r' := fs[p.to := File(copy, |copy|)], SwapOn(s.r, p.from, p.to, p.entries);
    forall l | l in r'.locs && r'.locs[l].seg in LiveSegs(r') ensures r'.locs[l].seg in fs' {
      if r'.locs[l].seg != p.to { SwapKeepsPlace(s.r, p, l); }
    }
  }

  lemma {:induction false} SourceRead(fs: Files, dirty: set<nat>, r: Layout, vals: Values, l: nat)
    requires Hosted(fs, dirty, r, vals) && LocsIn(r) && l in r.locs && r.locs[l].seg in LiveSegs(r)
    ensures var p := r.locs[l];
      && p.seg in fs && p.off + p.len <= |fs[p.seg].content|
      && l in vals && fs[p.seg].content[p.off..p.off + p.len] == vals[l]
  {
    assert InPlace(fs, r.locs[l], vals[l]);
  }

  lemma {:induction false} PlanSources(s: Store, from: nat, horizon: nat, es: seq<RemapEntry>, i: nat)
    requires Hosted(s.files, s.dirty, s.view, s.vals) && Mirrors(s.mem, s.view) && PlanFor(s.mem, from, horizon, es)
    requires from in s.files && LocsIn(s.view) && i < |es|
    ensures var l := es[i].lsn;
      && l in s.mem.locs && s.mem.locs[l].off + es[i].len <= |s.files[from].content|
      && l in s.vals && s.files[from].content[s.mem.locs[l].off..s.mem.locs[l].off + es[i].len] == s.vals[l]
      && es[i].offset == Total(es[..i])
  {
    hide Hosted, LocsIn, Total;
    assert Kept(s.mem, from, horizon, es[i].lsn);
    SourceRead(s.files, s.dirty, s.view, s.vals, es[i].lsn);
  }

  /** Copying out of a file that holds the old layout yields the values themselves. */
  lemma {:induction false} CopyIsOk(s: Store, from: nat, horizon: nat, es: seq<RemapEntry>)
    requires Hosted(s.files, s.dirty, s.view, s.vals) && Mirrors(s.mem, s.view) && PlanFor(s.mem, from, horizon, es)
    requires from in s.files && LocsIn(s.view)
    ensures SourcesIn(s, from, es)
    ensures CopyOk(Copied(s.files[from].content, s.mem.locs, es), es, s.vals)
  {
    hide Hosted, Copied, LocsIn, Mirrors, PlanFor, Total;
    var old_ := s.files[from].content;
    forall i | 0 <= i < |es| ensures es[i].lsn in s.mem.locs && s.mem.locs[es[i].lsn].off + es[i].len <= |old_| {
      PlanSources(s, from, horizon, es, i);
    }
    forall i | 0 <= i < |es|
      ensures es[i].lsn in s.vals && es[i].offset + es[i].len <= |Copied(old_, s.mem.locs, es)|
      ensures Copied(old_, s.mem.locs, es)[es[i].offset..es[i].offset + es[i].len] == s.vals[es[i].lsn]
    {
      PlanSources(s, from, horizon, es, i);
      CopiedAt(old_, s.mem.locs, es, i);
    }
  }

  /** What a compaction needs: a plan for a sealed segment whose file is there. */
  ghost predicate CanCompact(s: Store, from: nat, horizon: nat, chunks: seq<seq<RemapEntry>>) {
    && s.plan.None? && s.nextLsn + |chunks| < MAX_U64 && s.nextFree < MAX_U64 && from <= MAX_U64 && from in s.files
    && PlanFor(s.mem, from, horizon, RecordCodec.Flatten(chunks))
  }

  /** The replacement file next to the old ones carries both the layout before and the one after. */
  lemma {:induction false} StageFiles(s: Store, live: Live, from: nat, horizon: nat, es: seq<RemapEntry>)
    requires Sound(live) && s.view == live.r && live.bound <= s.nextFree && s.nextFree !in s.files
    requires s.nextFree !in s.dirty
    requires Hosted(s.files, s.dirty, s.view, s.vals) && Mirrors(s.mem, s.view) && PlanFor(s.mem, from, horizon, es)
    requires from in s.files
    ensures SourcesIn(s, from, es)
    ensures var copy := Copied(s.files[from].content, s.mem.locs, es);
      var fs' := s.files[s.nextFree := File(copy, |copy|)];
      && Grown(s.files, fs') && Hosted(fs', s.dirty, s.view, s.vals)
      && Hosted(fs', s.dirty, SwapOn(s.view, from, s.nextFree, es), s.vals)
    ensures EntriesFit(s.view, from, es, 0) && Covers(s.view, Pending(from, s.nextFree, es)) && from in s.view.sealed
  {
    hide Hosted, Sound, SwapOn, EntriesFit, CopyOk, IndexIn, LocsIn, Copied, Covers, Grown, Holds;
    SoundFacts(live);
    CopyIsOk(s, from, horizon, es);
    PlanCovers(s.mem, s.view, from, s.nextFree, horizon, es);
    PlanFits(s.mem, s.view, from, horizon, es, |es|);
    assert es[..|es|] == es;
    MirrorsActive(s.mem, s.view);
    var copy, p := Copied(s.files[from].content, s.mem.locs, es), Pending(from, s.nextFree, es);
    hide Mirrors, PlanFor;
    CopiedLength(s.files[from].content, s.mem.locs, es);
    HostedHolds(s.files, s.dirty, s.view, s.vals);
    HoldsSwap(s.files, s.view, s.vals, p, copy);
    HostedSwap(s.files, s.dirty, live, s.vals, p, copy);
    HostedBeside(s.files, s.dirty, s.view, s.vals, s.nextFree, File(copy, |copy|));
  }

  lemma {:induction false} CompactStageKeeps(s: Store, from: nat, horizon: nat, chunks: seq<seq<RemapEntry>>)
    requires Inv(s) && CanCompact(s, from, horizon, chunks)
    ensures SourcesIn(s, from, RecordCodec.Flatten(chunks))
    ensures Inv(CompactStage(s, from, chunks)) && On(CompactStage(s, from, chunks).log).pend.Some?
  {
    hide RemapRecords, IndexIn, LocsIn, On, Legal, Holds, Hosted, Mirrors, Backed, Sound, Safe, Committed, SwapOn;
    hide EntriesFit, Copied, FilesOk, PlanFor, Covers, Grown;
    var es, to, live := RecordCodec.Flatten(chunks), s.nextFree, On(s.log);
    OnSound(s.log);
    SoundFacts(live);
    StageFiles(s, live, from, horizon, es);
    StageLog(s.log, s.nextLsn, from, to, chunks);
    RemapsAreRemaps(s.nextLsn + 1, to, chunks);
    var t := CompactStage(s, from, chunks);
    BackedByAppends(s, t, [Entry(s.nextLsn, SegmentSwap(from, to))] + RemapRecords(s.nextLsn + 1, to, chunks));
    assert t.log[..t.durable] == s.log[..s.durable];
    FilesOkBeside(s.files, to, t.files[to]);
  }

  lemma {:induction false} FilesOkBeside(fs: Files, id: nat, f: File)
    requires FilesOk(fs) && f.durable <= |f.content|
    ensures FilesOk(fs[id := f])
  {
  }

  lemma {:induction false} HostedHolds(fs: Files, dirty: set<nat>, r: Layout, vals: Values)
    requires Hosted(fs, dirty, r, vals)
    ensures Holds(fs, r, vals)
  {
  }

  lemma {:induction false} SoundFacts(s: Live)
    requires Sound(s)
    ensures IndexIn(s.r) && LocsIn(s.r) && s.r.active !in s.r.sealed
    ensures forall id :: id in s.r.lens ==> id < s.bound
    ensures LiveSegs(s.r) <= s.r.lens.Keys
    ensures forall l :: l in s.r.locs ==> s.r.locs[l].seg in s.r.lens
    ensures forall id :: id in s.r.lens && id !in LiveSegs(s.r) ==> s.r.lens[id] == 0
  {
  }

  lemma {:induction false} SwapMemoryLocs(m: Memory, r: Layout, p: Pending, l: nat)
    requires Mirrors(m, r) && EntriesFit(r, p.from, p.entries, 0) && forall l :: l in r.locs ==> r.locs[l].seg != p.to
    ensures var m', r' := SwapMemory(m, p), SwapOn(r, p.from, p.to, p.entries);
      && (l in m'.locs ==> l in r'.locs && m'.locs[l] == r'.locs[l])
      && (l in r'.locs && r'.locs[l].seg in LiveSegs(r') && p.from != r.active && p.from != p.to ==> l in m'.locs)
  {
    hide EntriesFit, MoveIndex, MoveLocs, Moved, FindLsn;
    MoveLocsFind(r.locs, p.entries, p.to, l);
    MoveLocsFind(m.locs, p.entries, p.to, l);
    FindLsnAt(p.entries, l);
    EntriesFacts(r, p.from, p.entries);
    if i :| 0 <= i < |p.entries| && p.entries[i].lsn == l {
      assert l in EntryLsns(p.entries);
    }
  }

  lemma {:induction false} MirrorsSwap(m: Memory, r: Layout, p: Pending)
    requires Mirrors(m, r) && EntriesFit(r, p.from, p.entries, 0) && p.from != r.active && p.from != p.to
    requires forall l :: l in r.locs ==> r.locs[l].seg != p.to
    ensures Mirrors(SwapMemory(m, p), SwapOn(r, p.from, p.to, p.entries))
  {
    hide EntriesFit, MoveIndex, MoveLocs, Moved;
    var m', r' := SwapMemory(m, p), SwapOn(r, p.from, p.to, p.entries);
    forall l ensures l in m'.locs ==> l in r'.locs && m'.locs[l] == r'.locs[l] { SwapMemoryLocs(m, r, p, l); }
    forall l ensures l in r'.locs && r'.locs[l].seg in LiveSegs(r') ==> l in m'.locs { SwapMemoryLocs(m, r, p, l); }
  }

  /** Removing a file no current segment uses. */
  lemma {:induction false} HostedWithout(fs: Files, dirty: set<nat>, r: Layout, vals: Values, id: nat)
    requires Hosted(fs, dirty, r, vals) && id !in LiveSegs(r)
    ensures Hosted(fs - {id}, dirty, r, vals)
  {
    hide Holds;
    assert Holds(fs - {id}, r, vals) by { HoldsWithout(fs, r, vals, id); }
  }

  lemma {:induction false} HoldsWithout(fs: Files, r: Layout, vals: Values, id: nat)
    requires Holds(fs, r, vals) && id !in LiveSegs(r)
    ensures Holds(fs - {id}, r, vals)
  {
  }

  lemma {:induction false} SafeWithout(fs: Files, r: Layout, vals: Values, id: nat)
    requires Safe(fs, r, vals) && id !in LiveSegs(r)
    ensures Safe(fs - {id}, r, vals)
  {
    HoldsWithout(fs, r, vals, id);
    hide Holds;
  }

  /** The old file may go once the commit that covers the swap is durable: that commit is then the only cut. */
  lemma {:induction false} CompactCommitKeeps(s: Store)
    requires Inv(s) && s.plan.Some? && s.durable == |s.log| && Committed(s.log) == |s.log|
    ensures Inv(CompactCommit(s))
  {
    hide On, Legal, Holds, Hosted, Mirrors, Sound, Safe, SwapOn, EntriesFit, FilesOk, Covers, SwapMemory, IndexIn;
    hide LocsIn;
    var p, t := s.plan.value, CompactCommit(s);
    assert s.log[..s.durable] == s.log && t.log[..t.durable] == s.log;
    CommittedIsClosed(s.log);
    MirrorsSwap(s.mem, s.view, p);
    SwapSegs(s.view, p);
    HostedWithout(s.files, s.dirty, t.view, s.vals, p.from);
    FilesOkWithout(s.files, p.from);
    assert Backed(t) by {
      assert IsCut(s.log, |s.log|);
      SafeWithout(s.files, t.view, s.vals, p.from);
      assert s.log[..|s.log|] == s.log;
    }
  }

  lemma {:induction false} FilesOkWithout(fs: Files, id: nat)
    requires FilesOk(fs)
    ensures FilesOk(fs - {id})
  {
  }

  lemma {:induction false} SwapSegs(r: Layout, p: Pending)
    requires p.from in r.sealed && p.from != r.active && p.to !in r.lens && p.from in r.lens
    ensures p.from !in LiveSegs(SwapOn(r, p.from, p.to, p.entries))
    ensures SwapOn(r, p.from, p.to, p.entries).active == r.active && SwapOn(r, p.from, p.to, p.entries).off == r.off
  {
  }

  /** A log that ends in a Commit has no compaction pending. */
  lemma {:induction false} CommittedIsClosed(log: seq<Entry>)
    requires Committed(log) == |log|
    ensures On(log).pend.None?
  {
    hide Committed;
    if |log| > 0 {
      CommittedEnds(log);
    }
  }

  lemma {:induction false} CommittedEnds(log: seq<Entry>)
    requires Committed(log) == |log| > 0
    ensures log[|log| - 1].rec.Commit?
  {
  }
}
