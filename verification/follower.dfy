/** A follower: it applies the leader's records in order, rebuilds compacted segments from its own
    copies, and makes everything durable at sync barriers. */
module Follower {
  import opened Bytes
  import opened Records
  import opened Wal
  import opened LogModel
  import opened Disk
  import Leader
  import opened CrashSafety
  import Recovery
  import Rollups

  /** A compaction being rebuilt: the file under its temporary name, and the entries copied so far. */
  datatype Swap = Swap(lsn: nat, from: nat, to: nat, copy: seq<byte>, entries: seq<RemapEntry>)

  datatype Replica = Replica(
    log: seq<Entry>, written: nat, durable: nat,
    files: Files, dirty: set<nat>, open: set<nat>,
    /** The index, put locations, open and sealed segments; `lens` is for specification. */
    view: Layout,
    swap: Option<Swap>,
    /** Replaced segments not yet deleted, with the LSN of the record that replaced them. */
    retired: seq<(nat, nat)>,
    /** The LSN of the last Commit applied. */
    lastCommit: nat,
    /** The per-prefix counters. */
    tally: Rollups.Tally)

  // ----- steps

  /** The rebuilt file is fsynced and renamed into place, and memory is repointed at it. The old file stays. */
  function Finalize(f: Replica): Replica {
    if f.swap.None? then f
    else
      var q := f.swap.value;
      f.(files := f.files[q.to := File(q.copy, |q.copy|)],
         view := SwapOn(f.view, q.from, q.to, q.entries),
         open := f.open - {q.from} + {q.to},
         retired := f.retired + [(q.lsn, q.from)],
         swap := None)
  }

  function Append(f: Replica, e: Entry): Replica {
    f.(log := f.log + [e])
  }

  /** A put is refused without its value, or with one of the wrong length. */
  function ApplyPut(f: Replica, e: Entry, data: Option<seq<byte>>): Option<Replica>
    requires e.rec.Put?
  {
    if data.None? || |data.value| != e.rec.len then None
    else
      var id := f.view.active;
      Some(Append(f, e).(files := f.files[id := Leader.WriteAt(Leader.Opened(f.files, id), f.view.off, data.value)],
                         open := f.open + {id}, dirty := f.dirty + {id},
                         view := PutOn(f.view, e.rec.key, e.rec.len, e.lsn),
                         tally := Rollups.Recorded(f.tally, e.rec.key, e.rec.len)))
  }

  function ApplySeal(f: Replica, e: Entry): Option<Replica>
    requires e.rec.SegmentSeal?
  {
    if e.rec.segmentId != f.view.active then None
    else Some(Append(f, e).(view := SealOn(f.view, e.rec.nextSegmentId)))
  }

  /** A compaction still being rebuilt is finalized before the next one starts. */
  function ApplySwap(f: Replica, e: Entry): Replica
    requires e.rec.SegmentSwap?
  {
    Append(Finalize(f), e).(swap := Some(Swap(e.lsn, e.rec.oldSegmentId, e.rec.newSegmentId, [], [])))
  }

  /** One entry: the value is read from the old segment and written into the new one. */
  function CopyEntry(f: Replica, q: Swap, e: RemapEntry): Option<Swap> {
    if e.lsn !in f.view.locs then None
    else
      var l := f.view.locs[e.lsn];
      if l.seg != q.from || l.len != e.len then None
      else if l.seg !in f.open || l.seg !in f.files || l.off + l.len > |f.files[l.seg].content| then None
      else Some(q.(copy := Leader.WriteAt(File(q.copy, 0), e.offset,
        f.files[l.seg].content[l.off..l.off + l.len]).content,
                   entries := q.entries + [e]))
  }

  function CopyEntries(f: Replica, q: Swap, es: seq<RemapEntry>): Option<Swap> {
    if |es| == 0 then Some(q)
    else
      var before := CopyEntries(f, q, es[..|es| - 1]);
      if before.None? then None else CopyEntry(f, before.value, es[|es| - 1])
  }

  function ApplyRemap(f: Replica, e: Entry): Option<Replica>
    requires e.rec.SegmentRemap?
  {
    if f.swap.None? || f.swap.value.to != e.rec.targetId then None
    else
      var q := CopyEntries(f, f.swap.value, e.rec.entries);
      if q.None? then None else Some(Append(f, e).(swap := q))
  }

  /** One record of the leader; None where it is refused as corrupt. */
  function Apply(f: Replica, e: Entry, data: Option<seq<byte>>): Option<Replica> {
    match e.rec
    case Put(_, _, _) => ApplyPut(f, e, data)
    case SegmentSeal(_, _) => ApplySeal(f, e)
    case AggDelta(_) => Some(Append(f, e))
    case SegmentSwap(_, _) => Some(ApplySwap(f, e))
    case SegmentRemap(_, _) => ApplyRemap(f, e)
    case Commit(_) => Some(Append(f, e).(lastCommit := if e.lsn > f.lastCommit then e.lsn else f.lastCommit))
  }

  /** An entry of a remap that cannot be copied: its put is unknown, elsewhere, of another length, or out of reach. */
  ghost predicate Stray(f: Replica, from: nat, e: RemapEntry) {
    || e.lsn !in f.view.locs || f.view.locs[e.lsn].seg != from || f.view.locs[e.lsn].len != e.len
    || from !in f.open || from !in f.files || f.view.locs[e.lsn].off + e.len > |f.files[from].content|
  }

  lemma {:induction false} CopyFails(f: Replica, q: Swap, es: seq<RemapEntry>)
    ensures CopyEntries(f, q, es).None? <==> exists i :: 0 <= i < |es| && Stray(f, q.from, es[i])
    ensures CopyEntries(f, q, es).Some? ==> CopyEntries(f, q, es).value.from == q.from
  {
    hide Leader.WriteAt;
    if |es| > 0 {
      var n := |es| - 1;
      CopyFails(f, q, es[..n]);
      if i :| 0 <= i < |es[..n]| && Stray(f, q.from, es[..n][i]) { assert Stray(f, q.from, es[i]); }
      if i :| 0 <= i < |es| && Stray(f, q.from, es[i]) {
        if i < n { assert Stray(f, q.from, es[..n][i]); }
      }
    }
  }

  /** What a follower refuses, exactly: a put without its value or with one of another length, a seal of a
      segment that is not open, and a remap without its swap, of another segment, or with an entry that cannot
      be copied. */
  lemma {:induction false} RefusesExactly(f: Replica, e: Entry, data: Option<seq<byte>>)
    ensures Apply(f, e, data).None? <==>
      match e.rec
      case Put(_, len, _) => data.None? || |data.value| != len
      case SegmentSeal(id, _) => id != f.view.active
      case SegmentRemap(target, es) =>
        f.swap.None? || f.swap.value.to != target || exists i :: 0 <= i < |es| && Stray(f, f.swap.value.from, es[i])
      case _ => false
  {
    hide CopyEntries, Stray, Finalize;
    if e.rec.SegmentRemap? && f.swap.Some? { CopyFails(f, f.swap.value, e.rec.entries); }
  }

  function FsyncOpen(f: Replica): Replica {
    f.(files := Fsynced(f.files, f.dirty * f.open))
  }

  function WriteWal(f: Replica): Replica {
    f.(written := |f.log|)
  }

  function FsyncWal(f: Replica): Replica {
    f.(durable := f.written)
  }

  /** A replaced segment is deleted if the last Commit is past the swap. */
  function RemoveRetired(f: Replica, i: nat): Replica
    requires i < |f.retired|
  {
    if f.retired[i].0 <= f.lastCommit then f.(files := f.files - {f.retired[i].1}) else f
  }

  function Covered(retired: seq<(nat, nat)>, lastCommit: nat): seq<(nat, nat)> {
    if |retired| == 0 then []
    else
      var rest := Covered(retired[..|retired| - 1], lastCommit);
      if retired[|retired| - 1].0 <= lastCommit then rest else rest + [retired[|retired| - 1]]
  }

  function EndSync(f: Replica): Replica {
    f.(dirty := {}, retired := Covered(f.retired, f.lastCommit))
  }

  /** The LSN of the last Commit of a log. */
  function CommitBlock(log: seq<Entry>): nat {
    if Committed(log) == 0 then 0 else log[Committed(log) - 1].lsn
  }

  /** The follower as recovery builds it. */
  function ReopenedReplica(f: Replica, n: nat, image: Files): Replica
    requires n <= |f.log|
  {
    var p := Surviving(f.log, n);
    var r := Recovery.Recovered(p);
    Replica(p, |p|, |p|, Repaired(image, r), {}, r.lens.Keys, r, None, [], CommitBlock(p), Rollups.RollupOf(p))
  }

  // ----- invariant

  /** The disk as the next barrier will leave it: the rebuilt file in place, dirty open segments fsynced. */
  function Settled(f: Replica): Files {
    var fs := Fsynced(f.files, f.dirty * f.open);
    if f.swap.None? then fs else fs[f.swap.value.to := File(f.swap.value.copy, |f.swap.value.copy|)]
  }

  /** How memory's layout relates to what the log means: a compaction takes effect in the log with its
      Commit, in memory when it is finalized, and puts and seals may come in between. */
  ghost predicate InStep(f: Replica) {
    var s := On(f.log);
    match f.swap
    case None =>
      (match s.pend
       case None => f.view == s.r
       case Some(p) => f.view == SwapOn(s.r, p.from, p.to, p.entries))
    case Some(q) =>
      && q.from != f.view.active && q.to != f.view.active && q.from < s.bound && q.to < s.bound
      && q.to !in f.view.lens && q.from in f.view.lens
      && (forall i :: 0 <= i < |q.entries| ==> q.entries[i].lsn <= s.lastLsn)
      && match s.pend
         case Some(p) => p == Pending(q.from, q.to, q.entries) && f.view == s.r
         case None => s.r == SwapOn(f.view, q.from, q.to, q.entries)
  }

  /** The rebuilt file has the values of the entries that arrived. */
  ghost predicate Rebuilt(fs: Files, s: Live, vals: Values) {
    s.pend.Some? ==>
      var p := s.pend.value;
      && p.to in fs && fs[p.to].durable == |fs[p.to].content| == Total(p.entries)
      && Leader.CopyOk(fs[p.to].content, p.entries, vals)
  }

  /** Files the log has never mentioned are empty. */
  ghost predicate OrphansEmpty(fs: Files, s: Live) {
    forall id :: id in fs && id >= s.bound ==> fs[id].content == []
  }

  /** Current segments with a put in them are open. */
  ghost predicate HandlesOpen(f: Replica) {
    forall l :: l in f.view.locs ==>
      f.view.locs[l].seg < On(f.log).bound && (f.view.locs[l].seg in LiveSegs(f.view) ==> f.view.locs[l].seg in f.open)
  }

  /** A file already under the replacement's name is empty. */
  ghost predicate SwapOrphan(f: Replica) {
    f.swap.Some? && f.swap.value.to in f.files ==> f.files[f.swap.value.to].content == []
  }

  /** Wherever a crash may cut the log file, the disk is safe for what remains; and it will be for
      everything applied so far, once the barrier is through. */
  ghost predicate Backed(f: Replica, vals: Values) {
    forall c: nat :: Leader.IsCut(f.log, c) && f.durable <= |f.log| && Committed(f.log[..f.durable]) <= c ==>
      && Safe(Settled(f), On(f.log[..c]).r, vals)
      && (c <= f.written ==> Safe(f.files, On(f.log[..c]).r, vals))
  }

  /** A retired segment was replaced by a record of the log. */
  ghost predicate SwapIn(log: seq<Entry>, lsn: nat, from: nat) {
    exists i :: 0 <= i < |log| && log[i].lsn == lsn && log[i].rec.SegmentSwap? && log[i].rec.oldSegmentId == from
  }

  ghost predicate RetiredIn(f: Replica) {
    && (forall i :: 0 <= i < |f.retired| ==> SwapIn(f.log, f.retired[i].0, f.retired[i].1))
    && (f.swap.Some? ==> SwapIn(f.log, f.swap.value.lsn, f.swap.value.from))
  }

  ghost predicate LogOk(f: Replica) {
    Legal(f.log) && f.durable <= f.written <= |f.log| && f.lastCommit == CommitBlock(f.log)
  }

  /** Files carry a layout, fsynced or not: every put is in its place and the open segment ends where the next
      put goes. */
  ghost predicate Carries(fs: Files, r: Layout, vals: Values) {
    Leader.Hosted(fs, LiveSegs(r), r, vals) && Ends(fs, r)
  }

  ghost predicate Ends(fs: Files, r: Layout) {
    r.active in fs ==> |fs[r.active].content| == r.off
  }

  /** The layout the log will mean after its next Commit. */
  function Closing(s: Live): Layout {
    if s.pend.None? then s.r else SwapOn(s.r, s.pend.value.from, s.pend.value.to, s.pend.value.entries)
  }

  /** What holds of a follower in every run: memory, files and counters are those of the log, and the next
      barrier will fsync all that the next Commit needs. */
  ghost predicate Content(f: Replica, vals: Values) {
    && LogOk(f) && f.tally == Rollups.RollupOf(f.log) && InStep(f) && FilesOk(f.files)
    && Carries(Settled(f), On(f.log).r, vals) && Rebuilt(Settled(f), On(f.log), vals)
    && Synced(Settled(f), Closing(On(f.log)))
    && OrphansEmpty(f.files, On(f.log)) && HandlesOpen(f) && SwapOrphan(f) && RetiredIn(f)
  }

  function Need(r: Layout, id: nat): nat {
    if id in r.lens then r.lens[id] else 0
  }

  function DurableLength(fs: Files, id: nat): nat {
    if id in fs then fs[id].durable else 0
  }

  /** No Commit that a crash may still cut back to needs more of the segment than is fsynced. */
  ghost predicate Flushed(f: Replica, id: nat) {
    forall c: nat :: Leader.IsCut(f.log, c) && f.durable <= |f.log| && Committed(f.log[..f.durable]) <= c ==>
      Need(On(f.log[..c]).r, id) <= DurableLength(f.files, id)
  }

  /** Every crash is survived: the disk backs every cut of the log, and will after the pending compaction is
      finalized. */
  ghost predicate Secure(f: Replica, vals: Values) {
    Backed(f, vals) && (f.swap.Some? ==> Flushed(f, f.swap.value.from))
  }

  // ----- what every applied record shares

  lemma {:induction false} BackedAppend(f: Replica, g: Replica, vals: Values, e: Entry)
    requires Backed(f, vals) && f.durable <= f.written <= |f.log| && g.log == f.log + [e] && !e.rec.Commit?
    requires g.durable == f.durable && g.written == f.written && Grown(Settled(f), Settled(g))
    requires Grown(f.files, g.files)
    ensures Backed(g, vals)
  {
    hide Safe, On, Committed, Settled, Grown;
    assert g.log[..g.durable] == f.log[..f.durable];
    forall c: nat | Leader.IsCut(g.log, c) && Committed(g.log[..g.durable]) <= c
      ensures Safe(Settled(g), On(g.log[..c]).r, vals) && (c <= g.written ==> Safe(g.files, On(g.log[..c]).r, vals))
    {
      assert c <= |f.log| && g.log[..c] == f.log[..c];
      assert Leader.IsCut(f.log, c);
      SafeGrown(Settled(f), Settled(g), On(f.log[..c]).r, vals);
      SafeGrown(f.files, g.files, On(f.log[..c]).r, vals);
    }
  }

  /** Records that are not Commits add no cut, so what was flushed enough stays so. */
  lemma {:induction false} FlushedAppend(f: Replica, g: Replica, e: Entry, id: nat)
    requires Flushed(f, id) && f.durable <= |f.log| && g.log == f.log + [e] && !e.rec.Commit?
    requires g.durable == f.durable && DurableLength(g.files, id) >= DurableLength(f.files, id)
    ensures Flushed(g, id)
  {
    hide On, Committed, Need;
    assert g.log[..g.durable] == f.log[..f.durable];
    forall c: nat | Leader.IsCut(g.log, c) && Committed(g.log[..g.durable]) <= c
      ensures Need(On(g.log[..c]).r, id) <= DurableLength(g.files, id)
    {
      assert c <= |f.log| && g.log[..c] == f.log[..c];
      assert Leader.IsCut(f.log, c);
    }
  }

  /** A record that is not a Commit, with files that only grow, keeps a follower secure. */
  lemma {:induction false} SecureAppend(f: Replica, g: Replica, vals: Values, e: Entry)
    requires f.durable <= f.written <= |f.log| && g.log == f.log + [e] && !e.rec.Commit?
    requires g.durable == f.durable && g.written == f.written && Grown(Settled(f), Settled(g))
    requires Grown(f.files, g.files)
    requires g.swap.Some? ==> f.swap.Some? && f.swap.value.from == g.swap.value.from
    ensures Secure(f, vals) ==> Secure(g, vals)
  {
    hide Backed, Flushed, Settled;
    if Secure(f, vals) {
      BackedAppend(f, g, vals, e);
      if g.swap.Some? { FlushedAppend(f, g, e, g.swap.value.from); }
    }
  }

  lemma {:induction false} CountersAppend(f: Replica, g: Replica, e: Entry)
    requires f.tally == Rollups.RollupOf(f.log) && g.log == f.log + [e]
    requires g.tally == if e.rec.Put? then Rollups.Recorded(f.tally, e.rec.key, e.rec.len) else f.tally
    ensures g.tally == Rollups.RollupOf(g.log)
  {
    hide Rollups.Recorded;
    assert g.log[..|f.log|] == f.log;
  }

  /** Carrying a layout says nothing of what is fsynced. */
  lemma {:induction false} HostedCarries(fs: Files, dirty: set<nat>, r: Layout, vals: Values)
    requires Leader.Hosted(fs, dirty, r, vals) && Ends(fs, r)
    ensures Carries(fs, r, vals)
  {
    hide Holds;
  }

  lemma {:induction false} SwapInAppend(log: seq<Entry>, e: Entry, lsn: nat, from: nat)
    requires SwapIn(log, lsn, from)
    ensures SwapIn(log + [e], lsn, from)
  {
    var i :| 0 <= i < |log| && log[i].lsn == lsn && log[i].rec.SegmentSwap? && log[i].rec.oldSegmentId == from;
    assert (log + [e])[i] == log[i];
  }

  lemma {:induction false} RetiredAppend(f: Replica, g: Replica, e: Entry)
    requires RetiredIn(f) && g.log == f.log + [e] && g.retired == f.retired
    requires g.swap == f.swap || (g.swap.Some? && f.swap.Some? && g.swap.value.lsn == f.swap.value.lsn &&
      g.swap.value.from == f.swap.value.from)
    ensures RetiredIn(g)
  {
    hide SwapIn;
    forall i | 0 <= i < |g.retired| ensures SwapIn(g.log, g.retired[i].0, g.retired[i].1) {
      SwapInAppend(f.log, e, f.retired[i].0, f.retired[i].1);
    }
    if f.swap.Some? { SwapInAppend(f.log, e, f.swap.value.lsn, f.swap.value.from); }
  }

  lemma {:induction false} LogOkAppend(f: Replica, g: Replica, e: Entry)
    requires LogOk(f) && Allowed(On(f.log), e) && g.log == f.log + [e] && g.durable == f.durable
    requires g.written == f.written
    requires g.lastCommit == if e.rec.Commit? then e.lsn else f.lastCommit
    ensures LogOk(g) && On(g.log) == After(On(f.log), e)
  {
    hide On, Allowed, Legal, After;
    LegalAppend(f.log, e);
    OnAppend(f.log, e);
    assert g.log[..|f.log|] == f.log;
  }

  lemma {:induction false} StepActive(f: Replica)
    requires InStep(f)
    ensures f.view.active == On(f.log).r.active && f.view.off == On(f.log).r.off
  {
    hide On;
  }

  // ----- puts

  lemma {:induction false} CarriesAppend(fs: Files, s: Live, vals: Values, key: Text, lsn: nat)
    requires Sound(s) && Carries(fs, s.r, vals) && FilesOk(fs) && lsn in vals
    ensures var c := Leader.Opened(fs, s.r.active).content + vals[lsn];
      var fs' := fs[s.r.active := File(c, |c|)];
      && Grown(fs, fs') && Carries(fs', PutOn(s.r, key, |vals[lsn]|, lsn), vals)
  {
    hide IndexIn, LocsIn, EntriesFit, Holds;
    Leader.ActiveEnd(fs, LiveSegs(s.r), s, vals);
    var c := Leader.Opened(fs, s.r.active).content + vals[lsn];
    var fs' := fs[s.r.active := File(c, |c|)];
    assert Grown(fs, fs');
    assert Holds(fs', PutOn(s.r, key, |vals[lsn]|, lsn), vals) by { HoldsAppend(fs, fs', s.r, vals, key, lsn); }
  }

  /** The open segment is fsynced in full once settled. */
  lemma {:induction false} SyncedAppend(fs: Files, r: Layout, key: Text, len: nat, lsn: nat, file: File)
    requires Synced(fs, r) && |file.content| == r.off + len && file.durable == |file.content|
    ensures Synced(fs[r.active := file], PutOn(r, key, len, lsn))
  {
  }

  lemma {:induction false} HoldsAppend(fs: Files, fs': Files, r: Layout, vals: Values, key: Text, lsn: nat)
    requires Holds(fs, r, vals) && Grown(fs, fs') && lsn in vals
    requires r.active in fs' && |fs'[r.active].content| == r.off + |vals[lsn]|
    requires fs'[r.active].content[r.off..] == vals[lsn]
    ensures Holds(fs', PutOn(r, key, |vals[lsn]|, lsn), vals)
  {
    hide InPlace;
    SafeGrown(fs, fs', r, vals);
    LastInPlace(fs', r, key, vals[lsn]);
  }

  lemma {:induction false} LastInPlace(fs: Files, r: Layout, key: Text, value: seq<byte>)
    requires r.active in fs && |fs[r.active].content| == r.off + |value| && fs[r.active].content[r.off..] == value
    ensures InPlace(fs, PutLoc(key, r.active, r.off, |value|), value)
  {
    assert fs[r.active].content[r.off..r.off + |value|] == fs[r.active].content[r.off..];
  }

  lemma {:induction false} FsyncedPut(fs: Files, dirty: set<nat>, open: set<nat>, id: nat, file: File)
    ensures Fsynced(fs[id := file], (dirty + {id}) * (open + {id})) == Fsynced(fs,
      dirty * open)[id := file.(durable := |file.content|)]
  {
  }

  lemma {:induction false} SettledPut(f: Replica, e: Entry, data: seq<byte>)
    requires e.rec.Put? && |data| == e.rec.len && InStep(f) && FilesOk(f.files)
    requires |Leader.Opened(Settled(f), f.view.active).content| == f.view.off
    ensures var g := ApplyPut(f, e, Some(data)).value;
      var c := Leader.Opened(Settled(f), f.view.active).content + data;
      && Settled(g) == Settled(f)[f.view.active := File(c, |c|)]
      && Leader.Opened(f.files, f.view.active).content == Leader.Opened(Settled(f), f.view.active).content
      && g.files[f.view.active].content == c
  {
    hide On, PutOn, SwapOn, Fsynced;
    var id := f.view.active;
    SettledAt(f, id);
    Leader.AppendAtEnd(Leader.Opened(f.files, id), f.view.off, data);
    FsyncedPut(f.files, f.dirty, f.open, id, Leader.WriteAt(Leader.Opened(f.files, id), f.view.off, data));
  }

  /** Settling adds nothing but the rebuilt file, and changes no content. */
  lemma {:induction false} SettledAt(f: Replica, id: nat)
    requires f.swap.Some? ==> f.swap.value.to != id
    ensures id in Settled(f) <==> id in f.files
    ensures id in f.files ==>
      Settled(f)[id].content == f.files[id].content && (id !in f.dirty ==> Settled(f)[id] == f.files[id])
  {
  }

  lemma {:induction false} SettledOk(f: Replica)
    requires FilesOk(f.files)
    ensures FilesOk(Settled(f))
  {
  }

  lemma {:induction false} InStepPut(f: Replica, g: Replica, e: Entry, key: Text, len: nat)
    requires InStep(f) && On(f.log).pend.None?
    requires On(g.log) == On(f.log).(r := PutOn(On(f.log).r, key, len, e.lsn), lastLsn := e.lsn)
    requires g.swap == f.swap && g.view == PutOn(f.view, key, len, e.lsn) && e.lsn > On(f.log).lastLsn
    ensures InStep(g)
  {
    hide On, SwapOn;
    if f.swap.Some? {
      var q := f.swap.value;
      Recovery.PutCommutes(f.view, q.from, q.to, q.entries, key, len, e.lsn);
    }
  }

  lemma {:induction false} ApplyPutKeeps(f: Replica, vals: Values, e: Entry)
    requires Content(f, vals) && Allowed(On(f.log), e) && e.rec.Put? && e.lsn in vals && |vals[e.lsn]| == e.rec.len
    ensures var g := ApplyPut(f, e, Some(vals[e.lsn])).value; Content(g, vals) && (Secure(f, vals) ==> Secure(g, vals))
  {
    hide On, Legal, Carries, Synced, Sound, Settled, Grown, FilesOk, CommitBlock, InStep, RetiredIn, PutOn;
    hide Leader.WriteAt, Leader.Opened, Secure, Rollups.RollupOf, Rollups.Recorded;
    var s, g, data := On(f.log), ApplyPut(f, e, Some(vals[e.lsn])).value, vals[e.lsn];
    OnSound(f.log);
    StepActive(f);
    SettledOk(f);
    CarriesEnd(Settled(f), s, vals);
    SettledPut(f, e, data);
    CarriesAppend(Settled(f), s, vals, e.rec.key, e.lsn);
    LogOkAppend(f, g, e);
    CountersAppend(f, g, e);
    InStepPut(f, g, e, e.rec.key, e.rec.len);
    PutFiles(f, e, data);
    var c := Leader.Opened(Settled(f), f.view.active).content + data;
    SyncedAppend(Settled(f), s.r, e.rec.key, e.rec.len, e.lsn, File(c, |c|));
    SecureAppend(f, g, vals, e);
    RetiredAppend(f, g, e);
    PutView(f, e, data);
  }

  lemma {:induction false} CarriesEnd(fs: Files, s: Live, vals: Values)
    requires Sound(s) && Carries(fs, s.r, vals)
    ensures |Leader.Opened(fs, s.r.active).content| == s.r.off && s.r.active < s.bound
  {
    hide Leader.Hosted, Sound;
    Leader.ActiveEnd(fs, LiveSegs(s.r), s, vals);
  }

  lemma {:induction false} PutFiles(f: Replica, e: Entry, data: seq<byte>)
    requires e.rec.Put? && |data| == e.rec.len && FilesOk(f.files)
    requires |Leader.Opened(f.files, f.view.active).content| == f.view.off
    ensures var g := ApplyPut(f, e, Some(data)).value; Grown(f.files, g.files) && FilesOk(g.files)
  {
    hide PutOn;
    Leader.AppendAtEnd(Leader.Opened(f.files, f.view.active), f.view.off, data);
  }

  lemma {:induction false} PutView(f: Replica, e: Entry, data: seq<byte>)
    requires e.rec.Put? && |data| == e.rec.len && HandlesOpen(f) && SwapOrphan(f) && InStep(f)
    requires f.view.active < On(f.log).bound && On(f.log + [e]).bound == On(f.log).bound
    ensures var g := ApplyPut(f, e, Some(data)).value; HandlesOpen(g) && SwapOrphan(g)
  {
    hide On, SwapOn;
  }

  // ----- seals and counters

  lemma {:induction false} CarriesSeal(fs: Files, s: Live, vals: Values, next: nat)
    requires Sound(s) && Carries(fs, s.r, vals) && next >= s.bound
    requires next in fs ==> fs[next].content == []
    ensures Carries(fs, SealOn(s.r, next), vals)
  {
    hide Leader.Hosted, Sound;
    Leader.HostedSeal(fs, LiveSegs(s.r), s, vals, next);
    HostedCarries(fs, LiveSegs(s.r), SealOn(s.r, next), vals);
  }

  lemma {:induction false} SyncedSeal(fs: Files, s: Live, next: nat)
    requires Sound(s) && Synced(fs, s.r) && next >= s.bound
    ensures Synced(fs, SealOn(s.r, next))
  {
    hide IndexIn, LocsIn, EntriesFit;
  }

  lemma {:induction false} InStepSeal(f: Replica, g: Replica, e: Entry, next: nat)
    requires InStep(f) && On(f.log).pend.None? && next >= On(f.log).bound && e.lsn > On(f.log).lastLsn
    requires On(g.log) == On(f.log).(r := SealOn(On(f.log).r, next), lastLsn := e.lsn, bound := next + 1)
    requires g.swap == f.swap && g.view == SealOn(f.view, next)
    ensures InStep(g)
  {
    hide On, SwapOn;
    if f.swap.Some? {
      var q := f.swap.value;
      Recovery.SealCommutes(f.view, q.from, q.to, q.entries, next);
    }
  }

  lemma {:induction false} SealView(f: Replica, e: Entry)
    requires e.rec.SegmentSeal? && e.rec.segmentId == f.view.active && HandlesOpen(f)
    requires e.rec.nextSegmentId >= On(f.log).bound && On(f.log + [e]).bound >= On(f.log).bound
    ensures HandlesOpen(ApplySeal(f, e).value)
  {
    hide On;
  }

  lemma {:induction false} ApplySealKeeps(f: Replica, vals: Values, e: Entry)
    requires Content(f, vals) && Allowed(On(f.log), e) && e.rec.SegmentSeal?
    ensures ApplySeal(f, e).Some?
    ensures var g := ApplySeal(f, e).value; Content(g, vals) && (Secure(f, vals) ==> Secure(g, vals))
  {
    hide On, Legal, Carries, Synced, Sound, Fsynced, Grown, CommitBlock, InStep, RetiredIn, SealOn, Secure;
    hide Rollups.RollupOf, Rollups.Recorded;
    var s := On(f.log);
    OnSound(f.log);
    StepActive(f);
    var g, next := ApplySeal(f, e).value, e.rec.nextSegmentId;
    SettledContents(f, next);
    SwapBelow(f);
    CarriesSeal(Settled(f), s, vals, next);
    SyncedSeal(Settled(f), s, next);
    LogOkAppend(f, g, e);
    CountersAppend(f, g, e);
    InStepSeal(f, g, e, next);
    Leader.SameFilesGrown(f.files);
    Leader.SameFilesGrown(Settled(f));
    SecureAppend(f, g, vals, e);
    RetiredAppend(f, g, e);
    SealView(f, e);
  }

  lemma {:induction false} SettledContents(f: Replica, id: nat)
    ensures id in Settled(f) && (f.swap.Some? ==> f.swap.value.to != id) ==>
      id in f.files && Settled(f)[id].content == f.files[id].content
  {
  }

  lemma {:induction false} SwapBelow(f: Replica)
    requires InStep(f)
    ensures f.swap.Some? ==> f.swap.value.to < On(f.log).bound
  {
    hide On;
  }

  lemma {:induction false} InStepSame(f: Replica, g: Replica, e: Entry)
    requires InStep(f) && On(g.log) == On(f.log).(lastLsn := e.lsn) && g.swap == f.swap && g.view == f.view
    requires e.lsn > On(f.log).lastLsn
    ensures InStep(g)
  {
    hide On, SwapOn;
  }

  lemma {:induction false} ApplyAggKeeps(f: Replica, vals: Values, e: Entry)
    requires Content(f, vals) && Allowed(On(f.log), e) && e.rec.AggDelta?
    ensures var g := Append(f, e); Content(g, vals) && (Secure(f, vals) ==> Secure(g, vals))
  {
    hide On, Legal, Carries, Synced, Sound, Fsynced, Grown, CommitBlock, InStep, RetiredIn, Secure, Rollups.RollupOf;
    hide Rollups.Recorded, SwapOn;
    var g := Append(f, e);
    LogOkAppend(f, g, e);
    CountersAppend(f, g, e);
    InStepSame(f, g, e);
    Leader.SameFilesGrown(f.files);
    Leader.SameFilesGrown(Settled(f));
    SecureAppend(f, g, vals, e);
    RetiredAppend(f, g, e);
  }

  // ----- finalizing

  /** Finalizing closes the old segment's handle: the next barrier will leave its file as it is. */
  lemma {:induction false} FinalizeSettled(f: Replica)
    requires InStep(f)
    ensures f.swap.None? ==> Settled(Finalize(f)) == Settled(f)
    ensures f.swap.Some? ==>
      var from := f.swap.value.from;
      && (from in Settled(f) <==> from in f.files)
      && Settled(Finalize(f)) == (if from in f.files then Settled(f)[from := f.files[from]] else Settled(f))
      && (from in f.files ==> Settled(f)[from].content == f.files[from].content)
  {
    hide SwapOn, On;
    if f.swap.Some? {
      var q, g := f.swap.value, Finalize(f);
      var a, b := Settled(g), if q.from in f.files then Settled(f)[q.from := f.files[q.from]] else Settled(f);
      assert a.Keys == b.Keys;
      forall id | id in a ensures a[id] == b[id] {}
    }
  }

  lemma {:induction false} FinalizeFiles(f: Replica)
    requires SwapOrphan(f) && FilesOk(f.files)
    ensures Grown(f.files, Finalize(f).files) && FilesOk(Finalize(f).files)
  {
    hide SwapOn;
  }

  /** Contents alone decide what files carry. */
  lemma {:induction false} CarriesSame(fs: Files, fs': Files, r: Layout, vals: Values)
    requires Carries(fs, r, vals) && fs'.Keys == fs.Keys && forall id :: id in fs ==> fs'[id].content == fs[id].content
    ensures Carries(fs', r, vals)
  {
    hide Holds;
    assert Holds(fs', r, vals) by { Leader.HoldsSame(fs, fs', r, vals); }
  }

  lemma {:induction false} FinalizedContent(f: Replica, vals: Values)
    requires InStep(f) && Sound(On(f.log)) && Carries(Settled(f), On(f.log).r, vals)
    requires Rebuilt(Settled(f), On(f.log), vals)
    requires Synced(Settled(f), Closing(On(f.log)))
    ensures var fs := Settled(Finalize(f));
      Carries(fs, On(f.log).r, vals) && Rebuilt(fs, On(f.log), vals) && Synced(fs, Closing(On(f.log)))
  {
    hide On, Carries, Settled, Finalize, Leader.CopyOk, IndexIn, LocsIn, EntriesFit, MoveIndex, MoveLocs, Extent, Total;
    FinalizeSettled(f);
    var fs := Settled(Finalize(f));
    if f.swap.Some? { CarriesSame(Settled(f), fs, On(f.log).r, vals); }
  }

  lemma {:induction false} FinalizeView(f: Replica)
    requires HandlesOpen(f) && InStep(f)
    ensures HandlesOpen(Finalize(f))
  {
    hide On, MoveLocs, MoveIndex, Extent;
    if f.swap.Some? {
      var q, g := f.swap.value, Finalize(f);
      forall l | l in g.view.locs
        ensures g.view.locs[l].seg < On(f.log).bound
        ensures (g.view.locs[l].seg in LiveSegs(g.view) ==> g.view.locs[l].seg in g.open)
      {
        MoveLocsFind(f.view.locs, q.entries, q.to, l);
      }
    }
  }

  lemma {:induction false} FinalizeStep(f: Replica)
    requires InStep(f)
    ensures InStep(Finalize(f))
  {
    hide On, SwapOn;
  }

  lemma {:induction false} FinalizeRetired(f: Replica)
    requires RetiredIn(f)
    ensures RetiredIn(Finalize(f))
  {
    hide SwapIn, SwapOn;
  }

  lemma {:induction false} BackedFiles(f: Replica, g: Replica, vals: Values)
    requires Backed(f, vals) && g.log == f.log && g.durable == f.durable && g.written == f.written
    requires Grown(Settled(f), Settled(g)) && Grown(f.files, g.files)
    ensures Backed(g, vals)
  {
    hide Safe, On, Committed, Settled, Grown;
    forall c: nat | Leader.IsCut(g.log, c) && g.durable <= |g.log| && Committed(g.log[..g.durable]) <= c
      ensures Safe(Settled(g), On(g.log[..c]).r, vals) && (c <= g.written ==> Safe(g.files, On(g.log[..c]).r, vals))
    {
      SafeGrown(Settled(f), Settled(g), On(f.log[..c]).r, vals);
      SafeGrown(f.files, g.files, On(f.log[..c]).r, vals);
    }
  }

  /** Forgetting that a file was fsynced is safe for a layout that needs no more of it than still is. */
  lemma {:induction false} SafeUnsynced(fs: Files, r: Layout, vals: Values, id: nat, file: File)
    requires Safe(fs, r, vals) && id in fs && file.content == fs[id].content && Need(r, id) <= file.durable
    ensures Safe(fs[id := file], r, vals)
  {
    hide Holds;
    assert Holds(fs[id := file], r, vals) by { Leader.HoldsSame(fs, fs[id := file], r, vals); }
  }

  lemma {:induction false} BackedFinalize(f: Replica, vals: Values)
    requires Secure(f, vals) && InStep(f) && SwapOrphan(f) && FilesOk(f.files)
    ensures Backed(Finalize(f), vals)
  {
    hide Safe, On, Committed, Settled, Grown, Need;
    FinalizeSettled(f);
    FinalizeFiles(f);
    var g := Finalize(f);
    forall c: nat | Leader.IsCut(g.log, c) && g.durable <= |g.log| && Committed(g.log[..g.durable]) <= c
      ensures Safe(Settled(g), On(g.log[..c]).r, vals) && (c <= g.written ==> Safe(g.files, On(g.log[..c]).r, vals))
    {
      var r := On(f.log[..c]).r;
      SafeGrown(f.files, g.files, r, vals);
      if f.swap.Some? && f.swap.value.from in f.files {
        SafeUnsynced(Settled(f), r, vals, f.swap.value.from, f.files[f.swap.value.from]);
      }
    }
  }

  lemma {:induction false} FinalizeKeeps(f: Replica, vals: Values)
    requires Content(f, vals)
    ensures Content(Finalize(f), vals) && Finalize(f).swap.None? && (Secure(f, vals) ==> Secure(Finalize(f), vals))
  {
    hide On, Legal, Carries, Synced, Sound, Settled, FilesOk, CommitBlock, InStep, Backed, RetiredIn, SwapOn;
    hide HandlesOpen, Rebuilt, Grown, Rollups.RollupOf;
    OnSound(f.log);
    FinalizedContent(f, vals);
    FinalizeFiles(f);
    FinalizeView(f);
    FinalizeStep(f);
    FinalizeRetired(f);
    SwapBelow(f);
    if Secure(f, vals) { BackedFinalize(f, vals); }
  }

  // ----- compactions

  lemma {:induction false} CarriesAside(fs: Files, r: Layout, vals: Values, id: nat, file: File)
    requires Carries(fs, r, vals) && id !in LiveSegs(r)
    ensures Carries(fs[id := file], r, vals)
  {
    hide Holds;
    assert Holds(fs[id := file], r, vals) by { HoldsAside(fs, r, vals, id, file); }
  }

  lemma {:induction false} HoldsAside(fs: Files, r: Layout, vals: Values, id: nat, file: File)
    requires Holds(fs, r, vals) && id !in LiveSegs(r)
    ensures Holds(fs[id := file], r, vals)
  {
  }

  lemma {:induction false} SwapGrown(fs: Files, id: nat, file: File)
    requires FilesOk(fs) && (id in fs ==> fs[id].content <= file.content) && file.durable == |file.content|
    ensures Grown(fs, fs[id := file])
  {
  }

  /** A compaction is started whatever the state of the segment it replaces; the follower stays secure if
      no Commit needs more of that segment than is fsynced. */
  lemma {:induction false} ApplySwapKeeps(f: Replica, vals: Values, e: Entry)
    requires Content(f, vals) && Allowed(On(f.log), e) && e.rec.SegmentSwap?
    ensures Content(ApplySwap(f, e), vals)
    ensures Secure(f, vals) && Flushed(Finalize(f), e.rec.oldSegmentId) ==> Secure(ApplySwap(f, e), vals)
  {
    hide On, Legal, Allowed, After, Content, Secure, Flushed, Finalize;
    FinalizeKeeps(f, vals);
    FinalizeLog(f);
    StartSwap(Finalize(f), vals, e);
  }

  lemma {:induction false} FinalizeLog(f: Replica)
    ensures var g := Finalize(f);
      g.log == f.log && g.dirty == f.dirty && g.durable == f.durable &&
      g.written == f.written && g.lastCommit == f.lastCommit
  {
  }

  lemma {:induction false} StartSwap(f: Replica, vals: Values, e: Entry)
    requires Content(f, vals) && f.swap.None? && Allowed(On(f.log), e) && e.rec.SegmentSwap?
    ensures var g := Append(f, e).(swap := Some(Swap(e.lsn, e.rec.oldSegmentId, e.rec.newSegmentId, [], [])));
      Content(g, vals) && (Secure(f, vals) && Flushed(f, e.rec.oldSegmentId) ==> Secure(g, vals))
  {
    hide On, Legal, Allowed, After, Carries, Synced, Sound, Settled, Grown, CommitBlock, RetiredIn, SwapOn, Backed;
    hide Flushed, Rollups.RollupOf, Rollups.Recorded;
    var s, to := On(f.log), e.rec.newSegmentId;
    var g := Append(f, e).(swap := Some(Swap(e.lsn, e.rec.oldSegmentId, to, [], [])));
    OnSound(f.log);
    SwapLog(s, e);
    SwapKnownLength(s, e);
    LogOkAppend(f, g, e);
    CountersAppend(f, g, e);
    SettledOk(f);
    SettledContents(f, to);
    SettledStart(f, g, to);
    SwapGrown(Settled(f), to, File([], 0));
    CarriesAside(Settled(f), s.r, vals, to, File([], 0));
    SyncedStart(Settled(f), s.r, e.rec.oldSegmentId, to);
    Leader.SameFilesGrown(f.files);
    if Secure(f, vals) && Flushed(f, e.rec.oldSegmentId) {
      BackedAppend(f, g, vals, e);
      FlushedAppend(f, g, e, e.rec.oldSegmentId);
    }
    StartRetired(f, g, e);
  }

  lemma {:induction false} SwapKnownLength(s: Live, e: Entry)
    requires Sound(s) && Allowed(s, e) && e.rec.SegmentSwap?
    ensures e.rec.oldSegmentId in s.r.lens
  {
    hide IndexIn, LocsIn, EntriesFit;
  }

  lemma {:induction false} SyncedStart(fs: Files, r: Layout, from: nat, to: nat)
    requires Synced(fs, r) && to !in LiveSegs(r)
    ensures Synced(fs[to := File([], 0)], SwapOn(r, from, to, []))
  {
    hide MoveIndex, MoveLocs;
  }

  lemma {:induction false} SettledStart(f: Replica, g: Replica, to: nat)
    requires f.swap.None? && g.files == f.files && g.dirty == f.dirty && g.open == f.open
    requires g.swap.Some? && g.swap.value.to == to && g.swap.value.copy == []
    ensures Settled(g) == Settled(f)[to := File([], 0)]
  {
  }

  lemma {:induction false} StartRetired(f: Replica, g: Replica, e: Entry)
    requires RetiredIn(f) && g.log == f.log + [e] && g.retired == f.retired && e.rec.SegmentSwap?
    requires g.swap.Some? && g.swap.value.lsn == e.lsn && g.swap.value.from == e.rec.oldSegmentId
    ensures RetiredIn(g)
  {
    RetiredAppend(f, g.(swap := f.swap), e);
    hide SwapIn;
    assert SwapIn(g.log, e.lsn, e.rec.oldSegmentId) by { LastIsSwap(f.log, e); }
  }

  lemma {:induction false} LastIsSwap(log: seq<Entry>, e: Entry)
    requires e.rec.SegmentSwap?
    ensures SwapIn(log + [e], e.lsn, e.rec.oldSegmentId)
  {
    assert (log + [e])[|log|] == e;
  }

  // ----- rebuilding

  /** What the old segment's file gives for one entry. */
  lemma {:induction false} EntrySource(f: Replica, vals: Values, from: nat, e: RemapEntry, at: nat)
    requires Carries(Settled(f), f.view, vals) && LocsIn(f.view) && HandlesOpen(f)
    requires f.swap.Some? && f.swap.value.to != from && from in f.view.sealed && EntryFits(f.view, from, e, at)
    ensures e.lsn in f.view.locs && e.lsn in vals && e.offset == at
    ensures var l := f.view.locs[e.lsn];
      && l.seg == from && l.len == e.len == |vals[e.lsn]| && from in f.open && from in f.files
      && l.off + l.len <= |f.files[from].content| && f.files[from].content[l.off..l.off + l.len] == vals[e.lsn]
  {
    hide On, Leader.Hosted, LocsIn, Settled;
    Leader.SourceRead(Settled(f), LiveSegs(f.view), f.view, vals, e.lsn);
    SettledAt(f, from);
  }

  lemma {:induction false} CopyEntryOk(f: Replica, vals: Values, q: Swap, e: RemapEntry)
    requires Carries(Settled(f), f.view, vals) && LocsIn(f.view) && HandlesOpen(f)
    requires f.swap.Some? && f.swap.value.to != q.from && q.from in f.view.sealed
    requires EntryFits(f.view, q.from, e, Total(q.entries)) && |q.copy| == Total(q.entries) && e.lsn in vals
    ensures CopyEntry(f, q, e) == Some(q.(copy := q.copy + vals[e.lsn], entries := q.entries + [e]))
    ensures |vals[e.lsn]| == e.len
  {
    EntrySource(f, vals, q.from, e, Total(q.entries));
    hide On, Carries, LocsIn, Settled, HandlesOpen, EntryFits, Leader.WriteAt;
    Leader.AppendAtEnd(File(q.copy, 0), e.offset, vals[e.lsn]);
  }

  lemma {:induction false} CopyOkMore(copy: seq<byte>, es: seq<RemapEntry>, vals: Values, e: RemapEntry)
    requires Leader.CopyOk(copy, es, vals) && |copy| == Total(es) && e.lsn in vals && |vals[e.lsn]| == e.len
    requires e.offset == Total(es)
    ensures Leader.CopyOk(copy + vals[e.lsn], es + [e], vals) && |copy + vals[e.lsn]| == Total(es + [e])
  {
    assert (es + [e])[..|es|] == es;
    hide Total;
    var copy', es' := copy + vals[e.lsn], es + [e];
    forall i | 0 <= i < |es'|
      ensures es'[i].lsn in vals && es'[i].offset + es'[i].len <= |copy'|
      ensures copy'[es'[i].offset..es'[i].offset + es'[i].len] == vals[es'[i].lsn]
    {
      if i < |es| {
        assert es'[i] == es[i];
        assert copy'[es[i].offset..es[i].offset + es[i].len] == copy[es[i].offset..es[i].offset + es[i].len];
      }
    }
  }

  lemma {:induction false} CopyEntriesOk(f: Replica, vals: Values, es: seq<RemapEntry>)
    requires Carries(Settled(f), f.view, vals) && LocsIn(f.view) && HandlesOpen(f)
    requires f.swap.Some? && f.swap.value.to != f.swap.value.from && f.swap.value.from in f.view.sealed
    requires EntriesFit(f.view, f.swap.value.from, f.swap.value.entries + es, 0)
    requires Leader.CopyOk(f.swap.value.copy, f.swap.value.entries, vals)
    requires |f.swap.value.copy| == Total(f.swap.value.entries)
    ensures var q, r := f.swap.value, CopyEntries(f, f.swap.value, es);
      && r.Some? && r.value == q.(copy := r.value.copy, entries := q.entries + es) && q.copy <= r.value.copy
      && Leader.CopyOk(r.value.copy, q.entries + es, vals) && |r.value.copy| == Total(q.entries + es)
    decreases |es|
  {
    hide On, Carries, LocsIn, Settled, HandlesOpen, Leader.CopyOk, EntryFits, CopyEntry, Total;
    var q, n := f.swap.value, |es| - 1;
    if |es| == 0 {
      assert q.entries + es == q.entries;
    } else {
      var all := q.entries + es;
      assert all[..|all| - 1] == q.entries + es[..n];
      CopyEntriesOk(f, vals, es[..n]);
      var before := CopyEntries(f, q, es[..n]).value;
      LastFits(f.view, q.from, all);
      EntrySource(f, vals, q.from, es[n], Total(before.entries));
      CopyEntryOk(f, vals, before, es[n]);
      CopyOkMore(before.copy, before.entries, vals, es[n]);
      assert before.entries + [es[n]] == all;
    }
  }

  lemma {:induction false} LastFits(r: Layout, from: nat, es: seq<RemapEntry>)
    requires EntriesFit(r, from, es, 0) && |es| > 0
    ensures EntryFits(r, from, es[|es| - 1], Total(es[..|es| - 1]))
  {
  }

  /** A follower in the middle of a compaction's records. */
  lemma {:induction false} Rebuilding(f: Replica, vals: Values)
    requires Content(f, vals) && On(f.log).pend.Some? && f.swap.Some?
    ensures var q, s := f.swap.value, On(f.log);
      && s.pend == Some(Pending(q.from, q.to, q.entries)) && f.view == s.r && q.to != q.from
      && q.from in s.r.sealed && q.to !in s.r.lens && q.to !in LiveSegs(s.r) && LocsIn(s.r) &&
           EntriesFit(s.r, q.from, q.entries, 0)
      && Leader.CopyOk(q.copy, q.entries, vals) && |q.copy| == Total(q.entries)
      && Carries(Settled(f), f.view, vals)
  {
    hide Carries, Synced, On, RetiredIn, Legal, Rollups.RollupOf, LocsIn, IndexIn, EntriesFit, HandlesOpen;
    hide Leader.CopyOk, Fsynced, SwapOn, CommitBlock, OrphansEmpty;
    OnSound(f.log);
  }

  lemma {:induction false} SettledCopy(f: Replica, g: Replica)
    requires f.swap.Some? && g.swap.Some? && g.swap.value.to == f.swap.value.to
    requires g.files == f.files && g.dirty == f.dirty && g.open == f.open
    ensures Settled(g) == Settled(f)[g.swap.value.to := File(g.swap.value.copy, |g.swap.value.copy|)]
    ensures f.swap.value.to in Settled(f) && Settled(f)[f.swap.value.to].content == f.swap.value.copy
  {
  }

  lemma {:induction false} SyncedRemap(fs: Files, s: Live, es: seq<RemapEntry>, file: File)
    requires Sound(s) && s.pend.Some? && Synced(fs, Closing(s)) && EntriesFit(s.r, s.pend.value.from, es, 0)
    requires |file.content| == Total(es) && file.durable == |file.content|
    ensures Synced(fs[s.pend.value.to := file], SwapOn(s.r, s.pend.value.from, s.pend.value.to, es))
  {
    hide MoveIndex, MoveLocs, IndexIn, LocsIn, EntriesFit;
    EntriesFacts(s.r, s.pend.value.from, es);
  }

  lemma {:induction false} ApplyRemapKeeps(f: Replica, vals: Values, e: Entry)
    requires Content(f, vals) && Allowed(On(f.log), e) && e.rec.SegmentRemap? && f.swap.Some?
    ensures ApplyRemap(f, e).Some?
    ensures var g := ApplyRemap(f, e).value; Content(g, vals) && (Secure(f, vals) ==> Secure(g, vals))
  {
    hide On, Legal, Allowed, After, Carries, Synced, Sound, Settled, Grown, CommitBlock, RetiredIn, SwapOn, EntriesFit;
    hide LocsIn, CopyEntries, Total, Leader.CopyOk, Secure, Rollups.RollupOf, Rollups.Recorded;
    var s, q := On(f.log), f.swap.value;
    OnSound(f.log);
    RemapLog(s, e);
    Rebuilding(f, vals);
    CopyEntriesOk(f, vals, e.rec.entries);
    var g := ApplyRemap(f, e).value;
    LogOkAppend(f, g, e);
    CountersAppend(f, g, e);
    SettledOk(f);
    SettledCopy(f, g);
    var file := File(g.swap.value.copy, |g.swap.value.copy|);
    SwapGrown(Settled(f), q.to, file);
    CarriesAside(Settled(f), s.r, vals, q.to, file);
    SyncedRemap(Settled(f), s, s.pend.value.entries + e.rec.entries, file);
    Leader.SameFilesGrown(f.files);
    SecureAppend(f, g, vals, e);
    RetiredAppend(f, g, e);
  }

  // ----- commits

  lemma {:induction false} CommitBlockBelow(log: seq<Entry>)
    requires Legal(log)
    ensures CommitBlock(log) <= On(log).lastLsn
  {
    hide On, Legal;
    LastLsnBelow(log, |log|, Committed(log));
    assert log[..|log|] == log;
    LastLsnBelow(log, Committed(log), Committed(log));
  }

  lemma {:induction false} CommitLog(s: Live, e: Entry)
    requires Allowed(s, e) && e.rec.Commit?
    ensures e.lsn > s.lastLsn
    ensures After(s, e).pend.None? && After(s, e).bound == s.bound && After(s, e).lastLsn == e.lsn
    ensures After(s, e).r == if s.pend.Some? then SwapOn(s.r, s.pend.value.from, s.pend.value.to,
      s.pend.value.entries) else s.r
  {
    hide SwapOn;
  }

  /** The layout after the Commit is carried by the settled files. */
  lemma {:induction false} CarriesCommit(fs: Files, s: Live, vals: Values)
    requires Sound(s) && Carries(fs, s.r, vals) && Rebuilt(fs, s, vals) && s.pend.Some?
    ensures Carries(fs, Closing(s), vals)
  {
    hide Leader.Hosted, Sound, SwapOn, EntriesFit, LocsIn, IndexIn, Leader.CopyOk, Holds;
    var p := s.pend.value;
    SoundPending(s);
    var copy, base, live := fs[p.to].content, fs - {p.to}, LiveSegs(s.r);
    Leader.SoundFacts(s);
    Leader.HostedWithout(fs, live, s.r, vals, p.to);
    Leader.HostedHolds(base, live, s.r, vals);
    Leader.HoldsSwap(base, s.r, vals, p, copy);
    Leader.HostedSwap(base, live, s, vals, p, copy);
    assert base[p.to := File(copy, |copy|)] == fs;
    Leader.SwapSegs(s.r, p);
    HostedCarries(fs, live, Closing(s), vals);
  }

  lemma {:induction false} SoundPending(s: Live)
    requires Sound(s) && s.pend.Some?
    ensures var p := s.pend.value;
      p.from in s.r.sealed && p.from in s.r.lens && p.from != s.r.active && p.to !in s.r.lens &&
        p.to !in LiveSegs(s.r) && EntriesFit(s.r, p.from, p.entries, 0)
  {
  }

  lemma {:induction false} BackedCommit(f: Replica, g: Replica, vals: Values, e: Entry)
    requires Backed(f, vals) && f.durable <= f.written <= |f.log| && g.log == f.log + [e]
    requires g.durable == f.durable && g.written == f.written && Settled(g) == Settled(f) && g.files == f.files
    requires Safe(Settled(g), On(g.log).r, vals)
    ensures Backed(g, vals)
  {
    hide Safe, On, Committed, Settled;
    assert g.log[..g.durable] == f.log[..f.durable];
    forall c: nat | Leader.IsCut(g.log, c) && Committed(g.log[..g.durable]) <= c
      ensures Safe(Settled(g), On(g.log[..c]).r, vals) && (c <= g.written ==> Safe(g.files, On(g.log[..c]).r, vals))
    {
      if c <= |f.log| {
        assert g.log[..c] == f.log[..c];
        assert Leader.IsCut(f.log, c);
      } else {
        assert g.log[..c] == g.log;
      }
    }
  }

  lemma {:induction false} InStepCommit(f: Replica, g: Replica, e: Entry)
    requires InStep(f) && Allowed(On(f.log), e) && e.rec.Commit? && On(g.log) == After(On(f.log), e) && g.swap == f.swap
    requires g.view == f.view
    ensures InStep(g)
  {
    hide On, SwapOn;
    CommitLog(On(f.log), e);
  }

  /** The Commit that covers a pending compaction frees its old segment, so no new cut needs it. */
  lemma {:induction false} FlushedCommit(f: Replica, g: Replica, e: Entry)
    requires f.swap.Some? && Flushed(f, f.swap.value.from) && f.durable <= |f.log| && e.rec.Commit? && InStep(g)
    requires On(g.log).pend.None?
    requires g.log == f.log + [e] && g.durable == f.durable && g.files == f.files && g.swap == f.swap
    ensures Flushed(g, f.swap.value.from)
  {
    var id := f.swap.value.from;
    assert Need(On(g.log).r, id) == 0 by { hide On, MoveIndex, MoveLocs, Extent; }
    hide On, Committed, Need;
    assert g.log[..g.durable] == f.log[..f.durable];
    forall c: nat | Leader.IsCut(g.log, c) && Committed(g.log[..g.durable]) <= c
      ensures Need(On(g.log[..c]).r, id) <= DurableLength(g.files, id)
    {
      if c <= |f.log| {
        assert g.log[..c] == f.log[..c];
        assert Leader.IsCut(f.log, c);
      } else {
        assert g.log[..c] == g.log;
      }
    }
  }

  lemma {:induction false} CarriesSafe(fs: Files, r: Layout, vals: Values)
    requires Carries(fs, r, vals) && Synced(fs, r)
    ensures Safe(fs, r, vals)
  {
    hide Holds, Synced;
  }

  lemma {:induction false} ApplyCommitKeeps(f: Replica, vals: Values, e: Entry)
    requires Content(f, vals) && Allowed(On(f.log), e) && e.rec.Commit?
    ensures var g := Apply(f, e, None).value; Content(g, vals) && (Secure(f, vals) ==> Secure(g, vals))
  {
    hide On, Legal, Allowed, After, Carries, Synced, Sound, Fsynced, CommitBlock, RetiredIn, SwapOn, InStep, Backed;
    hide Flushed, Rollups.RollupOf, Rollups.Recorded;
    var s, g := On(f.log), Apply(f, e, None).value;
    OnSound(f.log);
    CommitBlockBelow(f.log);
    CommitLog(s, e);
    LogOkAppend(f, g, e);
    CountersAppend(f, g, e);
    InStepCommit(f, g, e);
    if s.pend.Some? { CarriesCommit(Settled(f), s, vals); }
    if Secure(f, vals) {
      CarriesSafe(Settled(g), On(g.log).r, vals);
      BackedCommit(f, g, vals, e);
      if f.swap.Some? { FlushedCommit(f, g, e); }
    }
    RetiredAppend(f, g, e);
  }
}
