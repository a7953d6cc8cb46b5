/** The store object: staging, the commit protocol and compaction, as methods that update its fields. */
module StoreObject {
  import opened Bytes
  import opened Records
  import RecordCodec
  import opened Wal
  import opened LogModel
  import opened Disk
  import opened CrashSafety
  import opened SegmentStore
  import Leader
  import Packing
  import Recovery
  import Rollups

  // ----- the counters of a growing log

  lemma {:induction false} RollupAppend(log: seq<Entry>, e: Entry)
    ensures Rollups.RollupOf(log + [e]) ==
      if e.rec.Put? then Rollups.Recorded(Rollups.RollupOf(log), e.rec.key, e.rec.len) else Rollups.RollupOf(log)
  {
    hide Rollups.Recorded;
    assert (log + [e])[..|log|] == log;
  }

  lemma {:induction false} DeltasThenOther(log: seq<Entry>, e: Entry)
    requires Rollups.DeltasLogged(log) && !e.rec.Put? && !e.rec.AggDelta?
    ensures Rollups.DeltasLogged(log + [e])
  {
    hide Rollups.RollupOf, Rollups.DeltasFor;
    var l := log + [e];
    forall i | 0 <= i < |l| && l[i].rec.AggDelta?
      ensures i > 0 && l[i - 1].rec.Put?
      ensures l[i].rec.deltas == Rollups.DeltasFor(Rollups.RollupOf(l[..i - 1]), l[i - 1].rec.key, l[i - 1].rec.len)
    {
      assert log[i].rec.AggDelta? && l[..i - 1] == log[..i - 1];
    }
  }

  lemma {:induction false} DeltasThenPut(log: seq<Entry>, put: Entry, agg: Entry)
    requires Rollups.DeltasLogged(log) && put.rec.Put? && agg.rec.AggDelta?
    requires agg.rec.deltas == Rollups.DeltasFor(Rollups.RollupOf(log), put.rec.key, put.rec.len)
    ensures Rollups.DeltasLogged(log + [put] + [agg])
  {
    hide Rollups.RollupOf, Rollups.DeltasFor;
    var l, n := log + [put] + [agg], |log|;
    assert l[..n] == log && l[n] == put && l[n + 1] == agg;
    forall i | 0 <= i < |l| && l[i].rec.AggDelta?
      ensures i > 0 && l[i - 1].rec.Put?
      ensures l[i].rec.deltas == Rollups.DeltasFor(Rollups.RollupOf(l[..i - 1]), l[i - 1].rec.key, l[i - 1].rec.len)
    {
      if i < n { assert log[i].rec.AggDelta? && l[..i - 1] == log[..i - 1]; }
    }
    forall i | 0 <= i < |l| && l[i].rec.Put? ensures i + 1 < |l| && l[i + 1].rec.AggDelta? {
      if i < n { assert log[i].rec.Put? && log[i + 1] == l[i + 1]; }
    }
  }

  // ----- the store

  /** There is room for every record of a put. */
  lemma {:induction false} StagedRoom(s: Leader.Store, key: Text, value: seq<byte>, deltas: seq<AggDeltaEntry>)
    requires Leader.RoomForPut(s) && |value| < 0x1_0000_0000
    ensures Leader.Room(s) && Leader.Room(Leader.SealActive(s))
    ensures Leader.Room(Leader.AppendAgg(Leader.PlacePut(s, key, value), deltas))
    ensures Leader.Room(Leader.AppendAgg(Leader.PlacePut(Leader.SealActive(s), key, value), deltas))
  {
    hide SealOn, PutOn, Leader.WriteAt, Leader.Opened;
  }

  ghost predicate PutFits(key: Text, len: u32) {
    Encodable(Put(key, len, 0))
  }

  /** Both records of the put fit one block each. */
  ghost predicate FitsBlocks(t: Rollups.Tally, key: Text, len: u32) {
    PutFits(key, len) && Encodable(AggDelta(Rollups.DeltasFor(t, key, len)))
  }

  lemma {:induction false} PutFitsAnywhere(key: Text, len: u32, lsn: u64)
    ensures Encodable(Put(key, len, lsn)) <==> PutFits(key, len)
  {
  }

  /** What a refusal leaves: a valid store if only the value was written, and none if the put was logged. */
  lemma {:induction false} RefusedCases(s: Leader.Store, t: Rollups.Tally, key: Text, value: seq<byte>, limit: nat)
    requires Leader.Inv(s) && CountingOf(t, s.log) && s.plan.None? && Leader.RoomForPut(s) && |value| < 0x1_0000_0000
    ensures var s1 := Leader.Sealed(s, value, limit);
      && Leader.Room(s1) && (s.mem.off > 0 && s.mem.off + |value| > limit ==> s1.acked < |s1.log|)
      && Leader.Inv(Leader.WriteValue(s1, value)) && CountingOf(t, s1.log)
      && Leader.WriteValue(s1, value).log == s1.log && Leader.WriteValue(s1, value).acked == s1.acked
      && |s1.log| == |s.log| + (if s.mem.off > 0 && s.mem.off + |value| > limit then 1 else 0)
      && !Leader.Inv(Leader.LogPut(s1, key, value))
  {
    hide CountingOf, Leader.Inv, Leader.SealActive, Leader.WriteValue, Leader.LogPut;
    Leader.RefusePutKeeps(s, value, limit);
    Leader.SealKeeps(s);
    AckedInLog(s);
    CountingOther(t, s.log, Entry(s.nextLsn, SegmentSeal(s.mem.active, s.nextFree)));
    SealFields(s);
    WriteFields(Leader.Sealed(s, value, limit), value);
    Leader.LogPutBreaks(Leader.Sealed(s, value, limit), key, value);
  }

  lemma {:induction false} SealFields(s: Leader.Store)
    requires Leader.RoomForPut(s)
    ensures var t := Leader.SealActive(s);
      && t.log == s.log + [Entry(s.nextLsn, SegmentSeal(s.mem.active, s.nextFree))] && t.acked == s.acked
      && Leader.Room(t) && t.plan == s.plan
  {
    hide SealOn;
  }

  lemma {:induction false} WriteFields(s: Leader.Store, value: seq<byte>)
    ensures Leader.WriteValue(s, value).log == s.log && Leader.WriteValue(s, value).acked == s.acked
  {
  }

  lemma {:induction false} AckedInLog(s: Leader.Store)
    requires Leader.Inv(s)
    ensures s.acked <= |s.log|
  {
    hide Leader.ViewInv, Leader.FileInv, Leader.Backed, Legal, On;
  }

  ghost predicate CountingOf(t: Rollups.Tally, log: seq<Entry>) {
    t == Rollups.RollupOf(log) && Rollups.DeltasLogged(log)
  }

  lemma {:induction false} CountingOther(t: Rollups.Tally, log: seq<Entry>, e: Entry)
    requires CountingOf(t, log) && !e.rec.Put? && !e.rec.AggDelta?
    ensures CountingOf(t, log + [e])
  {
    hide Rollups.RollupOf, Rollups.DeltasLogged;
    RollupAppend(log, e);
    DeltasThenOther(log, e);
  }

  lemma {:induction false} CountingPut(t: Rollups.Tally, log: seq<Entry>, put: Entry, agg: Entry)
    requires CountingOf(t, log) && put.rec.Put? && agg.rec.AggDelta?
    requires agg.rec.deltas == Rollups.DeltasFor(t, put.rec.key, put.rec.len)
    ensures CountingOf(Rollups.Recorded(t, put.rec.key, put.rec.len), log + [put] + [agg])
  {
    hide Rollups.RollupOf, Rollups.DeltasLogged, Rollups.Recorded, Rollups.DeltasFor;
    RollupAppend(log, put);
    RollupAppend(log + [put], agg);
    DeltasThenPut(log, put, agg);
  }

  lemma {:induction false} StagedCounting(s: Leader.Store, t: Rollups.Tally, key: Text, value: seq<byte>, limit: nat)
    requires CountingOf(t, s.log) && Leader.RoomForPut(s) && |value| < 0x1_0000_0000
    ensures CountingOf(Rollups.Recorded(t, key, |value|),
      Leader.StagePut(s, key, value, Rollups.DeltasFor(t, key, |value|), limit).log)
  {
    hide CountingOf, Rollups.Recorded, Rollups.DeltasFor, SealOn, PutOn, Leader.WriteAt, Leader.Opened;
    var deltas := Rollups.DeltasFor(t, key, |value|);
    var first := s.mem.off > 0 && s.mem.off + |value| > limit;
    var seal := Entry(s.nextLsn, SegmentSeal(s.mem.active, s.nextFree));
    if first { CountingOther(t, s.log, seal); }
    var s1 := if first then Leader.SealActive(s) else s;
    CountingPut(t, s1.log, Entry(s1.nextLsn, Put(key, |value|, s1.nextLsn)), Entry(s1.nextLsn + 1, AggDelta(deltas)));
    var s2 := Leader.AppendAgg(Leader.PlacePut(s1, key, value), deltas);
    CountingOther(Rollups.Recorded(t, key, |value|), s2.log,
      Entry(s2.nextLsn, SegmentSeal(s2.mem.active, s2.nextFree)));
  }


  /** The write-ahead log: every record appended, how many are in the file, how many are fsynced. */
  datatype Journal = Journal(log: seq<Entry>, written: nat, durable: nat, nextLsn: nat)

  /** For specification: the bytes of every put, the layout memory mirrors, the acknowledged records. */
  datatype Spec = Spec(vals: Values, view: Layout, acked: nat)

  function Logged(w: Journal, rec: Record): Journal
    requires w.nextLsn <= Leader.MAX_U64
  {
    w.(log := w.log + [Entry(w.nextLsn, rec)], nextLsn := w.nextLsn + 1)
  }

  ghost function StoreOf(wal: Journal, nextFree: nat, files: Files, dirty: set<nat>, mem: Leader.Memory,
                         stage: Option<Pending>, spec: Spec): Leader.Store {
    Leader.Store(wal.log, wal.written, wal.durable, wal.nextLsn, nextFree, files, dirty, mem, stage, spec.vals,
      spec.view, spec.acked)
  }

  lemma {:induction false} SealedIs(wal: Journal, nextFree: nat, files: Files, dirty: set<nat>, mem: Leader.Memory,
                                    stage: Option<Pending>, spec: Spec)
    requires wal.nextLsn + 2 <= Leader.MAX_U64 && nextFree < Leader.MAX_U64 && mem.active <= Leader.MAX_U64
    ensures Leader.SealActive(StoreOf(wal, nextFree, files, dirty, mem, stage, spec)) ==
      StoreOf(Logged(wal, SegmentSeal(mem.active, nextFree)), nextFree + 1, files, dirty,
              mem.(sealed := mem.sealed + {mem.active}, active := nextFree, off := 0), stage,
                spec.(view := SealOn(spec.view, nextFree)))
  {
    hide SealOn;
  }

  class Inner {
    var wal: Journal
    var nextFree: nat
    var files: Files
    var dirty: set<nat>
    var index: map<Text, Loc>
    var locs: map<nat, PutLoc>
    var active: nat
    var off: nat
    var sealed: seq<nat>
    var tally: Rollups.Tally
    var pending: bool
    var stage: Option<Pending>
    ghost var spec: Spec

    ghost function Mem(): Leader.Memory
      reads this
    {
      Leader.Memory(index, locs, active, off, SetOf(sealed))
    }

    ghost function State(): Leader.Store
      reads this
    {
      StoreOf(wal, nextFree, files, dirty, Mem(), stage, spec)
    }

    /** The invariant of the store; the counters are those of the log, and the logged deltas explain them. */
    ghost predicate Valid()
      reads this
    {
      Leader.Inv(State()) && CountingOf(tally, wal.log) && (pending <==> spec.acked < |wal.log|)
    }

    // ----- putting

    /** The next segment takes over; the one sealed joins the list. */
    method OpenNext(next: nat)
      modifies this`sealed, this`active, this`off, this`nextFree, this`pending, this`spec
      ensures SetOf(sealed) == SetOf(old(sealed)) + {old(active)} && active == next && off == 0 && nextFree == next + 1
      ensures pending
      ensures spec == old(spec).(view := SealOn(old(spec).view, next))
    {
      hide SetOf, SealOn;
      PushSet(sealed, active);
      sealed, active, off, nextFree, pending := sealed + [active], next, 0, next + 1, true;
      spec := spec.(view := SealOn(spec.view, next));
    }

    method SealActive()
      requires wal.nextLsn + 2 <= Leader.MAX_U64 && nextFree < Leader.MAX_U64 && active <= Leader.MAX_U64
      modifies this`wal, this`sealed, this`active, this`off, this`nextFree, this`pending, this`spec
      ensures State() == Leader.SealActive(old(State())) && pending
    {
      hide SetOf, SealOn, Leader.SealActive, Logged, StoreOf;
      SealedIs(wal, nextFree, files, dirty, Mem(), stage, spec);
      wal := Logged(wal, SegmentSeal(active, nextFree));
      OpenNext(nextFree);
    }

    /** The value goes to the end of the open segment, whose file is created if need be. */
    method WriteValue(value: seq<byte>)
      modifies this`files
      ensures State() == Leader.WriteValue(old(State()), value)
    {
      hide Leader.WriteAt;
      var file := if active in files then files[active] else File([], 0);
      files := files[active := Leader.WriteAt(file, off, value)];
    }

    /** Appends a record to the log, unless it does not fit a block. */
    method Append(rec: Record) returns (ok: bool)
      requires wal.nextLsn <= Leader.MAX_U64
      modifies this`wal
      ensures ok <==> Encodable(rec)
      ensures wal == if ok then Logged(old(wal), rec) else old(wal)
    {
      hide Encodable;
      var bytes := RecordCodec.EncodeRecord(rec);
      ok := bytes.Some?;
      if ok { wal := Logged(wal, rec); }
    }

    method Remember(key: Text, value: seq<byte>, lsn: nat)
      requires |value| < 0x1_0000_0000
      modifies this`index, this`locs, this`off, this`dirty, this`tally, this`pending, this`spec
      ensures index == old(index)[key := Loc(active, old(off), |value|, lsn)]
      ensures locs == old(locs)[lsn := PutLoc(key, active, old(off), |value|)]
      ensures off == old(off) + |value| && pending && tally == Rollups.Recorded(old(tally), key, |value|)
      ensures dirty == old(dirty) + {active}
      ensures spec == Spec(old(spec).vals[lsn := value], PutOn(old(spec).view, key, |value|, lsn), old(spec).acked)
    {
      hide PutOn, Rollups.Recorded;
      var len := |value|;
      index, locs, off := index[key := Loc(active, off, len, lsn)], locs[lsn := PutLoc(key, active, off, len)],
        off + len;
      dirty, tally, pending := dirty + {active}, Rollups.Recorded(tally, key, len), true;
      spec := Spec(spec.vals[lsn := value], PutOn(spec.view, key, len, lsn), spec.acked);
    }

    /** Writes the value, logs the put and its deltas, and updates memory; the first record that does not fit a block
        ends it where it is. */
    method Place(key: Text, value: seq<byte>) returns (ok: bool)
      requires wal.nextLsn + 2 <= Leader.MAX_U64 && nextFree < Leader.MAX_U64 && active <= Leader.MAX_U64
      requires |value| < 0x1_0000_0000
      modifies this`files, this`dirty, this`wal, this`index, this`locs, this`off, this`tally, this`pending, this`spec
      ensures ok <==> FitsBlocks(old(tally), key, |value|)
      ensures ok ==> pending && tally == Rollups.Recorded(old(tally), key, |value|)
      ensures ok ==> (State() ==
        Leader.AppendAgg(Leader.PlacePut(old(State()), key, value), Rollups.DeltasFor(old(tally), key, |value|)))
      ensures !ok ==> tally == old(tally) && pending == old(pending)
      ensures !ok && PutFits(key, |value|) ==> State() == Leader.LogPut(old(State()), key, value)
      ensures !ok && !PutFits(key, |value|) ==> State() == Leader.WriteValue(old(State()), value)
    {
      hide SetOf, PutOn, Rollups.Recorded, Rollups.DeltasFor, Leader.WriteAt, Encodable;
      var lsn, len, deltas := wal.nextLsn, |value|, Rollups.DeltasFor(tally, key, |value|);
      PutFitsAnywhere(key, len, lsn);
      WriteValue(value);
      ok := Append(Put(key, len, lsn));
      if !ok { return; }
      ok := Append(AggDelta(deltas));
      if !ok { return; }
      Remember(key, value, lsn);
    }

    /** A put. The open segment is sealed before a put that would overflow it, and after one that alone exceeds the
        limit. A value too long for its record is refused at once, a key too long for it when the value is written;
        both leave the store valid. A key whose deltas do not fit a record is refused when the put is already logged,
        and exactly then the store is no longer valid. */
    method StagePut(key: Text, value: seq<byte>, limit: nat) returns (ok: bool)
      requires Valid() && stage.None? && Leader.RoomForPut(State())
      modifies this
      ensures ok <==> |value| < 0x1_0000_0000 && FitsBlocks(old(tally), key, |value|)
      ensures ok ==> State() == Leader.StagePut(old(State()), key, value, Rollups.DeltasFor(old(tally), key, |value|),
        limit)
      ensures ok ==>
        var over, big := old(off) > 0 && old(off) + |value| > limit, |value| > limit;
        var at, from := if over then old(nextFree) else old(active), if over then 0 else old(off);
        && |wal.log| == |old(wal).log| + 2 + (if over then 1 else 0) + (if big then 1 else 0)
        && key in index && index[key].seg == at && index[key].off == from && index[key].len == |value|
        && nextFree == old(nextFree) + (if over then 1 else 0) + (if big then 1 else 0)
        && active == (if big then nextFree - 1 else at) && off == (if big then 0 else from + |value|)
      ensures |value| < 0x1_0000_0000 && !PutFits(key, |value|) ==>
        |wal.log| == |old(wal).log| + if old(off) > 0 && old(off) + |value| > limit then 1 else 0
      ensures !ok ==> tally == old(tally)
      ensures |value| >= 0x1_0000_0000 ==> State() == old(State())
      ensures |value| < 0x1_0000_0000 && !PutFits(key, |value|) ==>
        State() == Leader.RefusePut(old(State()), value, limit)
      ensures !ok && |value| < 0x1_0000_0000 && PutFits(key, |value|) ==>
        State() == Leader.LogPut(Leader.Sealed(old(State()), value, limit), key, value)
      ensures Valid() <==> ok || |value| >= 0x1_0000_0000 || !PutFits(key, |value|)
    {
      hide Leader.Inv, Leader.SealActive, Leader.PlacePut, Leader.AppendAgg, Leader.WriteValue, Leader.LogPut;
      hide CountingOf, PutFits, Encodable, Rollups.DeltasFor, Rollups.Recorded;
      if |value| >= 0x1_0000_0000 { return false; }
      ghost var before, deltas := State(), Rollups.DeltasFor(tally, key, |value|);
      StagedRoom(before, key, value, deltas);
      StagedCounting(before, tally, key, value, limit);
      Leader.StagePutKeeps(before, key, value, deltas, limit);
      Leader.StillPending(before, key, value, deltas, limit);
      RefusedCases(before, tally, key, value, limit);
      Packing.StagedFields(before, key, value, deltas, limit);
      if off > 0 && off + |value| > limit { SealActive(); }
      ok := Place(key, value);
      if ok && |value| > limit { SealActive(); }
    }

    // ----- committing

    /** Every segment written since the last commit is fsynced, in no particular order. */
    method FsyncDirty()
      modifies this`files
      ensures files == Fsynced(old(files), dirty)
    {
      hide Fsynced;
      var todo := dirty;
      ghost var done: set<nat> := {};
      FsyncedNone(files);
      while todo != {}
        invariant todo <= dirty && done == dirty - todo && files == Fsynced(old(files), done)
        decreases |todo|
      {
        var id :| id in todo;
        FsyncedOne(old(files), done, id);
        if id in files { files := files[id := files[id].(durable := |files[id].content|)]; }
        todo := todo - {id};
        done := done + {id};
      }
      assert done == dirty;
    }

    /** The commit protocol: segments first, then the Commit record, then the log; with nothing staged it does
        nothing. */
    method Commit(lsn: u64)
      requires Valid() && wal.nextLsn <= Leader.MAX_U64 && (stage.Some? ==> On(wal.log).pend.Some? || !pending)
      modifies this`files, this`wal, this`dirty, this`pending, this`spec
      ensures Valid() && !pending && spec.acked == |wal.log|
      ensures old(pending) ==> State() == Leader.CommitAll(old(State()), lsn)
      ensures !old(pending) ==> State() == old(State())
    {
      hide Leader.Inv, CountingOf, Leader.Clean, On, Fsynced, Leader.CommitAll, SetOf;
      if !pending {
        NothingPending(State());
        return;
      }
      ghost var before := State();
      CommittedIs(wal, nextFree, files, dirty, Mem(), stage, spec, lsn);
      Leader.CommitKeeps(before, lsn);
      CommittedCounting(wal, tally, lsn);
      FsyncDirty();
      wal := Logged(wal, Record.Commit(lsn));
      wal := wal.(written := |wal.log|);
      wal := wal.(durable := wal.written);
      pending, dirty := false, {};
      spec := spec.(acked := |wal.log|);
    }

    // ----- compacting

    /** Does rewriting the segment free anything? Bytes of puts at or below the horizon that are not current count. */
    method ReclaimableBytes(id: nat, horizon: nat) returns (bytes: nat)
      ensures bytes > 0 <==> Reclaims(index, locs, id, horizon)
    {
      var live := set k | k in index && index[k].seg == id :: index[k].lsn;
      assert live == LiveLsns(index, id);
      bytes := 0;
      var todo := locs.Keys;
      while todo != {}
        invariant todo <= locs.Keys
        invariant bytes > 0 <==> exists l ::
          l in locs && l !in todo && Dead(index, locs, id, horizon, l) && locs[l].len > 0
        decreases |todo|
      {
        hide LiveLsns;
        var l :| l in todo;
        if locs[l].seg == id && l !in live && l <= horizon { bytes := bytes + locs[l].len; }
        todo := todo - {l};
      }
    }

    /** The first sealed segment worth rewriting. */
    method Choose(horizon: nat) returns (chosen: Option<nat>)
      ensures chosen.Some? ==> Chosen(index, locs, sealed, horizon, chosen.value)
      ensures chosen.None? ==> forall id :: id in sealed ==> !Reclaims(index, locs, id, horizon)
    {
      hide Reclaims;
      var i := 0;
      while i < |sealed|
        invariant i <= |sealed| && forall j :: 0 <= j < i ==> !Reclaims(index, locs, sealed[j], horizon)
      {
        var bytes := ReclaimableBytes(sealed[i], horizon);
        if bytes > 0 {
          assert FirstToReclaim(index, locs, sealed, horizon, i);
          return Some(sealed[i]);
        }
        i := i + 1;
      }
      chosen := None;
    }

    /** The puts to keep, each once, by their place in the old segment. */
    method KeepList(from: nat, horizon: nat) returns (keep: seq<nat>)
      ensures forall l :: l in keep <==> Leader.Kept(Mem(), from, horizon, l)
      ensures Distinct(keep)
      ensures (forall l :: l in keep ==> l in locs) && ByOffset(locs, keep)
    {
      var live := set k | k in index && index[k].seg == from :: index[k].lsn;
      keep := [];
      var todo := locs.Keys;
      while todo != {}
        invariant todo <= locs.Keys
        invariant forall l :: l in keep <==>
          l in locs && l !in todo && locs[l].seg == from && (l in live || l > horizon)
        invariant Distinct(keep)
        invariant ByOffset(locs, keep)
        decreases |todo|
      {
        var l :| l in todo;
        todo := todo - {l};
        if locs[l].seg == from && (l in live || l > horizon) { keep := InsertByOffset(locs, keep, l); }
      }
      forall l ensures l in keep <==> Leader.Kept(Mem(), from, horizon, l) {
        LiveIsLive(Mem(), from, l);
      }
    }

    /** Logs the swap, and the remap in chunks. */
    method LogCompaction(from: nat, to: nat, chunks: seq<seq<RemapEntry>>)
      requires wal.nextLsn + |chunks| < Leader.MAX_U64 && from <= Leader.MAX_U64 && to <= Leader.MAX_U64
      requires CountingOf(tally, wal.log)
      modifies this`wal
      ensures wal.log == old(wal).log +
        ([Entry(old(wal).nextLsn, SegmentSwap(from, to))] + Leader.RemapRecords(old(wal).nextLsn + 1, to, chunks))
      ensures wal.nextLsn == old(wal).nextLsn + 1 + |chunks| && CountingOf(tally, wal.log)
      ensures wal.written == old(wal).written && wal.durable == old(wal).durable
    {
      hide CountingOf, Leader.RemapRecords;
      ghost var w := wal;
      CountingOther(tally, wal.log, Entry(wal.nextLsn, SegmentSwap(from, to)));
      wal := Logged(wal, SegmentSwap(from, to));
      NoRemaps(w, from, to, chunks);
      var i := 0;
      while i < |chunks|
        invariant i <= |chunks| && CountingOf(tally, wal.log)
        invariant wal.log == CompactionLog(w, from, to, chunks, i) && wal.nextLsn == w.nextLsn + 1 + i
        invariant wal.written == w.written && wal.durable == w.durable
      {
        CountingOther(tally, wal.log, Entry(wal.nextLsn, SegmentRemap(to, chunks[i])));
        OneRemap(w, from, to, chunks, i);
        wal := Logged(wal, SegmentRemap(to, chunks[i]));
        i := i + 1;
      }
      assert chunks[..i] == chunks;
    }

    /** Chooses the segment, collects what to keep, copies it, and cuts the remap into records. */
    method Rewrite(horizon: nat) returns (work: Option<Rewritten>)
      requires Valid() && stage.None? && wal.nextLsn + |locs| < Leader.MAX_U64 && nextFree < Leader.MAX_U64
      requires |locs| < 0x1_0000_0000 && Compactable(Mem(), sealed, horizon)
      ensures work.None? ==> forall id :: id in sealed ==> !Reclaims(index, locs, id, horizon)
      ensures work.Some? ==>
        Ready(State(), horizon, work.value) && Chosen(index, locs, sealed, horizon, work.value.from)
    {
      hide Leader.Inv, CountingOf, Reclaims, Compactable, Leader.PlanFor, Fields, Plan, Leader.Copied, Leader.Kept;
      hide ByOffset, Encodable, RecordCodec.Flatten;
      var chosen := Choose(horizon);
      if chosen.None? { return None; }
      var from := chosen.value;
      FieldsHold(State());
      var keep := KeepList(from, horizon);
      KeptInFile(State(), from, horizon, keep);
      ReclaimsNeedsFile(State(), from, horizon);
      var ok, es, copy := CopyKept(files[from].content, locs, from, keep);
      PlanIsPlanFor(Mem(), from, horizon, keep, es);
      KeptShort(Mem(), sealed, horizon, from, keep);
      KeysShort(locs, from, keep, es);
      var chunks := RecordCodec.ChunkEntries(nextFree, es);
      FewChunks(chunks);
      KeepSmall(locs, keep);
      work := Some(Rewritten(from, es, copy, chunks));
    }

    /** A file under a fresh id: written, fsynced, and renamed into place. */
    method NewFile(copy: seq<byte>) returns (to: nat)
      modifies this`files, this`nextFree
      ensures to == old(nextFree) && nextFree == to + 1 && files == old(files)[to := File(copy, |copy|)]
    {
      to := nextFree;
      nextFree := to + 1;
      files := files[to := File(copy, |copy|)];
    }

    /** The new file is in place, fsynced; the compaction is logged and waits for its commit. */
    method Install(work: Rewritten, ghost horizon: nat)
      requires Valid() && stage.None? && Ready(State(), horizon, work)
      modifies this`files, this`wal, this`nextFree, this`stage, this`pending
      ensures Valid() && CompactsTo(old(State()), work.from, horizon, work.chunks, State())
    {
      hide Leader.Inv, CountingOf, Leader.PlanFor, Leader.SourcesIn, Leader.CompactStage, Leader.CanCompact;
      hide Leader.Copied, Leader.RemapRecords, RecordCodec.Flatten;
      ghost var s := State();
      StagedIs(wal, nextFree, files, dirty, Mem(), stage, spec, work.from, horizon, work.chunks, work.es, work.copy);
      Leader.CompactStageKeeps(s, work.from, horizon, work.chunks);
      var to := NewFile(work.copy);
      LogCompaction(work.from, to, work.chunks);
      stage, pending := Some(Pending(work.from, to, work.es)), true;
      NowPending(s, State());
    }

    /** Rewrites the first eligible sealed segment into a new file that is fsynced and renamed into place, and logs it;
        with nothing to reclaim it does nothing. */
    method CompactStage(horizon: nat) returns (found: bool)
      requires Valid() && stage.None? && wal.nextLsn + |locs| < Leader.MAX_U64 && nextFree < Leader.MAX_U64
      requires |locs| < 0x1_0000_0000 && Compactable(Mem(), sealed, horizon)
      modifies this`files, this`wal, this`nextFree, this`stage, this`pending
      ensures Valid()
      ensures !found ==> State() == old(State()) && forall id :: id in sealed ==> !Reclaims(index, locs, id, horizon)
      ensures found ==> exists from, chunks ::
        CompactsTo(old(State()), from, horizon, chunks, State()) && Chosen(index, locs, sealed, horizon, from)
    {
      hide Leader.Inv, CountingOf, Reclaims, Compactable, Chosen, Ready, CompactsTo;
      var work := Rewrite(horizon);
      if work.None? { return false; }
      Install(work.value, horizon);
      found := true;
    }

    /** Memory is repointed at the replacement and the reclaimed puts are forgotten. */
    method RepointMemory(p: Pending)
      modifies this`index, this`locs
      ensures index == MoveIndex(old(index), p.entries, p.to)
      ensures locs == MoveLocs(old(locs), p.entries, p.to) - Leader.Reclaimed(old(Mem()), p)
    {
      hide MoveIndex, MoveLocs, SetOf, Leader.EntryLsns;
      var dropped := set l | l in locs && locs[l].seg == p.from && l !in Leader.EntryLsns(p.entries);
      assert dropped == Leader.Reclaimed(Mem(), p);
      hide Leader.Reclaimed;
      var index', locs', extent := Repoint(index, locs, p.entries, p.to);
      locs' := Forget(locs', dropped);
      index, locs := index', locs';
    }

    /** Finishes a committed compaction: memory, the list of sealed segments, and the old file. */
    method CompactCommit()
      requires Valid() && stage.Some? && !pending
      modifies this`index, this`locs, this`sealed, this`files, this`stage, this`spec
      ensures State() == Leader.CompactCommit(old(State())) && Valid()
    {
      hide Leader.Inv, CountingOf, Leader.CompactCommit, MoveIndex, MoveLocs, SetOf, SwapOn, Without, Leader.Reclaimed;
      var p := stage.value;
      FinishedIs(wal, nextFree, files, dirty, Mem(), p, spec);
      FinishKeeps(State());
      RepointMemory(p);
      WithoutSet(sealed, p.from, p.to);
      var kept := Retain(sealed, p.from);
      sealed := kept + [p.to];
      files, stage := files - {p.from}, None;
      spec := spec.(view := SwapOn(spec.view, p.from, p.to, p.entries));
    }

    // ----- recovering

    /** Takes over what a replay of the log found. */
    method Adopt(replay: Replay, records: seq<Entry>, next: nat)
      modifies this`wal, this`index, this`locs, this`active, this`off, this`sealed, this`tally, this`pending,
        this`stage, this`dirty
      ensures wal == Journal(records, |records|, |records|, next) && Mem() == MemoryOf(replay.Base())
      ensures tally == replay.tally && !pending && stage == None && dirty == {}
    {
      wal := Journal(records, |records|, |records|, next);
      index, locs, active, off, sealed := replay.index, replay.locs, replay.active, replay.off, replay.sealed;
      tally, pending, stage, dirty := replay.tally, false, None, {};
    }

    /** Opens a store on the records of the log and the files that are there. It fails exactly if a segment the log
        needs is missing or too short; on what a crash leaves of a store it builds the store that must be reopened. */
    method Recover(records: seq<Entry>, highWater: nat, image: Files, ghost before: Leader.Store, ghost n: nat)
        returns (ok: bool)
      modifies this
      ensures ok <==> Recoverable(image, Recovery.Recovered(records))
      ensures ok ==> Mem() == MemoryOf(Recovery.Recovered(records)) && tally == Rollups.RollupOf(records)
      ensures ok ==>
        wal == Journal(records, |records|, |records|, highWater + 1) && !pending && stage == None && dirty == {}
      ensures ok ==> files == Rebuilt(image, Recovery.Recovered(records), Replaced(records))
      ensures ok ==> FirstFree(Recovery.Recovered(records), image, nextFree)
      ensures ok ==> forall id :: id in files ==> |files[id].content| == LengthIn(records, id)
      ensures ok && Survives(before, n, records, highWater) ==> State() == Reopened(before, n, image, nextFree)
    {
      hide Recoverable, Recovery.Recovered, Rebuilt, FirstFree, Rollups.RollupOf, Survives, SetOf, StoreOf, Reopened;
      hide Replaced;
      var replay, repaired, next;
      ok, replay, repaired, next := Prepare(records, image);
      if !ok { return; }
      files, nextFree := repaired, next;
      spec := SpecOf(before.vals, highWater + 1, Recovery.Recovered(records), |records|);
      Adopt(replay, records, highWater + 1);
      forall id | id in files ensures |files[id].content| == LengthIn(records, id) {
        RebuiltLengths(image, Recovery.Recovered(records), Replaced(records), id);
      }
      ReopenedIs(before, n, records, highWater, image, next);
    }
  }

  /** The records are what a crash leaves of a store's log, cut after its last Commit. */
  ghost predicate Survives(s: Leader.Store, n: nat, records: seq<Entry>, highWater: nat) {
    && n <= |s.log| && records == Surviving(s.log, n) && highWater == HighWater(s.log[..n])
    && Legal(records) && On(records).pend.None?
  }

  /** The segments that the compactions of the log replaced. */
  ghost function Replaced(log: seq<Entry>): set<nat> {
    set k | 0 <= k < |Recovery.Gather(log).swaps| :: Recovery.Gather(log).swaps[k].0
  }

  /** The length the log gives a file: none for a segment that was replaced or never named. */
  ghost function LengthIn(log: seq<Entry>, id: nat): nat {
    var r := Recovery.Recovered(log);
    if id in Replaced(log) || id !in r.lens then 0 else r.lens[id]
  }

  /** Replays the log and repairs the files. */
  method Prepare(records: seq<Entry>, image: Files) returns (ok: bool, replay: Replay, fs: Files, next: nat)
    ensures fresh(replay) && replay.Base() == Recovery.Recovered(records) && replay.tally == Rollups.RollupOf(records)
    ensures ok <==> Recoverable(image, Recovery.Recovered(records))
    ensures ok ==> fs == Rebuilt(image, Recovery.Recovered(records), Replaced(records))
    ensures ok ==> FirstFree(Recovery.Recovered(records), image, next)
  {
    hide Recoverable, Recovery.Recovered, Rebuilt, FirstFree, Rollups.RollupOf, Recovery.Gather;
    replay := new Replay();
    var replaced := replay.Run(records);
    var r := replay.Base();
    assert SetOf(replaced) == Replaced(records);
    hide SetOf, Replaces;
    ok, fs := RepairFiles(image, r, replaced);
    RecoveredActive(records);
    next := FirstFreeId(r, image);
  }

  /** The open segment has an entry in the length table of every log. */
  lemma {:induction false} RecoveredActive(records: seq<Entry>)
    ensures Recovery.Recovered(records).active in Recovery.Recovered(records).lens
  {
    AppliedKnowsActive(Recovery.Gather(records), |Recovery.Gather(records).swaps|);
  }

  lemma {:induction false} AppliedKnowsActive(g: Recovery.Gathered, n: nat)
    requires n <= |g.swaps|
    ensures Recovery.Applied(g, n).active in Recovery.Applied(g, n).lens
  {
    hide MoveIndex, MoveLocs, Extent;
    if n > 0 { AppliedKnowsActive(g, n - 1); }
  }

  ghost function SpecOf(vals: Values, next: nat, r: Layout, acked: nat): Spec {
    Spec(map l | l in vals && l < next :: vals[l], r, acked)
  }

  lemma {:induction false} ReopenedIs(s: Leader.Store, n: nat, records: seq<Entry>, highWater: nat, image: Files,
                                      nextFree: nat)
    ensures Survives(s, n, records, highWater) ==>
      var r, next, c := Recovery.Recovered(records), highWater + 1, |records|;
      Reopened(s, n, image, nextFree) ==
        StoreOf(Journal(records, c, c, next), nextFree, Rebuilt(image, r, Replaced(records)), {}, MemoryOf(r), None,
                SpecOf(s.vals, next, r, c))
  {
    hide Recovery.Recovered, Repaired, Rebuilt, HighWater, Legal, On, Replaced;
    if Survives(s, n, records, highWater) {
      RecoveredFacts(records);
      RebuiltIsRepaired(image, Recovery.Recovered(records), Replaced(records));
    }
  }

  function MemoryOf(r: Layout): Leader.Memory {
    Leader.Memory(r.index, r.locs, r.active, r.off, r.sealed)
  }

  lemma {:induction false} RecoveredFacts(records: seq<Entry>)
    requires Legal(records) && On(records).pend.None?
    ensures var r := Recovery.Recovered(records);
      && (forall id :: id in Replaced(records) ==> id in r.lens && id !in LiveSegs(r))
      && (forall id :: id in r.lens && id !in LiveSegs(r) ==> r.lens[id] == 0)
  {
    hide Legal, On, Recovery.Recovered, Recovery.Gather, Sound, LocsIn, IndexIn;
    Recovery.ReplayIsLive(records);
    OnSound(records);
    Leader.SoundFacts(On(records));
    var r := On(records).r;
    forall id | id in Replaced(records) ensures id in r.lens && id !in LiveSegs(r) {
      var k :| 0 <= k < |Recovery.Gather(records).swaps| && Recovery.Gather(records).swaps[k].0 == id;
      Recovery.ReplacedNotCurrent(records, k);
      SwapsKnown(records, k);
    }
  }

  /** A replaced segment has an entry in the length table. */
  lemma {:induction false} SwapsKnown(log: seq<Entry>, k: nat)
    requires Legal(log) && On(log).pend.None? && k < |Recovery.Gather(log).swaps|
    ensures Recovery.Gather(log).swaps[k].0 in On(log).r.lens
  {
    hide On, Legal, Recovery.Gather;
    Recovery.GatherAgrees(log);
    AppliedKnows(Recovery.Gather(log), |Recovery.Gather(log).swaps|, k);
  }

  lemma {:induction false} AppliedKnows(g: Recovery.Gathered, n: nat, k: nat)
    requires k < n <= |g.swaps|
    ensures g.swaps[k].0 in Recovery.Applied(g, n).lens
  {
    hide MoveIndex, MoveLocs, Extent;
    if k < n - 1 { AppliedKnows(g, n - 1, k); }
  }

  lemma {:induction false} FinishedIs(wal: Journal, nextFree: nat, files: Files, dirty: set<nat>, mem: Leader.Memory,
                                      p: Pending, spec: Spec)
    ensures Leader.CompactCommit(StoreOf(wal, nextFree, files, dirty, mem, Some(p), spec)) ==
      StoreOf(wal, nextFree, files - {p.from}, dirty,
              mem.(index := MoveIndex(mem.index, p.entries, p.to),
                locs := MoveLocs(mem.locs, p.entries, p.to) - Leader.Reclaimed(mem, p),
                   sealed := mem.sealed - {p.from} + {p.to}),
              None, spec.(view := SwapOn(spec.view, p.from, p.to, p.entries)))
  {
    hide MoveIndex, MoveLocs, Leader.Reclaimed, SwapOn;
  }

  lemma {:induction false} FinishKeeps(s: Leader.Store)
    requires Leader.Inv(s) && s.plan.Some? && s.acked >= |s.log|
    ensures Leader.Inv(Leader.CompactCommit(s)) && Leader.CompactCommit(s).log == s.log
    ensures Leader.CompactCommit(s).acked == s.acked
  {
    assert s.durable == |s.log| && Committed(s.log) == |s.log| by { WholeLogDurable(s); }
    hide Leader.Inv, SwapOn, Leader.SwapMemory, Committed;
    Leader.CompactCommitKeeps(s);
  }

  lemma {:induction false} WholeLogDurable(s: Leader.Store)
    requires Leader.Inv(s) && s.acked >= |s.log|
    ensures s.durable == |s.log| && Committed(s.log) == |s.log|
  {
    hide Leader.ViewInv, Leader.FileInv, Leader.Backed, Legal, On, Committed;
    assert s.log[..|s.log|] == s.log;
  }

  // ----- finishing a compaction

  /** The locations without the dropped puts. */
  method Forget(locs: map<nat, PutLoc>, dropped: set<nat>) returns (left: map<nat, PutLoc>)
    ensures left == locs - dropped
  {
    left := locs;
    var todo := dropped;
    ghost var done: set<nat> := {};
    while todo != {}
      invariant todo <= dropped && done == dropped - todo && left == locs - done
      decreases |todo|
    {
      var l :| l in todo;
      left := left - {l};
      todo := todo - {l};
      done := done + {l};
    }
    assert done == dropped;
  }

  datatype Rewritten = Rewritten(from: nat, es: seq<RemapEntry>, copy: seq<byte>, chunks: seq<seq<RemapEntry>>)

  /** A rewrite that can be installed: the plan is complete, and the copy has its values. */
  ghost predicate Ready(s: Leader.Store, horizon: nat, w: Rewritten) {
    && s.nextLsn + |w.chunks| < Leader.MAX_U64 && s.nextFree < Leader.MAX_U64 && w.from <= Leader.MAX_U64 &&
         w.from in s.files
    && RecordCodec.Flatten(w.chunks) == w.es && Leader.PlanFor(s.mem, w.from, horizon, w.es)
    && InFile(s.files[w.from].content, s.mem.locs, w.es)
    && w.copy == Leader.Copied(s.files[w.from].content, s.mem.locs, w.es)
  }

  /** What staging a compaction does to the store. */
  ghost predicate CompactsTo(s: Leader.Store, from: nat, horizon: nat, chunks: seq<seq<RemapEntry>>, t: Leader.Store) {
    && Leader.CanCompact(s, from, horizon, chunks) && Leader.SourcesIn(s, from, RecordCodec.Flatten(chunks))
    && t == Leader.CompactStage(s, from, chunks)
  }

  lemma {:induction false} NowPending(s: Leader.Store, t: Leader.Store)
    requires Leader.Inv(s) && |t.log| > |s.log| && t.acked == s.acked
    ensures t.acked < |t.log|
  {
    hide Leader.ViewInv, Leader.FileInv, Leader.Backed, Legal, On;
  }

  ghost function CompactionLog(w: Journal, from: nat, to: nat, chunks: seq<seq<RemapEntry>>, i: nat): seq<Entry>
    requires w.nextLsn + |chunks| < Leader.MAX_U64 && from <= Leader.MAX_U64 && to <= Leader.MAX_U64 && i <= |chunks|
  {
    w.log + ([Entry(w.nextLsn, SegmentSwap(from, to))] + Leader.RemapRecords(w.nextLsn + 1, to, chunks[..i]))
  }

  lemma {:induction false} NoRemaps(w: Journal, from: nat, to: nat, chunks: seq<seq<RemapEntry>>)
    requires w.nextLsn + |chunks| < Leader.MAX_U64 && from <= Leader.MAX_U64 && to <= Leader.MAX_U64
    ensures CompactionLog(w, from, to, chunks, 0) == Logged(w, SegmentSwap(from, to)).log
  {
  }

  lemma {:induction false} OneRemap(w: Journal, from: nat, to: nat, chunks: seq<seq<RemapEntry>>, i: nat)
    requires w.nextLsn + |chunks| < Leader.MAX_U64 && from <= Leader.MAX_U64 && to <= Leader.MAX_U64 && i < |chunks|
    ensures CompactionLog(w, from, to, chunks, i + 1) ==
      CompactionLog(w, from, to, chunks, i) + [Entry(w.nextLsn + 1 + i, SegmentRemap(to, chunks[i]))]
  {
    assert chunks[..i + 1][..i] == chunks[..i];
  }

  lemma {:induction false} FewChunks(chunks: seq<seq<RemapEntry>>)
    requires forall c :: 0 <= c < |chunks| ==> chunks[c] != []
    ensures |chunks| <= |RecordCodec.Flatten(chunks)|
  {
    if |chunks| > 0 { FewChunks(chunks[..|chunks| - 1]); }
  }

  lemma {:induction false} KeptShort(m: Leader.Memory, sealed: seq<nat>, horizon: nat, from: nat, keep: seq<nat>)
    requires Compactable(m, sealed, horizon)
    requires Chosen(m.index, m.locs, sealed, horizon, from)
    requires forall l :: l in keep ==> l in m.locs && Leader.Kept(m, from, horizon, l)
    ensures forall i :: 0 <= i < |keep| ==>
      keep[i] in m.locs && |m.locs[keep[i]].key| <= RecordCodec.MAX_COMPACTABLE_KEY
  {
    hide Chosen;
    forall i | 0 <= i < |keep|
      ensures keep[i] in m.locs && |m.locs[keep[i]].key| <= RecordCodec.MAX_COMPACTABLE_KEY
    {
      assert keep[i] in keep;
    }
  }

  lemma {:induction false} KeysShort(locs: map<nat, PutLoc>, from: nat, keep: seq<nat>, es: seq<RemapEntry>)
    requires Plan(locs, from, keep, es) && |es| == |keep|
    requires forall i :: 0 <= i < |keep| ==> keep[i] in locs && |locs[keep[i]].key| <= RecordCodec.MAX_COMPACTABLE_KEY
    ensures forall i :: 0 <= i < |es| ==> |es[i].key| <= RecordCodec.MAX_COMPACTABLE_KEY
  {
    hide Total;
    forall i | 0 <= i < |es|
      ensures |es[i].key| <= RecordCodec.MAX_COMPACTABLE_KEY
    {
      assert locs[keep[i]].key == es[i].key;
    }
  }

  lemma {:induction false} StagedIs(wal: Journal, nextFree: nat, files: Files, dirty: set<nat>, mem: Leader.Memory,
                                    stage: Option<Pending>, spec: Spec,
                                    from: nat, horizon: nat, chunks: seq<seq<RemapEntry>>, es: seq<RemapEntry>,
                                      copy: seq<byte>)
    requires stage.None? && wal.nextLsn + |chunks| < Leader.MAX_U64 && nextFree < Leader.MAX_U64
    requires from <= Leader.MAX_U64 && from in files
    requires RecordCodec.Flatten(chunks) == es && InFile(files[from].content, mem.locs, es)
    requires copy == Leader.Copied(files[from].content, mem.locs, es)
    requires Leader.PlanFor(mem, from, horizon, es)
    ensures var s := StoreOf(wal, nextFree, files, dirty, mem, stage, spec);
      && Leader.CanCompact(s, from, horizon, chunks) && Leader.SourcesIn(s, from, es)
      && Leader.CompactStage(s, from, chunks) ==
           StoreOf(wal.(log := wal.log +
             ([Entry(wal.nextLsn, SegmentSwap(from, nextFree))] +
              Leader.RemapRecords(wal.nextLsn + 1, nextFree, chunks)),
                        nextLsn := wal.nextLsn + 1 + |chunks|),
                   nextFree + 1, files[nextFree := File(copy, |copy|)], dirty, mem, Some(Pending(from, nextFree, es)),
                     spec)
  {
    hide Leader.PlanFor, Leader.Copied, Leader.RemapRecords, RecordCodec.Flatten;
  }

  // ----- what the invariant says about puts

  /** LSNs and lengths of located puts fit their fields. */
  ghost predicate Narrow(locs: map<nat, PutLoc>) {
    forall l :: l in locs ==> l <= Leader.MAX_U64 && locs[l].len < 0x1_0000_0000
  }

  lemma {:induction false} NarrowMoved(locs: map<nat, PutLoc>, es: seq<RemapEntry>, to: nat)
    requires Narrow(locs)
    ensures Narrow(MoveLocs(locs, es, to))
  {
    if |es| > 0 { NarrowMoved(locs, es[..|es| - 1], to); }
  }

  lemma {:induction false} NarrowLog(log: seq<Entry>)
    ensures Narrow(On(log).r.locs)
  {
    hide Narrow, After;
    if |log| == 0 {
      assert Narrow(map[]) by { NarrowNothing(); }
    } else {
      NarrowLog(log[..|log| - 1]);
      NarrowAfter(On(log[..|log| - 1]), log[|log| - 1]);
    }
  }

  lemma {:induction false} NarrowNothing()
    ensures Narrow(map[])
  {
  }

  lemma {:induction false} NarrowAfter(s: Live, e: Entry)
    requires Narrow(s.r.locs)
    ensures Narrow(After(s, e).r.locs)
  {
    if e.rec.Commit? && s.pend.Some? { NarrowMoved(s.r.locs, s.pend.value.entries, s.pend.value.to); }
  }

  lemma {:induction false} FieldsHold(s: Leader.Store)
    requires Leader.Inv(s) && s.plan.None?
    requires |s.mem.locs| < 0x1_0000_0000
    ensures Fields(s.mem.locs)
  {
    hide Legal, On, Leader.FileInv, Leader.Backed;
    NarrowLog(s.log);
  }

  lemma {:induction false} MirrorFacts(s: Leader.Store)
    requires Leader.Inv(s) && s.plan.None?
    ensures LocsIn(s.view) && Leader.Mirrors(s.mem, s.view) && Leader.Hosted(s.files, s.dirty, s.view, s.vals)
    ensures forall id :: id in s.files ==> id < s.nextFree
  {
    hide Legal, On, Leader.Backed, LocsIn, IndexIn, Leader.Mirrors, Leader.Hosted, Sound;
    OnSound(s.log);
    Leader.SoundFacts(On(s.log));
  }

  lemma {:induction false} KeptInFile(s: Leader.Store, from: nat, horizon: nat, keep: seq<nat>)
    requires Leader.Inv(s) && s.plan.None? && from in s.mem.sealed
    requires forall l :: l in keep ==> Leader.Kept(s.mem, from, horizon, l)
    ensures forall i :: 0 <= i < |keep| ==>
      keep[i] in s.mem.locs && s.mem.locs[keep[i]].seg == from && from in s.files &&
        s.mem.locs[keep[i]].off + s.mem.locs[keep[i]].len <= |s.files[from].content|
  {
    hide Leader.Inv, Leader.Hosted, LocsIn;
    MirrorFacts(s);
    forall i | 0 <= i < |keep|
      ensures keep[i] in s.mem.locs && s.mem.locs[keep[i]].seg == from && from in s.files
      ensures s.mem.locs[keep[i]].off + s.mem.locs[keep[i]].len <= |s.files[from].content|
    {
      assert Leader.Kept(s.mem, from, horizon, keep[i]);
      Leader.SourceRead(s.files, s.dirty, s.view, s.vals, keep[i]);
    }
  }

  lemma {:induction false} ReclaimsNeedsFile(s: Leader.Store, from: nat, horizon: nat)
    requires Leader.Inv(s) && s.plan.None? && from in s.mem.sealed && Reclaims(s.mem.index, s.mem.locs, from, horizon)
    ensures from in s.files && from < s.nextFree
  {
    hide Leader.Inv, Leader.Hosted, LocsIn;
    MirrorFacts(s);
    var l :| l in s.mem.locs && Dead(s.mem.index, s.mem.locs, from, horizon, l) && s.mem.locs[l].len > 0;
    Leader.SourceRead(s.files, s.dirty, s.view, s.vals, l);
  }

  ghost predicate ByOffset(locs: map<nat, PutLoc>, keep: seq<nat>) {
    && (forall i :: 0 <= i < |keep| ==> keep[i] in locs)
    && forall i, j :: 0 <= i < j < |keep| ==> locs[keep[i]].off <= locs[keep[j]].off
  }

  method InsertByOffset(locs: map<nat, PutLoc>, keep: seq<nat>, l: nat) returns (more: seq<nat>)
    requires ByOffset(locs, keep) && l in locs && l !in keep && Distinct(keep)
    ensures ByOffset(locs, more) && (forall x :: x in more <==> x in keep || x == l)
    ensures Distinct(more)
  {
    var p := 0;
    while p < |keep| && locs[keep[p]].off <= locs[l].off
      invariant p <= |keep| && forall i :: 0 <= i < p ==> locs[keep[i]].off <= locs[l].off
    {
      p := p + 1;
    }
    more := keep[..p] + [l] + keep[p..];
    InsertedDistinct(keep, p, l);
    InsertedOrdered(locs, keep, p, l);
    InsertedMembers(keep, p, l);
  }

  lemma {:induction false} InsertedAt(keep: seq<nat>, p: nat, l: nat, i: nat)
    requires p <= |keep| && i <= |keep|
    ensures (keep[..p] + [l] + keep[p..])[i] == if i < p then keep[i] else if i == p then l else keep[i - 1]
  {
  }

  lemma {:induction false} InsertedMembers(keep: seq<nat>, p: nat, l: nat)
    requires p <= |keep|
    ensures forall x :: x in keep[..p] + [l] + keep[p..] <==> x in keep || x == l
  {
    assert keep == keep[..p] + keep[p..];
  }

  lemma {:induction false} InsertedDistinct(keep: seq<nat>, p: nat, l: nat)
    requires p <= |keep| && l !in keep && Distinct(keep)
    ensures var more := keep[..p] + [l] + keep[p..]; Distinct(more)
  {
    var more := keep[..p] + [l] + keep[p..];
    forall i, j | 0 <= i < j < |more| ensures more[i] != more[j] {
      InsertedAt(keep, p, l, i);
      InsertedAt(keep, p, l, j);
    }
  }

  lemma {:induction false} InsertedOrdered(locs: map<nat, PutLoc>, keep: seq<nat>, p: nat, l: nat)
    requires p <= |keep| && ByOffset(locs, keep) && l in locs
    requires (forall i :: 0 <= i < p ==> locs[keep[i]].off <= locs[l].off)
    requires (p < |keep| ==> locs[l].off < locs[keep[p]].off)
    ensures ByOffset(locs, keep[..p] + [l] + keep[p..])
  {
    var more := keep[..p] + [l] + keep[p..];
    forall i | 0 <= i < |more| ensures more[i] in locs { InsertedAt(keep, p, l, i); }
    forall i, j | 0 <= i < j < |more| ensures locs[more[i]].off <= locs[more[j]].off {
      InsertedAt(keep, p, l, i);
      InsertedAt(keep, p, l, j);
      if i == p && j - 1 > p { assert locs[keep[p]].off <= locs[keep[j - 1]].off; }
    }
  }

  function LiveLsns(index: map<Text, Loc>, id: nat): set<nat> {
    set k | k in index && index[k].seg == id :: index[k].lsn
  }

  ghost predicate Dead(index: map<Text, Loc>, locs: map<nat, PutLoc>, id: nat, horizon: nat, l: nat)
    requires l in locs
  {
    locs[l].seg == id && l !in LiveLsns(index, id) && l <= horizon
  }

  /** Position i has the first sealed segment worth rewriting. */
  ghost predicate FirstToReclaim(index: map<Text, Loc>, locs: map<nat, PutLoc>, sealed: seq<nat>, horizon: nat,
                                 i: int) {
    && 0 <= i < |sealed| && Reclaims(index, locs, sealed[i], horizon)
    && forall j :: 0 <= j < i ==> !Reclaims(index, locs, sealed[j], horizon)
  }

  ghost predicate Chosen(index: map<Text, Loc>, locs: map<nat, PutLoc>, sealed: seq<nat>, horizon: nat, from: nat) {
    exists i :: FirstToReclaim(index, locs, sealed, horizon, i) && from == sealed[i]
  }

  /** The keys that the next compaction keeps are short enough to be cut into records. */
  ghost predicate Compactable(m: Leader.Memory, sealed: seq<nat>, horizon: nat) {
    forall from, l :: Chosen(m.index, m.locs, sealed, horizon, from) && Leader.Kept(m, from, horizon, l) ==>
      |m.locs[l].key| <= RecordCodec.MAX_COMPACTABLE_KEY
  }

  ghost predicate Reclaims(index: map<Text, Loc>, locs: map<nat, PutLoc>, id: nat, horizon: nat) {
    exists l :: l in locs && Dead(index, locs, id, horizon, l) && locs[l].len > 0
  }

  // ----- copying

  /** What the copied entries must say of the kept puts so far. */
  ghost predicate Plan(locs: map<nat, PutLoc>, from: nat, keep: seq<nat>, es: seq<RemapEntry>) {
    && |es| <= |keep|
    && forall i :: 0 <= i < |es| ==>
         es[i].lsn == keep[i] && keep[i] in locs && es[i].offset == Total(es[..i]) &&
         locs[keep[i]] == PutLoc(es[i].key, from, locs[keep[i]].off, es[i].len)
  }

  /** Puts as far as a compaction is concerned: their LSNs and lengths fit the fields of a remap entry. */
  ghost predicate Fields(locs: map<nat, PutLoc>) {
    |locs| < 0x1_0000_0000 &&
    forall l :: l in locs ==> l <= Leader.MAX_U64 && locs[l].len < 0x1_0000_0000
  }

  lemma {:induction false} TotalSmall(es: seq<RemapEntry>)
    ensures Total(es) <= |es| * 0x1_0000_0000
  {
    if |es| > 0 { TotalSmall(es[..|es| - 1]); }
  }

  lemma {:induction false} KeepSmall(locs: map<nat, PutLoc>, keep: seq<nat>)
    requires (forall i :: 0 <= i < |keep| ==> keep[i] in locs) && Distinct(keep)
    ensures |keep| <= |locs|
    decreases |keep|
  {
    if |keep| > 0 {
      var n := |keep| - 1;
      var rest := map l | l in locs && l != keep[n] :: locs[l];
      assert rest.Keys == locs.Keys - {keep[n]};
      assert |rest| == |rest.Keys| && |locs| == |locs.Keys|;
      KeepSmall(rest, keep[..n]);
    }
  }

  lemma {:induction false} PlanMore(locs: map<nat, PutLoc>, from: nat, keep: seq<nat>, es: seq<RemapEntry>,
                                    e: RemapEntry)
    requires Plan(locs, from, keep, es) && |es| < |keep| && e.lsn == keep[|es|] && keep[|es|] in locs
    requires e.offset == Total(es)
    requires locs[keep[|es|]] == PutLoc(e.key, from, locs[keep[|es|]].off, e.len)
    ensures Plan(locs, from, keep, es + [e]) && Total(es + [e]) == Total(es) + e.len
  {
    var more := es + [e];
    assert more[..|es|] == es;
    hide Total;
    forall i | 0 <= i < |more|
      ensures more[i].lsn == keep[i] && keep[i] in locs && more[i].offset == Total(more[..i])
      ensures locs[keep[i]] == PutLoc(more[i].key, from, locs[keep[i]].off, more[i].len)
    {
      if i < |es| { assert more[..i] == es[..i]; }
    }
  }

  /** The entries name puts that lie within the file. */
  ghost predicate InFile(file: seq<byte>, locs: map<nat, PutLoc>, es: seq<RemapEntry>) {
    forall i :: 0 <= i < |es| ==> es[i].lsn in locs && locs[es[i].lsn].off + es[i].len <= |file|
  }

  lemma {:induction false} CopiedMore(old_: seq<byte>, locs: map<nat, PutLoc>, es: seq<RemapEntry>, e: RemapEntry)
    requires InFile(old_, locs, es) && e.lsn in locs && locs[e.lsn].off + e.len <= |old_|
    ensures InFile(old_, locs, es + [e])
    ensures Leader.Copied(old_, locs, es + [e]) ==
      Leader.Copied(old_, locs, es) + old_[locs[e.lsn].off..locs[e.lsn].off + e.len]
  {
    assert (es + [e])[..|es|] == es;
  }

  lemma {:induction false} PlanIsPlanFor(m: Leader.Memory, from: nat, horizon: nat, keep: seq<nat>, es: seq<RemapEntry>)
    requires from in m.sealed && Plan(m.locs, from, keep, es) && |es| == |keep|
    requires (forall l :: l in keep <==> Leader.Kept(m, from, horizon, l)) && Distinct(keep)
    ensures Leader.PlanFor(m, from, horizon, es)
  {
    hide Leader.Kept, Total;
    forall i | 0 <= i < |es| ensures Leader.Kept(m, from, horizon, es[i].lsn) { assert keep[i] in keep; }
    forall l | Leader.Kept(m, from, horizon, l) ensures exists i :: 0 <= i < |es| && es[i].lsn == l {
      assert l in keep;
      var i :| 0 <= i < |keep| && keep[i] == l;
      assert es[i].lsn == l;
    }
  }

  /** Reads each kept value from the old file and appends it to the new one; a short read fails. */
  method CopyKept(file: seq<byte>, locs: map<nat, PutLoc>, from: nat, keep: seq<nat>)
      returns (ok: bool, es: seq<RemapEntry>, copy: seq<byte>)
    requires Fields(locs) && (forall i :: 0 <= i < |keep| ==> keep[i] in locs && locs[keep[i]].seg == from)
    requires Distinct(keep)
    ensures ok <==> forall i :: 0 <= i < |keep| ==> locs[keep[i]].off + locs[keep[i]].len <= |file|
    ensures ok ==> Plan(locs, from, keep, es) && |es| == |keep|
    ensures ok ==> InFile(file, locs, es) && copy == Leader.Copied(file, locs, es)
  {
    hide Total, Leader.Copied, Plan, Fields;
    es, copy := [], [];
    KeepSmall(locs, keep);
    NothingCopied(file, locs, from, keep);
    var n := 0;
    while n < |keep|
      invariant n <= |keep| && |es| == n && Plan(locs, from, keep, es) && |copy| == Total(es)
      invariant forall i :: 0 <= i < n ==> locs[keep[i]].off + locs[keep[i]].len <= |file|
      invariant InFile(file, locs, es) && copy == Leader.Copied(file, locs, es)
    {
      var l := locs[keep[n]];
      if l.off + l.len > |file| { return false, es, copy; }
      EntryFields(locs, keep[n], es);
      var e := RemapEntry(l.key, keep[n], |copy|, l.len);
      PlanMore(locs, from, keep, es, e);
      CopiedMore(file, locs, es, e);
      es, copy := es + [e], copy + file[l.off..l.off + l.len];
      n := n + 1;
    }
    ok := true;
  }

  lemma {:induction false} NothingCopied(file: seq<byte>, locs: map<nat, PutLoc>, from: nat, keep: seq<nat>)
    ensures Plan(locs, from, keep, []) && Total([]) == 0 && InFile(file, locs, [])
    ensures Leader.Copied(file, locs, []) == []
  {
  }

  lemma {:induction false} EntryFields(locs: map<nat, PutLoc>, l: nat, es: seq<RemapEntry>)
    requires Fields(locs) && l in locs && |es| <= |locs|
    ensures l <= Leader.MAX_U64 && locs[l].len < 0x1_0000_0000 && Total(es) <= Leader.MAX_U64
  {
    hide Total;
    TotalSmall(es);
  }

  lemma {:induction false} LiveIsLive(m: Leader.Memory, id: nat, l: nat)
    ensures l in LiveLsns(m.index, id) <==> Leader.IsLive(m, id, l)
  {
  }

  lemma {:induction false} NothingPending(s: Leader.Store)
    requires Leader.Inv(s) && s.acked >= |s.log|
    ensures s.acked == |s.log|
  {
    hide Leader.ViewInv, Leader.FileInv, Leader.Backed, Legal, On;
  }

  lemma {:induction false} CommittedIs(wal: Journal, nextFree: nat, files: Files, dirty: set<nat>, mem: Leader.Memory,
                                       stage: Option<Pending>, spec: Spec, lsn: u64)
    requires wal.nextLsn <= Leader.MAX_U64
    ensures var w := Logged(wal, Record.Commit(lsn));
      Leader.CommitAll(StoreOf(wal, nextFree, files, dirty, mem, stage, spec), lsn) ==
        StoreOf(w.(written := |w.log|, durable := |w.log|), nextFree, Fsynced(files, dirty), {}, mem, stage,
          spec.(acked := |w.log|))
  {
    hide Fsynced;
  }

  lemma {:induction false} CommittedCounting(wal: Journal, t: Rollups.Tally, lsn: u64)
    requires CountingOf(t, wal.log) && wal.nextLsn <= Leader.MAX_U64
    ensures CountingOf(t, Logged(wal, Record.Commit(lsn)).log)
  {
    hide CountingOf;
    CountingOther(t, wal.log, Entry(wal.nextLsn, Record.Commit(lsn)));
  }
}
