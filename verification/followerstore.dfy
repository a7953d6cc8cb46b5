/** The follower's store object: applying records and going through barriers, as methods that update its fields. */
module FollowerObject {
  import opened Bytes
  import opened Records
  import opened Wal
  import opened LogModel
  import opened Disk
  import opened SegmentStore
  import Leader
  import Follower
  import FollowerRuns
  import Rollups

  /** The write-ahead log: every record applied, how many are in the file, how many are fsynced. */
  datatype Journal = Journal(log: seq<Entry>, written: nat, durable: nat)

  ghost function ReplicaOf(wal: Journal, files: Files, dirty: set<nat>, open: set<nat>, view: Layout,
                           swap: Option<Follower.Swap>,
                           retired: seq<(nat, nat)>, lastCommit: nat, tally: Rollups.Tally): Follower.Replica {
    Follower.Replica(wal.log, wal.written, wal.durable, files, dirty, open, view, swap, retired, lastCommit, tally)
  }

  /** Deleting the covered ones among the first n retired segments. */
  ghost function Removed(f: Follower.Replica, n: nat): Follower.Replica
    requires n <= |f.retired|
    ensures Removed(f, n).retired == f.retired
  {
    if n == 0 then f else Follower.RemoveRetired(Removed(f, n - 1), n - 1)
  }

  /** A whole barrier. */
  ghost function SyncAll(f: Follower.Replica): Follower.Replica {
    var g := Follower.FsyncWal(Follower.WriteWal(Follower.FsyncOpen(Follower.Finalize(f))));
    Follower.EndSync(Removed(g, |g.retired|))
  }

  /** After a refused remap: logged, nothing else changed but the pending compaction. */
  ghost function Refused(f: Follower.Replica, e: Entry, swap: Option<Follower.Swap>): Follower.Replica {
    f.(log := f.log + [e], swap := swap)
  }

  /** What a remap leaves when one of its entries cannot be copied: if that put is known and elsewhere, or of
      another length, the compaction with the entries before it; else nothing. */
  ghost predicate LeftBehind(f: Follower.Replica, q: Follower.Swap, es: seq<RemapEntry>, left: Option<Follower.Swap>) {
    exists i ::
      && 0 <= i < |es| && Follower.CopyEntries(f, q, es[..i]).Some? && Follower.Stray(f, q.from, es[i])
      && left == (if es[i].lsn in f.view.locs &&
                     (f.view.locs[es[i].lsn].seg != q.from || f.view.locs[es[i].lsn].len != es[i].len)
                  then Follower.CopyEntries(f, q, es[..i]) else None)
  }

  /** The pending compaction after a refused remap. */
  ghost predicate SwapLeft(f: Follower.Replica, e: Entry, left: Option<Follower.Swap>)
    requires e.rec.SegmentRemap?
  {
    if f.swap.None? || f.swap.value.to != e.rec.targetId then left == f.swap
    else LeftBehind(f, f.swap.value, e.rec.entries, left)
  }

  class Store {
    var wal: Journal
    var files: Files
    var dirty: set<nat>
    var open: set<nat>
    var index: map<Text, Loc>
    var locs: map<nat, PutLoc>
    var active: nat
    var off: nat
    var sealed: seq<nat>
    var swap: Option<Follower.Swap>
    var retired: seq<(nat, nat)>
    var lastCommit: nat
    var tally: Rollups.Tally
    /** For specification: the length of every segment. */
    ghost var lens: map<nat, nat>

    ghost function View(): Layout
      reads this
    {
      Layout(index, locs, active, off, SetOf(sealed), lens)
    }

    ghost function State(): Follower.Replica
      reads this
    {
      ReplicaOf(wal, files, dirty, open, View(), swap, retired, lastCommit, tally)
    }

    // ----- finalizing

    /** Memory is repointed at the rebuilt segment, which takes the old one's place. */
    method RepointMemory(from: nat, to: nat, es: seq<RemapEntry>)
      modifies this`index, this`locs, this`sealed, this`lens
      ensures View() == SwapOn(old(View()), from, to, es)
    {
      hide MoveIndex, MoveLocs, Extent, SetOf, Without;
      var index', locs', extent := Repoint(index, locs, es, to);
      WithoutSet(sealed, from, to);
      var kept := Retain(sealed, from);
      index, locs, sealed := index', locs', kept + [to];
      lens := lens[to := extent][from := 0];
    }

    /** The rebuilt file is fsynced and renamed into place; the old segment is only retired. */
    method Finalize()
      modifies this`files, this`open, this`retired, this`swap, this`index, this`locs, this`sealed, this`lens
      ensures State() == Follower.Finalize(old(State()))
    {
      hide SwapOn, SetOf;
      if swap.None? { return; }
      var q := swap.value;
      RepointMemory(q.from, q.to, q.entries);
      files := files[q.to := File(q.copy, |q.copy|)];
      open, retired, swap := open - {q.from} + {q.to}, retired + [(q.lsn, q.from)], None;
    }

    // ----- applying

    method ApplyPut(e: Entry, data: Option<seq<byte>>) returns (ok: bool)
      requires e.rec.Put?
      modifies this`wal, this`files, this`open, this`dirty, this`index, this`locs, this`off, this`lens, this`tally
      ensures ok <==> Follower.ApplyPut(old(State()), e, data).Some?
      ensures ok ==> State() == Follower.ApplyPut(old(State()), e, data).value
      ensures !ok ==> State() == old(State())
    {
      hide SetOf, Leader.WriteAt, Rollups.Recorded, PutOn;
      if data.None? || |data.value| != e.rec.len { return false; }
      WriteValue(data.value);
      wal := wal.(log := wal.log + [e]);
      Remember(e.rec.key, e.rec.len, e.lsn);
      ok := true;
    }

    method WriteValue(value: seq<byte>)
      modifies this`files, this`open, this`dirty
      ensures files == old(files)[active := Leader.WriteAt(Leader.Opened(old(files), active), off, value)]
      ensures open == old(open) + {active} && dirty == old(dirty) + {active}
    {
      hide Leader.WriteAt;
      var file := Leader.Opened(files, active);
      files, open, dirty := files[active := Leader.WriteAt(file, off, value)], open + {active}, dirty + {active};
    }

    method Remember(key: Text, len: nat, lsn: nat)
      requires len < 0x1_0000_0000
      modifies this`index, this`locs, this`off, this`lens, this`tally
      ensures View() == PutOn(old(View()), key, len, lsn) && tally == Rollups.Recorded(old(tally), key, len)
    {
      hide SetOf, Rollups.Recorded;
      tally := Rollups.Recorded(tally, key, len);
      index, locs, off := index[key := Loc(active, off, len, lsn)], locs[lsn := PutLoc(key, active, off, len)],
        off + len;
      lens := lens[active := off];
    }

    /** A seal for any segment but the open one is refused. */
    method ApplySeal(e: Entry) returns (ok: bool)
      requires e.rec.SegmentSeal?
      modifies this`wal, this`sealed, this`active, this`off, this`lens
      ensures ok <==> Follower.ApplySeal(old(State()), e).Some?
      ensures ok ==> State() == Follower.ApplySeal(old(State()), e).value
      ensures !ok ==> State() == old(State())
    {
      hide SetOf;
      if e.rec.segmentId != active { return false; }
      var next := e.rec.nextSegmentId;
      PushSet(sealed, active);
      wal := wal.(log := wal.log + [e]);
      lens := lens[active := off][next := 0];
      sealed, active, off := sealed + [active], next, 0;
      ok := true;
    }

    method ApplySwap(e: Entry)
      requires e.rec.SegmentSwap?
      modifies this
      ensures State() == Follower.ApplySwap(old(State()), e)
    {
      hide SetOf, Follower.Finalize;
      Finalize();
      wal := wal.(log := wal.log + [e]);
      swap := Some(Follower.Swap(e.lsn, e.rec.oldSegmentId, e.rec.newSegmentId, [], []));
    }

    /** Entry by entry, the value is read from the old segment and written into the new file. A refusal keeps the
        compaction as far as it got if the source did not match, and drops it if the source could not be read. */
    method CopyEntries(q: Follower.Swap,
                       es: seq<RemapEntry>) returns (out: Option<Follower.Swap>, left: Option<Follower.Swap>)
      ensures out == Follower.CopyEntries(State(), q, es)
      ensures out.None? ==> LeftBehind(State(), q, es, left)
    {
      var cur := q;
      var i := 0;
      NothingToCopy(State(), q, es);
      while i < |es|
        invariant i <= |es| && Follower.CopyEntries(State(), q, es[..i]) == Some(cur)
        invariant cur.lsn == q.lsn && cur.from == q.from && cur.to == q.to
      {
        hide Follower.CopyEntries, Leader.WriteAt, SetOf;
        var e := es[i];
        CopyNext(State(), q, es, i);
        if e.lsn !in locs {
          StuckAt(State(), q, es, i);
          assert Follower.Stray(State(), q.from, es[i]);
          return None, None;
        }
        var l := locs[e.lsn];
        if l.seg != cur.from || l.len != e.len {
          StuckAt(State(), q, es, i);
          assert Follower.Stray(State(), q.from, es[i]);
          return None, Some(cur);
        }
        if l.seg !in open || l.seg !in files || l.off + l.len > |files[l.seg].content| {
          StuckAt(State(), q, es, i);
          assert Follower.Stray(State(), q.from, es[i]);
          return None, None;
        }
        var value := files[l.seg].content[l.off..l.off + l.len];
        cur := cur.(copy := Leader.WriteAt(File(cur.copy, 0), e.offset, value).content, entries := cur.entries + [e]);
        i := i + 1;
      }
      assert es[..i] == es;
      out, left := Some(cur), Some(cur);
    }

    /** The record is logged before its entries are looked at, also if it is then refused. */
    method ApplyRemap(e: Entry) returns (ok: bool)
      requires e.rec.SegmentRemap?
      modifies this`wal, this`swap
      ensures ok <==> Follower.ApplyRemap(old(State()), e).Some?
      ensures ok ==> State() == Follower.ApplyRemap(old(State()), e).value
      ensures !ok ==> State() == Refused(old(State()), e, swap) && SwapLeft(old(State()), e, swap)
    {
      hide Follower.CopyEntries, SetOf;
      ghost var f := State();
      if swap.None? || swap.value.to != e.rec.targetId {
        wal := wal.(log := wal.log + [e]);
        return false;
      }
      var q, left := CopyEntries(swap.value, e.rec.entries);
      wal := wal.(log := wal.log + [e]);
      swap := left;
      if q.None? { return false; }
      swap := q;
      ok := true;
    }

    /** One record of the leader, with the value if it is a put. */
    method ApplyRecord(e: Entry, data: Option<seq<byte>>) returns (ok: bool)
      modifies this
      ensures ok <==> Follower.Apply(old(State()), e, data).Some?
      ensures ok ==> State() == Follower.Apply(old(State()), e, data).value
      ensures !ok && !e.rec.SegmentRemap? ==> State() == old(State())
      ensures !ok && e.rec.SegmentRemap? ==>
        State() == Refused(old(State()), e, swap) && SwapLeft(old(State()), e, swap)
    {
      hide Follower.ApplyPut, Follower.ApplySeal, Follower.ApplySwap, Follower.ApplyRemap, SetOf;
      match e.rec
      case Put(_, _, _) => ok := ApplyPut(e, data);
      case SegmentSeal(_, _) => ok := ApplySeal(e);
      case AggDelta(_) => wal := wal.(log := wal.log + [e]); ok := true;
      case SegmentSwap(_, _) => ApplySwap(e); ok := true;
      case SegmentRemap(_, _) => ok := ApplyRemap(e);
      case Commit(_) =>
        wal := wal.(log := wal.log + [e]);
        if e.lsn > lastCommit { lastCommit := e.lsn; }
        ok := true;
    }

    // ----- barriers

    /** Dirty segments that are still open are fsynced. */
    method FsyncOpen()
      modifies this`files
      ensures files == Fsynced(old(files), dirty * open)
    {
      hide Fsynced;
      var todo := dirty;
      ghost var done: set<nat> := {};
      FsyncedNone(files);
      while todo != {}
        invariant todo <= dirty && done == (dirty - todo) * open && files == Fsynced(old(files), done)
        decreases |todo|
      {
        var id :| id in todo;
        FsyncedOne(old(files), done, id);
        if id in open {
          if id in files { files := files[id := files[id].(durable := |files[id].content|)]; }
          done := done + {id};
        }
        todo := todo - {id};
      }
      assert done == dirty * open;
    }

    /** Retired segments whose swap is at or below the last Commit are deleted, the others kept for later. */
    method RemoveCovered()
      modifies this`files, this`retired
      ensures State() == Removed(old(State()), |old(retired)|).(retired := Follower.Covered(old(retired), lastCommit))
      ensures forall id :: id in files <==>
        id in old(files) && !exists i ::
          0 <= i < |old(retired)| && old(retired)[i].1 == id && old(retired)[i].0 <= lastCommit
      ensures forall id :: id in files ==> files[id] == old(files)[id]
      ensures forall x :: x in retired <==> x in old(retired) && x.0 > lastCommit
    {
      hide SetOf, Follower.RemoveRetired;
      ghost var f := State();
      var left: seq<(nat, nat)> := [];
      var i := 0;
      while i < |retired|
        invariant i <= |retired| && retired == f.retired && State() == Removed(f, i)
        invariant left == Follower.Covered(retired[..i], lastCommit)
      {
        assert retired[..i + 1][..i] == retired[..i];
        RemoveIs(Removed(f, i), i);
        if retired[i].0 <= lastCommit { files := files - {retired[i].1}; } else { left := left + [retired[i]]; }
        i := i + 1;
      }
      assert retired[..i] == retired;
      RemovedFiles(f, |retired|);
      CoveredExactly(retired, lastCommit);
      forall id ensures Due(f, id, |retired|) <==>
        exists i :: 0 <= i < |retired| && retired[i].1 == id && retired[i].0 <= lastCommit {}
      retired := left;
    }

    /** A sync barrier: finalize, fsync segments, write and fsync the log, and only then delete. */
    method SyncAllSteps()
      modifies this
      ensures State() == SyncAll(old(State()))
      ensures var g := Follower.Finalize(old(State()));
        && (forall id :: id in files <==> id in g.files && !Due(g, id, |g.retired|))
        && (forall id :: id in files ==> files[id].content == g.files[id].content)
        && (forall x :: x in retired <==> x in g.retired && x.0 > g.lastCommit)
        && dirty == {} && wal.durable == wal.written == |wal.log| == |old(wal).log|
    {
      hide SetOf, Follower.Finalize, Fsynced, Follower.Covered;
      ghost var f := State();
      Finalize();
      FsyncOpen();
      wal := wal.(written := |wal.log|);
      wal := wal.(durable := wal.written);
      ghost var g := State();
      assert g == Follower.FsyncWal(Follower.WriteWal(Follower.FsyncOpen(Follower.Finalize(f))));
      RemovedKeeps(g, |g.retired|);
      hide Removed;
      RemoveCovered();
      dirty := {};
      BarrierFiles(f);
    }
  }

  lemma {:induction false} RemovedKeeps(f: Follower.Replica, n: nat)
    requires n <= |f.retired|
    ensures Removed(f, n) == f.(files := Removed(f, n).files)
  {
    if n > 0 { RemovedKeeps(f, n - 1); }
  }

  lemma {:induction false} RemoveIs(f: Follower.Replica, i: nat)
    requires i < |f.retired|
    ensures Follower.RemoveRetired(f, i) ==
      if f.retired[i].0 <= f.lastCommit then f.(files := f.files - {f.retired[i].1}) else f
  {
  }

  lemma {:induction false} NothingToCopy(f: Follower.Replica, q: Follower.Swap, es: seq<RemapEntry>)
    ensures Follower.CopyEntries(f, q, es[..0]) == Some(q)
  {
  }

  lemma {:induction false} CopyNext(f: Follower.Replica, q: Follower.Swap, es: seq<RemapEntry>, i: nat)
    requires i < |es| && Follower.CopyEntries(f, q, es[..i]).Some?
    ensures Follower.CopyEntries(f, q, es[..i + 1]) ==
      Follower.CopyEntry(f, Follower.CopyEntries(f, q, es[..i]).value, es[i])
  {
    assert es[..i + 1][..i] == es[..i];
  }

  /** Once an entry is refused, so is the whole record. */
  lemma {:induction false} StuckAt(f: Follower.Replica, q: Follower.Swap, es: seq<RemapEntry>, i: nat)
    requires i < |es| && Follower.CopyEntries(f, q, es[..i + 1]).None?
    ensures Follower.CopyEntries(f, q, es).None?
    decreases |es|
  {
    if i + 1 == |es| {
      assert es[..i + 1] == es;
    } else {
      assert es[..|es| - 1][..i + 1] == es[..i + 1];
      StuckAt(f, q, es[..|es| - 1], i);
    }
  }

  // ----- what a barrier leaves on disk

  /** A replaced segment is on the list, and the last Commit covers its replacement. */
  ghost predicate Due(f: Follower.Replica, id: nat, n: nat) {
    exists i :: 0 <= i < n && i < |f.retired| && f.retired[i].1 == id && f.retired[i].0 <= f.lastCommit
  }

  lemma {:induction false} RemovedFiles(f: Follower.Replica, n: nat)
    requires n <= |f.retired|
    ensures forall id :: id in Removed(f, n).files <==> id in f.files && !Due(f, id, n)
    ensures forall id :: id in Removed(f, n).files ==> Removed(f, n).files[id] == f.files[id]
  {
    RemovedKeeps(f, n);
    if n > 0 {
      RemovedFiles(f, n - 1);
      RemovedKeeps(f, n - 1);
      var g := Removed(f, n - 1);
      RemoveIs(g, n - 1);
      hide Removed, Follower.RemoveRetired;
      forall id
        ensures Due(f, id, n) <==> Due(f, id, n - 1) || (f.retired[n - 1].1 == id && f.retired[n - 1].0 <= f.lastCommit)
      {
        DueMore(f, id, n);
      }
    }
  }

  lemma {:induction false} DueMore(f: Follower.Replica, id: nat, n: nat)
    requires 0 < n <= |f.retired|
    ensures Due(f, id, n) <==> Due(f, id, n - 1) || (f.retired[n - 1].1 == id && f.retired[n - 1].0 <= f.lastCommit)
  {
  }

  lemma {:induction false} CoveredExactly(retired: seq<(nat, nat)>, lastCommit: nat)
    ensures forall x :: x in Follower.Covered(retired, lastCommit) <==> x in retired && x.0 > lastCommit
  {
    if |retired| > 0 {
      var n := |retired| - 1;
      CoveredExactly(retired[..n], lastCommit);
      assert retired == retired[..n] + [retired[n]];
    }
  }

  /** A barrier deletes exactly the replaced segments whose replacement is covered by the last Commit; every other file
      keeps its bytes, and what was written is fsynced. */
  lemma {:induction false} BarrierFiles(f: Follower.Replica)
    ensures var g, t := Follower.Finalize(f), SyncAll(f);
      && (forall id :: id in t.files <==> id in g.files && !Due(g, id, |g.retired|))
      && (forall id :: id in t.files ==> t.files[id].content == g.files[id].content)
      && (forall id :: id in t.files && id in g.dirty * g.open ==> t.files[id].durable == |t.files[id].content|)
      && (forall x :: x in t.retired <==> x in g.retired && x.0 > g.lastCommit)
      && t.dirty == {} && t.log == f.log && t.durable == t.written == |f.log|
  {
    var g := Follower.Finalize(f);
    var h := Follower.FsyncWal(Follower.WriteWal(Follower.FsyncOpen(g)));
    assert h.retired == g.retired && h.lastCommit == g.lastCommit && h.files == Fsynced(g.files, g.dirty * g.open);
    assert h.log == f.log by { Follower.FinalizeLog(f); }
    RemovedFiles(h, |h.retired|);
    RemovedKeeps(h, |h.retired|);
    CoveredExactly(h.retired, h.lastCommit);
    hide Follower.Finalize, Removed, Follower.Covered;
    forall id ensures Due(h, id, |h.retired|) <==> Due(g, id, |g.retired|) {}
  }

  // ----- a barrier keeps what the follower promises

  lemma {:induction false} RemovedContent(f: Follower.Replica, vals: Values, n: nat)
    requires Follower.Content(f, vals) && f.swap.None? && f.files == Follower.Settled(f) && f.durable == |f.log|
    requires n <= |f.retired|
    ensures Follower.Content(Removed(f, n), vals) && Removed(f, n).files == Follower.Settled(Removed(f, n))
    ensures Follower.Secure(f, vals) ==> Follower.Secure(Removed(f, n), vals)
  {
    hide Follower.Content, Follower.Settled, Follower.Secure;
    RemovedKeeps(f, n);
    if n > 0 {
      RemovedContent(f, vals, n - 1);
      RemovedKeeps(f, n - 1);
      FollowerRuns.RemoveKeeps(Removed(f, n - 1), vals, n - 1);
    }
  }

  /** After a barrier everything applied is durable, no compaction is pending, and the invariants hold. */
  lemma {:induction false} BarrierKeeps(f: Follower.Replica, vals: Values)
    requires Follower.Content(f, vals)
    ensures Follower.Content(SyncAll(f), vals) && (Follower.Secure(f, vals) ==> Follower.Secure(SyncAll(f), vals))
    ensures SyncAll(f).swap.None? && SyncAll(f).durable == |SyncAll(f).log| && SyncAll(f).log == f.log
  {
    hide Follower.Content, Follower.Secure, Follower.Settled, Follower.Finalize, Fsynced, Follower.Covered;
    var g := Follower.Finalize(f);
    Follower.FinalizeKeeps(f, vals);
    Follower.FinalizeLog(f);
    FollowerRuns.FsyncOpenKeeps(g, vals);
    var h := Follower.FsyncOpen(g);
    FollowerRuns.WriteKeeps(h, vals);
    FollowerRuns.SameSettled(h, Follower.WriteWal(h));
    var w := Follower.FsyncWal(Follower.WriteWal(h));
    FollowerRuns.FsyncWalKeeps(Follower.WriteWal(h), vals);
    FollowerRuns.SameSettled(h, w);
    RemovedContent(w, vals, |w.retired|);
    RemovedKeeps(w, |w.retired|);
    FollowerRuns.EndSyncKeeps(Removed(w, |w.retired|), vals);
  }
}
