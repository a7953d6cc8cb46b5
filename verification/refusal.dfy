/** A put whose key has too many components for its delta record: it is refused, but its own record is already
    logged. The next commit makes that record durable, and then the store cannot be opened any more. */
module Refusal {
  import opened Bytes
  import opened Records
  import opened Wal
  import opened LogModel
  import opened Disk
  import opened Leader
  import opened Rollups
  import Recovery
  import Runs
  import StoreObject

  // ----- keys that are refused for their deltas

  lemma {:induction false} DeltasLength(ds: seq<AggDeltaEntry>)
    ensures |DeltasBytes(ds)| >= 18 * |ds|
  {
    if |ds| > 0 { DeltasLength(ds[1..]); }
  }

  /** One delta for each component: 227 of them fill more than a block, whatever was counted before. */
  lemma {:induction false} TooManyComponents(t: Tally, key: Text, len: u32)
    requires |Parts(key)| >= 227
    ensures !Encodable(AggDelta(DeltasFor(t, key, len)))
  {
    hide Parts, Join, DeltasBytes;
    DeltasLength(DeltasFor(t, key, len));
  }

  lemma {:induction false} JoinLength(ps: seq<Text>)
    requires forall i :: 0 <= i < |ps| ==> |ps[i]| == 1
    ensures |Join(ps)| == if |ps| == 0 then 0 else 2 * |ps| - 1
  {
    if |ps| > 1 { JoinLength(ps[..|ps| - 1]); }
  }

  const LETTER: Text := [97]

  /** The key a/a/.../a with 227 components. */
  function Deep(): Text {
    Join(seq(227, i => LETTER))
  }

  lemma {:induction false} DeepIsRefused(t: Tally, len: u32)
    ensures StoreObject.PutFits(Deep(), len) && !StoreObject.FitsBlocks(t, Deep(), len)
  {
    hide Parts, Join, DeltasFor;
    var ps := seq(227, i => LETTER);
    assert Components(ps);
    JoinLength(ps);
    PartsOfJoin(ps);
    TooManyComponents(t, Deep(), len);
    assert |TextBytes(Deep())| == 455;
  }

  // ----- the next commit

  /** The refused put, another put that is staged, and a commit. */
  function RefusedThenCommitted(s: Store, key: Text, value: seq<byte>, next: Text, second: seq<byte>,
                                deltas: seq<AggDeltaEntry>, lsn: u64): Store
    requires RoomForPut(s) && |value| < 0x1_0000_0000 && |second| < 0x1_0000_0000
  {
    CommitAll(AppendAgg(PlacePut(LogPut(s, key, value), next, second), deltas), lsn)
  }

  /** What the log means: both puts, one after the other. */
  lemma {:induction false} LoggedLayout(s: Store, key: Text, value: seq<byte>, next: Text, second: seq<byte>,
                                        deltas: seq<AggDeltaEntry>, lsn: u64)
    requires Inv(s) && s.plan.None? && RoomForPut(s) && |value| < 0x1_0000_0000 && |second| < 0x1_0000_0000
    ensures var t := RefusedThenCommitted(s, key, value, next, second, deltas, lsn);
      && t.acked == |t.log| && t.log[|t.log| - 1] == Entry(s.nextLsn + 3, Commit(lsn))
      && Recovery.Recovered(t.log) == PutOn(PutOn(s.view, key, |value|, s.nextLsn), next, |second|, s.nextLsn + 1)
  {
    hide On, Legal, PutOn, WriteAt, Opened, Recovery.Recovered, Fsynced, FileInv, Backed, Sound, Mirrors;
    var l, n := s.log, s.nextLsn;
    var e1, e2 := Entry(n, Put(key, |value|, n)), Entry(n + 1, Put(next, |second|, n + 1));
    var e3, e4 := Entry(n + 2, AggDelta(deltas)), Entry(n + 3, Commit(lsn));
    Appended(l, e1);
    Appended(l + [e1], e2);
    Appended(l + [e1] + [e2], e3);
    Appended(l + [e1] + [e2] + [e3], e4);
    Recovery.ReplayIsLive(l + [e1] + [e2] + [e3] + [e4]);
  }

  lemma {:induction false} Appended(log: seq<Entry>, e: Entry)
    requires Legal(log) && On(log).pend.None? && On(log).lastLsn < e.lsn
    requires (e.rec.Put? || e.rec.AggDelta? || e.rec.Commit?)
    ensures Legal(log + [e]) && On(log + [e]).pend.None? && On(log + [e]).lastLsn == e.lsn
    ensures On(log + [e]).r == if e.rec.Put? then PutOn(On(log).r, e.rec.key, e.rec.len, e.lsn) else On(log).r
  {
    hide On, Legal, PutOn;
    LegalAppend(log, e);
    OnAppend(log, e);
  }

  /** Both values were written at the same place. */
  lemma {:induction false} WrittenFiles(s: Store, key: Text, value: seq<byte>, next: Text, second: seq<byte>,
                                        deltas: seq<AggDeltaEntry>, lsn: u64)
    requires RoomForPut(s) && |value| < 0x1_0000_0000 && |second| < 0x1_0000_0000
    requires |Opened(s.files, s.mem.active).content| == s.mem.off
    ensures var fs := RefusedThenCommitted(s, key, value, next, second, deltas, lsn).files;
      && s.mem.active in fs
      && |fs[s.mem.active].content| == s.mem.off + (if |value| > |second| then |value| else |second|)
      && forall id :: id in s.files && id != s.mem.active ==> id in fs && fs[id].content == s.files[id].content
  {
    hide PutOn;
  }

  /** The segments other than the open one are long enough. */
  lemma {:induction false} OthersLongEnough(s: Store, id: nat)
    requires Inv(s) && s.plan.None? && id in s.view.lens && s.view.lens[id] > 0
    ensures id in s.files && s.view.lens[id] <= |s.files[id].content|
  {
    hide On, Legal, Backed, Holds, IndexIn, LocsIn, EntriesFit;
    OnSound(s.log);
  }

  /** After the commit, the store can be opened again if and only if one of the two values is empty: the log
      counts both, the file has room for the longer one. */
  lemma {:induction false} RefusedDeltasStrand(s: Store, key: Text, value: seq<byte>, next: Text, second: seq<byte>,
                                               deltas: seq<AggDeltaEntry>, lsn: u64)
    requires Inv(s) && s.plan.None? && RoomForPut(s) && |value| < 0x1_0000_0000 && |second| < 0x1_0000_0000
    requires |Opened(s.files, s.mem.active).content| == s.mem.off
    ensures var t := RefusedThenCommitted(s, key, value, next, second, deltas, lsn);
      && t.acked == |t.log|
      && (Recoverable(t.files, Recovery.Recovered(t.log)) <==> |value| == 0 || |second| == 0)
  {
    hide Inv, Opened, RefusedThenCommitted, Recovery.Recovered, PutOn;
    LoggedLayout(s, key, value, next, second, deltas, lsn);
    WrittenFiles(s, key, value, next, second, deltas, lsn);
    var t := RefusedThenCommitted(s, key, value, next, second, deltas, lsn);
    var r := Recovery.Recovered(t.log);
    TwoPutsEnd(s, key, |value|, next, |second|);
    forall id | id in r.lens && r.lens[id] > 0 && id != s.mem.active
      ensures id in t.files && r.lens[id] <= |t.files[id].content|
    {
      OthersLongEnough(s, id);
    }
  }

  lemma {:induction false} TwoPutsEnd(s: Store, key: Text, n: nat, next: Text, m: nat)
    requires Inv(s) && s.plan.None?
    ensures var r := PutOn(PutOn(s.view, key, n, s.nextLsn), next, m, s.nextLsn + 1);
      && s.mem.active in r.lens && r.lens[s.mem.active] == s.mem.off + n + m
      && forall id :: id in r.lens && id != s.mem.active ==> id in s.view.lens && r.lens[id] == s.view.lens[id]
  {
    hide LogInv, FileInv, Backed, On, Legal;
  }

  /** From the empty store: a put is refused, the next one is acknowledged, and the store does not open again. */
  lemma {:induction false} AcknowledgedThenStranded(next: Text, deltas: seq<AggDeltaEntry>, lsn: u64)
    ensures !StoreObject.FitsBlocks(Rollups.NOTHING, Deep(), 1) && StoreObject.PutFits(Deep(), 1)
    ensures var t := RefusedThenCommitted(Runs.FRESH, Deep(), [1], next, [2], deltas, lsn);
      && t.acked == |t.log| && !Recoverable(t.files, Recovery.Recovered(t.log))
  {
    DeepIsRefused(Rollups.NOTHING, 1);
    Runs.FreshInv();
    hide Inv, RefusedThenCommitted, Recovery.Recovered, Deep, StoreObject.FitsBlocks, StoreObject.PutFits, Recoverable;
    RefusedDeltasStrand(Runs.FRESH, Deep(), [1], next, [2], deltas, lsn);
  }
}
