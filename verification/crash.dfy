/** Crashes and recovery of the single-writer store: what survives, and the store recovery builds from it. */
module CrashSafety {
  import opened Bytes
  import opened Records
  import opened Wal
  import opened LogModel
  import opened Disk
  import opened Leader
  import Recovery

  /** The part of the log that survives when `n` entries can be scanned: up to the last Commit. */
  function Surviving(log: seq<Entry>, n: nat): seq<Entry>
    requires n <= |log|
  {
    log[..Committed(log[..n])]
  }

  /** The store as recovery builds it. */
  function Reopened(s: Store, n: nat, image: Files, nextFree: nat): Store
    requires n <= |s.log|
  {
    var p := Surviving(s.log, n);
    var r, next := Recovery.Recovered(p), HighWater(s.log[..n]) + 1;
    Store(p, |p|, |p|, next, nextFree, Repaired(image, r), {},
          Memory(r.index, r.locs, r.active, r.off, r.sealed), None,
          map l | l in s.vals && l < next :: s.vals[l], r, |p|)
  }

  /** The next id to hand out is one more than the largest id in the log or on disk. */
  ghost predicate FirstFree(r: Layout, image: Files, nextFree: nat) {
    && (forall id :: id in r.lens || id in image ==> id < nextFree)
    && nextFree > 0 && (nextFree - 1 in r.lens || nextFree - 1 in image || nextFree - 1 == r.active)
  }

  /** What a crash may leave: the log can be scanned up to some point no earlier than its last fsync. */
  ghost predicate CanReopen(s: Store, n: nat, image: Files, nextFree: nat) {
    && s.durable <= n <= s.written <= |s.log| && CrashImage(s.files, image)
    && FirstFree(Recovery.Recovered(Surviving(s.log, n)), image, nextFree)
  }

  // ----- reopening

  lemma {:induction false} CommittedTwice(log: seq<Entry>)
    ensures Committed(log[..Committed(log)]) == Committed(log)
  {
    if Committed(log) > 0 {
      assert log[..Committed(log)][Committed(log) - 1].rec.Commit?;
    }
  }

  /** What survives is a legal, closed log, at least as long as what was acknowledged. */
  lemma {:induction false} SurvivorFacts(s: Store, n: nat)
    requires Inv(s) && s.durable <= n <= |s.log|
    ensures var p := Surviving(s.log, n);
      && Legal(p) && Committed(p) == |p| && On(p).pend.None? && Recovery.Recovered(p) == On(p).r
      && s.acked <= |p| && Safe(s.files, On(p).r, s.vals)
  {
    hide On, Legal, Safe, Committed, Hosted, Mirrors, Holds;
    var c := Committed(s.log[..n]);
    var p := Surviving(s.log, n);
    LegalPrefix(s.log, c);
    CommittedTwice(s.log[..n]);
    assert s.log[..n][..c] == p;
    CommittedIsClosed(p);
    Recovery.ReplayIsLive(p);
    CommittedMonotone(s.log, s.durable, n);
    CutAtCommit(s.log, n);
  }

  lemma {:induction false} CutAtCommit(log: seq<Entry>, n: nat)
    requires n <= |log|
    ensures IsCut(log, Committed(log[..n]))
  {
  }

  lemma {:induction false} LastLsnBelow(log: seq<Entry>, n: nat, m: nat)
    requires Legal(log) && m <= n <= |log|
    ensures On(log[..m]).lastLsn <= On(log[..n]).lastLsn
    ensures n > 0 ==> On(log[..n]).lastLsn == log[n - 1].lsn
    decreases n
  {
    hide On, After;
    if n > 0 {
      OnAppend(log[..n - 1], log[n - 1]);
      assert log[..n] == log[..n - 1] + [log[n - 1]];
      assert Allowed(On(log[..n - 1]), log[n - 1]);
      AfterLsn(On(log[..n - 1]), log[n - 1]);
      if m < n { LastLsnBelow(log, n - 1, m); }
    }
  }

  lemma {:induction false} AfterLsn(s: Live, e: Entry)
    ensures After(s, e).lastLsn == e.lsn
  {
  }

  lemma {:induction false} NextAboveLast(log: seq<Entry>, n: nat)
    requires Legal(log) && n <= |log|
    ensures On(Surviving(log, n)).lastLsn <= HighWater(log[..n])
  {
    hide On, Legal;
    LastLsnBelow(log, n, Committed(log[..n]));
    if n == 0 {
      assert log[..n] == [] && Surviving(log, n) == [];
      StartOn();
    }
  }

  lemma {:induction false} StartOn()
    ensures On([]) == START
  {
  }

  // ----- ids are never handed out twice

  /** The largest id the log ever mentioned is in the length table, or the target of the pending compaction. */
  ghost predicate BoundMet(s: Live) {
    s.bound > 0 && (s.bound - 1 in s.r.lens || (s.pend.Some? && s.pend.value.to == s.bound - 1))
  }

  lemma {:induction false} AfterBound(s: Live, e: Entry)
    requires BoundMet(s) && Allowed(s, e)
    ensures BoundMet(After(s, e))
  {
    hide Covers, EntriesFit, MoveIndex, MoveLocs, Extent;
  }

  lemma {:induction false} OnBound(log: seq<Entry>)
    requires Legal(log)
    ensures BoundMet(On(log))
  {
    hide BoundMet, After, Allowed;
    if |log| == 0 {
      assert BoundMet(START) by { StartBound(); }
    } else {
      var n := |log| - 1;
      LegalPrefix(log, n);
      OnBound(log[..n]);
      AfterBound(On(log[..n]), log[n]);
    }
  }

  lemma {:induction false} StartBound()
    ensures BoundMet(START)
  {
  }

  // ----- the reopened store satisfies the invariant

  lemma {:induction false} SoundLength(s: Live)
    requires Sound(s)
    ensures s.r.active in s.r.lens && s.r.lens[s.r.active] == s.r.off
    ensures forall l :: l in s.r.locs ==> l <= s.lastLsn
  {
  }

  lemma {:induction false} RepairedLengths(fs: Files, image: Files, r: Layout, vals: Values)
    requires Safe(image, r, vals) && CrashImage(fs, image) && LiveSegs(r) <= r.lens.Keys
    ensures var fs' := Repaired(image, r);
      && FilesOk(fs') && LiveSegs(r) <= fs'.Keys && fs'.Keys == image.Keys + r.lens.Keys
      && (forall id :: id in fs' ==> fs'[id].durable == |fs'[id].content|)
      && (forall id :: id in LiveSegs(r) ==> |fs'[id].content| == r.lens[id])
  {
    hide Holds;
  }

  lemma {:induction false} HostedReopened(fs: Files, image: Files, s: Live, vals: Values)
    requires Sound(s) && Safe(image, s.r, vals) && CrashImage(fs, image)
    ensures Hosted(Repaired(image, s.r), {}, s.r, vals)
  {
    hide Sound, Safe, CrashImage, Repaired, Holds;
    SoundFacts(s);
    SoundLength(s);
    hide LocsIn, IndexIn;
    RepairedSafe(image, s.r, vals);
    RepairedLengths(fs, image, s.r, vals);
    SafeHolds(Repaired(image, s.r), s.r, vals);
  }

  lemma {:induction false} SafeHolds(fs: Files, r: Layout, vals: Values)
    requires Safe(fs, r, vals)
    ensures Holds(fs, r, vals)
  {
  }

  /** Values of puts the log no longer has may be forgotten. */
  lemma {:induction false} FewerValues(fs: Files, r: Layout, vals: Values, next: nat)
    requires Safe(fs, r, vals) && forall l :: l in r.locs ==> l < next
    ensures Safe(fs, r, map l | l in vals && l < next :: vals[l])
  {
    hide InPlace;
  }

  lemma {:induction false} ReopenKeeps(s: Store, n: nat, image: Files, nextFree: nat)
    requires CanReopen(s, n, image, nextFree) && Inv(s)
    ensures Inv(Reopened(s, n, image, nextFree))
  {
    hide On, Legal, Safe, Committed, Hosted, Mirrors, Holds, Backed, Sound, Repaired, FilesOk, CrashImage;
    hide Recovery.Recovered, HighWater, LocsIn, IndexIn;
    var p, t := Surviving(s.log, n), Reopened(s, n, image, nextFree);
    SurvivorFacts(s, n);
    var live := On(p);
    OnSound(p);
    OnBound(p);
    SoundFacts(live);
    SoundLength(live);
    NextAboveLast(s.log, n);
    SafeCrash(s.files, image, live.r, s.vals);
    FewerValues(image, live.r, s.vals, t.nextLsn);
    HostedReopened(s.files, image, live, t.vals);
    RepairedLengths(s.files, image, live.r, t.vals);
    RepairedSafe(image, live.r, t.vals);
    assert Mirrors(t.mem, t.view) by { MirrorsItself(live.r); }
    assert p[..|p|] == p;
    assert Backed(t) by { OneCut(t); }
  }

  lemma {:induction false} MirrorsItself(r: Layout)
    ensures Mirrors(Memory(r.index, r.locs, r.active, r.off, r.sealed), r)
  {
  }

  lemma {:induction false} OneCut(t: Store)
    requires t.durable == |t.log| && Committed(t.log) == |t.log| && Safe(t.files, On(t.log).r, t.vals)
    ensures Backed(t)
  {
    hide Safe, On, Committed;
    assert t.log[..|t.log|] == t.log;
  }
}
