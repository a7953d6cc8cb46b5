/** What the replicated store promises: quorum before commit, a commit index that only rises,
    read-your-writes, and complete backfills. */
module ClusterGuarantees {
  import opened Bytes
  import opened Records
  import opened Wal
  import opened LogModel
  import opened Disk
  import opened Link
  import opened Cluster
  import Leader
  import Follower
  import Runs
  import Guarantees

  // ----- quorum

  /** The acknowledgement that set the follower's match index came from a barrier at which it had fsynced every
      record of the log from `from` on. */
  ghost predicate Holder(l: Link, log: seq<Entry>, from: nat) {
    forall j :: from <= j < |log| ==> log[j].lsn in l.matched.has
  }

  /** The follower acknowledged the whole log, and no backfill before that skipped a record from `from` on. */
  ghost predicate Unskipped(l: Link, log: seq<Entry>, from: nat) {
    l.matchIndex >= LastLsn(log) && forall j :: from <= j < |log| ==> log[j].lsn !in l.matched.missed
  }

  ghost function HolderCount(links: seq<Link>, log: seq<Entry>, from: nat): nat {
    if |links| == 0 then 0
    else HolderCount(links[..|links| - 1], log, from) + if Holder(links[|links| - 1], log, from) then 1 else 0
  }

  ghost function UnskippedCount(links: seq<Link>, log: seq<Entry>, from: nat): nat {
    if |links| == 0 then 0
    else UnskippedCount(links[..|links| - 1], log, from) + if Unskipped(links[|links| - 1], log, from) then 1 else 0
  }

  /** Every record from `from` on was fsynced by a quorum, the leader counting as one. */
  ghost predicate OnQuorum(c: Cluster, from: nat) {
    1 + HolderCount(c.links, Log(c), from) >= Quorum(|c.links| + 1)
  }

  /** A follower holds the records it acknowledged, but for those its backfills skipped. */
  lemma {:induction false} HolderExactly(l: Link, log: seq<Entry>, from: nat)
    requires Rises(log) && from < |log| && AckOk(l.matched, log) && l.matchIndex == l.matched.lsn
    ensures Holder(l, log, from) <==> Unskipped(l, log, from)
  {
    var n := |log| - 1;
    assert log[n].lsn in l.matched.has <==> log[n].lsn <= l.matched.lsn && log[n].lsn !in l.matched.missed;
    forall j | from <= j < |log| ensures log[j].lsn <= LastLsn(log) { assert j < n ==> log[j].lsn < log[n].lsn; }
  }

  lemma {:induction false} SameCounts(links: seq<Link>, log: seq<Entry>, from: nat)
    requires Rises(log) && from < |log|
    requires forall i :: 0 <= i < |links| ==>
      AckOk(links[i].matched, log) && links[i].matchIndex == links[i].matched.lsn
    ensures HolderCount(links, log, from) == UnskippedCount(links, log, from)
  {
    hide Rises, AckOk, Holder, Unskipped;
    if |links| > 0 {
      SameCounts(links[..|links| - 1], log, from);
      HolderExactly(links[|links| - 1], log, from);
    }
  }

  lemma {:induction false} AllUnskipped(links: seq<Link>, log: seq<Entry>, from: nat)
    requires forall i :: 0 <= i < |links| && links[i].matchIndex >= LastLsn(log) ==> Unskipped(links[i], log, from)
    ensures AckCount(links, LastLsn(log)) <= UnskippedCount(links, log, from)
  {
    if |links| > 0 { AllUnskipped(links[..|links| - 1], log, from); }
  }

  /** Before every Commit the leader has fsynced the whole log and a quorum has acknowledged it. Any part of the log
      from `from` on, such as the batch or all of it, was then fsynced by a quorum exactly if enough of the followers
      that acknowledged it had not skipped a record of it in a backfill; a quorum is a strict majority for odd sizes. */
  lemma {:induction false} QuorumBeforeCommit(c: Cluster, lsn: u64, from: nat)
    requires Reachable(c) && Enabled(c, OnStore(Runs.LogCommit(lsn))) && from < |Log(c)|
    ensures lsn == LastLsn(Log(c)) && c.m.store.durable == |Log(c)| && QuorumAcked(c, lsn)
    ensures OnQuorum(c, from) <==> 1 + UnskippedCount(c.links, Log(c), from) >= Quorum(|c.links| + 1)
    ensures (forall i :: 0 <= i < |c.links| && c.links[i].matchIndex >= lsn ==> Unskipped(c.links[i], Log(c), from)) ==>
      OnQuorum(c, from)
    ensures (|c.links| + 1) % 2 == 1 && OnQuorum(c, from) ==>
      2 * (1 + HolderCount(c.links, Log(c), from)) > |c.links| + 1
  {
    hide Reachable, ClusterInv, LastLsn, Enabled, Rises, HolderCount, UnskippedCount, Unskipped, LinkInv, AckOk;
    hide AckCount;
    ReachableInv(c);
    AboutToCommit(c, lsn);
    ClusterRises(c);
    forall i | 0 <= i < |c.links|
      ensures AckOk(c.links[i].matched, Log(c)) && c.links[i].matchIndex == c.links[i].matched.lsn
    {
      LinkFacts(c, i);
      MatchedIs(c.links[i], Log(c), c.shipped, c.commitAt);
    }
    SameCounts(c.links, Log(c), from);
    if forall i :: 0 <= i < |c.links| && c.links[i].matchIndex >= lsn ==> Unskipped(c.links[i], Log(c), from) {
      AllUnskipped(c.links, Log(c), from);
    }
    QuorumIsMajority(|c.links| + 1);
  }

  lemma {:induction false} MatchedIs(l: Link, log: seq<Entry>, shipped: nat, commitAt: nat)
    requires LinkInv(l, log, shipped, commitAt)
    ensures AckOk(l.matched, log) && l.matchIndex == l.matched.lsn
  {
    hide QueueInv, Flows, LastLsn, Follower.CommitBlock, Follows, MissedInv, AckOk;
  }

  lemma {:induction false} AboutToCommit(c: Cluster, lsn: u64)
    requires ClusterInv(c) && Enabled(c, OnStore(Runs.LogCommit(lsn)))
    ensures lsn == LastLsn(Log(c)) && c.m.store.durable == |Log(c)| && QuorumAcked(c, lsn)
  {
    hide StoreInv, LinksInv, LastLsn, Committed, QuorumAcked, Leader.IsCut, EndsInCommit, Horizon;
    assert c.m.phase.Fsynced?;
  }

  /** Whatever happens, the commit index never falls. */
  lemma {:induction false} CommitIndexRises(c: Cluster, a: Action)
    requires Reachable(c) && Enabled(c, a)
    ensures c.commitAt <= |Log(c)| && Do(c, a).commitAt <= |Log(Do(c, a))| && CommitIndex(c) <= CommitIndex(Do(c, a))
  {
    hide Reachable, Enabled, Do, ClusterInv, Rises, LastLsn, Leader.IsCut;
    ReachableInv(c);
    StepKeeps(c, a);
    var d := Do(c, a);
    PositionsOf(c);
    PositionsOf(d);
    ClusterRises(d);
    NeverShrinks(c, a);
    assert Log(c)[..c.commitAt] == Log(d)[..c.commitAt];
    LastLsnMonotone(Log(d), c.commitAt, d.commitAt);
  }

  lemma {:induction false} PositionsOf(c: Cluster)
    requires ClusterInv(c)
    ensures c.commitAt <= |Log(c)| && c.commitAt <= c.m.store.acked <= |Log(c)| && c.shipped <= |Log(c)|
    ensures Leader.IsCut(Log(c), c.commitAt) && (!c.op.Finished? ==> c.commitAt == c.m.store.acked)
  {
    hide StoreInv, LinksInv, Committed;
  }

  lemma {:induction false} StoreOnlyGrows(c: Cluster, b: Runs.Action)
    requires ClusterInv(c) && Enabled(c, OnStore(b))
    ensures var d := Do(c, OnStore(b));
      c.commitAt <= d.commitAt && |Log(c)| <= |Log(d)| && Log(c) == Log(d)[..|Log(c)|]
  {
    hide ClusterInv, Runs.MachineInv, Runs.Enabled, Runs.InBounds, LogStep, Runs.Do, Horizon, LastLsn;
    assert Runs.MachineInv(c.m) by { MachineOf(c); }
    StoreLog(c.m, b);
    LogGrows(c.m, b, Runs.Do(c.m, b));
  }

  lemma {:induction false} MachineOf(c: Cluster)
    requires ClusterInv(c)
    ensures Runs.MachineInv(c.m)
  {
    hide StoreInv, OpInv, LinksInv, Runs.MachineInv;
    TheMachine(c);
  }

  lemma {:induction false} SameLog(c: Cluster, a: Action)
    requires Enabled(c, a) && !a.OnStore? && c.commitAt <= |Log(c)|
    ensures Log(Do(c, a)) == Log(c) && c.commitAt <= Do(c, a).commitAt
  {
    hide SendAll, NextLink, AckCount, Quorum;
  }

  lemma {:induction false} NeverShrinks(c: Cluster, a: Action)
    requires ClusterInv(c) && Enabled(c, a)
    ensures var d := Do(c, a);
      c.commitAt <= d.commitAt && |Log(c)| <= |Log(d)| && Log(c) == Log(d)[..|Log(c)|]
  {
    hide ClusterInv, Enabled, Do;
    PositionsOf(c);
    if a.OnStore? { StoreOnlyGrows(c, a.a); } else { SameLog(c, a); }
  }

  // ----- reads

  /** A read by the leader: the last snapshot, gated by the commit index. */
  ghost function GetUpto(c: Cluster, key: Text): Guarantees.Reading
    requires |c.m.snaps| > 0 && c.commitAt <= |Log(c)|
  {
    var snap := c.m.snaps[|c.m.snaps| - 1];
    if key in snap.index && snap.index[key].lsn > CommitIndex(c) then Guarantees.Absent
    else Guarantees.Read(snap, c.m.handles, key)
  }

  lemma {:induction false} LastPutIn(log: seq<Entry>, key: Text)
    requires LastPut(log, key).Some?
    ensures exists i ::
      0 <= i < |log| && log[i].rec.Put? && log[i].rec.key == key && log[i].lsn == LastPut(log, key).value
  {
    var e := log[|log| - 1];
    if !(e.rec.Put? && e.rec.key == key) {
      LastPutIn(log[..|log| - 1], key);
      var i :| 0 <= i < |log| - 1 && log[..|log| - 1][i].rec.Put? && log[..|log| - 1][i].rec.key == key &&
        log[..|log| - 1][i].lsn == LastPut(log, key).value;
      assert log[i] == log[..|log| - 1][i];
    }
  }

  /** The snapshot serves the last acknowledged put; the gate by the commit index hides it only in the
      moment between a Commit and its announcement. */
  lemma {:induction false} ReadIsLastAcknowledged(c: Cluster, key: Text)
    requires ClusterInv(c)
    ensures |c.m.snaps| > 0 && c.commitAt <= c.m.store.acked <= |Log(c)|
    ensures var last := LastPut(Log(c)[..c.m.store.acked], key);
      if last.None? || last.value > CommitIndex(c) then GetUpto(c, key) == Guarantees.Absent
      else last.value in c.m.store.vals && GetUpto(c, key) == Guarantees.Bytes(c.m.store.vals[last.value])
  {
    PositionsOf(c);
    hide OpInv, LinksInv, LastPut, Guarantees.HorizonInv, LastLsn;
    var snap := c.m.snaps[|c.m.snaps| - 1];
    Guarantees.SnapReads(c.m, |c.m.snaps| - 1, key);
    hide Runs.MachineInv;
    Guarantees.AbsentKey(snap, c.m.handles, key);
    hide Guarantees.Read;
  }

  /** The read returns the bytes of the put at position j of the log. */
  ghost predicate IsAnswer(c: Cluster, key: Text, j: nat)
    requires |c.m.snaps| > 0 && c.commitAt <= |Log(c)| && j < |Log(c)|
  {
    var e := Log(c)[j];
    e.rec.Put? && e.rec.key == key && e.lsn in c.m.store.vals &&
      GetUpto(c, key) == Guarantees.Bytes(c.m.store.vals[e.lsn])
  }

  /** Read-your-writes: with no put half-committed, as for a client that waits for each answer, a read of a key whose
      put was acknowledged returns the bytes of that put or of a later one. */
  lemma {:induction false} ReadYourWrites(c: Cluster, i: nat, key: Text)
    requires Reachable(c) && !c.op.Finished?
    requires i < c.commitAt <= |Log(c)| && Log(c)[i].rec.Put? && Log(c)[i].rec.key == key
    ensures |c.m.snaps| > 0
    ensures exists j :: i <= j < c.commitAt && IsAnswer(c, key, j)
  {
    ReachableInv(c);
    hide Reachable, ClusterInv, LastPut, Legal, LastLsn, GetUpto, Rises;
    PositionsOf(c);
    ClusterLegal(c);
    var p := Log(c)[..c.commitAt];
    LegalPrefix(Log(c), c.commitAt);
    assert p[i] == Log(c)[i];
    Guarantees.LastPutIsLatest(p, i, key);
    LastPutIn(p, key);
    var j :| 0 <= j < |p| && p[j].rec.Put? && p[j].rec.key == key && p[j].lsn == LastPut(p, key).value;
    LegalRises(p);
    Earlier(p, j, i);
    ClusterRises(c);
    Order(Log(c), j, c.commitAt);
    ReadIsLastAcknowledged(c, key);
    assert Log(c)[j] == p[j];
    assert IsAnswer(c, key, j);
  }

  lemma {:induction false} Earlier(log: seq<Entry>, i: nat, j: nat)
    requires Rises(log) && i < |log| && j < |log|
    ensures log[j].lsn <= log[i].lsn ==> j <= i
  {
  }

  // ----- backfill

  /** No compaction ever used a horizon above what some follower has durably committed. */
  lemma {:induction false} HorizonBelowFollowers(c: Cluster, i: nat)
    requires Reachable(c) && i < |c.links|
    ensures c.links[i].durable <= |c.links[i].log|
    ensures c.horizon <= Follower.CommitBlock(c.links[i].log[..c.links[i].durable])
  {
    ReachableInv(c);
    hide Reachable, StoreInv, OpInv, Follower.CommitBlock, QueueInv, Flows, LastLsn, MissedInv, AckOk, Thin, PosOf;
    LinkFacts(c, i);
  }

  /** Exactly what a follower has: the leader's log up to some position, but for the records its backfills
      skipped; that is a prefix of the leader's log exactly if none of those is at or below the follower's last
      record. */
  lemma {:induction false} FollowersHavePrefixes(c: Cluster, i: nat)
    requires Reachable(c) && i < |c.links|
    ensures var l := c.links[i];
      && l.log == Thin(Log(c)[..Reach(l, Log(c))], l.missed)
      && (l.log <= Log(c) <==> forall x :: x in l.missed ==> x > LastLsn(l.log))
  {
    ReachableInv(c);
    hide Reachable, StoreInv, OpInv, Follower.CommitBlock, QueueInv, Flows, LastLsn, AcksInv, MissedInv, Thin, PosOf;
    hide Rises;
    LinkFacts(c, i);
    ClusterRises(c);
    PrefixExactly(c.links[i], Log(c), c.shipped);
  }

  /** Along the run, every backfill of follower i ended with all live records still queued. */
  ghost predicate NeverTook(c: Cluster, acts: seq<Action>, i: nat)
    decreases |acts|
  {
    |acts| == 0 ||
    (Enabled(c, acts[0]) && (acts[0] == EndBackfill(i) ==> NothingTaken(c.links[i], Log(c), c.shipped)) &&
      NeverTook(Do(c, acts[0]), acts[1..], i))
  }

  /** Nothing was skipped, now or before any acknowledgement. */
  ghost predicate Whole(l: Link) {
    l.missed == {} && l.matched.missed == {} && forall k :: 0 <= k < |l.acks| ==> l.acks[k].missed == {}
  }

  lemma {:induction false} WholeStep(c: Cluster, a: Action, i: nat)
    requires Enabled(c, a) && i < |c.links| && Whole(c.links[i])
    requires (a == EndBackfill(i) ==> NothingTaken(c.links[i], Log(c), c.shipped))
    ensures i < |Do(c, a).links| && Whole(Do(c, a).links[i])
  {
    hide Runs.Do, Runs.Enabled, Runs.InBounds, OpAllows, Backfill, Taken, NothingTaken, Batch, Lsns, AckCount, Accept;
    hide CommitIndex;
    if a == EndBackfill(i) { TakenExactly(c.links[i], Log(c), c.shipped); }
  }

  lemma {:induction false} WholeRun(c: Cluster, acts: seq<Action>, d: Cluster, i: nat)
    requires i < |c.links| && Whole(c.links[i]) && Leads(c, acts, d) && NeverTook(c, acts, i)
    ensures i < |d.links| && Whole(d.links[i])
    decreases |acts|
  {
    hide Enabled, Whole, Do, NothingTaken;
    if |acts| > 0 {
      WholeStep(c, acts[0], i);
      WholeRun(Do(c, acts[0]), acts[1..], d, i);
    }
  }

  /** A follower none of whose backfills ended after a live record was taken has a prefix of the leader's log,
      and what it acknowledged it had in full. */
  lemma {:induction false} UntakenFollower(followers: nat, acts: seq<Action>, c: Cluster, i: nat)
    requires i < followers && Leads(Boot(followers), acts, c) && NeverTook(Boot(followers), acts, i)
    ensures i < |c.links| && c.links[i].log <= Log(c)
    ensures c.links[i].matchIndex >= LastLsn(Log(c)) ==> Unskipped(c.links[i], Log(c), 0)
  {
    hide Leads, NeverTook, ClusterInv, Thin, PosOf;
    assert Whole(Boot(followers).links[i]);
    WholeRun(Boot(followers), acts, c, i);
    assert Reachable(c);
    FollowersHavePrefixes(c, i);
  }

  /** While a backfill is under way, the leader's published snapshot reads the original bytes of every put it
      selects. */
  lemma {:induction false} BackfillFindsValues(c: Cluster, i: nat, j: nat)
    requires Reachable(c) && i < |c.links| && c.links[i].session.Filling?
    requires j < c.links[i].session.upto <= |Log(c)| && Log(c)[j].rec.Put?
    requires Log(c)[j].lsn > Follower.CommitBlock(c.links[i].log)
    ensures |c.m.snaps| > 0
    ensures var snap, lsn := c.m.snaps[|c.m.snaps| - 1], Log(c)[j].lsn;
      && lsn in snap.locs && lsn in c.m.store.vals
      && Guarantees.ReadValue(snap.open, c.m.handles, snap.locs[lsn].seg, snap.locs[lsn].off, snap.locs[lsn].len) ==
           Guarantees.Bytes(c.m.store.vals[lsn])
  {
    ReachableInv(c);
    hide Reachable, ClusterInv, Rises, LinkInv, Follower.CommitBlock;
    PositionsOf(c);
    ClusterRises(c);
    LinkFacts(c, i);
    var l := c.links[i];
    FillingBelow(l, Log(c), c.shipped, c.commitAt);
    ThroughBelow(l, Log(c), c.shipped, c.commitAt);
    SnapshotHas(c, j);
  }

  lemma {:induction false} FillingBelow(l: Link, log: seq<Entry>, shipped: nat, commitAt: nat)
    requires LinkInv(l, log, shipped, commitAt) && l.session.Filling?
    ensures Reach(l, log) <= l.session.upto <= commitAt
  {
    hide QueueInv, Above, Appends, LastLsn, Follower.CommitBlock, Committed, Thin, PosOf, AckOk, Alive;
  }

  lemma {:induction false} ThroughBelow(l: Link, log: seq<Entry>, shipped: nat, commitAt: nat)
    requires Rises(log) && LinkInv(l, log, shipped, commitAt)
    ensures l.committedThrough <= Follower.CommitBlock(l.log)
  {
    hide Rises, QueueInv, Flows, LastLsn, Follower.CommitBlock, Thin, PosOf, AckOk, MissedInv;
    ReachOrder(l, log);
    CommitBlockMonotone(l.log, l.durable, |l.log|);
    assert l.log[..|l.log|] == l.log;
  }

  lemma {:induction false} SnapshotHas(c: Cluster, j: nat)
    requires ClusterInv(c) && j < c.m.store.acked <= |Log(c)| && Log(c)[j].rec.Put? && Log(c)[j].lsn > c.horizon
    ensures |c.m.snaps| > 0
    ensures var snap, lsn := c.m.snaps[|c.m.snaps| - 1], Log(c)[j].lsn;
      && lsn in snap.locs && lsn in c.m.store.vals
      && Guarantees.ReadValue(snap.open, c.m.handles, snap.locs[lsn].seg, snap.locs[lsn].off, snap.locs[lsn].len) ==
           Guarantees.Bytes(c.m.store.vals[lsn])
  {
    hide OpInv, LinksInv, Names, Leader.Inv, Runs.PhaseInv, Runs.HandlesFollow, Guarantees.AllLocated;
    hide Guarantees.PlanKeeps;
    assert Runs.PutUsable(c.m.snaps[|c.m.snaps| - 1], c.m.handles, c.m.store.vals, Log(c)[j].lsn);
  }

  /** What a backfill leaves in the queue, in every run: the records from the follower's end up to the commit
      position, then the live records above it, in LSN order; and with these the follower gets the leader's log
      from its end on exactly if no live record above the commit position had been taken off the queue. */
  lemma {:induction false} BackfillIsComplete(c: Cluster, i: nat)
    requires Reachable(c) && i < |c.links| && c.links[i].session.Filling?
    ensures c.links[i].session.upto <= |Log(c)| && c.shipped <= |Log(c)| && Enabled(c, EndBackfill(i))
    ensures var l, log := c.links[i], Log(c);
      var from, upto, l' := Reach(l, log), l.session.upto, FinishBackfill(l, log, c.m.store.vals, c.shipped);
      && from <= upto && LastLsn(log[..from]) == LastLsn(l.log)
      && Appends(l'.queue) == log[from..upto] + Alive(l, log) && Rises(Appends(l'.queue))
      && (Process(l.log, Appends(l'.queue)) == l.log + log[from..Max(c.shipped, upto)] <==>
           NothingTaken(l, log, c.shipped))
  {
    hide Reachable, ClusterInv, Rises, LinkInv, Process, Above, Appends, LastLsn, Backfill, Follower.CommitBlock;
    hide NothingTaken, Thin, Reach, Alive, Taken, Leader.IsCut, Enabled;
    ReachableInv(c);
    PositionsOf(c);
    ClusterRises(c);
    LinkFacts(c, i);
    var l, log := c.links[i], Log(c);
    FillingBelow(l, log, c.shipped, c.commitAt);
    CanEnd(c, i);
    BackfillCompletes(l, log, c.m.store.vals, c.shipped, c.commitAt);
    LinkEnd(l, log, c.shipped, c.commitAt);
  }

  lemma {:induction false} CanEnd(c: Cluster, i: nat)
    requires i < |c.links| && c.links[i].session.Filling? && c.links[i].session.upto <= |Log(c)|
    requires c.shipped <= |Log(c)|
    ensures Enabled(c, EndBackfill(i))
  {
  }

  lemma {:induction false} LinkEnd(l: Link, log: seq<Entry>, shipped: nat, commitAt: nat)
    requires LinkInv(l, log, shipped, commitAt)
    ensures LastLsn(log[..Reach(l, log)]) == LastLsn(l.log)
  {
    hide QueueInv, Flows, AcksInv, MissedInv, LastLsn, Reach, Thin;
  }
}
