/** The cluster and the follower's store together: what the leader sends is a stream a follower can apply, and a
    follower that has applied all of it has the leader's state. */
module Replication {
  import opened Bytes
  import opened Records
  import opened Wal
  import opened LogModel
  import opened Disk
  import opened Cluster
  import ClusterGuarantees
  import Link
  import CrashSafety
  import Leader
  import Runs
  import Rollups
  import FollowerRuns
  import FollowerGuarantees

  /** The bytes of every logged put are known. */
  ghost predicate HasValues(log: seq<Entry>, vals: Values) {
    forall i :: 0 <= i < |log| && log[i].rec.Put? ==> log[i].lsn in vals && |vals[log[i].lsn]| == log[i].rec.len
  }

  lemma {:induction false} ValuesMore(log: seq<Entry>, es: seq<Entry>, vals: Values, vals': Values)
    requires HasValues(log, vals) && forall l :: l in vals ==> l in vals' && vals'[l] == vals[l]
    requires forall i :: 0 <= i < |es| && es[i].rec.Put? ==> es[i].lsn in vals' && |vals'[es[i].lsn]| == es[i].rec.len
    ensures HasValues(log + es, vals')
  {
  }

  lemma {:induction false} StoreHasValues(m: Runs.Machine, b: Runs.Action)
    requires Runs.MachineInv(m) && Runs.Enabled(m, b) && Runs.InBounds(m.store, b) && !b.CrashAndReopen?
    requires HasValues(m.store.log, m.store.vals)
    ensures HasValues(Runs.Do(m, b).store.log, Runs.Do(m, b).store.vals)
  {
    hide Runs.MachineInv, HasValues, Leader.RemapRecords, Leader.Copied, Leader.WriteAt, PutOn, SealOn, SwapOn;
    hide Runs.Seen, Runs.SnapOf, Leader.PlanFor, Leader.SourcesIn;
    Runs.ValuesKept(m, b);
    var s, t := m.store, Runs.Do(m, b).store;
    if b.Stage? { Leader.RemapsAreRemaps(s.nextLsn + 1, s.nextFree, b.chunks); }
    assert s.log <= t.log;
    var es := t.log[|s.log|..];
    assert t.log == s.log + es;
    ValuesMore(s.log, es, s.vals, t.vals);
  }

  lemma {:induction false} StepHasValues(c: Cluster, a: Action)
    requires ClusterInv(c) && Enabled(c, a) && HasValues(Log(c), c.m.store.vals)
    ensures HasValues(Log(Do(c, a)), Do(c, a).m.store.vals)
  {
    hide ClusterInv, HasValues, Runs.Enabled, Runs.InBounds, Runs.MachineInv, Runs.Do;
    ClusterGuarantees.MachineOf(c);
    if a.OnStore? { StoreHasValues(c.m, a.a); }
  }

  lemma {:induction false} RunHasValues(c: Cluster, acts: seq<Action>, d: Cluster)
    requires ClusterInv(c) && Leads(c, acts, d) && HasValues(Log(c), c.m.store.vals)
    ensures HasValues(Log(d), d.m.store.vals)
    decreases |acts|
  {
    hide ClusterInv, HasValues, Enabled;
    if |acts| > 0 {
      StepHasValues(c, acts[0]);
      StepKeeps(c, acts[0]);
      RunHasValues(Do(c, acts[0]), acts[1..], d);
    }
  }

  /** The leader's log with the bytes of its puts, as a follower gets it. */
  ghost function StreamOf(c: Cluster): FollowerRuns.Stream {
    FollowerRuns.Stream(Log(c), c.m.store.vals)
  }

  /** Whatever the leader has logged is legal, and it has the bytes of every put. */
  lemma {:induction false} LeaderStreams(c: Cluster)
    requires Reachable(c)
    ensures FollowerRuns.GoodStream(StreamOf(c)) && Leader.Inv(c.m.store)
  {
    ReachableInv(c);
    hide ClusterInv, Leads, Legal, Leader.Inv, Runs.MachineInv;
    AllHasValues(c);
    ClusterGuarantees.MachineOf(c);
    LegalMachine(c.m);
  }

  lemma {:induction false} AllHasValues(c: Cluster)
    requires Reachable(c)
    ensures HasValues(Log(c), c.m.store.vals)
  {
    hide ClusterInv, Leads;
    var acts, followers :| Leads(Boot(followers), acts, c);
    BootInv(followers);
    hide Boot;
    assert HasValues(Log(Boot(followers)), Boot(followers).m.store.vals) by { BootHasValues(followers); }
    hide HasValues;
    RunHasValues(Boot(followers), acts, c);
  }

  lemma {:induction false} BootHasValues(followers: nat)
    ensures HasValues(Log(Boot(followers)), Boot(followers).m.store.vals)
  {
  }

  lemma {:induction false} LegalMachine(m: Runs.Machine)
    requires Runs.MachineInv(m)
    ensures Legal(m.store.log) && Leader.Inv(m.store)
  {
    hide Legal, Leader.ViewInv, Leader.FileInv, Leader.Backed, Runs.PhaseInv, Runs.SnapsOk, Runs.HandlesFollow;
  }

  /** A follower whose backfills skipped nothing up to its last record: its store accepts every record that
      comes next, and once it has them all and a barrier has passed, it has the leader's memory, counters and
      bytes. */
  lemma {:induction false} FollowerOfCluster(c: Cluster, i: nat, m: FollowerRuns.Node)
    requires Reachable(c) && i < |c.links| && forall x :: x in c.links[i].missed ==> x > Link.LastLsn(c.links[i].log)
    requires FollowerRuns.Reachable(StreamOf(c), m)
    requires m.f.log == c.links[i].log
    ensures m.f.log <= Log(c)
    ensures FollowerRuns.Enabled(StreamOf(c), m, FollowerRuns.ApplyNext) ==>
      FollowerRuns.NextReplica(StreamOf(c), m, FollowerRuns.ApplyNext).Some?
    ensures m.f.log == Log(c) && m.f.swap.None? && c.m.store.plan.None? ==>
      var s := c.m.store;
      && FollowerGuarantees.SameMemory(m.f, s) && m.f.tally == Rollups.RollupOf(Log(c))
      && forall lsn :: lsn in s.mem.locs && s.mem.locs[lsn].seg in s.mem.sealed + {s.mem.active} ==>
           lsn in s.vals && FollowerGuarantees.SamePut(m.f, s, s.vals[lsn], lsn)
  {
    hide Reachable, FollowerRuns.Reachable, FollowerRuns.Enabled, FollowerRuns.NextReplica, Leader.Inv;
    hide FollowerRuns.GoodStream;
    hide FollowerGuarantees.SameMemory, FollowerGuarantees.SamePut, Rollups.RollupOf, Link.LastLsn;
    LeaderStreams(c);
    ClusterGuarantees.FollowersHavePrefixes(c, i);
    if FollowerRuns.Enabled(StreamOf(c), m, FollowerRuns.ApplyNext) {
      FollowerGuarantees.RecordsNeverRefused(StreamOf(c), m);
    }
    if m.f.log == Log(c) && m.f.swap.None? && c.m.store.plan.None? {
      FollowerGuarantees.FollowerSimulates(StreamOf(c), m, c.m.store);
    }
  }

  // ----- published counters

  lemma {:induction false} LastIsLast(log: seq<Entry>)
    ensures On(log).lastLsn == Link.LastLsn(log)
  {
    hide After;
    if |log| > 0 { CrashSafety.AfterLsn(On(log[..|log| - 1]), log[|log| - 1]); }
  }

  /** Every commit of the leader passes the LSN of the last record before it, so what it publishes is a recount: the
      counters of every canonical prefix are those of the keys listed under it. */
  lemma {:induction false} CommittedRollupIsRecount(c: Cluster, lsn: u64, p: Text)
    requires Reachable(c) && Enabled(c, OnStore(Runs.LogCommit(lsn))) && Rollups.Canonical(p)
    requires var log := Log(Do(c, OnStore(Runs.LogCommit(lsn))));
      |p| > 0 || forall k :: k in On(log).r.index ==> |Rollups.Parts(k)| > 0
    ensures var log := Log(Do(c, OnStore(Runs.LogCommit(lsn))));
      var t, keys := Rollups.RollupOf(log), Rollups.Listed(On(log).r.index, lsn, p);
      && Rollups.SizesMatch(t, On(log).r) && keys <= t.sizes.Keys
      && Rollups.Lookup(t, p) == Rollups.Recount(keys, t.sizes)
  {
    var a := OnStore(Runs.LogCommit(lsn));
    var d, e := Do(c, a), Entry(c.m.store.nextLsn, Commit(lsn));
    assert Log(d) == Log(c) + [e] && lsn == Link.LastLsn(Log(c));
    hide Enabled, Do, On, Legal, Reachable, ClusterInv, Rollups.RollupOf, Rollups.Listed, Rollups.SizesMatch;
    hide Rollups.Lookup, Rollups.Recount, Rollups.Canonical, Rollups.Parts, Runs.MachineInv, Link.LastLsn;
    ReachableInv(c);
    StepKeeps(c, a);
    ClusterGuarantees.MachineOf(d);
    LegalMachine(d.m);
    LastIsLast(Log(c));
    Rollups.PublishedRollupIsRecount(Log(c), e, p);
  }
}
