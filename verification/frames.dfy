/** What is under way between leader and followers: every record sent is one of the leader's, and every put carries its
    own bytes. */
module Frames {
  import opened Bytes
  import opened Wal
  import opened Disk
  import opened Link
  import opened Cluster
  import ClusterGuarantees
  import Replication
  import Runs
  import Follower

  /** The frame is a barrier, or a record of the log with the value if it is a put. */
  ghost predicate Genuine(f: Frame, log: seq<Entry>, vals: Values) {
    f.Append? ==>
      && f.e in log
      && if f.e.rec.Put? then f.e.lsn in vals && |vals[f.e.lsn]| == f.e.rec.len && f.data == Some(vals[f.e.lsn])
         else f.data == None
  }

  ghost predicate AllGenuine(fs: seq<Frame>, log: seq<Entry>, vals: Values) {
    forall i :: 0 <= i < |fs| ==> Genuine(fs[i], log, vals)
  }

  ghost predicate LinkGenuine(l: Link, log: seq<Entry>, vals: Values) {
    AllGenuine(l.queue, log, vals) && AllGenuine(l.wire, log, vals)
  }

  ghost predicate FramesInv(c: Cluster) {
    && Replication.HasValues(Log(c), c.m.store.vals)
    && forall i :: 0 <= i < |c.links| ==> LinkGenuine(c.links[i], Log(c), c.m.store.vals)
  }

  lemma {:induction false} GenuineMore(fs: seq<Frame>, log: seq<Entry>, vals: Values, log': seq<Entry>, vals': Values)
    requires AllGenuine(fs, log, vals) && log <= log' && forall l :: l in vals ==> l in vals' && vals'[l] == vals[l]
    ensures AllGenuine(fs, log', vals')
  {
    forall i | 0 <= i < |fs| ensures Genuine(fs[i], log', vals') {
      assert Genuine(fs[i], log, vals);
      if fs[i].Append? {
        var j :| 0 <= j < |log| && log[j] == fs[i].e;
        assert log'[j] == fs[i].e;
      }
    }
  }

  lemma {:induction false} FramesGenuine(es: seq<Entry>, log: seq<Entry>, vals: Values)
    requires Replication.HasValues(log, vals) && forall i :: 0 <= i < |es| ==> es[i] in log
    ensures AllGenuine(FramesOf(vals, es), log, vals)
  {
    forall i | 0 <= i < |es| ensures Genuine(FramesOf(vals, es)[i], log, vals) {
      var j :| 0 <= j < |log| && log[j] == es[i];
    }
  }

  lemma {:induction false} GenuineJoin(a: seq<Frame>, b: seq<Frame>, log: seq<Entry>, vals: Values)
    requires AllGenuine(a, log, vals) && AllGenuine(b, log, vals)
    ensures AllGenuine(a + b, log, vals)
  {
    hide Genuine;
  }

  lemma {:induction false} GenuineBarrier(lsn: nat, log: seq<Entry>, vals: Values)
    ensures AllGenuine([SyncBarrier(lsn)], log, vals)
  {
  }

  lemma {:induction false} BatchGenuine(log: seq<Entry>, vals: Values, from: nat)
    requires Replication.HasValues(log, vals) && from <= |log|
    ensures AllGenuine(Batch(vals, log[from..]), log, vals)
  {
    hide AllGenuine, Replication.HasValues;
    var es := log[from..];
    forall i | 0 <= i < |es| ensures es[i] in log { assert es[i] == log[from + i]; }
    FramesGenuine(es, log, vals);
    GenuineBarrier(LastLsn(es), log, vals);
    GenuineJoin(FramesOf(vals, es), [SyncBarrier(LastLsn(es))], log, vals);
  }

  lemma {:induction false} RequestedIn(log: seq<Entry>, from: nat, commit: nat)
    ensures forall i :: 0 <= i < |Requested(log, from, commit)| ==> Requested(log, from, commit)[i] in log
  {
    if |log| > 0 {
      RequestedIn(log[..|log| - 1], from, commit);
      assert log[|log| - 1] in log;
      assert forall e :: e in log[..|log| - 1] ==> e in log;
    }
  }

  lemma {:induction false} RetainedGenuine(queue: seq<Frame>, commit: nat, log: seq<Entry>, vals: Values)
    requires AllGenuine(queue, log, vals)
    ensures AllGenuine(Retained(queue, commit), log, vals)
    decreases |queue|
  {
    hide Genuine;
    if |queue| > 0 { RetainedGenuine(queue[1..], commit, log, vals); }
  }

  lemma {:induction false} BackfillGenuine(l: Link, log: seq<Entry>, vals: Values, shipped: nat)
    requires l.session.Filling? && l.session.upto <= |log| && shipped <= |log|
    requires LinkGenuine(l, log, vals) && Replication.HasValues(log, vals)
    ensures LinkGenuine(FinishBackfill(l, log, vals, shipped), log, vals)
  {
    hide AllGenuine, Replication.HasValues, Follower.CommitBlock, Taken, Requested, Retained;
    var from, commit := Follower.CommitBlock(l.log) + 1, Follower.CommitBlock(log[..l.session.upto]);
    var es := Requested(log, from, commit);
    RequestedIn(log, from, commit);
    FramesGenuine(es, log, vals);
    GenuineBarrier(commit, log, vals);
    RetainedGenuine(l.queue, commit, log, vals);
    GenuineJoin(FramesOf(vals, es), [SyncBarrier(commit)], log, vals);
    GenuineJoin(FramesOf(vals, es) + [SyncBarrier(commit)], Retained(l.queue, commit), log, vals);
  }

  lemma {:induction false} LinkStepGenuine(c: Cluster, a: Action)
    requires FramesInv(c) && Enabled(c, a) && AboutLink(a)
    ensures LinkGenuine(NextLink(c, a), Log(c), c.m.store.vals)
  {
    hide Genuine, Replication.HasValues, Runs.Enabled, Runs.InBounds, Follower.CommitBlock, Accept, CommitIndex;
    assert LinkGenuine(c.links[a.i], Log(c), c.m.store.vals);
    if a.EndBackfill? {
      hide LinkGenuine, FinishBackfill;
      BackfillGenuine(c.links[a.i], Log(c), c.m.store.vals, c.shipped);
    }
  }

  lemma {:induction false} ShipGenuine(c: Cluster)
    requires FramesInv(c) && c.shipped <= |Log(c)|
    ensures forall i :: 0 <= i < |c.links| ==> LinkGenuine(SendAll(c)[i], Log(c), c.m.store.vals)
  {
    hide AllGenuine, Replication.HasValues, Batch;
    BatchGenuine(Log(c), c.m.store.vals, c.shipped);
    forall i | 0 <= i < |c.links| ensures LinkGenuine(SendAll(c)[i], Log(c), c.m.store.vals) {
      assert LinkGenuine(c.links[i], Log(c), c.m.store.vals);
      GenuineJoin(c.links[i].queue, Batch(c.m.store.vals, Log(c)[c.shipped..]), Log(c), c.m.store.vals);
    }
  }

  lemma {:induction false} StoreStepGenuine(c: Cluster, b: Runs.Action)
    requires ClusterInv(c) && FramesInv(c) && Enabled(c, OnStore(b))
    ensures FramesInv(Do(c, OnStore(b)))
  {
    assert !b.CrashAndReopen?;
    hide ClusterInv, Genuine, Replication.HasValues, Runs.Enabled, Runs.InBounds, Runs.MachineInv, Runs.Do;
    var d := Do(c, OnStore(b));
    ClusterGuarantees.MachineOf(c);
    Replication.StepHasValues(c, OnStore(b));
    Runs.ValuesKept(c.m, b);
    ClusterGuarantees.StoreOnlyGrows(c, b);
    assert Log(c) <= Log(d);
    forall i | 0 <= i < |d.links| ensures LinkGenuine(d.links[i], Log(d), d.m.store.vals) {
      assert LinkGenuine(c.links[i], Log(c), c.m.store.vals);
      GenuineMore(c.links[i].queue, Log(c), c.m.store.vals, Log(d), d.m.store.vals);
      GenuineMore(c.links[i].wire, Log(c), c.m.store.vals, Log(d), d.m.store.vals);
    }
  }

  lemma {:induction false} StepGenuine(c: Cluster, a: Action)
    requires ClusterInv(c) && FramesInv(c) && Enabled(c, a)
    ensures FramesInv(Do(c, a))
  {
    if a.OnStore? {
      hide FramesInv, ClusterInv, Enabled, Do;
      StoreStepGenuine(c, a.a);
    } else {
      hide ClusterInv, LinkGenuine, Replication.HasValues, Runs.Enabled, Runs.InBounds, NextLink, SendAll, OpAllows;
      if AboutLink(a) { LinkStepGenuine(c, a); }
      if a.Ship? || a.ShipCommit? { ShipGenuine(c); }
    }
  }

  lemma {:induction false} RunGenuine(c: Cluster, acts: seq<Action>, d: Cluster)
    requires ClusterInv(c) && FramesInv(c) && Leads(c, acts, d)
    ensures FramesInv(d)
    decreases |acts|
  {
    hide ClusterInv, FramesInv, Enabled;
    if |acts| > 0 {
      StepGenuine(c, acts[0]);
      StepKeeps(c, acts[0]);
      RunGenuine(Do(c, acts[0]), acts[1..], d);
    }
  }

  lemma {:induction false} BootGenuine(followers: nat)
    ensures FramesInv(Boot(followers))
  {
    Replication.BootHasValues(followers);
    hide Replication.HasValues, Genuine;
  }

  /** In every run, each record queued for a follower or on its way to it is one of the leader's log, and each
      put has with it the bytes that were put, backfilled or live. */
  lemma {:induction false} FramesCarryValues(c: Cluster, i: nat, j: nat)
    requires Reachable(c) && i < |c.links| && j < |c.links[i].wire + c.links[i].queue|
    ensures Genuine((c.links[i].wire + c.links[i].queue)[j], Log(c), c.m.store.vals)
  {
    hide ClusterInv, Leads, Genuine, Replication.HasValues;
    var acts, followers :| Leads(Boot(followers), acts, c);
    BootInv(followers);
    BootGenuine(followers);
    hide Boot;
    RunGenuine(Boot(followers), acts, c);
    assert LinkGenuine(c.links[i], Log(c), c.m.store.vals);
  }
}
