/** Runs of the cluster in which the code does less than it promises. */
module Scenarios {
  import opened Bytes
  import opened Records
  import opened Wal
  import opened LogModel
  import opened Disk
  import opened CrashSafety
  import opened Link
  import opened Cluster
  import opened ClusterGuarantees
  import Leader
  import Follower
  import Runs
  import Guarantees

  // ----- one step further

  lemma {:induction false} LeadsOn(c: Cluster, acts: seq<Action>, d: Cluster, a: Action)
    requires Leads(c, acts, d) && Enabled(d, a)
    ensures Leads(c, acts + [a], Do(d, a))
    decreases |acts|
  {
    hide Enabled, Do;
    if |acts| == 0 {
      assert acts + [a] == [a] && [a][1..] == [];
      assert Leads(Do(d, a), [a][1..], Do(d, a));
    } else {
      LeadsOn(Do(c, acts[0]), acts[1..], d, a);
      assert (acts + [a])[0] == acts[0] && (acts + [a])[1..] == acts[1..] + [a];
    }
  }

  lemma {:induction false} Go(c: Cluster, a: Action)
    requires Reachable(c) && Enabled(c, a)
    ensures Reachable(Do(c, a))
  {
    hide Leads, Enabled, Do;
    var acts, followers :| Leads(Boot(followers), acts, c);
    LeadsOn(Boot(followers), acts, c, a);
  }

  lemma {:induction false} GoBoot(followers: nat)
    ensures Reachable(Boot(followers))
  {
    assert Leads(Boot(followers), [], Boot(followers));
  }

  // ----- the store, as far as these runs look at it

  /** Between operations: `log` is written, the next LSN is one more than its length, and one segment is open. */
  ghost predicate Calm(c: Cluster, log: seq<Entry>) {
    && c.op.Idle? && c.m.phase.Idle? && Log(c) == log && c.shipped == |log| && Plain(c, log)
  }

  ghost predicate Plain(c: Cluster, log: seq<Entry>) {
    && Log(c) == log && c.m.store.nextLsn == |log| + 1 && |log| < 100
    && c.m.store.nextFree == 1 && c.m.store.mem.active == 0 && c.m.store.plan.None?
  }

  function PutRecord(log: seq<Entry>, key: Text): Entry
    requires |log| < 100
  {
    Entry(|log| + 1, Put(key, 1, |log| + 1))
  }

  function WithPut(log: seq<Entry>, key: Text): (l: seq<Entry>)
    requires |log| < 100
    ensures |l| == |log| + 2
  {
    log + [PutRecord(log, key)] + [Entry(|log| + 2, AggDelta([]))]
  }

  lemma {:induction false} PutOnStore(c: Cluster, log: seq<Entry>, key: Text, v: byte)
    requires Calm(c, log) && |log| < 90
    ensures Enabled(c, OnStore(Runs.Place(key, [v])))
    ensures var d := Do(c, OnStore(Runs.Place(key, [v])));
      && d.op.Staging? && d.m.phase.Idle? && Plain(d, log + [PutRecord(log, key)])
      && d.links == c.links && d.shipped == |log| && d.commitAt == c.commitAt && d.m.store.acked == c.m.store.acked
      && |log| + 1 in d.m.store.vals && d.m.store.vals[|log| + 1] == [v]
  {
    hide PutOn, Leader.WriteAt, Leader.Opened, Runs.Seen, Runs.SnapOf;
  }

  lemma {:induction false} AggOnStore(c: Cluster, log: seq<Entry>)
    requires c.op.Staging? && c.m.phase.Idle? && Plain(c, log) && |log| < 91
    ensures Enabled(c, OnStore(Runs.Agg([])))
    ensures var d := Do(c, OnStore(Runs.Agg([])));
      && d.op.Staging? && d.m.phase.Idle? && Plain(d, log + [Entry(|log| + 1, AggDelta([]))])
      && d.links == c.links && d.shipped == c.shipped && d.commitAt == c.commitAt && d.m.store.acked == c.m.store.acked
      && d.m.store.vals == c.m.store.vals
  {
    hide Runs.Seen, Runs.SnapOf;
  }

  lemma {:induction false} SyncOnStore(c: Cluster, log: seq<Entry>)
    requires c.op.Staging? && c.m.phase.Idle? && Plain(c, log)
    ensures Enabled(c, OnStore(Runs.WriteLog))
    ensures var d := Do(c, OnStore(Runs.WriteLog));
      && Enabled(d, OnStore(Runs.FsyncLog))
      && var e := Do(d, OnStore(Runs.FsyncLog));
         && e.op.Staging? && e.m.phase.Idle? && Plain(e, log) && e.m.store.durable == |log|
         && e.links == c.links && e.shipped == c.shipped && e.commitAt == c.commitAt &&
              e.m.store.acked == c.m.store.acked
         && e.m.store.vals == c.m.store.vals
  {
    hide Runs.Seen, Runs.SnapOf;
  }

  /** A put is staged, fsynced on the leader, and sent to every follower. */
  lemma {:induction false} PutShipped(c: Cluster, log: seq<Entry>, key: Text, v: byte) returns (d: Cluster)
    requires Reachable(c) && Calm(c, log) && |log| < 90
    ensures Reachable(d) && d.op.Shipped? && d.m.phase.Idle? && Plain(d, WithPut(log, key)) && d.shipped == |log| + 2
    ensures d.commitAt == c.commitAt && d.m.store.acked == c.m.store.acked && |d.links| == |c.links|
    ensures |log| + 1 in d.m.store.vals && d.m.store.vals[|log| + 1] == [v]
    ensures forall i :: 0 <= i < |c.links| ==>
      d.links[i] == Enqueue(c.links[i], Batch(d.m.store.vals, WithPut(log, key)[|log|..]))
  {
    hide Reachable, Enabled, Do, Batch;
    PutOnStore(c, log, key, v);
    Go(c, OnStore(Runs.Place(key, [v])));
    var c1 := Do(c, OnStore(Runs.Place(key, [v])));
    AggOnStore(c1, log + [PutRecord(log, key)]);
    Go(c1, OnStore(Runs.Agg([])));
    var c2 := Do(c1, OnStore(Runs.Agg([])));
    SyncOnStore(c2, WithPut(log, key));
    Go(c2, OnStore(Runs.WriteLog));
    var c3 := Do(c2, OnStore(Runs.WriteLog));
    Go(c3, OnStore(Runs.FsyncLog));
    var c4 := Do(c3, OnStore(Runs.FsyncLog));
    ShipIt(c4);
    Go(c4, Ship);
    d := Do(c4, Ship);
  }

  lemma {:induction false} ShipIt(c: Cluster)
    requires c.op.Staging? && c.m.store.durable == |Log(c)| && c.shipped <= |Log(c)|
    ensures Enabled(c, Ship)
    ensures var d := Do(c, Ship);
      && d.m == c.m && d.op == Shipped && d.shipped == |Log(c)| && d.commitAt == c.commitAt && |d.links| == |c.links|
      && forall i :: 0 <= i < |c.links| ==>
           d.links[i] == Enqueue(c.links[i], Batch(c.m.store.vals, Log(c)[c.shipped..]))
  {
    hide Batch;
  }

  // ----- committing

  lemma {:induction false} ApproveIt(c: Cluster)
    requires c.op.Shipped? && QuorumAcked(c, LastLsn(Log(c)))
    ensures Enabled(c, QuorumReached) && Do(c, QuorumReached) == c.(op := Approved)
  {
    hide QuorumAcked;
  }

  lemma {:induction false} FsyncSegmentsIt(c: Cluster, log: seq<Entry>)
    requires c.op.Approved? && c.m.phase.Idle? && Plain(c, log) && c.m.store.acked < |log|
    ensures Enabled(c, OnStore(Runs.FsyncSegments))
    ensures var d := Do(c, OnStore(Runs.FsyncSegments));
      && d.op.Approved? && d.m.phase.Fsynced? && Plain(d, log)
      && d.links == c.links && d.shipped == c.shipped && d.commitAt == c.commitAt && d.m.store.acked == c.m.store.acked
  {
    hide Runs.Seen, Runs.SnapOf, Fsynced;
  }

  lemma {:induction false} LogCommitIt(c: Cluster, log: seq<Entry>)
    requires c.op.Approved? && c.m.phase.Fsynced? && Plain(c, log) && |log| < 95 && LastLsn(log) == |log|
    ensures Enabled(c, OnStore(Runs.LogCommit(|log|)))
    ensures var d := Do(c, OnStore(Runs.LogCommit(|log|)));
      && d.op.Approved? && d.m.phase.Logged? && Plain(d, log + [Entry(|log| + 1, Commit(|log|))])
      && d.links == c.links && d.shipped == c.shipped && d.commitAt == c.commitAt
  {
    hide Runs.Seen, Runs.SnapOf;
  }

  lemma {:induction false} FinishIt(c: Cluster, log: seq<Entry>)
    requires c.op.Approved? && c.m.phase.Logged? && Plain(c, log)
    ensures Enabled(c, OnStore(Runs.WriteLog))
    ensures var d := Do(c, OnStore(Runs.WriteLog));
      && Enabled(d, OnStore(Runs.FsyncLog))
      && var e := Do(d, OnStore(Runs.FsyncLog));
         && Enabled(e, OnStore(Runs.Finish))
         && var f := Do(e, OnStore(Runs.Finish));
            && f.op.Finished? && f.m.phase.Idle? && Plain(f, log) && f.m.store.acked == |log|
            && f.links == c.links && f.shipped == c.shipped && f.commitAt == c.commitAt
  {
    hide Runs.Seen, Runs.SnapOf;
  }

  /** From the quorum to the end of the commit, before it is announced. */
  lemma {:induction false} CommitFinished(c: Cluster, log: seq<Entry>) returns (d: Cluster)
    requires Reachable(c) && c.op.Shipped? && c.m.phase.Idle? && Plain(c, log) && |log| < 95 && LastLsn(log) == |log|
    requires QuorumAcked(c, |log|) && c.m.store.acked < |log|
    ensures Reachable(d) && d.op.Finished? && d.m.phase.Idle? && Plain(d, log + [Entry(|log| + 1, Commit(|log|))])
    ensures d.m.store.acked == |log| + 1 && d.links == c.links && d.shipped == c.shipped && d.commitAt == c.commitAt
  {
    hide Reachable, Enabled, Do, QuorumAcked, LastLsn;
    ApproveIt(c);
    Go(c, QuorumReached);
    var c1 := Do(c, QuorumReached);
    FsyncSegmentsIt(c1, log);
    Go(c1, OnStore(Runs.FsyncSegments));
    var c2 := Do(c1, OnStore(Runs.FsyncSegments));
    LogCommitIt(c2, log);
    Go(c2, OnStore(Runs.LogCommit(|log|)));
    var c3 := Do(c2, OnStore(Runs.LogCommit(|log|)));
    FinishIt(c3, log + [Entry(|log| + 1, Commit(|log|))]);
    Go(c3, OnStore(Runs.WriteLog));
    var c4 := Do(c3, OnStore(Runs.WriteLog));
    Go(c4, OnStore(Runs.FsyncLog));
    var c5 := Do(c4, OnStore(Runs.FsyncLog));
    Go(c5, OnStore(Runs.Finish));
    d := Do(c5, OnStore(Runs.Finish));
  }

  /** The new commit index is announced and the Commit sent. */
  lemma {:induction false} AnnounceAndSend(c: Cluster, log: seq<Entry>) returns (d: Cluster)
    requires Reachable(c) && c.op.Finished? && c.m.phase.Idle? && Plain(c, log) && c.shipped <= |log|
    ensures Reachable(d) && Calm(d, log) && d.commitAt == |log| && d.m.store.acked == c.m.store.acked
    ensures |d.links| == |c.links|
  {
    hide Reachable, Batch;
    Go(c, Announce);
    var c1 := Do(c, Announce);
    Go(c1, ShipCommit);
    d := Do(c1, ShipCommit);
  }

  // ----- a read that finds nothing

  function OnePut(key: Text): seq<Entry> {
    WithPut([], key) + [Entry(3, Commit(2))]
  }

  lemma {:induction false} AloneIsQuorum(c: Cluster, lsn: nat)
    requires |c.links| == 0
    ensures QuorumAcked(c, lsn)
  {
  }

  /** A leader without followers, its first put of the key acknowledged, and the second committed and not yet
      announced. */
  lemma {:induction false} HalfAnnounced(key: Text, v: byte, w: byte) returns (c: Cluster)
    ensures Reachable(c) && c.op.Finished? && c.commitAt == 3 && c.m.store.acked == 6
    ensures Log(c) == WithPut(OnePut(key), key) + [Entry(6, Commit(5))]
  {
    hide Reachable, QuorumAcked, Plain;
    GoBoot(0);
    assert Calm(Boot(0), []) by { BootIsCalm(0); }
    var c1 := PutShipped(Boot(0), [], key, v);
    AloneIsQuorum(c1, 2);
    var c2 := CommitFinished(c1, WithPut([], key));
    assert WithPut([], key) + [Entry(3, Commit(2))] == OnePut(key);
    var c3 := AnnounceAndSend(c2, OnePut(key));
    var c4 := PutShipped(c3, OnePut(key), key, w);
    AloneIsQuorum(c4, 5);
    c := CommitFinished(c4, WithPut(OnePut(key), key));
    assert Log(c) == WithPut(OnePut(key),
      key) + [Entry(6, Commit(5))] by { PlainLog(c, WithPut(OnePut(key), key) + [Entry(6, Commit(5))]); }
  }

  lemma {:induction false} PlainLog(c: Cluster, log: seq<Entry>)
    requires Plain(c, log)
    ensures Log(c) == log
  {
  }

  lemma {:induction false} BootIsCalm(followers: nat)
    ensures Calm(Boot(followers), [])
  {
  }

  /** The gap in read-your-writes: the key's first put is acknowledged and announced, and a read of it finds
      nothing, because the snapshot already has the second put and the commit index does not cover it yet. */
  lemma {:induction false} AcknowledgedKeyReadsAbsent(key: Text, v: byte, w: byte) returns (c: Cluster)
    ensures Reachable(c) && c.op.Finished? && |c.m.snaps| > 0 && 0 < c.commitAt <= |Log(c)|
    ensures Log(c)[0].rec.Put? && Log(c)[0].rec.key == key && GetUpto(c, key) == Guarantees.Absent
  {
    hide Reachable, GetUpto, ClusterInv, LastPut;
    c := HalfAnnounced(key, v, w);
    ReachableInv(c);
    ReadIsLastAcknowledged(c, key);
    var log := Log(c);
    assert log[..6] == log && CommitIndex(c) == 3;
    SecondPut(key);
  }

  lemma {:induction false} SecondPut(key: Text)
    ensures LastPut(WithPut(OnePut(key), key) + [Entry(6, Commit(5))], key) == Some(4)
  {
    var l := WithPut(OnePut(key), key) + [Entry(6, Commit(5))];
    var l5 := l[..5];
    var l4 := l5[..4];
    assert l5 == WithPut(OnePut(key), key) && l4 == OnePut(key) + [PutRecord(OnePut(key), key)];
    assert LastPut(l, key) == LastPut(l5, key);
    assert LastPut(l5, key) == LastPut(l4, key);
  }

  // ----- a backfill that skips a record

  /** The two records of the first put. */
  function E1(key: Text): Entry {
    Entry(1, Put(key, 1, 1))
  }

  const E2 := Entry(2, AggDelta([]))

  function F1(key: Text, v: byte): Frame {
    Append(E1(key), Some([v]))
  }

  const F2 := Append(E2, None)

  lemma {:induction false} BatchIs(vals: Values, key: Text, v: byte)
    requires 1 in vals && vals[1] == [v]
    ensures WithPut([], key) == [E1(key), E2] && Batch(vals, WithPut([], key)[0..]) == [F1(key, v), F2, SyncBarrier(2)]
  {
    assert WithPut([], key) == [E1(key), E2];
    var es := [E1(key), E2];
    assert es[0..] == es;
    assert FramesOf(vals, es) == [F1(key, v), F2];
  }

  lemma {:induction false} NoCommits(key: Text)
    ensures Committed([E1(key), E2]) == 0 && Committed([]) == 0 && Follower.CommitBlock([]) == 0 && Committed([E2]) == 0
    ensures Follower.CommitBlock([E2]) == 0
  {
  }

  /** A link with nothing applied, at the start of a backfill up to the empty commit position. */
  function Asking(queue: seq<Frame>, missed: set<nat>): Link {
    FRESH.(session := Filling(0), queue := queue, missed := missed)
  }

  lemma {:induction false} RetainsAll(queue: seq<Frame>)
    requires forall i :: 0 <= i < |queue| ==> FrameLsn(queue[i]) > 0
    ensures Retained(queue, 0) == queue
    decreases |queue|
  {
    if |queue| > 0 {
      RetainsAll(queue[1..]);
      assert [queue[0]] + queue[1..] == queue;
    }
  }

  lemma {:induction false} NothingRequested(log: seq<Entry>)
    requires forall i :: 0 <= i < |log| ==> log[i].lsn > 0
    ensures Requested(log, 1, 0) == []
  {
    if |log| > 0 { NothingRequested(log[..|log| - 1]); }
  }

  lemma {:induction false} AskingFilled(key: Text, vals: Values, queue: seq<Frame>)
    requires forall i :: 0 <= i < |queue| ==> FrameLsn(queue[i]) > 0
    ensures var log, l := [E1(key), E2], Asking(queue, {});
      FinishBackfill(l, log, vals, 2) == l.(queue := [SyncBarrier(0)] + queue, session := Up(0),
        missed := Taken(l, log, 2))
  {
    hide Requested, Retained, Taken, Follower.CommitBlock;
    var log, l := [E1(key), E2], Asking(queue, {});
    assert log[..0] == [];
    NoCommits(key);
    NothingRequested(log);
    RetainsAll(queue);
    assert FramesOf(vals, []) == [];
    assert [] + [SyncBarrier(0)] + queue == [SyncBarrier(0)] + queue;
    assert {} + Taken(l, log, 2) == Taken(l, log, 2);
  }

  lemma {:induction false} FirstAsking(key: Text, v: byte)
    ensures Taken(Asking([F1(key, v), F2, SyncBarrier(2)], {}), [E1(key), E2], 2) == {}
  {
    var l, log := Asking([F1(key, v), F2, SyncBarrier(2)], {}), [E1(key), E2];
    assert log[..0] == [];
    AppendsFirst(l.queue);
    assert l.queue[1..] == [F2, SyncBarrier(2)];
    AppendsFirst([F2, SyncBarrier(2)]);
    assert [F2, SyncBarrier(2)][1..] == [SyncBarrier(2)];
    AppendsOfBarrier(2);
    assert Appends(l.queue) == [E1(key), E2];
    AboveAll([E1(key), E2], 0);
  }

  lemma {:induction false} SecondAsking(key: Text)
    ensures Taken(Asking([F2, SyncBarrier(2)], {}), [E1(key), E2], 2) == {1}
  {
    var l, log := Asking([F2, SyncBarrier(2)], {}), [E1(key), E2];
    assert log[..0] == [];
    AppendsFirst([F2, SyncBarrier(2)]);
    assert [F2, SyncBarrier(2)][1..] == [SyncBarrier(2)];
    AppendsOfBarrier(2);
    assert Appends(l.queue) == [E2];
    AboveAll([E2], 0);
    assert Alive(l, log) == [E2];
    assert log[0].lsn in Taken(l, log, 2);
  }

  // The follower's link through the run. A session breaks after the put was taken off the queue and before the rest of
  // its batch was; the next session starts with what is left.

  function Sent(key: Text, v: byte): Link {
    FRESH.(queue := [F1(key, v), F2, SyncBarrier(2)])
  }

  function Broken(): Link {
    FRESH.(queue := [F2, SyncBarrier(2)])
  }

  function Resumed(): Link {
    FRESH.(queue := [SyncBarrier(0), F2, SyncBarrier(2)], session := Up(0), missed := {1})
  }

  function Caught(): Link {
    FRESH.(session := Up(0), missed := {1}, log := [E2], durable := 1, acks := [Ack(0, {}, {1}), Ack(2, {2}, {1})])
  }

  function Counted(): Link {
    FRESH.(session := Up(0), missed := {1}, log := [E2], durable := 1, matchIndex := 2, matched := Ack(2, {2}, {1}))
  }

  /** A step of the first follower's link. */
  lemma {:induction false} Move(c: Cluster, a: Action, l: Link) returns (d: Cluster)
    requires Reachable(c) && AboutLink(a) && a.i == 0 && |c.links| == 2 && Enabled(c, a) && NextLink(c, a) == l
    ensures Reachable(d) && d == c.(links := c.links[0 := l])
  {
    hide Reachable, Enabled, NextLink;
    Go(c, a);
    d := Do(c, a);
  }

  lemma {:induction false} ConnectAndBreak(c: Cluster, key: Text, v: byte) returns (d: Cluster)
    requires Reachable(c) && |c.links| == 2 && c.links[0] == Sent(key, v) && c.commitAt == 0 && c.shipped == 2
    requires Log(c) == [E1(key), E2]
    ensures Reachable(d) && d == c.(links := c.links[0 := Broken()])
  {
    hide Reachable, Backfill, Taken;
    var q := [F1(key, v), F2, SyncBarrier(2)];
    var c1 := Move(c, StartBackfill(0), Asking(q, {}));
    AskingFilled(key, c.m.store.vals, q);
    FirstAsking(key, v);
    var up := FRESH.(queue := [SyncBarrier(0)] + q, session := Up(0));
    assert up.(missed := {}) == up;
    var c2 := Move(c1, EndBackfill(0), up);
    assert ([SyncBarrier(0)] + q)[1..] == q && [] + [SyncBarrier(0)] == [SyncBarrier(0)];
    var c3 := Move(c2, DeliverTo(0), up.(queue := q, wire := [SyncBarrier(0)]));
    assert q[1..] == [F2, SyncBarrier(2)] && [SyncBarrier(0)] + [q[0]] == [SyncBarrier(0), q[0]];
    var c4 := Move(c3, DeliverTo(0), up.(queue := [F2, SyncBarrier(2)], wire := [SyncBarrier(0), q[0]]));
    NoCommits(key);
    var l := c4.links[0];
    assert l.log == [] && l.log[..0] == [];
    assert Surviving(l.log, 0) == [];
    assert Restart(l, 0) == Broken();
    d := Move(c4, RestartOf(0, 0), Broken());
    assert d.links == c.links[0 := Broken()];
  }

  lemma {:induction false} Reconnect(c: Cluster, key: Text) returns (d: Cluster)
    requires Reachable(c) && |c.links| == 2 && c.links[0] == Broken() && c.commitAt == 0 && c.shipped == 2
    requires Log(c) == [E1(key), E2]
    ensures Reachable(d) && d == c.(links := c.links[0 := Resumed()])
  {
    hide Reachable, Backfill, Taken;
    var q := [F2, SyncBarrier(2)];
    var c1 := Move(c, StartBackfill(0), Asking(q, {}));
    AskingFilled(key, c.m.store.vals, q);
    SecondAsking(key);
    assert [SyncBarrier(0)] + q == [SyncBarrier(0), F2, SyncBarrier(2)];
    d := Move(c1, EndBackfill(0), Resumed());
    assert d.links == c.links[0 := Resumed()];
  }

  lemma {:induction false} CatchUp(c: Cluster, key: Text) returns (d: Cluster)
    requires Reachable(c) && |c.links| == 2 && c.links[0] == Resumed()
    ensures Reachable(d) && d == c.(links := c.links[0 := Caught()])
  {
    hide Reachable, Lsns;
    NoCommits(key);
    var r := Resumed();
    var c1 := Move(c, DeliverTo(0), r.(queue := [F2, SyncBarrier(2)], wire := [SyncBarrier(0)]));
    assert Lsns([]) == {} by { LsnsAre(); }
    assert [SyncBarrier(0)][1..] == [];
    var c2 := Move(c1, ReceiveAt(0), r.(queue := [F2, SyncBarrier(2)], acks := [Ack(0, {}, {1})]));
    var c3 := Move(c2, DeliverTo(0), c2.links[0].(queue := [SyncBarrier(2)], wire := [F2]));
    assert [F2][1..] == [] && Accept([], E2) == [E2];
    var c4 := Move(c3, ReceiveAt(0), c3.links[0].(wire := [], log := [E2]));
    assert [SyncBarrier(2)][1..] == [] && [] + [SyncBarrier(2)] == [SyncBarrier(2)];
    var c5 := Move(c4, DeliverTo(0), c4.links[0].(queue := [], wire := [SyncBarrier(2)]));
    assert Lsns([E2]) == {2} by { LsnsAre(); }
    assert [Ack(0, {}, {1})] + [Ack(2, {2}, {1})] == [Ack(0, {}, {1}), Ack(2, {2}, {1})];
    d := Move(c5, ReceiveAt(0), Caught());
    assert d.links == c.links[0 := Caught()];
  }

  lemma {:induction false} LsnsAre()
    ensures Lsns([]) == {} && Lsns([E2]) == {2}
  {
    assert [E2][0].lsn == 2;
  }

  lemma {:induction false} Acknowledge(c: Cluster) returns (d: Cluster)
    requires Reachable(c) && |c.links| == 2 && c.links[0] == Caught() && c.commitAt == 0
    ensures Reachable(d) && d == c.(links := c.links[0 := Counted()])
  {
    hide Reachable;
    assert Log(c)[..0] == [];
    assert Caught().acks[1..] == [Ack(2, {2}, {1})];
    var c1 := Move(c, AckFrom(0), Caught().(acks := [Ack(2, {2}, {1})], matched := Ack(0, {}, {1})));
    assert [Ack(2, {2}, {1})][1..] == [];
    d := Move(c1, AckFrom(0), Counted());
    assert d.links == c.links[0 := Counted()];
  }

  /** Neither quorum nor prefix: with three nodes, a Commit about to be appended whose put only the leader ever fsynced,
      and a follower whose log is no prefix of the leader's. */
  lemma {:induction false} SkippedPutIsCommitted(key: Text, v: byte) returns (c: Cluster)
    ensures Reachable(c) && |c.links| == 2 && Log(c) == [E1(key), E2] && Enabled(c, OnStore(Runs.LogCommit(2)))
    ensures !OnQuorum(c, 0) && !(c.links[0].log <= Log(c))
    ensures forall i :: 0 <= i < 2 ==> 1 !in c.links[i].matched.has && E1(key) !in c.links[i].log
  {
    hide Reachable, Calm, Plain, Enabled, QuorumAcked;
    GoBoot(2);
    assert Calm(Boot(2), []) by { BootIsCalm(2); }
    var c1 := PutShipped(Boot(2), [], key, v);
    BatchIs(c1.m.store.vals, key, v);
    assert [] + [F1(key, v), F2, SyncBarrier(2)] == [F1(key, v), F2, SyncBarrier(2)];
    assert c1.links[0] == Sent(key, v) && c1.links[1] == Sent(key, v);
    PlainLog(c1, WithPut([], key));
    var c2 := ConnectAndBreak(c1, key, v);
    var c3 := Reconnect(c2, key);
    var c4 := CatchUp(c3, key);
    var c5 := Acknowledge(c4);
    assert c5.links == [Counted(), Sent(key, v)];
    assert c5 == c1.(links := c5.links);
    SamePlain(c1, c5, WithPut([], key));
    assert QuorumAcked(c5, 2) by { OneAcknowledged(c5, key, v); }
    ApproveIt(c5);
    Go(c5, QuorumReached);
    var c6 := c5.(op := Approved);
    SamePlain(c5, c6, WithPut([], key));
    FsyncSegmentsIt(c6, WithPut([], key));
    Go(c6, OnStore(Runs.FsyncSegments));
    c := Do(c6, OnStore(Runs.FsyncSegments));
    LogCommitIt(c, WithPut([], key));
    PlainLog(c, WithPut([], key));
    NotOnQuorum(c, key, v);
  }

  lemma {:induction false} SamePlain(c: Cluster, d: Cluster, log: seq<Entry>)
    requires Plain(c, log) && d.m == c.m
    ensures Plain(d, log)
  {
  }

  lemma {:induction false} OneAcknowledged(c: Cluster, key: Text, v: byte)
    requires c.links == [Counted(), Sent(key, v)]
    ensures QuorumAcked(c, 2)
  {
    var ls := c.links;
    assert ls[..1] == [Counted()] && ls[..1][..0] == [];
    assert AckCount(ls[..1], 2) == AckCount(ls[..1][..0], 2) + 1;
    assert AckCount(ls, 2) == AckCount(ls[..1], 2);
  }

  lemma {:induction false} NotOnQuorum(c: Cluster, key: Text, v: byte)
    requires c.links == [Counted(), Sent(key, v)] && Log(c) == [E1(key), E2]
    ensures !OnQuorum(c, 0)
  {
    var ls, log := c.links, Log(c);
    assert log[0].lsn == 1 && !Holder(Counted(), log, 0) && !Holder(Sent(key, v), log, 0);
    assert ls[..1] == [Counted()] && ls[..1][..0] == [];
    assert HolderCount(ls[..1], log, 0) == HolderCount(ls[..1][..0], log, 0);
    assert HolderCount(ls, log, 0) == HolderCount(ls[..1], log, 0);
  }
}
