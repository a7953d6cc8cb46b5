/** The replicated store: one leader, its followers, and every interleaving of client operations,
    deliveries, acknowledgements, follower restarts and backfills. */
module Cluster {
  import opened Bytes
  import opened Records
  import opened Wal
  import opened LogModel
  import opened Disk
  import opened Link
  import Leader
  import Follower
  import Runs
  import Guarantees

  /** Where the leader stands in a put or a compaction. */
  datatype Op = Idle | Staging | Shipped | Approved | Finished | Announced

  datatype Cluster = Cluster(
    m: Runs.Machine,
    /** How many records were sent to the followers; the position of the last announced Commit. */
    shipped: nat, commitAt: nat,
    op: Op,
    links: seq<Link>,
    /** For specification: the highest horizon a compaction used. */
    horizon: nat)

  datatype Action =
    | OnStore(a: Runs.Action)
    | Ship
    | QuorumReached
    | QuorumLost
    | Announce
    | ShipCommit
    | DeliverTo(i: nat)
    | ReceiveAt(i: nat)
    | AckFrom(i: nat)
    | RestartOf(i: nat, scanned: nat)
    | StartBackfill(i: nat)
    | EndBackfill(i: nat)

  function Log(c: Cluster): seq<Entry> {
    c.m.store.log
  }

  function CommitIndex(c: Cluster): nat
    requires c.commitAt <= |Log(c)|
  {
    LastLsn(Log(c)[..c.commitAt])
  }

  // ----- quorum

  /** Half the nodes, rounded up; the leader counts as one. */
  function Quorum(n: nat): nat {
    (n + 1) / 2
  }

  function AckCount(links: seq<Link>, lsn: nat): nat {
    if |links| == 0 then 0
    else AckCount(links[..|links| - 1], lsn) + if links[|links| - 1].matchIndex >= lsn then 1 else 0
  }

  /** Enough followers have acknowledged the LSN; the leader counts as one. */
  predicate QuorumAcked(c: Cluster, lsn: nat) {
    1 + AckCount(c.links, lsn) >= Quorum(|c.links| + 1)
  }

  /** The quorum is a strict majority exactly for clusters of odd size. */
  lemma {:induction false} QuorumIsMajority(n: nat)
    ensures 2 * Quorum(n) > n <==> n % 2 == 1
  {
  }

  /** It is half the cluster rounded up: the smallest number that is at least half. */
  lemma {:induction false} QuorumIsHalf(n: nat, q: nat)
    ensures n <= 2 * Quorum(n) <= n + 1
    ensures n <= 2 * q ==> Quorum(n) <= q
  {
  }

  // ----- steps

  function MinThrough(links: seq<Link>): nat
    requires |links| > 0
  {
    var last := links[|links| - 1].committedThrough;
    if |links| == 1 then last
    else
      var rest := MinThrough(links[..|links| - 1]);
      if last < rest then last else rest
  }

  function Horizon(c: Cluster): nat
    requires c.commitAt <= |Log(c)|
  {
    if |c.links| == 0 then CommitIndex(c) else MinThrough(c.links)
  }

  lemma {:induction false} MinExactly(links: seq<Link>)
    requires |links| > 0
    ensures (forall i :: 0 <= i < |links| ==> MinThrough(links) <= links[i].committedThrough)
    ensures exists i :: 0 <= i < |links| && MinThrough(links) == links[i].committedThrough
  {
    var n := |links| - 1;
    if n == 0 {
      assert MinThrough(links) == links[0].committedThrough;
    } else {
      var rest := links[..n];
      MinExactly(rest);
      var i :| 0 <= i < |rest| && MinThrough(rest) == rest[i].committedThrough;
      assert links[i] == rest[i];
      assert MinThrough(links) == links[n].committedThrough || MinThrough(links) == links[i].committedThrough;
      forall j | 0 <= j < |links| ensures MinThrough(links) <= links[j].committedThrough {
        if j < n { assert links[j] == rest[j]; }
      }
    }
  }

  /** The horizon, exactly: the commit index of a leader alone, else the lowest point that some follower has committed
      through. */
  lemma {:induction false} HorizonExactly(c: Cluster)
    requires c.commitAt <= |Log(c)|
    ensures |c.links| == 0 ==> Horizon(c) == CommitIndex(c)
    ensures forall i :: 0 <= i < |c.links| ==> Horizon(c) <= c.links[i].committedThrough
    ensures |c.links| > 0 ==> exists i :: 0 <= i < |c.links| && Horizon(c) == c.links[i].committedThrough
  {
    if |c.links| > 0 { MinExactly(c.links); }
  }

  ghost predicate OpAllows(c: Cluster, a: Runs.Action) {
    match c.op
    case Idle => a.Seal? || a.Place? || a.Refuse? || a.Agg? || (a.Stage? && c.commitAt <= |Log(c)| &&
      a.horizon == Horizon(c))
    case Staging => a.Seal? || a.Place? || a.Agg? || a.WriteLog? || a.FsyncLog?
    case Approved => a.FsyncSegments? || (a.LogCommit? &&
      a.lsn == LastLsn(Log(c))) || a.WriteLog? || a.FsyncLog? || a.Finish?
    case Finished => a.FinishCompaction?
    case _ => false
  }

  /** When a step can be taken. Positions never exceed the log; that is asked only where a step's definition needs it,
      and every reachable cluster satisfies it. */
  ghost predicate Enabled(c: Cluster, a: Action) {
    match a
    case OnStore(b) => OpAllows(c, b) && Runs.Enabled(c.m, b) && Runs.InBounds(c.m.store, b)
    case Ship => c.op.Staging? && c.m.store.durable == |Log(c)| && c.shipped <= |Log(c)|
    case QuorumReached => c.op.Shipped? && QuorumAcked(c, LastLsn(Log(c)))
    case QuorumLost => c.op.Shipped? && c.m.store.plan.None?
    case Announce => c.op.Finished? && c.m.store.plan.None?
    case ShipCommit => c.op.Announced? && c.shipped <= |Log(c)|
    case DeliverTo(i) => i < |c.links| && c.links[i].session.Up? && |c.links[i].queue| > 0
    case ReceiveAt(i) => i < |c.links| && c.links[i].session.Up? && |c.links[i].wire| > 0
    case AckFrom(i) => i < |c.links| && |c.links[i].acks| > 0 && c.commitAt <= |Log(c)|
    case RestartOf(i, n) => i < |c.links| && c.links[i].durable <= n <= |c.links[i].log|
    case StartBackfill(i) => i < |c.links| && c.links[i].session.Down?
    case EndBackfill(i) =>
      i < |c.links| && c.links[i].session.Filling? && c.links[i].session.upto <= |Log(c)| && c.shipped <= |Log(c)|
  }

  function NextOp(op: Op, a: Runs.Action): Op {
    if a.Finish? then Finished else if op.Idle? && !a.Refuse? then Staging else op
  }

  function SendAll(c: Cluster): (links: seq<Link>)
    requires c.shipped <= |Log(c)|
    ensures |links| == |c.links|
  {
    seq(|c.links|, i requires 0 <= i < |c.links| => Enqueue(c.links[i], Batch(c.m.store.vals, Log(c)[c.shipped..])))
  }

  ghost function Do(c: Cluster, a: Action): Cluster
    requires Enabled(c, a)
  {
    match a
    case OnStore(b) => c.(m := Runs.Do(c.m, b), op := NextOp(c.op, b),
      horizon := if b.Stage? then Max(c.horizon, b.horizon) else c.horizon)
    case Ship => c.(links := SendAll(c), shipped := |Log(c)|, op := Shipped)
    case QuorumReached => c.(op := Approved)
    case QuorumLost => c.(op := Idle)
    case Announce => c.(commitAt := |Log(c)|, op := Announced)
    case ShipCommit => c.(links := SendAll(c), shipped := |Log(c)|, op := Idle)
    case _ => c.(links := c.links[a.i := NextLink(c, a)])
  }

  predicate AboutLink(a: Action) {
    a.DeliverTo? || a.ReceiveAt? || a.AckFrom? || a.RestartOf? || a.StartBackfill? || a.EndBackfill?
  }

  ghost function NextLink(c: Cluster, a: Action): Link
    requires Enabled(c, a) && AboutLink(a)
  {
    match a
    case DeliverTo(i) => Deliver(c.links[i])
    case ReceiveAt(i) => Receive(c.links[i])
    case AckFrom(i) => AckArrives(c.links[i], CommitIndex(c))
    case RestartOf(i, n) => Restart(c.links[i], n)
    case StartBackfill(i) => c.links[i].(session := Filling(c.commitAt))
    case EndBackfill(i) => FinishBackfill(c.links[i], Log(c), c.m.store.vals, c.shipped)
  }

  function Boot(followers: nat): Cluster {
    Cluster(Runs.BOOT, 0, 0, Idle, seq(followers, i => FRESH), 0)
  }

  ghost predicate Leads(c: Cluster, acts: seq<Action>, d: Cluster)
    decreases |acts|
  {
    if |acts| == 0 then c == d else Enabled(c, acts[0]) && Leads(Do(c, acts[0]), acts[1..], d)
  }

  // ----- invariant

  /** A snapshot's index names the last put of every key. */
  ghost predicate Names(snap: Runs.Snap, log: seq<Entry>) {
    forall key ::
      if LastPut(log, key).None? then key !in snap.index
      else key in snap.index && snap.index[key].lsn == LastPut(log, key).value
  }

  ghost predicate StoreInv(c: Cluster) {
    && Runs.MachineInv(c.m) && Guarantees.HorizonInv(c.m, c.horizon)
    && c.m.store.acked <= |Log(c)| && |c.m.snaps| > 0
    && Names(c.m.snaps[|c.m.snaps| - 1], Log(c)[..c.m.store.acked])
  }

  ghost predicate EndsInCommit(c: Cluster) {
    |Log(c)| == c.shipped + 1 && Log(c)[c.shipped].rec.Commit?
  }

  ghost predicate OpInv(c: Cluster) {
    var s, log := c.m.store, Log(c);
    && c.shipped <= |log| && c.commitAt <= s.acked <= |log| && Leader.IsCut(log, c.commitAt)
    && Committed(log[..c.shipped]) <= c.commitAt
    && (!c.op.Approved? ==> c.m.phase.Idle?) && (!c.op.Finished? ==> c.commitAt == s.acked)
    && match c.op
       case Idle => c.shipped == |log|
       case Staging => c.commitAt <= c.shipped && forall i :: c.shipped <= i < |log| ==> !log[i].rec.Commit?
       case Shipped => c.shipped == |log| == s.durable
       case Approved => (if c.m.phase.Idle? || c.m.phase.Fsynced? then c.shipped == |log| == s.durable &&
         QuorumAcked(c, LastLsn(log)) else EndsInCommit(c)) && c.commitAt <= c.shipped
       case Finished => EndsInCommit(c) && s.acked == |log| && c.commitAt <= c.shipped
       case Announced => EndsInCommit(c) && c.commitAt == |log|
  }

  ghost predicate LinksInv(c: Cluster) {
    forall i :: 0 <= i < |c.links| ==>
      LinkInv(c.links[i], Log(c), c.shipped, c.commitAt) && c.horizon <= c.links[i].committedThrough
  }

  ghost predicate ClusterInv(c: Cluster) {
    StoreInv(c) && OpInv(c) && LinksInv(c)
  }

  lemma {:induction false} LegalLog(c: Cluster)
    requires StoreInv(c)
    ensures Legal(Log(c))
  {
    hide Legal, Guarantees.HorizonInv, Names, Runs.PhaseInv, Runs.HandlesFollow, Runs.SnapsOk, Leader.ViewInv;
    hide Leader.FileInv, Leader.Backed;
  }

  // ----- steps of a link

  lemma {:induction false} OneLink(c: Cluster, d: Cluster, i: nat, l: Link)
    requires ClusterInv(c) && i < |c.links| && d == c.(links := c.links[i := l])
    requires LinkInv(l, Log(c), c.shipped, c.commitAt)
    requires l.committedThrough >= c.links[i].committedThrough && l.matchIndex >= c.links[i].matchIndex
    ensures ClusterInv(d)
  {
    hide StoreInv, LinkInv, Leader.IsCut, Committed, LastLsn;
    AcksGrow(c.links, d.links, LastLsn(Log(c)));
    assert StoreInv(d) by { SameStore(c, d); }
  }

  lemma {:induction false} SameStore(c: Cluster, d: Cluster)
    requires StoreInv(c) && d.m == c.m && d.horizon == c.horizon
    ensures StoreInv(d)
  {
    hide Guarantees.HorizonInv, Names, Runs.MachineInv;
  }

  lemma {:induction false} AcksGrow(a: seq<Link>, b: seq<Link>, lsn: nat)
    requires |a| == |b| && forall i :: 0 <= i < |a| ==> a[i].matchIndex <= b[i].matchIndex
    ensures AckCount(a, lsn) <= AckCount(b, lsn)
  {
    if |a| > 0 { AcksGrow(a[..|a| - 1], b[..|b| - 1], lsn); }
  }

  lemma {:induction false} LinkKept(c: Cluster, a: Action)
    requires ClusterInv(c) && Enabled(c, a) && AboutLink(a)
    ensures var l := NextLink(c, a);
      && LinkInv(l, Log(c), c.shipped, c.commitAt) && l.committedThrough >= c.links[a.i].committedThrough
      && l.matchIndex >= c.links[a.i].matchIndex
  {
    hide Rises, LinkInv, Committed, Backfill, Follower.CommitBlock, ClusterInv, LastLsn, Leader.IsCut, Taken;
    ClusterRises(c);
    var log, l := Log(c), c.links[a.i];
    LinkFacts(c, a.i);
    match a
    case DeliverTo(i) => DeliverKeeps(l, log, c.shipped, c.commitAt);
    case ReceiveAt(i) => ReceiveKeeps(l, log, c.shipped, c.commitAt);
    case AckFrom(i) => AckKeeps(l, log, c.shipped, c.commitAt);
    case RestartOf(i, n) => RestartKeeps(l, log, c.shipped, c.commitAt, n);
    case StartBackfill(i) => StartKeeps(l, log, c.shipped, c.commitAt);
    case EndBackfill(i) => FinishKeeps(l, log, c.m.store.vals, c.shipped, c.commitAt);
  }

  lemma {:induction false} ClusterLegal(c: Cluster)
    requires ClusterInv(c)
    ensures Legal(Log(c))
  {
    hide Legal, StoreInv, OpInv, LinksInv;
    LegalLog(c);
  }

  lemma {:induction false} ClusterRises(c: Cluster)
    requires ClusterInv(c)
    ensures Rises(Log(c))
  {
    hide Legal, Rises, ClusterInv;
    ClusterLegal(c);
    LegalRises(Log(c));
  }

  lemma {:induction false} LinkStep(c: Cluster, a: Action)
    requires ClusterInv(c) && Enabled(c, a) && AboutLink(a)
    ensures ClusterInv(Do(c, a))
  {
    hide ClusterInv, LinkInv, NextLink;
    LinkKept(c, a);
    OneLink(c, Do(c, a), a.i, NextLink(c, a));
  }

  lemma {:induction false} LinkFacts(c: Cluster, i: nat)
    requires ClusterInv(c) && i < |c.links|
    ensures LinkInv(c.links[i], Log(c), c.shipped, c.commitAt) && c.commitAt <= |Log(c)|
    ensures Leader.IsCut(Log(c), c.commitAt)
    ensures Committed(Log(c)[..c.shipped]) <= c.commitAt && c.horizon <= c.links[i].committedThrough
  {
    hide StoreInv, LinkInv, Committed, Leader.IsCut;
  }

  // ----- steps of the leader that leave the store alone

  lemma {:induction false} SendOne(c: Cluster, i: nat)
    requires c.shipped <= |Log(c)| && i < |c.links| && ClusterInv(c) && (c.commitAt <= c.shipped || c.op.Announced?)
    ensures var l := Enqueue(c.links[i], Batch(c.m.store.vals, Log(c)[c.shipped..]));
      LinkInv(l, Log(c), |Log(c)|, c.commitAt) && c.horizon <= l.committedThrough
  {
    hide Rises, LinkInv, Batch, ClusterInv;
    ClusterRises(c);
    LinkFacts(c, i);
    AnnouncedPosition(c);
    EnqueueKeeps(c.links[i], Log(c), c.m.store.vals, c.shipped, c.commitAt);
  }

  lemma {:induction false} AnnouncedPosition(c: Cluster)
    requires ClusterInv(c)
    ensures c.op.Announced? ==> c.commitAt == |Log(c)| == c.shipped + 1
  {
    hide StoreInv, LinksInv, Committed, Leader.IsCut;
  }

  lemma {:induction false} SendKeeps(c: Cluster)
    requires c.shipped <= |Log(c)| && ClusterInv(c) && (c.commitAt <= c.shipped || c.op.Announced?)
    ensures forall i :: 0 <= i < |SendAll(c)| ==>
      LinkInv(SendAll(c)[i], Log(c), |Log(c)|, c.commitAt) && c.horizon <= SendAll(c)[i].committedThrough
  {
    hide LinkInv, Batch, ClusterInv;
    forall i | 0 <= i < |c.links|
      ensures LinkInv(SendAll(c)[i], Log(c), |Log(c)|, c.commitAt) && c.horizon <= SendAll(c)[i].committedThrough
    {
      SendOne(c, i);
    }
  }

  lemma {:induction false} NoMoreCommits(log: seq<Entry>, n: nat)
    requires n <= |log| && forall i :: n <= i < |log| ==> !log[i].rec.Commit?
    ensures Committed(log) == Committed(log[..n])
  {
    if n < |log| {
      var p := log[..|log| - 1];
      assert p[..n] == log[..n];
      NoMoreCommits(p, n);
    } else {
      assert log[..n] == log;
    }
  }

  lemma {:induction false} AnnounceLinks(c: Cluster)
    requires ClusterInv(c)
    ensures forall i :: 0 <= i < |c.links| ==> LinkInv(c.links[i], Log(c), c.shipped, |Log(c)|)
  {
    hide Rises, ClusterInv, LinkInv;
    ClusterRises(c);
    forall i | 0 <= i < |c.links| ensures LinkInv(c.links[i], Log(c), c.shipped, |Log(c)|) {
      LinkFacts(c, i);
      AnnounceKeeps(c.links[i], Log(c), c.shipped, c.commitAt);
    }
  }

  lemma {:induction false} ShipStep(c: Cluster, a: Action)
    requires ClusterInv(c) && Enabled(c, a) && (a.Ship? || a.ShipCommit?)
    ensures ClusterInv(Do(c, a))
  {
    hide StoreInv, LinkInv, Batch, SendAll, Committed, QuorumAcked;
    var log, d := Log(c), Do(c, a);
    assert StoreInv(d) by { SameStore(c, d); }
    assert log[..|log|] == log;
    SendKeeps(c);
    if a.Ship? { NoMoreCommits(log, c.shipped); } else { CommittedAll(log); }
  }

  lemma {:induction false} CommittedAll(log: seq<Entry>)
    ensures Committed(log) <= |log|
  {
  }

  lemma {:induction false} OtherLeaderStep(c: Cluster, a: Action)
    requires ClusterInv(c) && Enabled(c, a) && (a.QuorumReached? || a.QuorumLost? || a.Announce?)
    ensures ClusterInv(Do(c, a))
  {
    hide StoreInv, LinkInv, Committed, AckCount, Quorum;
    var log, d := Log(c), Do(c, a);
    assert StoreInv(d) by { SameStore(c, d); }
    if a.Announce? { AnnounceLinks(c); }
  }

  lemma {:induction false} LeaderStep(c: Cluster, a: Action)
    requires ClusterInv(c) && Enabled(c, a)
    requires (a.Ship? || a.QuorumReached? || a.QuorumLost? || a.Announce? || a.ShipCommit?)
    ensures ClusterInv(Do(c, a))
  {
    hide ClusterInv, Enabled, Do;
    if a.Ship? || a.ShipCommit? { ShipStep(c, a); } else { OtherLeaderStep(c, a); }
  }

  // ----- steps of the leader's store

  /** What an action of the store does to the log, the durable and acknowledged positions, and the commit. */
  ghost predicate LogStep(m: Runs.Machine, a: Runs.Action, n: Runs.Machine) {
    var s, t := m.store, n.store;
    && |s.log| <= |t.log| && s.log == t.log[..|s.log|]
    && (a.Seal? || a.Place? || a.Agg? || a.Stage? ==>
          n.phase == m.phase && t.acked == s.acked && forall i :: |s.log| <= i < |t.log| ==> !t.log[i].rec.Commit?)
    && (a.Refuse? ==> n.phase == m.phase && t.log == s.log && t.acked == s.acked && t.durable == s.durable)
    && (a.WriteLog? || a.FsyncLog? ==>
          && t.log == s.log && t.acked == s.acked && (s.durable == |s.log| ==> t.durable == |s.log|)
          && (n.phase.Idle? <==> m.phase.Idle?) && (n.phase.Fsynced? <==> m.phase.Fsynced?))
    && (a.FsyncSegments? ==>
         m.phase.Idle? && n.phase.Fsynced? && t.log == s.log && t.acked == s.acked && t.durable == s.durable)
    && (a.LogCommit? ==>
          && m.phase.Fsynced? && n.phase.Logged? && t.acked == s.acked
          && |t.log| == |s.log| + 1 && t.log[|s.log|].rec.Commit?)
    && (a.Finish? ==> m.phase.Synced? && n.phase.Idle? && t.log == s.log && t.acked == |s.log|)
    && (a.FinishCompaction? ==> n.phase.Idle? && t.log == s.log && t.acked == s.acked == |s.log|)
  }

  lemma {:induction false} AddedByStage(s: Leader.Store, from: nat, chunks: seq<seq<RemapEntry>>)
    requires s.nextLsn + |chunks| < Leader.MAX_U64 && s.nextFree < Leader.MAX_U64 && from <= Leader.MAX_U64
    requires from in s.files
    requires Leader.SourcesIn(s, from, Leader.RecordCodec.Flatten(chunks))
    ensures var t := Leader.CompactStage(s, from, chunks);
      && |s.log| <= |t.log| && s.log == t.log[..|s.log|] &&
           (forall i :: |s.log| <= i < |t.log| ==> !t.log[i].rec.Commit?)
      && t.acked == s.acked
  {
    hide Leader.SourcesIn, Leader.Copied, Leader.RemapRecords;
    Leader.RemapsAreRemaps(s.nextLsn + 1, s.nextFree, chunks);
  }

  lemma {:induction false} StoreLog(m: Runs.Machine, a: Runs.Action)
    requires Runs.MachineInv(m) && Runs.Enabled(m, a) && Runs.InBounds(m.store, a) && !a.CrashAndReopen?
    ensures LogStep(m, a, Runs.Do(m, a))
  {
    hide Runs.MachineInv, Leader.CanCompact, Leader.SourcesIn, Leader.CompactStage, Leader.WriteAt, Leader.Opened;
    hide Runs.Seen, Runs.SnapOf, Leader.SwapMemory, SwapOn, PutOn, SealOn;
    Positions(m);
    if a.Stage? {
      CompactFacts(m.store, a.from, a.horizon, a.chunks);
      AddedByStage(m.store, a.from, a.chunks);
    }
  }

  lemma {:induction false} CompactFacts(s: Leader.Store, from: nat, horizon: nat, chunks: seq<seq<RemapEntry>>)
    requires Leader.CanCompact(s, from, horizon, chunks)
    ensures s.nextLsn + |chunks| < Leader.MAX_U64 && s.nextFree < Leader.MAX_U64 && from <= Leader.MAX_U64
    ensures from in s.files
  {
    hide Leader.PlanFor;
  }

  lemma {:induction false} Positions(m: Runs.Machine)
    requires Runs.MachineInv(m)
    ensures m.store.durable <= m.store.written <= |m.store.log| && m.store.acked <= |m.store.log|
  {
    hide Legal, On, Committed, Runs.PhaseInv, Runs.HandlesFollow, Runs.SnapsOk, Leader.ViewInv, Leader.FileInv;
    hide Leader.Backed;
  }

  lemma {:induction false} HorizonMonotone(m: Runs.Machine, h: nat, h': nat)
    requires Guarantees.HorizonInv(m, h) && h <= h'
    ensures Guarantees.HorizonInv(m, h')
  {
    hide Guarantees.Located, Leader.EntryLsns;
  }

  lemma {:induction false} FreshNames(m: Runs.Machine)
    requires Runs.MachineInv(m)
    ensures Names(Runs.SnapOf(m.store), m.store.log)
  {
    Guarantees.MachineStore(m);
    hide Leader.Inv, LastPut, Runs.MachineInv;
    forall key
      ensures if LastPut(m.store.log, key).None? then key !in m.store.mem.index
        else key in m.store.mem.index && m.store.mem.index[key].lsn == LastPut(m.store.log, key).value
    {
      Guarantees.ViewNamesLastPut(m.store, key);
    }
  }

  /** The last snapshot names the last acknowledged put of every key. */
  lemma {:induction false} NamesKept(m: Runs.Machine, a: Runs.Action)
    requires Runs.MachineInv(m) && Runs.Enabled(m, a) && Runs.InBounds(m.store, a) && !a.CrashAndReopen?
    requires m.store.acked <= |m.store.log| && |m.snaps| > 0
    requires Names(m.snaps[|m.snaps| - 1], m.store.log[..m.store.acked])
    ensures var n := Runs.Do(m, a);
      n.store.acked <= |n.store.log| && |n.snaps| > 0 && Names(n.snaps[|n.snaps| - 1], n.store.log[..n.store.acked])
  {
    hide Runs.MachineInv, Names, Runs.Enabled, Runs.InBounds, Runs.NextStore, Runs.SnapOf, Runs.Seen, LogStep;
    StoreLog(m, a);
    Runs.StepKeeps(m, a);
    var n := Runs.Do(m, a);
    Positions(n);
    LogGrows(m, a, n);
    if a.Finish? || a.FinishCompaction? {
      FreshNames(n);
      AllAcked(m, a, n);
      assert n.store.log[..|n.store.log|] == n.store.log;
    } else {
      AckedKept(m, a);
      assert n.store.log[..n.store.acked] == m.store.log[..m.store.acked];
    }
  }

  lemma {:induction false} AllAcked(m: Runs.Machine, a: Runs.Action, n: Runs.Machine)
    requires LogStep(m, a, n) && (a.Finish? || a.FinishCompaction?)
    ensures n.store.acked == |n.store.log|
  {
  }

  lemma {:induction false} AckedKept(m: Runs.Machine, a: Runs.Action)
    requires Runs.Enabled(m, a) && Runs.InBounds(m.store, a) && !a.CrashAndReopen? && !a.Finish?
    ensures Runs.NextStore(m, a).acked == m.store.acked
  {
    hide Leader.CanCompact, Leader.SourcesIn;
  }

  lemma {:induction false} StoreKept(c: Cluster, b: Runs.Action)
    requires StoreInv(c) && Enabled(c, OnStore(b)) && !b.CrashAndReopen?
    ensures StoreInv(Do(c, OnStore(b)))
  {
    hide Runs.MachineInv, Names, Runs.Enabled, Runs.InBounds, Guarantees.HorizonInv, OpAllows, LastPut;
    var d := Do(c, OnStore(b));
    Runs.StepKeeps(c.m, b);
    NamesKept(c.m, b);
    HorizonMonotone(c.m, c.horizon, d.horizon);
    HorizonStep(c.m, b, d.horizon);
  }

  lemma {:induction false} HorizonStep(m: Runs.Machine, b: Runs.Action, h: nat)
    requires Runs.MachineInv(m) && Guarantees.HorizonInv(m, h) && Runs.Enabled(m, b) && Runs.InBounds(m.store, b)
    requires !b.CrashAndReopen? && (b.Stage? ==> b.horizon <= h)
    ensures Guarantees.HorizonInv(Runs.Do(m, b), h)
  {
    hide Runs.MachineInv, Runs.Enabled, Runs.InBounds, Guarantees.HorizonInv, Runs.Do;
    var n := Runs.Do(m, b);
    assert [b][1..] == [];
    assert Runs.Leads(n, [], n);
    assert Runs.Leads(m, [b], n);
    Guarantees.HorizonKept(m, [b], n, h);
  }

  lemma {:induction false} MinIsLeast(links: seq<Link>, i: nat)
    requires i < |links|
    ensures MinThrough(links) <= links[i].committedThrough
  {
    if |links| > 1 && i < |links| - 1 { MinIsLeast(links[..|links| - 1], i); }
  }

  lemma {:induction false} GrowLinks(c: Cluster, b: Runs.Action)
    requires ClusterInv(c) && Enabled(c, OnStore(b)) && StoreInv(Do(c, OnStore(b))) && LogStep(c.m, b, Runs.Do(c.m, b))
    ensures LinksInv(Do(c, OnStore(b)))
  {
    hide ClusterInv, StoreInv, LinkInv, Runs.Enabled, Runs.InBounds, LogStep, Runs.Do, Legal, Rises;
    var d := Do(c, OnStore(b));
    LegalLog(d);
    LegalRises(Log(d));
    assert |Log(c)| <= |Log(d)| && Log(c) == Log(d)[..|Log(c)|] by { LogGrows(c.m, b, d.m); }
    assert b.Stage? ==> c.op.Idle? && b.horizon == Horizon(c);
    forall i | 0 <= i < |d.links|
      ensures LinkInv(d.links[i], Log(d), d.shipped, d.commitAt) && d.horizon <= d.links[i].committedThrough
    {
      LinkFacts(c, i);
      GrowKeeps(c.links[i], Log(c), Log(d), c.shipped, c.commitAt);
      MinIsLeast(c.links, i);
    }
  }

  lemma {:induction false} LogGrows(m: Runs.Machine, a: Runs.Action, n: Runs.Machine)
    requires LogStep(m, a, n)
    ensures |m.store.log| <= |n.store.log| && m.store.log == n.store.log[..|m.store.log|]
  {
  }

  lemma {:induction false} OpKept(c: Cluster, b: Runs.Action)
    requires OpInv(c) && OpAllows(c, b) && Runs.Enabled(c.m, b) && Runs.InBounds(c.m.store, b)
    requires LogStep(c.m, b, Runs.Do(c.m, b))
    requires Runs.Do(c.m, b).store.acked <= |Runs.Do(c.m, b).store.log|
    ensures OpInv(Do(c, OnStore(b)))
  {
    hide Runs.Enabled, Runs.InBounds, Runs.Do, Committed, AckCount, Horizon, Quorum, LastLsn;
    var d := Do(c, OnStore(b));
    var log, log' := Log(c), Log(d);
    assert log'[..c.shipped] == log[..c.shipped];
    assert c.commitAt > 0 ==> log'[c.commitAt - 1] == log[c.commitAt - 1];
  }

  lemma {:induction false} StoreStep(c: Cluster, b: Runs.Action)
    requires ClusterInv(c) && Enabled(c, OnStore(b))
    ensures ClusterInv(Do(c, OnStore(b)))
  {
    assert !b.CrashAndReopen?;
    hide StoreInv, OpInv, LinksInv, Runs.Enabled, Runs.InBounds, Runs.Do, LogStep, Runs.MachineInv;
    StoreKept(c, b);
    assert Runs.MachineInv(c.m) by { TheMachine(c); }
    assert Runs.MachineInv(Runs.Do(c.m, b)) by { TheMachine(Do(c, OnStore(b))); }
    StoreLog(c.m, b);
    Positions(Runs.Do(c.m, b));
    OpKept(c, b);
    GrowLinks(c, b);
  }

  lemma {:induction false} TheMachine(c: Cluster)
    requires StoreInv(c)
    ensures Runs.MachineInv(c.m)
  {
    hide Runs.MachineInv, Guarantees.HorizonInv, Names;
  }

  // ----- runs

  lemma {:induction false} StepKeeps(c: Cluster, a: Action)
    requires ClusterInv(c) && Enabled(c, a)
    ensures ClusterInv(Do(c, a))
  {
    hide ClusterInv, Enabled;
    if a.OnStore? { StoreStep(c, a.a); } else if AboutLink(a) { LinkStep(c, a); } else { LeaderStep(c, a); }
  }

  lemma {:induction false} FreshLink()
    ensures LinkInv(FRESH, [], 0, 0)
  {
    assert Follows(FRESH, []) && MissedInv(FRESH, [], 0) by { FreshLog(); }
    assert QueueInv(FRESH, [], 0, 0) by { FreshQueue(); }
    assert Flows(FRESH, [], 0, 0) by { FreshFlows(); }
    assert AcksInv(FRESH, []) by { FreshAcks(); }
    hide Follows, MissedInv, QueueInv, Flows, AcksInv;
  }

  lemma {:induction false} FreshLog()
    ensures Follows(FRESH, []) && MissedInv(FRESH, [], 0)
  {
    var none: seq<Entry> := [];
    assert none[..Reach(FRESH, none)] == none;
  }

  lemma {:induction false} FreshQueue()
    ensures QueueInv(FRESH, [], 0, 0)
  {
  }

  lemma {:induction false} FreshFlows()
    ensures Flows(FRESH, [], 0, 0)
  {
  }

  lemma {:induction false} FreshAcks()
    ensures AcksInv(FRESH, [])
  {
    assert FRESH.log[..0] == [];
  }

  lemma {:induction false} BootInv(followers: nat)
    ensures ClusterInv(Boot(followers))
  {
    hide StoreInv, OpInv, LinkInv;
    BootStore(followers);
    BootOp(followers);
    FreshLink();
  }

  lemma {:induction false} BootStore(followers: nat)
    ensures StoreInv(Boot(followers))
  {
    Runs.BootInv();
    Guarantees.BootHorizon(0);
    hide Runs.MachineInv, Guarantees.HorizonInv;
    assert Names(Boot(followers).m.snaps[0], []);
  }

  lemma {:induction false} BootOp(followers: nat)
    ensures OpInv(Boot(followers))
  {
  }

  lemma {:induction false} RunKeeps(c: Cluster, acts: seq<Action>, d: Cluster)
    requires ClusterInv(c) && Leads(c, acts, d)
    ensures ClusterInv(d)
    decreases |acts|
  {
    hide ClusterInv, Enabled;
    if |acts| > 0 {
      StepKeeps(c, acts[0]);
      RunKeeps(Do(c, acts[0]), acts[1..], d);
    }
  }

  ghost predicate Reachable(c: Cluster) {
    exists acts, followers :: Leads(Boot(followers), acts, c)
  }

  lemma {:induction false} ReachableInv(c: Cluster)
    requires Reachable(c)
    ensures ClusterInv(c)
  {
    hide ClusterInv, Leads;
    var acts, followers :| Leads(Boot(followers), acts, c);
    BootInv(followers);
    RunKeeps(Boot(followers), acts, c);
  }
}
