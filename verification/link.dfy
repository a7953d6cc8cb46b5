/** One leader-follower link: the queue of frames, the session, acknowledgements, and the backfill
    that brings a restarted follower up to date. */
module Link {
  import opened Bytes
  import opened Records
  import opened Wal
  import opened LogModel
  import opened Disk
  import opened CrashSafety
  import Leader
  import Follower

  datatype Frame = Append(e: Entry, data: Option<seq<byte>>) | SyncBarrier(lsn: nat)

  /** No session; a backfill up to a commit position under way; or a session whose backfill reached that far. */
  datatype Session = Down | Filling(upto: nat) | Up(filled: nat)

  /** An acknowledgement: the LSN of the follower's last record at a barrier. For specification, the LSNs of the
      records fsynced then, and of the leader's records the follower's backfills had skipped. */
  datatype Ack = Ack(lsn: nat, has: set<nat>, missed: set<nat>)

  datatype Link = Link(
    matchIndex: nat, committedThrough: nat, queue: seq<Frame>,
    session: Session, wire: seq<Frame>, acks: seq<Ack>,
    /** The follower: its log and how much of it is fsynced. */
    log: seq<Entry>, durable: nat,
    /** For specification: the leader's records that this follower's backfills skipped and it will not ask for again,
        and the acknowledgement that set the match index. */
    missed: set<nat>, matched: Ack)

  const FRESH := Link(0, 0, [], Down, [], [], [], 0, {}, Ack(0, {}, {}))

  function Max(a: nat, b: nat): nat {
    if a >= b then a else b
  }

  function LastLsn(log: seq<Entry>): nat {
    if |log| == 0 then 0 else log[|log| - 1].lsn
  }

  function Lsns(log: seq<Entry>): set<nat> {
    set i | 0 <= i < |log| :: log[i].lsn
  }

  /** The records among the frames. */
  function Appends(fs: seq<Frame>): (es: seq<Entry>)
    ensures |es| <= |fs|
  {
    if |fs| == 0 then []
    else if fs[0].Append? then [fs[0].e] + Appends(fs[1..])
    else Appends(fs[1..])
  }

  function DataOf(vals: Values, e: Entry): Option<seq<byte>> {
    if e.rec.Put? && e.lsn in vals then Some(vals[e.lsn]) else None
  }

  function FramesOf(vals: Values, es: seq<Entry>): seq<Frame> {
    seq(|es|, i requires 0 <= i < |es| => Append(es[i], DataOf(vals, es[i])))
  }

  /** A batch: its records, and a barrier at the end. */
  function Batch(vals: Values, es: seq<Entry>): seq<Frame> {
    FramesOf(vals, es) + [SyncBarrier(LastLsn(es))]
  }

  // ----- the follower's end

  /** A record at or below the last applied Commit is a repetition and skipped. */
  function Accept(log: seq<Entry>, e: Entry): seq<Entry> {
    if e.lsn <= Follower.CommitBlock(log) then log else log + [e]
  }

  function Process(log: seq<Entry>, es: seq<Entry>): seq<Entry>
    decreases |es|
  {
    if |es| == 0 then log else Process(Accept(log, es[0]), es[1..])
  }

  function Receive(l: Link): Link
    requires |l.wire| > 0
  {
    match l.wire[0]
    case Append(e, _) => l.(wire := l.wire[1..], log := Accept(l.log, e))
    case SyncBarrier(_) =>
      l.(wire := l.wire[1..], durable := |l.log|, acks := l.acks + [Ack(LastLsn(l.log), Lsns(l.log), l.missed)])
  }

  /** A restart: uncommitted records are dropped and the session is gone; the queue stays. What was skipped above the
      recovered end will be asked for again. */
  function Restart(l: Link, scanned: nat): Link
    requires l.durable <= scanned <= |l.log|
  {
    var p := Surviving(l.log, scanned);
    l.(session := Down, wire := [], acks := [], log := p, durable := |p|,
      missed := set x | x in l.missed && x <= LastLsn(p))
  }

  // ----- the leader's end

  function Deliver(l: Link): Link
    requires |l.queue| > 0
  {
    l.(queue := l.queue[1..], wire := l.wire + [l.queue[0]])
  }

  /** An acknowledgement: the match index never falls, and if it covers the commit index, so does the follower. */
  function AckArrives(l: Link, commitIndex: nat): Link
    requires |l.acks| > 0
  {
    var a := l.acks[0];
    l.(acks := l.acks[1..], matchIndex := Max(l.matchIndex, a.lsn),
      matched := if a.lsn >= l.matchIndex then a else l.matched,
       committedThrough := if a.lsn >= commitIndex then commitIndex else l.committedThrough)
  }

  function Enqueue(l: Link, frames: seq<Frame>): Link {
    l.(queue := l.queue + frames)
  }

  /** The records a follower asks for: those from `from` up to the commit index. */
  function Requested(log: seq<Entry>, from: nat, commit: nat): seq<Entry> {
    if |log| == 0 then []
    else
      var rest, e := Requested(log[..|log| - 1], from, commit), log[|log| - 1];
      if e.lsn < from || e.lsn > commit then rest else rest + [e]
  }

  function FrameLsn(f: Frame): nat {
    match f case Append(e, _) => e.lsn case SyncBarrier(lsn) => lsn
  }

  /** The frames still queued above the commit index. */
  function Retained(queue: seq<Frame>, commit: nat): seq<Frame>
    decreases |queue|
  {
    if |queue| == 0 then []
    else if FrameLsn(queue[0]) > commit then [queue[0]] + Retained(queue[1..], commit)
    else Retained(queue[1..], commit)
  }

  function Backfill(scan: seq<Entry>, vals: Values, from: nat, commit: nat, queue: seq<Frame>): seq<Frame> {
    FramesOf(vals, Requested(scan, from, commit)) + [SyncBarrier(commit)] + Retained(queue, commit)
  }

  /** The live records: those still queued above the position the backfill goes up to. */
  function Alive(l: Link, log: seq<Entry>): seq<Entry>
    requires l.session.Filling? && l.session.upto <= |log|
  {
    Above(Appends(l.queue), LastLsn(log[..l.session.upto]))
  }

  /** For specification: the records shipped above that position and no longer queued. */
  function Taken(l: Link, log: seq<Entry>, shipped: nat): set<nat>
    requires l.session.Filling? && l.session.upto <= |log| && shipped <= |log|
  {
    set j: nat | l.session.upto <= j < shipped - |Alive(l, log)| && j < |log| :: log[j].lsn
  }

  /** The backfill is queued before the frames still live; it ends the same way whether or not records were taken. */
  function FinishBackfill(l: Link, log: seq<Entry>, vals: Values, shipped: nat): Link
    requires l.session.Filling? && l.session.upto <= |log| && shipped <= |log|
  {
    var commit := Follower.CommitBlock(log[..l.session.upto]);
    l.(queue := Backfill(log, vals, Follower.CommitBlock(l.log) + 1, commit, l.queue), session := Up(l.session.upto),
       missed := l.missed + Taken(l, log, shipped))
  }

  // ----- frames and records

  lemma {:induction false} AppendsConcat(a: seq<Frame>, b: seq<Frame>)
    ensures Appends(a + b) == Appends(a) + Appends(b)
  {
    if |a| == 0 {
      assert a + b == b;
    } else {
      assert (a + b)[1..] == a[1..] + b;
      AppendsConcat(a[1..], b);
    }
  }

  lemma {:induction false} AppendsOfFrames(vals: Values, es: seq<Entry>)
    ensures Appends(FramesOf(vals, es)) == es
  {
    if |es| > 0 {
      assert FramesOf(vals, es)[1..] == FramesOf(vals, es[1..]);
      AppendsOfFrames(vals, es[1..]);
      assert [es[0]] + es[1..] == es;
    }
  }

  lemma {:induction false} AppendsOfBarrier(lsn: nat)
    ensures Appends([SyncBarrier(lsn)]) == []
  {
  }

  lemma {:induction false} AppendsOfBatch(vals: Values, es: seq<Entry>)
    ensures Appends(Batch(vals, es)) == es
  {
    AppendsConcat(FramesOf(vals, es), [SyncBarrier(LastLsn(es))]);
    AppendsOfFrames(vals, es);
    AppendsOfBarrier(LastLsn(es));
  }

  lemma {:induction false} AppendsFirst(fs: seq<Frame>)
    requires |fs| > 0
    ensures Appends(fs) == (if fs[0].Append? then [fs[0].e] else []) + Appends(fs[1..])
  {
  }

  lemma {:induction false} NoAppends()
    ensures Appends([]) == []
  {
  }

  lemma {:induction false} ProcessConcat(log: seq<Entry>, a: seq<Entry>, b: seq<Entry>)
    ensures Process(log, a + b) == Process(Process(log, a), b)
    decreases |a|
  {
    hide Accept;
    if |a| == 0 {
      assert a + b == b;
    } else {
      assert (a + b)[1..] == a[1..] + b;
      ProcessConcat(Accept(log, a[0]), a[1..], b);
    }
  }

  lemma {:induction false} ProcessFirst(log: seq<Entry>, e: Entry, rest: seq<Entry>)
    ensures Process(log, [e] + rest) == Process(Accept(log, e), rest)
  {
    assert ([e] + rest)[1..] == rest;
  }

  /** What the follower has is the beginning of what it will have. */
  lemma {:induction false} ProcessExtends(log: seq<Entry>, es: seq<Entry>)
    ensures log <= Process(log, es)
    decreases |es|
  {
    if |es| > 0 { ProcessExtends(Accept(log, es[0]), es[1..]); }
  }

  // ----- rising LSNs

  /** LSNs are positive and rise. */
  ghost predicate Rises(log: seq<Entry>) {
    && (forall i :: 0 <= i < |log| ==> log[i].lsn > 0)
    && (forall i, j :: 0 <= i < j < |log| ==> log[i].lsn < log[j].lsn)
  }

  lemma {:induction false} LegalRises(log: seq<Entry>)
    requires Legal(log)
    ensures Rises(log)
  {
    hide On, Legal;
    forall i | 0 <= i < |log| ensures log[i].lsn > 0 { FirstLsn(log, i); }
    forall i, j | 0 <= i < j < |log| ensures log[i].lsn < log[j].lsn { LegalOrder(log, i, j); }
  }

  lemma {:induction false} LegalOrder(log: seq<Entry>, i: nat, j: nat)
    requires Legal(log) && i < j < |log|
    ensures log[i].lsn < log[j].lsn
  {
    hide On, After;
    LastLsnBelow(log, j, i + 1);
    LastLsnBelow(log, i + 1, i + 1);
    assert Allowed(On(log[..j]), log[j]);
  }

  lemma {:induction false} FirstLsn(log: seq<Entry>, i: nat)
    requires Legal(log) && i < |log|
    ensures 0 < log[i].lsn
  {
    hide On, After;
    assert Allowed(On(log[..i]), log[i]);
  }

  lemma {:induction false} RisesPrefix(log: seq<Entry>, k: nat)
    requires Rises(log) && k <= |log|
    ensures Rises(log[..k])
  {
  }

  /** LSNs order the records as their positions do. */
  lemma {:induction false} Order(log: seq<Entry>, i: nat, k: nat)
    requires Rises(log) && i < |log| && k <= |log|
    ensures log[i].lsn <= LastLsn(log[..k]) <==> i < k
  {
    if 0 < k <= i { assert log[k - 1].lsn < log[i].lsn; }
    if i < k - 1 { assert log[i].lsn < log[k - 1].lsn; }
  }

  /** An LSN names one record. */
  lemma {:induction false} SamePosition(log: seq<Entry>, i: nat, j: nat)
    requires Rises(log) && i < |log| && j < |log| && log[i].lsn == log[j].lsn
    ensures i == j
  {
  }

  lemma {:induction false} LastLsnMonotone(log: seq<Entry>, i: nat, k: nat)
    requires Rises(log) && i <= k <= |log|
    ensures LastLsn(log[..i]) <= LastLsn(log[..k])
  {
    if 0 < i < k { assert log[i - 1].lsn < log[k - 1].lsn; }
  }

  lemma {:induction false} RisesConcat(a: seq<Entry>, b: seq<Entry>)
    requires Rises(a) && Rises(b) && (|b| > 0 ==> LastLsn(a) < b[0].lsn)
    ensures Rises(a + b)
  {
    var c := a + b;
    forall i, j | 0 <= i < j < |c| ensures c[i].lsn < c[j].lsn {
      if i < |a| <= j {
        assert a[i].lsn <= LastLsn(a);
        assert b[0].lsn <= b[j - |a|].lsn;
      }
    }
  }

  /** The last Commit's LSN is that of the last record before its position. */
  lemma {:induction false} CommitBlockAt(log: seq<Entry>, c: nat)
    requires Leader.IsCut(log, c)
    ensures Follower.CommitBlock(log[..c]) == LastLsn(log[..c]) && Committed(log[..c]) == c
  {
  }

  lemma {:induction false} CommitBlockBounds(log: seq<Entry>, k: nat)
    requires Rises(log) && k <= |log|
    ensures Follower.CommitBlock(log[..k]) <= LastLsn(log[..k])
  {
    var c := Committed(log[..k]);
    if 0 < c < k { assert log[c - 1].lsn < log[k - 1].lsn; }
  }

  lemma {:induction false} CommitBlockMonotone(log: seq<Entry>, i: nat, k: nat)
    requires Rises(log) && i <= k <= |log|
    ensures Follower.CommitBlock(log[..i]) <= Follower.CommitBlock(log[..k])
  {
    Leader.CommittedMonotone(log, i, k);
    var a, b := Committed(log[..i]), Committed(log[..k]);
    if 0 < a < b { assert log[a - 1].lsn < log[b - 1].lsn; }
  }

  /** A Commit among the first k records is at or below their last Commit. */
  lemma {:induction false} CommitBlockCovers(log: seq<Entry>, q: nat, k: nat)
    requires Rises(log) && q < k <= |log| && log[q].rec.Commit?
    ensures log[q].lsn <= Follower.CommitBlock(log[..k])
  {
    var c := Committed(log[..k]);
    assert log[..k][q].rec.Commit?;
    assert q < c;
    if q < c - 1 { assert log[q].lsn < log[c - 1].lsn; }
  }

  /** Records that rise above what the follower has are all accepted. */
  lemma {:induction false} HeadOver<T>(a: seq<T>, b: seq<T>)
    requires |b| > 0
    ensures a + [b[0]] + b[1..] == a + b
  {
  }

  lemma {:induction false} ProcessRising(log: seq<Entry>, es: seq<Entry>)
    requires Rises(log + es)
    ensures Process(log, es) == log + es
    decreases |es|
  {
    if |es| == 0 {
      assert log + es == log;
    } else {
      var all := log + es;
      CommitBlockBounds(all, |log|);
      assert all[..|log|] == log && all[|log|] == es[0];
      if |log| > 0 { assert all[|log| - 1].lsn < all[|log|].lsn; }
      assert Accept(log, es[0]) == log + [es[0]];
      HeadOver(log, es);
      ProcessRising(log + [es[0]], es[1..]);
    }
  }

  // ----- logs with records missing

  /** The records whose LSN is not in the set. */
  function Thin(log: seq<Entry>, missed: set<nat>): seq<Entry> {
    if |log| == 0 then []
    else
      var rest, e := Thin(log[..|log| - 1], missed), log[|log| - 1];
      if e.lsn in missed then rest else rest + [e]
  }

  /** How many leading records have an LSN of at most `lsn`. */
  function PosOf(log: seq<Entry>, lsn: nat): (p: nat)
    ensures p <= |log|
  {
    if |log| == 0 then 0 else if log[|log| - 1].lsn <= lsn then |log| else PosOf(log[..|log| - 1], lsn)
  }

  lemma {:induction false} PosOfOrder(log: seq<Entry>, lsn: nat, i: nat)
    requires Rises(log) && i < |log|
    ensures log[i].lsn <= lsn <==> i < PosOf(log, lsn)
  {
    var n := |log| - 1;
    RisesPrefix(log, n);
    if log[n].lsn <= lsn {
      if i < n { assert log[i].lsn < log[n].lsn; }
    } else if i < n {
      PosOfOrder(log[..n], lsn, i);
    }
  }

  lemma {:induction false} PosOfLast(log: seq<Entry>, k: nat)
    requires Rises(log) && k <= |log|
    ensures PosOf(log, LastLsn(log[..k])) == k
  {
    hide Rises, LastLsn;
    var p := PosOf(log, LastLsn(log[..k]));
    if k < p { PosOfOrder(log, LastLsn(log[..k]), k); Order(log, k, k); }
    if p < k { PosOfOrder(log, LastLsn(log[..k]), p); Order(log, p, k); }
  }

  lemma {:induction false} PosOfMonotone(log: seq<Entry>, a: nat, b: nat)
    requires Rises(log) && a <= b
    ensures PosOf(log, a) <= PosOf(log, b)
  {
    hide Rises;
    var p, q := PosOf(log, a), PosOf(log, b);
    if q < p { PosOfOrder(log, a, q); PosOfOrder(log, b, q); }
  }

  /** Records above `lsn` do not move its position. */
  lemma {:induction false} PosOfGrow(log: seq<Entry>, k: nat, lsn: nat)
    requires Rises(log) && k <= |log| && lsn <= LastLsn(log[..k])
    ensures PosOf(log, lsn) == PosOf(log[..k], lsn)
  {
    hide LastLsn;
    var p, q := PosOf(log, lsn), PosOf(log[..k], lsn);
    RisesPrefix(log, k);
    if q < p {
      PosOfOrder(log, lsn, q);
      Order(log, q, k);
      assert log[..k][q] == log[q];
      PosOfOrder(log[..k], lsn, q);
    }
    if p < q {
      PosOfOrder(log[..k], lsn, p);
      assert log[..k][p] == log[p];
      PosOfOrder(log, lsn, p);
    }
  }

  lemma {:induction false} ThinConcat(a: seq<Entry>, b: seq<Entry>, missed: set<nat>)
    ensures Thin(a + b, missed) == Thin(a, missed) + Thin(b, missed)
    decreases |b|
  {
    if |b| == 0 {
      assert a + b == a;
    } else {
      var n := |b| - 1;
      assert (a + b)[..|a + b| - 1] == a + b[..n];
      ThinConcat(a, b[..n], missed);
    }
  }

  lemma {:induction false} ThinWhole(es: seq<Entry>, missed: set<nat>)
    requires forall i :: 0 <= i < |es| ==> es[i].lsn !in missed
    ensures Thin(es, missed) == es
  {
    if |es| > 0 {
      ThinWhole(es[..|es| - 1], missed);
      assert es[..|es| - 1] + [es[|es| - 1]] == es;
    }
  }

  lemma {:induction false} ThinNothing(es: seq<Entry>, missed: set<nat>)
    requires forall i :: 0 <= i < |es| ==> es[i].lsn in missed
    ensures Thin(es, missed) == []
  {
    if |es| > 0 { ThinNothing(es[..|es| - 1], missed); }
  }

  lemma {:induction false} ThinSame(es: seq<Entry>, missed: set<nat>, other: set<nat>)
    requires forall i :: 0 <= i < |es| ==> (es[i].lsn in missed <==> es[i].lsn in other)
    ensures Thin(es, missed) == Thin(es, other)
  {
    if |es| > 0 { ThinSame(es[..|es| - 1], missed, other); }
  }

  lemma {:induction false} ThinMember(es: seq<Entry>, missed: set<nat>, e: Entry)
    ensures e in Thin(es, missed) <==> e in es && e.lsn !in missed
  {
    if |es| > 0 {
      ThinMember(es[..|es| - 1], missed, e);
      assert e in es <==> e in es[..|es| - 1] || e == es[|es| - 1];
    }
  }

  lemma {:induction false} ThinRises(es: seq<Entry>, missed: set<nat>)
    requires Rises(es)
    ensures Rises(Thin(es, missed)) && LastLsn(Thin(es, missed)) <= LastLsn(es)
  {
    if |es| > 0 {
      var n := |es| - 1;
      RisesPrefix(es, n);
      ThinRises(es[..n], missed);
      if n > 0 { assert es[n - 1].lsn < es[n].lsn; }
      if es[n].lsn !in missed { RisesConcat(Thin(es[..n], missed), [es[n]]); }
    }
  }

  /** A prefix of a thinned log is a thinned prefix of the log. */
  lemma {:induction false} ThinPrefix(es: seq<Entry>, log: seq<Entry>, k: nat, missed: set<nat>)
    requires Rises(log) && k <= |log| && es <= Thin(log[..k], missed)
    ensures es == Thin(log[..PosOf(log, LastLsn(es))], missed) && LastLsn(log[..PosOf(log, LastLsn(es))]) == LastLsn(es)
    ensures PosOf(log, LastLsn(es)) <= k
    decreases k
  {
    hide Rises;
    if |es| == 0 {
      assert log[..0] == [] && LastLsn(log[..0]) == 0;
      PosOfLast(log, 0);
    } else {
      var n := k - 1;
      assert log[..k][..n] == log[..n];
      if |es| == |Thin(log[..k], missed)| && log[n].lsn !in missed {
        assert es[|es| - 1] == log[n] && LastLsn(log[..k]) == log[n].lsn;
        PosOfLast(log, k);
      } else {
        ThinPrefix(es, log, n, missed);
      }
    }
  }

  // ----- what a backfill queues

  lemma {:induction false} RequestedUpTo(log: seq<Entry>, i: nat, c: nat, k: nat)
    requires Rises(log) && i <= c <= |log| && k <= |log|
    ensures Requested(log[..k], LastLsn(log[..i]) + 1, LastLsn(log[..c])) ==
      if k <= i then [] else if k <= c then log[i..k] else log[i..c]
  {
    hide Rises, LastLsn;
    if k > 0 {
      var n := k - 1;
      assert log[..k][..n] == log[..n];
      RequestedUpTo(log, i, c, n);
      Order(log, n, i);
      Order(log, n, c);
    }
  }

  /** The filter by LSN selects exactly the records from a position to the commit position. */
  lemma {:induction false} RequestedIs(log: seq<Entry>, i: nat, c: nat)
    requires Rises(log) && i <= c <= |log|
    ensures Requested(log, LastLsn(log[..i]) + 1, LastLsn(log[..c])) == log[i..c]
  {
    hide Rises, LastLsn, Requested;
    RequestedUpTo(log, i, c, |log|);
    assert log[..|log|] == log;
  }

  /** The records above an LSN. */
  function Above(es: seq<Entry>, lsn: nat): (r: seq<Entry>)
    ensures |r| <= |es|
    decreases |es|
  {
    if |es| == 0 then []
    else if es[0].lsn > lsn then [es[0]] + Above(es[1..], lsn)
    else Above(es[1..], lsn)
  }

  lemma {:induction false} AboveConcat(a: seq<Entry>, b: seq<Entry>, lsn: nat)
    ensures Above(a + b, lsn) == Above(a, lsn) + Above(b, lsn)
  {
    if |a| == 0 {
      assert a + b == b;
    } else {
      assert (a + b)[1..] == a[1..] + b;
      AboveConcat(a[1..], b, lsn);
    }
  }

  lemma {:induction false} AboveTwice(es: seq<Entry>, low: nat, high: nat)
    requires low <= high
    ensures Above(Above(es, low), high) == Above(es, high)
  {
    if |es| > 0 {
      AboveTwice(es[1..], low, high);
      AboveConcat([es[0]], Above(es[1..], low), high);
      AboveOne(es[0], high);
    }
  }

  lemma {:induction false} AboveOne(e: Entry, lsn: nat)
    ensures Above([e], lsn) == if e.lsn > lsn then [e] else []
  {
    assert [e][1..] == [];
  }

  lemma {:induction false} AboveNone(es: seq<Entry>, lsn: nat)
    requires forall i :: 0 <= i < |es| ==> es[i].lsn <= lsn
    ensures Above(es, lsn) == []
  {
    if |es| > 0 { AboveNone(es[1..], lsn); }
  }

  lemma {:induction false} AboveAll(es: seq<Entry>, lsn: nat)
    requires forall i :: 0 <= i < |es| ==> es[i].lsn > lsn
    ensures Above(es, lsn) == es
  {
    if |es| > 0 {
      AboveAll(es[1..], lsn);
      assert [es[0]] + es[1..] == es;
    }
  }

  lemma {:induction false} AboveMembers(es: seq<Entry>, lsn: nat)
    ensures forall i :: 0 <= i < |Above(es, lsn)| ==> Above(es, lsn)[i].lsn > lsn
  {
    if |es| > 0 { AboveMembers(es[1..], lsn); }
  }

  lemma {:induction false} RetainedAppends(queue: seq<Frame>, commit: nat)
    ensures Appends(Retained(queue, commit)) == Above(Appends(queue), commit)
    decreases |queue|
  {
    if |queue| > 0 {
      RetainedAppends(queue[1..], commit);
      var q, rest := queue[0], Retained(queue[1..], commit);
      AppendsConcat([q], rest);
      assert [q][1..] == [];
      if q.Append? {
        AboveConcat([q.e], Appends(queue[1..]), commit);
        AboveOne(q.e, commit);
      }
    }
  }

  lemma {:induction false} BackfillAppends(scan: seq<Entry>, vals: Values, from: nat, commit: nat, queue: seq<Frame>)
    ensures Appends(Backfill(scan, vals, from, commit, queue)) ==
      Requested(scan, from, commit) + Above(Appends(queue), commit)
  {
    hide Requested, Retained, Above, FramesOf, Appends;
    var a, b, c := FramesOf(vals, Requested(scan, from, commit)), [SyncBarrier(commit)], Retained(queue, commit);
    AppendsConcat(a + b, c);
    AppendsConcat(a, b);
    AppendsOfFrames(vals, Requested(scan, from, commit));
    AppendsOfBarrier(commit);
    RetainedAppends(queue, commit);
  }

  // ----- invariant

  /** The last records of log[..n]. */
  ghost predicate Suffix(es: seq<Entry>, log: seq<Entry>, n: nat) {
    |es| <= n <= |log| && es == log[n - |es|..n]
  }

  /** The position in the leader's log that the follower has reached. */
  function Reach(l: Link, log: seq<Entry>): (p: nat)
    ensures p <= |log|
  {
    PosOf(log, LastLsn(l.log))
  }

  /** The follower has the leader's log up to some position, but for what its backfills skipped. */
  ghost predicate Follows(l: Link, log: seq<Entry>) {
    && l.durable <= |l.log|
    && l.log == Thin(log[..Reach(l, log)], l.missed) && LastLsn(log[..Reach(l, log)]) == LastLsn(l.log)
  }

  /** Skipped records were shipped, and none is a Commit. */
  ghost predicate MissedInv(l: Link, log: seq<Entry>, shipped: nat)
    requires shipped <= |log|
  {
    && (forall x :: x in l.missed ==> exists j :: 0 <= j < shipped && log[j].lsn == x)
    && (forall j :: 0 <= j < |log| && log[j].rec.Commit? ==> log[j].lsn !in l.missed)
  }

  ghost predicate Known(es: seq<Entry>, lsn: nat) {
    forall i :: 0 <= i < |es| ==> es[i].lsn <= lsn
  }

  /** Above the commit index the queue holds the last records shipped. */
  ghost predicate QueueInv(l: Link, log: seq<Entry>, shipped: nat, commitAt: nat) {
    && commitAt <= |log|
    && Suffix(Above(Appends(l.queue), LastLsn(log[..commitAt])), log, shipped)
    && Known(Appends(l.queue), LastLsn(log))
  }

  /** A follower without a session has a log that ends in a Commit. */
  ghost predicate Closed(l: Link, log: seq<Entry>, upto: nat) {
    && l.wire == [] && l.acks == [] && Committed(l.log) == |l.log| && Reach(l, log) <= upto
    && forall x :: x in l.missed ==> x <= LastLsn(l.log)
  }

  ghost predicate NoCommitIn(log: seq<Entry>, a: nat, b: nat) {
    forall j :: a <= j < b && j < |log| ==> !log[j].rec.Commit?
  }

  /** In a session, what is queued and under way completes the follower's log, but for what was skipped; without one,
      the follower waits for its backfill. */
  ghost predicate Flows(l: Link, log: seq<Entry>, shipped: nat, commitAt: nat)
    requires shipped <= |log| && commitAt <= |log|
  {
    match l.session
    case Up(filled) =>
      && filled <= commitAt
      && Process(l.log, Appends(l.wire) + Appends(l.queue)) == Thin(log[..Max(shipped, filled)], l.missed)
    case Down => Closed(l, log, commitAt)
    case Filling(c) =>
      && c <= commitAt && Closed(l, log, c) && Leader.IsCut(log, c)
      && Suffix(Alive(l, log), log, shipped) && NoCommitIn(log, c, shipped - |Alive(l, log)|)
  }

  /** Exactly what an acknowledgement says: the records up to its LSN were fsynced, but for those skipped. */
  ghost predicate AckOk(a: Ack, log: seq<Entry>) {
    && a.lsn <= LastLsn(log) && (forall x :: x in a.has ==> x <= a.lsn)
    && forall j :: 0 <= j < |log| ==> (log[j].lsn in a.has <==> log[j].lsn <= a.lsn && log[j].lsn !in a.missed)
  }

  /** The match index and the committed point never promise more than was fsynced. */
  ghost predicate AcksInv(l: Link, log: seq<Entry>)
    requires l.durable <= |l.log|
  {
    && (forall i :: 0 <= i < |l.acks| ==> l.acks[i].lsn <= LastLsn(l.log[..l.durable]) && AckOk(l.acks[i], log))
    && AckOk(l.matched, log) && l.matchIndex == l.matched.lsn
    && l.committedThrough <= Follower.CommitBlock(l.log[..l.durable])
  }

  ghost predicate ThroughInv(l: Link, log: seq<Entry>, commitAt: nat)
    requires commitAt <= |log|
  {
    l.committedThrough <= LastLsn(log[..commitAt])
  }

  ghost predicate LinkInv(l: Link, log: seq<Entry>, shipped: nat, commitAt: nat) {
    && shipped <= |log| && commitAt <= |log|
    && Follows(l, log) && MissedInv(l, log, shipped) && QueueInv(l, log, shipped, commitAt)
    && Flows(l, log, shipped, commitAt) && AcksInv(l, log) && ThroughInv(l, log, commitAt)
  }

  // ----- what is exact

  /** The follower has a prefix of the leader's log exactly if no backfill skipped a record at or below its last one. */
  lemma {:induction false} PrefixExactly(l: Link, log: seq<Entry>, shipped: nat)
    requires Rises(log) && shipped <= |log| && Follows(l, log) && MissedInv(l, log, shipped)
    ensures l.log <= log <==> forall x :: x in l.missed ==> x > LastLsn(l.log)
  {
    hide Rises, Thin;
    var p := Reach(l, log);
    if forall x :: x in l.missed ==> x > LastLsn(l.log) {
      forall i | 0 <= i < p ensures log[..p][i].lsn !in l.missed { PosOfOrder(log, LastLsn(l.log), i); }
      ThinWhole(log[..p], l.missed);
    } else {
      var x :| x in l.missed && x <= LastLsn(l.log);
      var j :| 0 <= j < shipped && log[j].lsn == x;
      PosOfOrder(log, LastLsn(l.log), j);
      ThinMember(log[..p], l.missed, log[j]);
      PosOfPrefix(l.log, log);
      PrefixHas(l.log, log, j);
    }
  }

  lemma {:induction false} PrefixHas(es: seq<Entry>, log: seq<Entry>, j: nat)
    ensures es <= log && j < |es| ==> log[j] in es
  {
    if es <= log && j < |es| { assert es[j] == log[j]; }
  }

  lemma {:induction false} PosOfPrefix(es: seq<Entry>, log: seq<Entry>)
    requires Rises(log)
    ensures es <= log ==> PosOf(log, LastLsn(es)) == |es|
  {
    hide Rises, LastLsn;
    if es <= log {
      assert log[..|es|] == es;
      PosOfLast(log, |es|);
    }
  }

  lemma {:induction false} ReachOrder(l: Link, log: seq<Entry>)
    requires Rises(log) && Follows(l, log)
    ensures Rises(l.log) && (forall i :: 0 <= i < |l.log| ==> l.log[i] in log)
  {
    hide Thin;
    var p := Reach(l, log);
    RisesPrefix(log, p);
    ThinRises(log[..p], l.missed);
    forall i | 0 <= i < |l.log| ensures l.log[i] in log { ThinMember(log[..p], l.missed, l.log[i]); }
  }

  /** Every Commit of the leader up to the follower's last record is in the follower's log. */
  lemma {:induction false} HasCommit(l: Link, log: seq<Entry>, shipped: nat, j: nat)
    requires Rises(log) && shipped <= |log| && Follows(l, log) && MissedInv(l, log, shipped)
    requires j < |log| && log[j].rec.Commit? && log[j].lsn <= LastLsn(l.log)
    ensures log[j] in l.log
  {
    hide Rises, Thin;
    PosOfOrder(log, LastLsn(l.log), j);
    var p := Reach(l, log);
    assert log[..p][j] == log[j];
    ThinMember(log[..p], l.missed, log[j]);
  }

  // ----- the backfill

  lemma {:induction false} ClosedAt(l: Link, log: seq<Entry>, upto: nat)
    requires Rises(log) && Follows(l, log) && Closed(l, log, upto)
    ensures Leader.IsCut(log, Reach(l, log)) && Follower.CommitBlock(l.log) == LastLsn(log[..Reach(l, log)])
  {
    hide Thin, PosOf;
    var p := Reach(l, log);
    assert Follower.CommitBlock(l.log) == LastLsn(l.log);
    if p > 0 {
      var n := |l.log|;
      assert log[p - 1].lsn > 0;
      assert n > 0;
      ReachOrder(l, log);
      assert l.log[n - 1] in log;
      var j :| 0 <= j < |log| && log[j] == l.log[n - 1];
      SamePosition(log, j, p - 1);
    }
  }

  lemma {:induction false} FilledAppends(l: Link, log: seq<Entry>, vals: Values, shipped: nat)
    requires Rises(log) && Follows(l, log) && l.session.Filling? && l.session.upto <= |log| && shipped <= |log|
    requires Closed(l, log, l.session.upto) && Leader.IsCut(log, l.session.upto)
    ensures Appends(FinishBackfill(l, log, vals, shipped).queue) == log[Reach(l, log)..l.session.upto] + Alive(l, log)
  {
    hide Rises, Above, Requested, Backfill, Appends, LastLsn, Thin, PosOf;
    var c, i := l.session.upto, Reach(l, log);
    CommitBlockAt(log, c);
    ClosedAt(l, log, c);
    BackfillAppends(log, vals, Follower.CommitBlock(l.log) + 1, Follower.CommitBlock(log[..c]), l.queue);
    RequestedIs(log, i, c);
  }

  /** Live records start at or after the position the backfill goes up to; if it goes beyond what was shipped,
      there are none. */
  lemma {:induction false} AliveStart(l: Link, log: seq<Entry>, shipped: nat)
    requires Rises(log) && l.session.Filling? && l.session.upto <= |log| && Suffix(Alive(l, log), log, shipped)
    ensures |Alive(l, log)| > 0 ==> l.session.upto <= shipped - |Alive(l, log)|
  {
    hide Rises, Above, Appends, LastLsn;
    var live, c := Alive(l, log), l.session.upto;
    AboveMembers(Appends(l.queue), LastLsn(log[..c]));
    if |live| > 0 {
      assert live[0] == log[shipped - |live|];
      Order(log, shipped - |live|, c);
    }
  }

  /** What the follower will have after the backfill: its log, the records it asked for, and the live ones. */
  lemma {:induction false} BackfillProcessed(l: Link, log: seq<Entry>, shipped: nat)
    requires Rises(log) && Follows(l, log) && l.session.Filling? && l.session.upto <= |log| && shipped <= |log|
    requires Closed(l, log, l.session.upto) && Suffix(Alive(l, log), log, shipped)
    ensures var i, c := Reach(l, log), l.session.upto;
      Process(l.log, log[i..c] + Alive(l, log)) == l.log + (log[i..c] + Alive(l, log)) &&
        Rises(log[i..c] + Alive(l, log))
  {
    hide Above, Appends, Thin, PosOf, Process, Closed, Alive;
    var i, c, live := Reach(l, log), l.session.upto, Alive(l, log);
    var t := shipped - |live|;
    assert i <= c by { ClosedReach(l, log, c); }
    AliveStart(l, log, shipped);
    RisesSlice(log, i, c);
    RisesSlice(log, t, shipped);
    if |live| > 0 && c > i { assert log[c - 1].lsn < log[t].lsn; }
    RisesConcat(log[i..c], live);
    ReachOrder(l, log);
    var es := log[i..c] + live;
    if |es| > 0 {
      assert es[0] == if i < c then log[i] else log[t];
      if i > 0 { assert log[i - 1].lsn < es[0].lsn; }
    }
    RisesConcat(l.log, es);
    ProcessRising(l.log, es);
  }

  lemma {:induction false} ClosedReach(l: Link, log: seq<Entry>, c: nat)
    requires Closed(l, log, c)
    ensures Reach(l, log) <= c
  {
  }

  lemma {:induction false} RisesSlice(log: seq<Entry>, a: nat, b: nat)
    requires Rises(log) && a <= b <= |log|
    ensures Rises(log[a..b])
  {
  }

  /** Every record shipped above the position the backfill goes up to is still queued. */
  ghost predicate NothingTaken(l: Link, log: seq<Entry>, shipped: nat)
    requires l.session.Filling? && l.session.upto <= |log|
  {
    |Alive(l, log)| + l.session.upto >= shipped
  }

  lemma {:induction false} TakenExactly(l: Link, log: seq<Entry>, shipped: nat)
    requires l.session.Filling? && l.session.upto <= |log| && shipped <= |log|
    ensures NothingTaken(l, log, shipped) <==> Taken(l, log, shipped) == {}
  {
    hide Alive;
    if !NothingTaken(l, log, shipped) { assert log[l.session.upto].lsn in Taken(l, log, shipped); }
  }

  /** The thinned log the follower will have once the backfill is processed. */
  lemma {:induction false} BackfillThins(l: Link, log: seq<Entry>, shipped: nat)
    requires Rises(log) && Follows(l, log) && l.session.Filling? && l.session.upto <= |log| && shipped <= |log|
    requires Closed(l, log, l.session.upto) && Suffix(Alive(l, log), log, shipped)
    ensures var i, c, missed := Reach(l, log), l.session.upto, l.missed + Taken(l, log, shipped);
      i <= c && l.log + (log[i..c] + Alive(l, log)) == Thin(log[..Max(shipped, c)], missed)
  {
    hide Rises, Thin, Reach, Alive, Taken, Follows, Closed;
    var i, c, live, missed := Reach(l, log), l.session.upto, Alive(l, log), l.missed + Taken(l, log, shipped);
    AliveStart(l, log, shipped);
    BeforeThins(l, log, shipped, missed);
    Regroup(l.log, log[i..c], live);
    if c <= shipped - |live| {
      AfterThins(l, log, shipped, missed);
      ThreeParts(log, c, shipped - |live|, shipped, missed);
      NoneBefore(live);
    } else {
      assert |live| == 0;
      NoneAfter(l.log + log[i..c], live);
    }
  }

  lemma {:induction false} Regroup<T>(a: seq<T>, b: seq<T>, c: seq<T>)
    ensures a + (b + c) == a + b + c
  {
  }

  lemma {:induction false} NoneBefore<T>(a: seq<T>)
    ensures [] + a == a
  {
  }

  lemma {:induction false} NoneAfter<T>(a: seq<T>, b: seq<T>)
    requires |b| == 0
    ensures a + b == a
  {
  }

  lemma {:induction false} ThreeParts(log: seq<Entry>, c: nat, t: nat, n: nat, missed: set<nat>)
    requires c <= t <= n <= |log|
    ensures Thin(log[..n], missed) == Thin(log[..c], missed) + (Thin(log[c..t], missed) + Thin(log[t..n], missed))
  {
    hide Thin;
    ThinConcat(log[..c], log[c..t] + log[t..n], missed);
    ThinConcat(log[c..t], log[t..n], missed);
    assert log[..c] + (log[c..t] + log[t..n]) == log[..n];
  }

  lemma {:induction false} BeforeThins(l: Link, log: seq<Entry>, shipped: nat, missed: set<nat>)
    requires Rises(log) && Follows(l, log) && l.session.Filling? && l.session.upto <= |log| && shipped <= |log|
    requires Closed(l, log, l.session.upto) && missed == l.missed + Taken(l, log, shipped)
    ensures Reach(l, log) <= l.session.upto
    ensures Thin(log[..l.session.upto], missed) == l.log + log[Reach(l, log)..l.session.upto]
  {
    hide Rises, Thin, PosOf, Alive, LastLsn;
    var i, c := Reach(l, log), l.session.upto;
    forall k | 0 <= k < c ensures log[k].lsn !in Taken(l, log, shipped) { NotTaken(l, log, shipped, k); }
    forall k | 0 <= k < i ensures log[..i][k].lsn in l.missed <==> log[..i][k].lsn in missed {}
    ThinSame(log[..i], l.missed, missed);
    forall k | 0 <= k < c - i ensures log[i..c][k].lsn !in missed { Order(log, i + k, i); }
    ThinWhole(log[i..c], missed);
    ThinConcat(log[..i], log[i..c], missed);
    assert log[..i] + log[i..c] == log[..c];
  }

  lemma {:induction false} NotTaken(l: Link, log: seq<Entry>, shipped: nat, k: nat)
    requires Rises(log) && l.session.Filling? && l.session.upto <= |log| && shipped <= |log| && k < |log|
    ensures log[k].lsn in Taken(l, log, shipped) <==> l.session.upto <= k < shipped - |Alive(l, log)|
  {
    hide Alive;
    if log[k].lsn in Taken(l, log, shipped) {
      var j: nat :| l.session.upto <= j < shipped - |Alive(l, log)| && j < |log| && log[j].lsn == log[k].lsn;
      SamePosition(log, j, k);
    }
  }

  lemma {:induction false} AfterThins(l: Link, log: seq<Entry>, shipped: nat, missed: set<nat>)
    requires Rises(log) && Follows(l, log) && l.session.Filling? && l.session.upto <= |log| && shipped <= |log|
    requires Closed(l, log, l.session.upto) && missed == l.missed + Taken(l, log, shipped)
    requires Suffix(Alive(l, log), log, shipped) && l.session.upto <= shipped - |Alive(l, log)|
    ensures var t := shipped - |Alive(l, log)|;
      Thin(log[l.session.upto..t], missed) == [] && Thin(log[t..shipped], missed) == Alive(l, log)
  {
    hide Rises, Thin, PosOf, Alive, LastLsn, Taken;
    var i, c, t := Reach(l, log), l.session.upto, shipped - |Alive(l, log)|;
    forall k | 0 <= k < t - c ensures log[c..t][k].lsn in missed { NotTaken(l, log, shipped, c + k); }
    ThinNothing(log[c..t], missed);
    forall k | 0 <= k < shipped - t ensures log[t..shipped][k].lsn !in missed {
      NotTaken(l, log, shipped, t + k);
      Order(log, t + k, i);
    }
    ThinWhole(log[t..shipped], missed);
  }

  /** What a backfill does, exactly: it queues the records from the follower's end up to the commit position,
      and then the live ones; and the follower will have the leader's log from its end on exactly if none of
      those had been taken. */
  lemma {:induction false} BackfillCompletes(l: Link, log: seq<Entry>, vals: Values, shipped: nat, commitAt: nat)
    requires Rises(log) && LinkInv(l, log, shipped, commitAt) && l.session.Filling?
    ensures var i, c, l' := Reach(l, log), l.session.upto, FinishBackfill(l, log, vals, shipped);
      && i <= c && Appends(l'.queue) == log[i..c] + Alive(l, log) && Rises(Appends(l'.queue))
      && (Process(l.log, Appends(l'.queue)) == l.log + log[i..Max(shipped, c)] <==> NothingTaken(l, log, shipped))
  {
    hide Rises, Process, Above, Backfill, Appends, AcksInv, QueueInv, LastLsn, Thin, PosOf, Closed, MissedInv, Alive;
    var i, c, live := Reach(l, log), l.session.upto, Alive(l, log);
    FilledAppends(l, log, vals, shipped);
    ClosedReach(l, log, c);
    BackfillProcessed(l, log, shipped);
    AliveStart(l, log, shipped);
    if NothingTaken(l, log, shipped) {
      if shipped >= c {
        if |live| == 0 { assert shipped == c; }
        assert live == log[c..shipped];
        assert log[i..c] + log[c..shipped] == log[i..shipped];
      } else {
        assert log[i..c] + live == log[i..c];
      }
    } else {
      assert |log[i..c] + live| < |log[i..Max(shipped, c)]|;
    }
  }

  // ----- every step keeps the invariant

  lemma {:induction false} SuffixTail(e: seq<Entry>, rest: seq<Entry>, log: seq<Entry>, n: nat, lsn: nat)
    requires Suffix(Above(e + rest, lsn), log, n)
    ensures Suffix(Above(rest, lsn), log, n)
  {
    hide Above;
    AboveConcat(e, rest, lsn);
    var a, b := Above(e, lsn), Above(rest, lsn);
    assert b == (a + b)[|a|..];
  }

  lemma {:induction false} KnownTail(e: seq<Entry>, rest: seq<Entry>, lsn: nat)
    requires Known(e + rest, lsn)
    ensures Known(rest, lsn) && Known(e, lsn)
  {
    forall i | 0 <= i < |rest| ensures rest[i].lsn <= lsn { assert rest[i] == (e + rest)[|e| + i]; }
    forall i | 0 <= i < |e| ensures e[i].lsn <= lsn { assert e[i] == (e + rest)[i]; }
  }

  lemma {:induction false} DeliverKeeps(l: Link, log: seq<Entry>, shipped: nat, commitAt: nat)
    requires LinkInv(l, log, shipped, commitAt) && |l.queue| > 0 && l.session.Up?
    ensures LinkInv(Deliver(l), log, shipped, commitAt)
  {
    hide Above, Appends, Process, Committed, LastLsn, Suffix, Thin, PosOf;
    AppendsFirst(l.queue);
    AppendsFirst([l.queue[0]]);
    assert [l.queue[0]][1..] == [];
    AppendsConcat(l.wire, [l.queue[0]]);
    assert Appends([]) == [] by { NoAppends(); }
    var e := if l.queue[0].Append? then [l.queue[0].e] else [];
    assert e + [] == e;
    var rest := Appends(l.queue[1..]);
    SuffixTail(e, rest, log, shipped, LastLsn(log[..commitAt]));
    assert Appends(l.wire) + e + rest == Appends(l.wire) + (e + rest);
    KnownTail(e, rest, LastLsn(log));
  }

  lemma {:induction false} SameQueue(l: Link, l': Link, log: seq<Entry>, shipped: nat, commitAt: nat)
    requires QueueInv(l, log, shipped, commitAt) && l'.queue == l.queue
    ensures QueueInv(l', log, shipped, commitAt)
  {
  }

  lemma {:induction false} AcceptExtends(log: seq<Entry>, e: Entry)
    ensures log <= Accept(log, e)
  {
  }

  lemma {:induction false} ReceiveAppend(l: Link, log: seq<Entry>, shipped: nat, commitAt: nat)
    requires Rises(log) && LinkInv(l, log, shipped, commitAt) && |l.wire| > 0 && l.session.Up? && l.wire[0].Append?
    ensures LinkInv(Receive(l), log, shipped, commitAt)
  {
    hide Rises, Above, Appends, Process, Committed, LastLsn, Suffix, QueueInv, Accept, Follower.CommitBlock, Thin;
    hide PosOf, AckOk;
    var e, rest := l.wire[0].e, Appends(l.wire[1..]) + Appends(l.queue);
    AppendsFirst(l.wire);
    assert Appends(l.wire) + Appends(l.queue) == [e] + rest;
    ProcessFirst(l.log, e, rest);
    ProcessExtends(Accept(l.log, e), rest);
    ThinPrefix(Accept(l.log, e), log, Max(shipped, l.session.filled), l.missed);
    AcceptExtends(l.log, e);
    assert Accept(l.log, e)[..l.durable] == l.log[..l.durable];
    SameQueue(l, Receive(l), log, shipped, commitAt);
  }

  lemma {:induction false} HasExactly(l: Link, log: seq<Entry>, j: nat)
    requires Rises(log) && Follows(l, log) && j < |log|
    ensures log[j].lsn in Lsns(l.log) <==> log[j].lsn <= LastLsn(l.log) && log[j].lsn !in l.missed
  {
    hide Rises, Thin, PosOf;
    var p := Reach(l, log);
    PosOfOrder(log, LastLsn(l.log), j);
    if log[j].lsn in Lsns(l.log) {
      var i :| 0 <= i < |l.log| && l.log[i].lsn == log[j].lsn;
      ThinMember(log[..p], l.missed, l.log[i]);
      var k :| 0 <= k < p && log[k] == l.log[i];
      SamePosition(log, k, j);
    }
    if j < p && log[j].lsn !in l.missed {
      assert log[..p][j] == log[j];
      ThinMember(log[..p], l.missed, log[j]);
      var i :| 0 <= i < |l.log| && l.log[i] == log[j];
    }
  }

  lemma {:induction false} BarrierAck(l: Link, log: seq<Entry>)
    requires Rises(log) && Follows(l, log)
    ensures AckOk(Ack(LastLsn(l.log), Lsns(l.log), l.missed), log)
  {
    hide Thin, PosOf;
    ReachOrder(l, log);
    LastLsnMonotone(log, Reach(l, log), |log|);
    assert log[..|log|] == log;
    forall x | x in Lsns(l.log) ensures x <= LastLsn(l.log) {
      var i :| 0 <= i < |l.log| && l.log[i].lsn == x;
      assert i < |l.log| - 1 ==> l.log[i].lsn < l.log[|l.log| - 1].lsn;
    }
    hide Rises, Lsns, Follows;
    forall j | 0 <= j < |log|
      ensures log[j].lsn in Lsns(l.log) <==> log[j].lsn <= LastLsn(l.log) && log[j].lsn !in l.missed
    {
      HasExactly(l, log, j);
    }
  }

  lemma {:induction false} ReceiveBarrier(l: Link, log: seq<Entry>, shipped: nat, commitAt: nat)
    requires Rises(log) && LinkInv(l, log, shipped, commitAt) && |l.wire| > 0 && l.session.Up? && l.wire[0].SyncBarrier?
    ensures LinkInv(Receive(l), log, shipped, commitAt)
  {
    hide Rises, Above, Appends, Process, LastLsn, Suffix, QueueInv, Thin, PosOf, AckOk, Follower.CommitBlock, Lsns;
    AppendsFirst(l.wire);
    assert [] + Appends(l.wire[1..]) == Appends(l.wire[1..]);
    BarrierAck(l, log);
    ReachOrder(l, log);
    assert l.log[..|l.log|] == l.log;
    LastLsnMonotone(l.log, l.durable, |l.log|);
    CommitBlockMonotone(l.log, l.durable, |l.log|);
    SameQueue(l, Receive(l), log, shipped, commitAt);
  }

  lemma {:induction false} ReceiveKeeps(l: Link, log: seq<Entry>, shipped: nat, commitAt: nat)
    requires Rises(log) && LinkInv(l, log, shipped, commitAt) && |l.wire| > 0 && l.session.Up?
    ensures LinkInv(Receive(l), log, shipped, commitAt)
  {
    hide LinkInv, Receive, Rises;
    if l.wire[0].Append? {
      ReceiveAppend(l, log, shipped, commitAt);
    } else {
      ReceiveBarrier(l, log, shipped, commitAt);
    }
  }

  /** An acknowledgement at or above the commit index comes from a follower that has that Commit durable. */
  lemma {:induction false} AckCoversCommit(l: Link, log: seq<Entry>, shipped: nat, commitAt: nat, a: nat)
    requires Rises(log) && shipped <= |log| && Follows(l, log) && MissedInv(l, log, shipped)
    requires Leader.IsCut(log, commitAt)
    requires LastLsn(log[..commitAt]) <= a <= LastLsn(l.log[..l.durable])
    ensures LastLsn(log[..commitAt]) <= Follower.CommitBlock(l.log[..l.durable])
  {
    hide Thin, PosOf, Follower.CommitBlock, MissedInv;
    if commitAt > 0 {
      var e := log[commitAt - 1];
      ReachOrder(l, log);
      assert l.log[..|l.log|] == l.log;
      LastLsnMonotone(l.log, l.durable, |l.log|);
      HasCommit(l, log, shipped, commitAt - 1);
      var q :| 0 <= q < |l.log| && l.log[q] == e;
      Order(l.log, q, l.durable);
      CommitBlockCovers(l.log, q, l.durable);
    }
  }

  lemma {:induction false} AckKeeps(l: Link, log: seq<Entry>, shipped: nat, commitAt: nat)
    requires Rises(log) && LinkInv(l, log, shipped, commitAt) && Leader.IsCut(log, commitAt) && |l.acks| > 0
    ensures var l' := AckArrives(l, LastLsn(log[..commitAt]));
      && LinkInv(l', log, shipped, commitAt) && l'.committedThrough >= l.committedThrough
      && l'.matchIndex >= l.matchIndex && l'.matchIndex >= l.acks[0].lsn
      && (l'.matchIndex == l.matchIndex || l'.matchIndex == l.acks[0].lsn)
      && (l.acks[0].lsn >= LastLsn(log[..commitAt]) ==> l'.committedThrough == LastLsn(log[..commitAt]))
  {
    hide Rises, Above, Appends, Process, LastLsn, Suffix, QueueInv, Follower.CommitBlock, Committed, Thin, PosOf, AckOk;
    var a, l' := l.acks[0], AckArrives(l, LastLsn(log[..commitAt]));
    if a.lsn >= LastLsn(log[..commitAt]) { AckCoversCommit(l, log, shipped, commitAt, a.lsn); }
    SameQueue(l, l', log, shipped, commitAt);
  }

  // ----- restarts

  lemma {:induction false} SurvivorBelow(l: Link, log: seq<Entry>, shipped: nat, commitAt: nat, p: seq<Entry>)
    requires Rises(log) && shipped <= |log| && commitAt <= |log| && Follows(l, log) && Flows(l, log, shipped, commitAt)
    requires p <= l.log && Committed(p) == |p| && Committed(log[..shipped]) <= commitAt
    ensures PosOf(log, LastLsn(p)) <= commitAt
  {
    hide Above, Appends, Process, LastLsn, Suffix, Thin, PosOf, Alive;
    var r := PosOf(log, LastLsn(p));
    match l.session {
      case Up(filled) =>
        ProcessExtends(l.log, Appends(l.wire) + Appends(l.queue));
        ThinPrefix(p, log, Max(shipped, filled), l.missed);
        if r > 0 { PrefixEndsInCommit(p, log, l.missed); if r <= shipped { assert log[..shipped][r - 1].rec.Commit?; } }
      case _ =>
        ReachOrder(l, log);
        assert p == l.log[..|p|] && l.log[..|l.log|] == l.log;
        LastLsnMonotone(l.log, |p|, |l.log|);
        PosOfMonotone(log, LastLsn(p), LastLsn(l.log));
    }
  }

  lemma {:induction false} PrefixEndsInCommit(p: seq<Entry>, log: seq<Entry>, missed: set<nat>)
    requires Rises(log) && p == Thin(log[..PosOf(log, LastLsn(p))], missed)
    requires LastLsn(log[..PosOf(log, LastLsn(p))]) == LastLsn(p)
    requires Committed(p) == |p| && PosOf(log, LastLsn(p)) > 0
    ensures log[PosOf(log, LastLsn(p)) - 1].rec.Commit?
  {
    hide Thin, PosOf;
    var r := PosOf(log, LastLsn(p));
    assert |p| > 0;
    ThinMember(log[..r], missed, p[|p| - 1]);
    var j :| 0 <= j < r && log[j] == p[|p| - 1];
    SamePosition(log, j, r - 1);
  }

  lemma {:induction false} RestartFollows(l: Link, log: seq<Entry>, n: nat)
    requires Rises(log) && Follows(l, log) && l.durable <= n <= |l.log|
    ensures Follows(Restart(l, n), log)
  {
    hide Rises, Thin, PosOf, LastLsn, Committed;
    var l', p := Restart(l, n), Surviving(l.log, n);
    ThinPrefix(p, log, Reach(l, log), l.missed);
    var r := PosOf(log, LastLsn(p));
    forall k | 0 <= k < r
      ensures log[..r][k].lsn in l.missed <==> log[..r][k].lsn in l'.missed
    {
      PosOfOrder(log, LastLsn(p), k);
    }
    ThinSame(log[..r], l.missed, l'.missed);
  }

  lemma {:induction false} SurvivorCovers(log: seq<Entry>, durable: nat, n: nat)
    requires Rises(log) && durable <= n <= |log|
    ensures Follower.CommitBlock(log[..durable]) <= Follower.CommitBlock(Surviving(log, n))
  {
    hide Rises;
    CommitBlockMonotone(log, durable, n);
    var b := Committed(log[..n]);
    CommittedTwice(log[..n]);
    assert log[..n][..b] == log[..b];
  }

  lemma {:induction false} RestartKeeps(l: Link, log: seq<Entry>, shipped: nat, commitAt: nat, n: nat)
    requires Rises(log) && LinkInv(l, log, shipped, commitAt) && l.durable <= n <= |l.log|
    requires Committed(log[..shipped]) <= commitAt
    ensures LinkInv(Restart(l, n), log, shipped, commitAt)
  {
    hide Rises, Above, Appends, Process, LastLsn, Suffix, QueueInv, Follower.CommitBlock, Committed, Thin, PosOf, AckOk;
    hide Alive;
    var l', p := Restart(l, n), Surviving(l.log, n);
    RestartFollows(l, log, n);
    CommittedTwice(l.log[..n]);
    assert l.log[..n][..|p|] == p;
    SurvivorBelow(l, log, shipped, commitAt, p);
    ReachOrder(l, log);
    SurvivorCovers(l.log, l.durable, n);
    assert p[..|p|] == p;
    SameQueue(l, l', log, shipped, commitAt);
  }

  lemma {:induction false} StartKeeps(l: Link, log: seq<Entry>, shipped: nat, commitAt: nat)
    requires LinkInv(l, log, shipped, commitAt) && l.session.Down? && Leader.IsCut(log, commitAt)
    requires Committed(log[..shipped]) <= commitAt
    ensures LinkInv(l.(session := Filling(commitAt)), log, shipped, commitAt)
  {
    hide Above, Appends, Process, LastLsn, Suffix, Thin, PosOf, AckOk;
    assert forall j :: commitAt <= j < shipped ==> log[..shipped][j] == log[j];
  }

  lemma {:induction false} TakenMissed(l: Link, log: seq<Entry>, shipped: nat)
    requires Rises(log) && shipped <= |log| && l.session.Filling? && l.session.upto <= |log|
    requires MissedInv(l, log, shipped)
    requires |Alive(l, log)| <= shipped && NoCommitIn(log, l.session.upto, shipped - |Alive(l, log)|)
    ensures MissedInv(l.(missed := l.missed + Taken(l, log, shipped)), log, shipped)
  {
    hide Rises, Alive;
    var missed := l.missed + Taken(l, log, shipped);
    forall x | x in missed ensures exists j :: 0 <= j < shipped && log[j].lsn == x {
      if x in Taken(l, log, shipped) {
        var j: nat :| l.session.upto <= j < shipped - |Alive(l, log)| && j < |log| && log[j].lsn == x;
      }
    }
    hide Taken;
    forall j | 0 <= j < |log| && log[j].rec.Commit? ensures log[j].lsn !in missed { NotTaken(l, log, shipped, j); }
  }

  /** The end of a backfill keeps the invariant, whatever had been taken. */
  lemma {:induction false} FinishKeeps(l: Link, log: seq<Entry>, vals: Values, shipped: nat, commitAt: nat)
    requires Rises(log) && LinkInv(l, log, shipped, commitAt) && l.session.Filling?
    ensures LinkInv(FinishBackfill(l, log, vals, shipped), log, shipped, commitAt)
  {
    hide Rises, Above, Appends, Process, LastLsn, Backfill, Follower.CommitBlock, Committed, Suffix, Thin, PosOf, AckOk;
    hide Alive, Taken, MissedInv;
    var c, l' := l.session.upto, FinishBackfill(l, log, vals, shipped);
    FilledAppends(l, log, vals, shipped);
    BackfillProcessed(l, log, shipped);
    BackfillThins(l, log, shipped);
    assert Appends([]) == [] by { NoAppends(); }
    assert [] + Appends(l'.queue) == Appends(l'.queue);
    QueueAfterBackfill(l, l', log, shipped, commitAt);
    SuffixLength(Alive(l, log), log, shipped);
    TakenMissed(l, log, shipped);
    assert MissedInv(l', log, shipped) by { SameMissed(l.(missed := l'.missed), l', log, shipped); }
    assert Follows(l', log) by { FinishFollows(l, l', log, shipped); }
  }

  lemma {:induction false} SuffixLength(es: seq<Entry>, log: seq<Entry>, n: nat)
    requires Suffix(es, log, n)
    ensures |es| <= n
  {
  }

  lemma {:induction false} SameMissed(l: Link, l': Link, log: seq<Entry>, shipped: nat)
    requires shipped <= |log| && MissedInv(l, log, shipped) && l'.missed == l.missed
    ensures MissedInv(l', log, shipped)
  {
  }

  lemma {:induction false} FinishFollows(l: Link, l': Link, log: seq<Entry>, shipped: nat)
    requires Rises(log) && Follows(l, log) && l.session.Filling? && l.session.upto <= |log| && shipped <= |log|
    requires Closed(l, log, l.session.upto)
    requires l'.log == l.log && l'.durable == l.durable && l'.missed == l.missed + Taken(l, log, shipped)
    ensures Follows(l', log)
  {
    hide Rises, Thin, PosOf, Alive, LastLsn, Taken;
    var i := Reach(l, log);
    forall k | 0 <= k < i
      ensures log[..i][k].lsn in l.missed <==> log[..i][k].lsn in l'.missed
    {
      NotTaken(l, log, shipped, k);
    }
    ThinSame(log[..i], l.missed, l'.missed);
  }

  lemma {:induction false} QueueAfterBackfill(l: Link, l': Link, log: seq<Entry>, shipped: nat, commitAt: nat)
    requires Rises(log) && QueueInv(l, log, shipped, commitAt) && l.session.Filling?
    requires Reach(l, log) <= l.session.upto <= commitAt
    requires Appends(l'.queue) == log[Reach(l, log)..l.session.upto] + Alive(l, log)
    ensures QueueInv(l', log, shipped, commitAt)
  {
    hide Rises, Above, Appends, LastLsn, Suffix, PosOf;
    var i, c := Reach(l, log), l.session.upto;
    var low, high := LastLsn(log[..c]), LastLsn(log[..commitAt]);
    LastLsnMonotone(log, c, commitAt);
    AboveConcat(log[i..c], Above(Appends(l.queue), low), high);
    AboveTwice(Appends(l.queue), low, high);
    forall k | 0 <= k < c - i ensures log[i..c][k].lsn <= high && log[i..c][k].lsn <= LastLsn(log) {
      Order(log, i + k, commitAt);
      Order(log, i + k, |log|);
      assert log[..|log|] == log;
    }
    AboveNone(log[i..c], high);
    assert [] + Above(Appends(l.queue), high) == Above(Appends(l.queue), high);
    KnownAbove(Appends(l.queue), low, LastLsn(log));
  }

  lemma {:induction false} KnownAbove(es: seq<Entry>, low: nat, lsn: nat)
    requires Known(es, lsn)
    ensures Known(Above(es, low), lsn)
  {
    if |es| > 0 {
      assert Known(es[1..], lsn);
      KnownAbove(es[1..], low, lsn);
    }
  }

  // ----- the leader appends, ships and announces

  lemma {:induction false} AckGrow(a: Ack, log: seq<Entry>, log': seq<Entry>)
    requires Rises(log') && |log| <= |log'| && log == log'[..|log|] && AckOk(a, log)
    ensures AckOk(a, log')
  {
    hide LastLsn, Rises;
    LastLsnMonotone(log', |log|, |log'|);
    assert log'[..|log'|] == log';
    forall j | 0 <= j < |log'| ensures log'[j].lsn in a.has <==> log'[j].lsn <= a.lsn && log'[j].lsn !in a.missed {
      if j < |log| { assert log'[j] == log[j]; } else { Order(log', j, |log|); }
    }
  }

  lemma {:induction false} FollowsGrow(l: Link, log: seq<Entry>, log': seq<Entry>)
    requires Rises(log') && |log| <= |log'| && log == log'[..|log|] && Follows(l, log)
    ensures Follows(l, log') && Reach(l, log') == Reach(l, log)
  {
    hide Thin, PosOf, LastLsn, Rises;
    RisesPrefix(log', |log|);
    LastLsnMonotone(log, Reach(l, log), |log|);
    assert log[..|log|] == log;
    PosOfGrow(log', |log|, LastLsn(l.log));
    assert log'[..Reach(l, log)] == log[..Reach(l, log)];
  }

  lemma {:induction false} MissedGrow(l: Link, log: seq<Entry>, log': seq<Entry>, shipped: nat)
    requires Rises(log') && |log| <= |log'| && log == log'[..|log|] && shipped <= |log| && MissedInv(l, log, shipped)
    ensures MissedInv(l, log', shipped)
  {
    forall x | x in l.missed ensures exists j :: 0 <= j < shipped && log'[j].lsn == x {
      var j :| 0 <= j < shipped && log[j].lsn == x;
      assert log'[j] == log[j];
    }
    forall j | 0 <= j < |log'| && log'[j].rec.Commit? ensures log'[j].lsn !in l.missed {
      if j < |log| { assert log'[j] == log[j]; }
    }
  }

  /** Records appended on the leader concern a link only when they are shipped. */
  lemma {:induction false} GrowKeeps(l: Link, log: seq<Entry>, log': seq<Entry>, shipped: nat, commitAt: nat)
    requires LinkInv(l, log, shipped, commitAt) && Rises(log') && |log| <= |log'| && log == log'[..|log|]
    ensures LinkInv(l, log', shipped, commitAt)
  {
    hide Rises, Above, Appends, Process, Committed, LastLsn, Thin, PosOf, AckOk, MissedInv, Reach, Follower.CommitBlock;
    assert log'[..|log'|] == log';
    LastLsnMonotone(log', |log|, |log'|);
    FollowsGrow(l, log, log');
    MissedGrow(l, log, log', shipped);
    forall k: nat | k <= |log| ensures log'[..k] == log[..k] {}
    assert log'[..commitAt] == log[..commitAt];
    SuffixGrow(Above(Appends(l.queue), LastLsn(log[..commitAt])), log, log', shipped);
    if l.session.Filling? {
      assert log'[..l.session.upto] == log[..l.session.upto];
      SuffixGrow(Alive(l, log), log, log', shipped);
    }
    if l.session.Up? { assert log'[..Max(shipped, l.session.filled)] == log[..Max(shipped, l.session.filled)]; }
    forall i | 0 <= i < |l.acks| ensures AckOk(l.acks[i], log') { AckGrow(l.acks[i], log, log'); }
    AckGrow(l.matched, log, log');
  }

  lemma {:induction false} SuffixGrow(es: seq<Entry>, log: seq<Entry>, log': seq<Entry>, n: nat)
    requires Suffix(es, log, n) && |log| <= |log'| && log == log'[..|log|]
    ensures Suffix(es, log', n)
  {
  }

  /** Everything not yet shipped goes into the queue. At most the Commit just announced may have gone
      out with a backfill already. */
  lemma {:induction false} EnqueueKeeps(l: Link, log: seq<Entry>, vals: Values, shipped: nat, commitAt: nat)
    requires Rises(log) && LinkInv(l, log, shipped, commitAt)
    requires commitAt <= shipped || (commitAt == |log| == shipped + 1 && Leader.IsCut(log, commitAt))
    ensures LinkInv(Enqueue(l, Batch(vals, log[shipped..])), log, |log|, commitAt)
  {
    hide Rises, Above, Appends, Process, LastLsn, Batch, Follower.CommitBlock, Committed, Thin, PosOf, AckOk;
    var es := log[shipped..];
    var l' := Enqueue(l, Batch(vals, es));
    AppendsConcat(l.queue, Batch(vals, es));
    AppendsOfBatch(vals, es);
    MoreQueued(Appends(l.queue), log, shipped, commitAt);
    QueueMore(Appends(l.queue), log, shipped);
    if l.session.Filling? {
      hide AcksInv, MissedInv;
      MoreQueued(Appends(l.queue), log, shipped, l.session.upto);
      MoreAlive(l, l', log, shipped);
    }
    if l.session.Up? {
      hide AcksInv;
      assert Appends(l.wire) + (Appends(l.queue) + es) == Appends(l.wire) + Appends(l.queue) + es;
      ProcessConcat(l.log, Appends(l.wire) + Appends(l.queue), es);
      ProcessShipped(l, log, shipped, l.session.filled, commitAt);
    }
    assert MissedInv(l', log, |log|) by { MissedShipped(l, l', log, shipped); }
  }

  lemma {:induction false} MissedShipped(l: Link, l': Link, log: seq<Entry>, shipped: nat)
    requires shipped <= |log| && MissedInv(l, log, shipped) && l'.missed == l.missed
    ensures MissedInv(l', log, |log|)
  {
  }

  lemma {:induction false} QueueMore(q: seq<Entry>, log: seq<Entry>, shipped: nat)
    requires Rises(log) && shipped <= |log| && Known(q, LastLsn(log))
    ensures Known(q + log[shipped..], LastLsn(log))
  {
    hide Rises, LastLsn;
    var es := log[shipped..];
    forall i | 0 <= i < |es| ensures es[i].lsn <= LastLsn(log) {
      Order(log, shipped + i, |log|);
      assert log[..|log|] == log;
    }
  }

  lemma {:induction false} MoreQueued(q: seq<Entry>, log: seq<Entry>, shipped: nat, c: nat)
    requires Rises(log) && shipped <= |log| && c <= |log| && (c <= shipped || c == |log|)
    requires Suffix(Above(q, LastLsn(log[..c])), log, shipped)
    ensures Suffix(Above(q + log[shipped..], LastLsn(log[..c])), log, |log|)
    ensures c <= shipped ==>
      |Above(q + log[shipped..], LastLsn(log[..c]))| == |Above(q, LastLsn(log[..c]))| + |log| - shipped
  {
    hide Rises, Above, LastLsn;
    var es, lsn := log[shipped..], LastLsn(log[..c]);
    AboveConcat(q, es, lsn);
    var a := Above(q, lsn);
    if c <= shipped {
      forall i | 0 <= i < |es| ensures es[i].lsn > lsn { Order(log, shipped + i, c); }
      AboveAll(es, lsn);
      assert log[shipped - |a|..shipped] + es == log[shipped - |a|..];
    } else {
      forall i | 0 <= i < |es| ensures es[i].lsn <= lsn { Order(log, shipped + i, c); }
      AboveNone(es, lsn);
      AboveMembers(q, lsn);
      if |a| > 0 { assert a[0] == log[shipped - |a|]; Order(log, shipped - |a|, c); }
      assert |a| == 0;
    }
  }

  lemma {:induction false} MoreAlive(l: Link, l': Link, log: seq<Entry>, shipped: nat)
    requires shipped <= |log| && l.session.Filling? && l.session.upto <= |log| && l'.session == l.session
    requires Suffix(Alive(l, log), log, shipped) && NoCommitIn(log, l.session.upto, shipped - |Alive(l, log)|)
    requires Suffix(Alive(l', log), log, |log|) && (l.session.upto <= shipped || l.session.upto == |log|)
    requires l.session.upto <= shipped ==> |Alive(l', log)| == |Alive(l, log)| + |log| - shipped
    ensures NoCommitIn(log, l.session.upto, |log| - |Alive(l', log)|)
  {
    hide Alive;
  }

  lemma {:induction false} ProcessShipped(l: Link, log: seq<Entry>, shipped: nat, filled: nat, commitAt: nat)
    requires Rises(log) && shipped <= |log| && filled <= commitAt <= |log| && MissedInv(l, log, shipped)
    requires commitAt <= shipped || (commitAt == |log| == shipped + 1 && Leader.IsCut(log, commitAt))
    ensures Process(Thin(log[..Max(shipped, filled)], l.missed), log[shipped..]) ==
      Thin(log[..Max(|log|, filled)], l.missed)
  {
    hide Thin, Process, Rises, MissedInv;
    assert log[..|log|] == log;
    if filled <= shipped { ProcessAll(l, log, shipped); } else { SkipsCommit(l, log, shipped); }
  }

  lemma {:induction false} ProcessAll(l: Link, log: seq<Entry>, shipped: nat)
    requires Rises(log) && shipped <= |log| && MissedInv(l, log, shipped)
    ensures Process(Thin(log[..shipped], l.missed), log[shipped..]) == Thin(log, l.missed)
  {
    hide Thin, Process;
    var f, es := Thin(log[..shipped], l.missed), log[shipped..];
    RisesPrefix(log, shipped);
    ThinRises(log[..shipped], l.missed);
    RisesSlice(log, shipped, |log|);
    assert es == log[shipped..|log|];
    if |es| > 0 && shipped > 0 { assert log[shipped - 1].lsn < es[0].lsn; }
    RisesConcat(f, es);
    hide Rises;
    ProcessRising(f, es);
    forall i | 0 <= i < |es| ensures es[i].lsn !in l.missed { NotMissed(l, log, shipped, shipped + i); }
    ThinWhole(es, l.missed);
    ThinConcat(log[..shipped], es, l.missed);
    assert log[..shipped] + es == log;
  }

  lemma {:induction false} NotMissed(l: Link, log: seq<Entry>, shipped: nat, j: nat)
    requires Rises(log) && shipped <= j < |log| && MissedInv(l, log, shipped)
    ensures log[j].lsn !in l.missed
  {
  }

  /** A Commit that came with a backfill is a repetition when it is shipped. */
  lemma {:induction false} SkipsCommit(l: Link, log: seq<Entry>, shipped: nat)
    requires Rises(log) && |log| == shipped + 1 && Leader.IsCut(log, |log|) && MissedInv(l, log, shipped)
    ensures Process(Thin(log, l.missed), log[shipped..]) == Thin(log, l.missed)
  {
    NotMissed(l, log, shipped, shipped);
    var f := Thin(log, l.missed);
    assert f[|f| - 1] == log[shipped];
    assert Committed(f) == |f|;
    hide Thin;
    assert log[shipped..] == [log[shipped]];
    ProcessFirst(f, log[shipped], []);
    assert [log[shipped]] + [] == [log[shipped]];
  }

  lemma {:induction false} AnnounceKeeps(l: Link, log: seq<Entry>, shipped: nat, commitAt: nat)
    requires Rises(log) && LinkInv(l, log, shipped, commitAt)
    ensures LinkInv(l, log, shipped, |log|)
  {
    hide Rises, Above, Appends, Process, Follower.CommitBlock, Committed, Thin, PosOf, AckOk;
    assert log[..|log|] == log;
    AboveNone(Appends(l.queue), LastLsn(log));
    LastLsnMonotone(log, commitAt, |log|);
  }
}
