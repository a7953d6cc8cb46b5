/** Recovery reads the whole log, places every put and seal first, and only then applies
    the compactions in order. It arrives at the same layout as the live store. */
module Recovery {
  import opened Bytes
  import opened Records
  import opened Wal
  import opened LogModel

  /** What the pass over the log gathers. */
  datatype Gathered = Gathered(base: Layout, swaps: seq<(nat, nat)>, remaps: map<nat, seq<RemapEntry>>)

  const NOTHING := Gathered(EMPTY.(lens := map[]), [], map[])

  function EntriesOf(g: Gathered, id: nat): seq<RemapEntry> {
    if id in g.remaps then g.remaps[id] else []
  }

  function GatherEntry(g: Gathered, e: Entry): Gathered {
    match e.rec
    case Put(key, len, _) => g.(base := PutOn(g.base, key, len, e.lsn))
    case SegmentSeal(id, next) =>
      g.(base := g.base.(lens := g.base.lens[id := g.base.off], sealed := g.base.sealed + {id}, active := next,
        off := 0))
    case SegmentSwap(from, to) => g.(swaps := g.swaps + [(from, to)])
    case SegmentRemap(to, es) => g.(remaps := g.remaps[to := EntriesOf(g, to) + es])
    case Commit(_) => g
    case AggDelta(_) => g
  }

  function Gather(log: seq<Entry>): Gathered {
    if |log| == 0 then NOTHING else GatherEntry(Gather(log[..|log| - 1]), log[|log| - 1])
  }

  /** The open segment has an entry in the length table even if nothing was put in it. */
  function Finish(base: Layout): Layout {
    if base.active in base.lens then base else base.(lens := base.lens[base.active := base.off])
  }

  /** The first n compactions, applied on top of all puts and seals. */
  function Applied(g: Gathered, n: nat): Layout
    requires n <= |g.swaps|
  {
    if n == 0 then Finish(g.base)
    else
      var (from, to) := g.swaps[n - 1];
      SwapOn(Applied(g, n - 1), from, to, EntriesOf(g, to))
  }

  function Recovered(log: seq<Entry>): Layout {
    var g := Gather(log);
    Applied(g, |g.swaps|)
  }

  // ----- compactions commute with later puts and seals

  ghost predicate Mentions(es: seq<RemapEntry>, lsn: nat) {
    exists i :: 0 <= i < |es| && es[i].lsn == lsn
  }

  lemma {:induction false} MovedUnmentioned(es: seq<RemapEntry>, key: Text, lsn: nat)
    requires !Mentions(es, lsn)
    ensures Moved(es, key, lsn).None?
  {
    if |es| > 0 {
      assert es[|es| - 1].lsn != lsn;
      assert forall i :: 0 <= i < |es| - 1 ==> es[..|es| - 1][i] == es[i];
      MovedUnmentioned(es[..|es| - 1], key, lsn);
    }
  }

  lemma {:induction false} MoveLocsPut(locs: map<nat, PutLoc>, es: seq<RemapEntry>, to: nat, lsn: nat, l: PutLoc)
    requires !Mentions(es, lsn)
    ensures MoveLocs(locs[lsn := l], es, to) == MoveLocs(locs, es, to)[lsn := l]
  {
    if |es| > 0 {
      assert es[|es| - 1].lsn != lsn;
      assert forall i :: 0 <= i < |es| - 1 ==> es[..|es| - 1][i] == es[i];
      MoveLocsPut(locs, es[..|es| - 1], to, lsn, l);
    }
  }

  lemma {:induction false} MoveIndexPut(index: map<Text, Loc>, es: seq<RemapEntry>, to: nat, key: Text, loc: Loc)
    requires !Mentions(es, loc.lsn)
    ensures MoveIndex(index[key := loc], es, to) == MoveIndex(index, es, to)[key := loc]
  {
    MovedUnmentioned(es, key, loc.lsn);
  }

  lemma {:induction false} PutCommutes(r: Layout, from: nat, to: nat, es: seq<RemapEntry>, key: Text, len: nat,
                                       lsn: nat)
    requires !Mentions(es, lsn) && r.active != from && r.active != to
    ensures SwapOn(PutOn(r, key, len, lsn), from, to, es) == PutOn(SwapOn(r, from, to, es), key, len, lsn)
  {
    hide MoveIndex, MoveLocs, Extent, Mentions;
    MoveIndexPut(r.index, es, to, key, Loc(r.active, r.off, len, lsn));
    MoveLocsPut(r.locs, es, to, lsn, PutLoc(key, r.active, r.off, len));
    var a, b := SwapOn(PutOn(r, key, len, lsn), from, to, es), PutOn(SwapOn(r, from, to, es), key, len, lsn);
    assert a.lens == b.lens;
  }

  lemma {:induction false} UpdatesCommute(m: map<nat, nat>, a: nat, x: nat, n: nat, t: nat, y: nat, f: nat)
    requires a != t && a != f && n != t && n != f
    ensures m[a := x][n := 0][t := y][f := 0] == m[t := y][f := 0][a := x][n := 0]
  {
  }

  lemma {:induction false} SealCommutes(r: Layout, from: nat, to: nat, es: seq<RemapEntry>, next: nat)
    requires r.active != from && r.active != to && next != from && next != to
    ensures SwapOn(SealOn(r, next), from, to, es) == SealOn(SwapOn(r, from, to, es), next)
  {
    hide MoveIndex, MoveLocs, Extent;
    var a, b := SwapOn(SealOn(r, next), from, to, es), SealOn(SwapOn(r, from, to, es), next);
    assert a.sealed == b.sealed;
    UpdatesCommute(r.lens, r.active, r.off, next, to, Extent(es), from);
  }

  // ----- the two readings of the log, side by side

  /** No compaction touches the open segment, and all ids and LSNs were handed out before now. */
  ghost predicate Tame(g: Gathered, s: Live) {
    && (forall i :: 0 <= i < |g.swaps| ==>
          && g.swaps[i].0 != s.r.active && g.swaps[i].1 != s.r.active
          && g.swaps[i].0 < s.bound && g.swaps[i].1 < s.bound)
    && (forall i, j :: 0 <= i < j < |g.swaps| ==> g.swaps[i].1 != g.swaps[j].1)
    && (forall i, j :: 0 <= i <= j < |g.swaps| ==> g.swaps[i].0 != g.swaps[j].1)
    && (forall i :: 0 <= i < |g.swaps| - (if s.pend.Some? then 1 else 0) ==> g.swaps[i].0 !in s.r.sealed)
    && (forall id :: id in g.remaps ==> id < s.bound)
    && (forall id, j :: id in g.remaps && 0 <= j < |g.remaps[id]| ==> g.remaps[id][j].lsn <= s.lastLsn)
  }

  ghost predicate Agree(g: Gathered, s: Live) {
    if s.pend.None? then Applied(g, |g.swaps|) == s.r
    else
      var p := s.pend.value;
      && |g.swaps| > 0 && g.swaps[|g.swaps| - 1] == (p.from, p.to)
      && EntriesOf(g, p.to) == p.entries
      && Applied(g, |g.swaps| - 1) == s.r
  }

  lemma {:induction false} AppliedActive(g: Gathered, n: nat)
    requires n <= |g.swaps|
    ensures Applied(g, n).active == g.base.active && Applied(g, n).off == g.base.off
  {
    hide MoveIndex, MoveLocs, Extent;
    if n > 0 { AppliedActive(g, n - 1); }
  }

  lemma {:induction false} AppliedPut(g: Gathered, n: nat, key: Text, len: nat, lsn: nat)
    requires n <= |g.swaps|
    requires forall i :: 0 <= i < n ==> g.swaps[i].0 != g.base.active && g.swaps[i].1 != g.base.active
    requires forall i :: 0 <= i < n ==> !Mentions(EntriesOf(g, g.swaps[i].1), lsn)
    ensures Applied(g.(base := PutOn(g.base, key, len, lsn)), n) == PutOn(Applied(g, n), key, len, lsn)
  {
    hide SwapOn, EntriesOf;
    if n == 0 {
      var a, b := Finish(PutOn(g.base, key, len, lsn)), PutOn(Finish(g.base), key, len, lsn);
      assert a.lens == b.lens;
    } else {
      AppliedPut(g, n - 1, key, len, lsn);
      AppliedActive(g, n - 1);
      var (from, to) := g.swaps[n - 1];
      hide PutOn;
      PutCommutes(Applied(g, n - 1), from, to, EntriesOf(g, to), key, len, lsn);
      SameEntries(g, g.(base := PutOn(g.base, key, len, lsn)), to);
    }
  }

  lemma {:induction false} SameEntries(g: Gathered, h: Gathered, id: nat)
    requires g.remaps == h.remaps
    ensures EntriesOf(g, id) == EntriesOf(h, id)
  {
  }

  lemma {:induction false} AppliedSeal(g: Gathered, n: nat, next: nat)
    requires n <= |g.swaps| && next !in g.base.lens && next != g.base.active
    requires forall i :: 0 <= i < n ==> g.swaps[i].0 != g.base.active && g.swaps[i].1 != g.base.active
    requires forall i :: 0 <= i < n ==> g.swaps[i].0 != next && g.swaps[i].1 != next
    ensures var b := g.base;
      var h := g.(base := b.(lens := b.lens[b.active := b.off], sealed := b.sealed + {b.active}, active := next,
        off := 0));
      Applied(h, n) == SealOn(Applied(g, n), next)
  {
    hide SwapOn, EntriesOf;
    var b := g.base;
    var h := g.(base := b.(lens := b.lens[b.active := b.off], sealed := b.sealed + {b.active}, active := next,
      off := 0));
    if n == 0 {
      var x, y := Finish(h.base), SealOn(Finish(g.base), next);
      assert x.lens == y.lens;
    } else {
      AppliedSeal(g, n - 1, next);
      AppliedActive(g, n - 1);
      var (from, to) := g.swaps[n - 1];
      SealCommutes(Applied(g, n - 1), from, to, EntriesOf(g, to), next);
      SameEntries(g, h, to);
    }
  }

  /** Applying n compactions depends only on the first n, and on their entries. */
  lemma {:induction false} AppliedSame(g: Gathered, h: Gathered, n: nat)
    requires n <= |g.swaps| && n <= |h.swaps| && g.base == h.base
    requires forall i :: 0 <= i < n ==>
      g.swaps[i] == h.swaps[i] && EntriesOf(g, g.swaps[i].1) == EntriesOf(h, g.swaps[i].1)
    ensures Applied(g, n) == Applied(h, n)
  {
    hide SwapOn, EntriesOf;
    if n > 0 { AppliedSame(g, h, n - 1); }
  }

  lemma {:induction false} GatherPut(g: Gathered, s: Live, e: Entry)
    requires Sound(s) && Allowed(s, e) && Tame(g, s) && Agree(g, s) && e.rec.Put?
    ensures Tame(GatherEntry(g, e), After(s, e)) && Agree(GatherEntry(g, e), After(s, e))
  {
    var n := |g.swaps|;
    AppliedActive(g, n);
    hide Sound, Applied;
    AppliedPut(g, n, e.rec.key, e.rec.len, e.lsn);
  }

  lemma {:induction false} GatherSeal(g: Gathered, s: Live, e: Entry)
    requires Sound(s) && Allowed(s, e) && Tame(g, s) && Agree(g, s) && e.rec.SegmentSeal?
    ensures Tame(GatherEntry(g, e), After(s, e)) && Agree(GatherEntry(g, e), After(s, e))
  {
    var n, next := |g.swaps|, e.rec.nextSegmentId;
    AppliedActive(g, n);
    LensKept(g, n, next);
    assert next !in s.r.lens;
    hide Sound, Applied;
    AppliedSeal(g, n, next);
  }

  lemma {:induction false} LensKept(g: Gathered, n: nat, id: nat)
    requires n <= |g.swaps|
    ensures id in g.base.lens ==> id in Applied(g, n).lens
  {
    hide MoveIndex, MoveLocs, Extent;
    if n > 0 { LensKept(g, n - 1, id); }
  }

  /** The segment now replaced was not replaced before. */
  lemma {:induction false} SealedSwaps(g: Gathered, s: Live, e: Entry)
    requires Allowed(s, e) && e.rec.SegmentSwap? && Tame(g, s) && s.pend.None?
    ensures e.rec.oldSegmentId in s.r.sealed
    ensures forall i :: 0 <= i < |g.swaps| ==> g.swaps[i].0 != e.rec.oldSegmentId
  {
  }

  lemma {:induction false} TameSwap(g: Gathered, s: Live, t: Live, from: nat, to: nat)
    requires Tame(g, s) && s.pend.None? && from != s.r.active && to != s.r.active && from < s.bound <= to
    requires forall i :: 0 <= i < |g.swaps| ==> g.swaps[i].0 != from
    requires t.r == s.r && t.bound == to + 1 && t.lastLsn >= s.lastLsn && t.pend.Some?
    ensures Tame(g.(swaps := g.swaps + [(from, to)]), t)
  {
  }

  lemma {:induction false} AgreeSwap(g: Gathered, s: Live, t: Live, from: nat, to: nat)
    requires Tame(g, s) && Agree(g, s) && s.pend.None? && s.bound <= to && t.r == s.r
    requires t.pend == Some(Pending(from, to, []))
    ensures Agree(g.(swaps := g.swaps + [(from, to)]), t)
  {
    hide Applied;
    var h := g.(swaps := g.swaps + [(from, to)]);
    AppliedSame(g, h, |g.swaps|);
    assert to !in g.remaps;
  }

  lemma {:induction false} GatherSwap(g: Gathered, s: Live, e: Entry)
    requires Sound(s) && Allowed(s, e) && Tame(g, s) && Agree(g, s) && e.rec.SegmentSwap?
    ensures Tame(GatherEntry(g, e), After(s, e)) && Agree(GatherEntry(g, e), After(s, e))
  {
    hide Applied, Sound, Allowed, After, Tame, Agree;
    SwapLog(s, e);
    SealedSwaps(g, s, e);
    RisingLsn(s, e);
    TameSwap(g, s, After(s, e), e.rec.oldSegmentId, e.rec.newSegmentId);
    AgreeSwap(g, s, After(s, e), e.rec.oldSegmentId, e.rec.newSegmentId);
  }

  lemma {:induction false} RisingLsn(s: Live, e: Entry)
    requires Allowed(s, e)
    ensures e.lsn > s.lastLsn
  {
  }

  lemma {:induction false} TameRemap(g: Gathered, s: Live, t: Live, all: seq<RemapEntry>)
    requires Tame(g, s) && s.pend.Some? && s.pend.value.to < s.bound
    requires t.r == s.r && t.bound == s.bound && t.lastLsn >= s.lastLsn && t.pend.Some?
    requires forall i :: 0 <= i < |all| ==> all[i].lsn <= s.lastLsn
    ensures Tame(g.(remaps := g.remaps[s.pend.value.to := all]), t)
  {
  }

  lemma {:induction false} AgreeRemap(g: Gathered, s: Live, t: Live, all: seq<RemapEntry>)
    requires Tame(g, s) && Agree(g, s) && s.pend.Some? && t.r == s.r && t.pend == Some(s.pend.value.(entries := all))
    ensures Agree(g.(remaps := g.remaps[s.pend.value.to := all]), t)
  {
    hide Applied;
    AppliedSame(g, g.(remaps := g.remaps[s.pend.value.to := all]), |g.swaps| - 1);
  }

  lemma {:induction false} GatherRemap(g: Gathered, s: Live, e: Entry)
    requires Sound(s) && Allowed(s, e) && Tame(g, s) && Agree(g, s) && e.rec.SegmentRemap?
    ensures Tame(GatherEntry(g, e), After(s, e)) && Agree(GatherEntry(g, e), After(s, e))
  {
    hide Applied, Sound, Allowed, After, Tame;
    RemapLog(s, e);
    PendingBelow(s);
    var all := s.pend.value.entries + e.rec.entries;
    TameRemap(g, s, After(s, e), all);
    AgreeRemap(g, s, After(s, e), all);
  }

  lemma {:induction false} PendingBelow(s: Live)
    requires Sound(s) && s.pend.Some?
    ensures s.pend.value.to < s.bound
  {
  }

  lemma {:induction false} GatherCommit(g: Gathered, s: Live, e: Entry)
    requires Sound(s) && Allowed(s, e) && Tame(g, s) && Agree(g, s) && (e.rec.Commit? || e.rec.AggDelta?)
    ensures Tame(GatherEntry(g, e), After(s, e)) && Agree(GatherEntry(g, e), After(s, e))
  {
    hide Sound, MoveIndex, MoveLocs, Extent;
  }

  lemma {:induction false} GatherAgrees(log: seq<Entry>)
    requires Legal(log)
    ensures Tame(Gather(log), On(log)) && Agree(Gather(log), On(log))
  {
    hide After, Allowed, GatherEntry, Tame, Agree, Sound;
    if |log| == 0 {
      NothingAgrees();
    } else {
      var n := |log| - 1;
      LegalPrefix(log, n);
      GatherAgrees(log[..n]);
      OnSound(log[..n]);
      var g, s, e := Gather(log[..n]), On(log[..n]), log[n];
      match e.rec
      case Put(_, _, _) => GatherPut(g, s, e);
      case SegmentSeal(_, _) => GatherSeal(g, s, e);
      case SegmentSwap(_, _) => GatherSwap(g, s, e);
      case SegmentRemap(_, _) => GatherRemap(g, s, e);
      case Commit(_) => GatherCommit(g, s, e);
      case AggDelta(_) => GatherCommit(g, s, e);
    }
  }

  lemma {:induction false} NothingAgrees()
    ensures Tame(NOTHING, START) && Agree(NOTHING, START)
  {
    assert Finish(NOTHING.base) == EMPTY;
  }

  /** Replay refines the live store: recovering the whole log gives the layout the live run has. */
  lemma {:induction false} ReplayIsLive(log: seq<Entry>)
    requires Legal(log) && On(log).pend.None?
    ensures Recovered(log) == On(log).r
  {
    hide On;
    GatherAgrees(log);
  }

  /** The files recovery deletes are those of replaced segments, never of a current one. */
  lemma {:induction false} ReplacedNotCurrent(log: seq<Entry>, i: nat)
    requires Legal(log) && On(log).pend.None? && i < |Gather(log).swaps|
    ensures Gather(log).swaps[i].0 !in LiveSegs(On(log).r)
  {
    hide On, Gather, Agree;
    GatherAgrees(log);
  }
}
