/** What a log of records means: the index, the segment layout, and how compactions move values. */
module LogModel {
  import opened Bytes
  import opened Records
  import opened Wal

  /** Where the current value of a key is. */
  datatype Loc = Loc(seg: nat, off: nat, len: nat, lsn: nat)

  /** Where the value of one put is. */
  datatype PutLoc = PutLoc(key: Text, seg: nat, off: nat, len: nat)

  /** The index, every put's location, the open segment and its length, the sealed
      segments, and the length each segment file must have. */
  datatype Layout = Layout(
    index: map<Text, Loc>,
    locs: map<nat, PutLoc>,
    active: nat,
    off: nat,
    sealed: set<nat>,
    lens: map<nat, nat>)

  const EMPTY := Layout(map[], map[], 0, 0, {}, map[0 := 0])

  /** A put goes to the end of the open segment. */
  function PutOn(r: Layout, key: Text, len: nat, lsn: nat): Layout {
    r.(index := r.index[key := Loc(r.active, r.off, len, lsn)],
       locs := r.locs[lsn := PutLoc(key, r.active, r.off, len)],
       off := r.off + len,
       lens := r.lens[r.active := r.off + len])
  }

  /** The open segment is sealed and `next` opened. */
  function SealOn(r: Layout, next: nat): Layout {
    r.(sealed := r.sealed + {r.active},
       active := next,
       off := 0,
       lens := r.lens[r.active := r.off][next := 0])
  }

  /** The last entry for a key's put, if the put was moved. */
  function Moved(es: seq<RemapEntry>, key: Text, lsn: nat): Option<RemapEntry> {
    if |es| == 0 then None
    else
      var e := es[|es| - 1];
      if e.key == key && e.lsn == lsn then Some(e) else Moved(es[..|es| - 1], key, lsn)
  }

  function MoveLoc(es: seq<RemapEntry>, key: Text, loc: Loc, to: nat): Loc {
    var m := Moved(es, key, loc.lsn);
    if m.None? then loc else Loc(to, m.value.offset, m.value.len, m.value.lsn)
  }

  /** Keys whose current put was moved now point into the new segment. */
  function MoveIndex(index: map<Text, Loc>, es: seq<RemapEntry>, to: nat): map<Text, Loc> {
    map k | k in index :: MoveLoc(es, k, index[k], to)
  }

  function MoveLocs(locs: map<nat, PutLoc>, es: seq<RemapEntry>, to: nat): map<nat, PutLoc> {
    if |es| == 0 then locs
    else
      var e := es[|es| - 1];
      MoveLocs(locs, es[..|es| - 1], to)[e.lsn := PutLoc(e.key, to, e.offset, e.len)]
  }

  /** The length of the file the entries describe. */
  function Extent(es: seq<RemapEntry>): nat {
    if |es| == 0 then 0
    else
      var e := es[|es| - 1];
      var before := Extent(es[..|es| - 1]);
      if e.offset + e.len > before then e.offset + e.len else before
  }

  /** Segment `from` is replaced by `to`, which holds the values of the entries. */
  function SwapOn(r: Layout, from: nat, to: nat, es: seq<RemapEntry>): Layout {
    r.(index := MoveIndex(r.index, es, to),
       locs := MoveLocs(r.locs, es, to),
       sealed := r.sealed - {from} + {to},
       lens := r.lens[to := Extent(es)][from := 0])
  }

  // ----- the log as the live store experiences it

  /** A compaction whose records are not yet committed. */
  datatype Pending = Pending(from: nat, to: nat, entries: seq<RemapEntry>)

  datatype Live = Live(r: Layout, pend: Option<Pending>, lastLsn: nat, bound: nat)

  /** One more record: a compaction takes effect with the Commit that covers it. */
  function After(s: Live, e: Entry): Live {
    var s' := s.(lastLsn := e.lsn);
    match e.rec
    case Put(key, len, _) => s'.(r := PutOn(s.r, key, len, e.lsn))
    case SegmentSeal(_, next) => s'.(r := SealOn(s.r, next), bound := if next >= s.bound then next + 1 else s.bound)
    case SegmentSwap(from, to) => s'.(pend := Some(Pending(from, to, [])),
      bound := if to >= s.bound then to + 1 else s.bound)
    case SegmentRemap(_, es) =>
      if s.pend.None? then s'
      else s'.(pend := Some(s.pend.value.(entries := s.pend.value.entries + es)))
    case Commit(_) =>
      if s.pend.None? then s'
      else s'.(r := SwapOn(s.r, s.pend.value.from, s.pend.value.to, s.pend.value.entries), pend := None)
    case AggDelta(_) => s'
  }

  const START := Live(EMPTY, None, 0, 1)

  function On(log: seq<Entry>): Live {
    if |log| == 0 then START else After(On(log[..|log| - 1]), log[|log| - 1])
  }

  /** An entry of a replacement segment names a put of the old one, and follows the entries before it. */
  ghost predicate EntryFits(r: Layout, from: nat, e: RemapEntry, at: nat) {
    && e.lsn in r.locs && r.locs[e.lsn] == PutLoc(e.key, from, r.locs[e.lsn].off, e.len)
    && e.offset == at
  }

  /** Entries lie end to end from `at` on, each naming a different put of the old segment. */
  ghost predicate EntriesFit(r: Layout, from: nat, es: seq<RemapEntry>, at: nat)
    decreases |es|
  {
    |es| == 0 ||
    (EntriesFit(r, from, es[..|es| - 1], at) &&
     EntryFits(r, from, es[|es| - 1], at + Total(es[..|es| - 1])) &&
     forall i :: 0 <= i < |es| - 1 ==> es[i].lsn != es[|es| - 1].lsn)
  }

  function Total(es: seq<RemapEntry>): nat {
    if |es| == 0 then 0 else Total(es[..|es| - 1]) + es[|es| - 1].len
  }

  /** Every key whose value is in the old segment has an entry. */
  ghost predicate Covers(r: Layout, p: Pending) {
    forall k :: k in r.index && r.index[k].seg == p.from ==> Moved(p.entries, k, r.index[k].lsn).Some?
  }

  /** What the writer of the log guarantees of the next record. */
  ghost predicate Allowed(s: Live, e: Entry) {
    && e.lsn > s.lastLsn
    && match e.rec
       case Put(_, _, _) => s.pend.None?
       case AggDelta(_) => s.pend.None?
       case SegmentSeal(id, next) => s.pend.None? && id == s.r.active && next >= s.bound
       case SegmentSwap(from, to) => s.pend.None? && from in s.r.sealed && to >= s.bound
       case SegmentRemap(to, es) =>
         && s.pend.Some? && to == s.pend.value.to
         && EntriesFit(s.r, s.pend.value.from, s.pend.value.entries + es, 0)
       case Commit(_) => s.pend.Some? ==> Covers(s.r, s.pend.value)
  }

  ghost predicate Legal(log: seq<Entry>) {
    forall i :: 0 <= i < |log| ==> Allowed(On(log[..i]), log[i])
  }

  lemma {:induction false} OnAppend(log: seq<Entry>, e: Entry)
    ensures On(log + [e]) == After(On(log), e)
  {
    hide After;
    assert (log + [e])[..|log|] == log;
  }

  lemma {:induction false} LegalPrefix(log: seq<Entry>, n: nat)
    requires Legal(log) && n <= |log|
    ensures Legal(log[..n])
  {
    hide Allowed, On;
    forall i | 0 <= i < n ensures Allowed(On(log[..n][..i]), log[..n][i]) {
      assert log[..n][..i] == log[..i];
    }
  }

  lemma {:induction false} LegalAppend(log: seq<Entry>, e: Entry)
    requires Legal(log) && Allowed(On(log), e)
    ensures Legal(log + [e])
  {
    hide Allowed, On;
    var l := log + [e];
    forall i | 0 <= i < |l| ensures Allowed(On(l[..i]), l[i]) {
      assert l[..i] == log[..i];
      assert log[..|log|] == log;
    }
  }

  // ----- what every legal log keeps

  function LiveSegs(r: Layout): set<nat> {
    r.sealed + {r.active}
  }

  /** The index agrees with the put locations and points only into current segments. */
  ghost predicate IndexIn(r: Layout) {
    forall k :: k in r.index ==>
      && r.index[k].lsn in r.locs
      && r.locs[r.index[k].lsn] == PutLoc(k, r.index[k].seg, r.index[k].off, r.index[k].len)
      && r.index[k].seg in LiveSegs(r)
  }

  /** Puts located in a current segment lie within its length. */
  ghost predicate LocsIn(r: Layout) {
    forall l :: l in r.locs && r.locs[l].seg in LiveSegs(r) ==>
      r.locs[l].seg in r.lens && r.locs[l].off + r.locs[l].len <= r.lens[r.locs[l].seg]
  }

  ghost predicate Sound(s: Live) {
    && s.r.active !in s.r.sealed
    && LiveSegs(s.r) <= s.r.lens.Keys
    && s.r.lens[s.r.active] == s.r.off
    && (forall id :: id in s.r.lens ==> id < s.bound)
    && (forall id :: id in s.r.lens && id !in LiveSegs(s.r) ==> s.r.lens[id] == 0)
    && (forall l :: l in s.r.locs ==> l <= s.lastLsn && s.r.locs[l].seg in s.r.lens)
    && IndexIn(s.r) && LocsIn(s.r)
    && (s.pend.Some? ==>
          var p := s.pend.value;
          && p.from in s.r.sealed && p.to !in s.r.lens && p.to < s.bound
          && EntriesFit(s.r, p.from, p.entries, 0))
  }

  ghost predicate DistinctLsns(es: seq<RemapEntry>) {
    forall i, j :: 0 <= i < j < |es| ==> es[i].lsn != es[j].lsn
  }

  lemma {:induction false} EntriesFacts(r: Layout, from: nat, es: seq<RemapEntry>)
    requires EntriesFit(r, from, es, 0)
    ensures Extent(es) == Total(es) && DistinctLsns(es)
    ensures forall i :: 0 <= i < |es| ==>
      && es[i].offset + es[i].len <= Total(es)
      && es[i].lsn in r.locs && r.locs[es[i].lsn].key == es[i].key
      && r.locs[es[i].lsn].seg == from && r.locs[es[i].lsn].len == es[i].len
  {
    if |es| > 0 {
      var before := es[..|es| - 1];
      EntriesFacts(r, from, before);
      assert forall i :: 0 <= i < |before| ==> es[i] == before[i];
    }
  }

  lemma {:induction false} EntriesFitPrefix(r: Layout, from: nat, es: seq<RemapEntry>, n: nat)
    requires EntriesFit(r, from, es, 0) && n <= |es|
    ensures EntriesFit(r, from, es[..n], 0)
    decreases |es|
  {
    if n < |es| {
      assert es[..n] == es[..|es| - 1][..n];
      EntriesFitPrefix(r, from, es[..|es| - 1], n);
    } else {
      assert es[..n] == es;
    }
  }

  lemma {:induction false} MoveLocsAt(locs: map<nat, PutLoc>, es: seq<RemapEntry>, to: nat)
    requires DistinctLsns(es)
    ensures forall l :: l in MoveLocs(locs, es, to) <==> l in locs || exists i :: 0 <= i < |es| && es[i].lsn == l
    ensures forall i :: 0 <= i < |es| ==>
      MoveLocs(locs, es, to)[es[i].lsn] == PutLoc(es[i].key, to, es[i].offset, es[i].len)
    ensures forall l :: l in locs && (forall i :: 0 <= i < |es| ==> es[i].lsn != l) ==>
      MoveLocs(locs, es, to)[l] == locs[l]
  {
    if |es| > 0 {
      var before := es[..|es| - 1];
      MoveLocsAt(locs, before, to);
      assert forall i :: 0 <= i < |before| ==> es[i] == before[i];
    }
  }

  /** The last entry for an LSN. */
  function FindLsn(es: seq<RemapEntry>, lsn: nat): Option<RemapEntry> {
    if |es| == 0 then None
    else if es[|es| - 1].lsn == lsn then Some(es[|es| - 1])
    else FindLsn(es[..|es| - 1], lsn)
  }

  lemma {:induction false} MoveLocsFind(locs: map<nat, PutLoc>, es: seq<RemapEntry>, to: nat, l: nat)
    ensures l in MoveLocs(locs, es, to) <==> l in locs || FindLsn(es, l).Some?
    ensures l in MoveLocs(locs, es, to) ==>
      MoveLocs(locs, es, to)[l] == match FindLsn(es, l) { case Some(e) =>
        PutLoc(e.key, to, e.offset, e.len) case None => locs[l] }
  {
    if |es| > 0 { MoveLocsFind(locs, es[..|es| - 1], to, l); }
  }

  lemma {:induction false} FindLsnAt(es: seq<RemapEntry>, lsn: nat)
    ensures FindLsn(es, lsn).Some? <==> exists i :: 0 <= i < |es| && es[i].lsn == lsn
    ensures FindLsn(es, lsn).Some? ==> FindLsn(es, lsn).value in es && FindLsn(es, lsn).value.lsn == lsn
  {
    if |es| > 0 {
      var before := es[..|es| - 1];
      FindLsnAt(before, lsn);
      assert forall i :: 0 <= i < |before| ==> es[i] == before[i];
    }
  }

  lemma {:induction false} MovedAt(es: seq<RemapEntry>, key: Text, lsn: nat)
    ensures Moved(es, key, lsn).Some? ==>
      exists i :: 0 <= i < |es| && es[i] == Moved(es, key, lsn).value && es[i].key == key && es[i].lsn == lsn
    ensures Moved(es, key, lsn).None? ==> forall i :: 0 <= i < |es| ==> !(es[i].key == key && es[i].lsn == lsn)
  {
    if |es| > 0 {
      var before := es[..|es| - 1];
      MovedAt(before, key, lsn);
      assert forall i :: 0 <= i < |before| ==> es[i] == before[i];
    }
  }

  // ----- every record keeps the layout sound

  lemma {:induction false} PutSound(s: Live, e: Entry)
    requires Sound(s) && Allowed(s, e) && e.rec.Put?
    ensures Sound(After(s, e))
  {
  }

  lemma {:induction false} SealSound(s: Live, e: Entry)
    requires Sound(s) && Allowed(s, e) && e.rec.SegmentSeal?
    ensures Sound(After(s, e))
  {
  }

  lemma {:induction false} SwapRecordSound(s: Live, e: Entry)
    requires Sound(s) && Allowed(s, e) && (e.rec.SegmentSwap? || e.rec.SegmentRemap? || e.rec.AggDelta?)
    ensures Sound(After(s, e))
  {
  }

  lemma {:induction false} CommitSound(s: Live, e: Entry)
    requires Sound(s) && Allowed(s, e) && e.rec.Commit?
    ensures Sound(After(s, e))
  {
    if s.pend.Some? {
      var p := s.pend.value;
      SwapSound(s, p);
    }
  }

  lemma {:induction false} SwapIndexIn(s: Live, p: Pending)
    requires Sound(s) && s.pend == Some(p) && Covers(s.r, p)
    ensures IndexIn(SwapOn(s.r, p.from, p.to, p.entries))
  {
    var es, r' := p.entries, SwapOn(s.r, p.from, p.to, p.entries);
    EntriesFacts(s.r, p.from, es);
    MoveLocsAt(s.r.locs, es, p.to);
    forall k | k in r'.index
      ensures r'.index[k].lsn in r'.locs && r'.index[k].seg in LiveSegs(r')
      ensures r'.locs[r'.index[k].lsn] == PutLoc(k, r'.index[k].seg, r'.index[k].off, r'.index[k].len)
    {
      MovedAt(es, k, s.r.index[k].lsn);
    }
  }

  lemma {:induction false} SwapLocsIn(s: Live, p: Pending)
    requires Sound(s) && s.pend == Some(p)
    ensures LocsIn(SwapOn(s.r, p.from, p.to, p.entries))
    ensures forall l :: l in SwapOn(s.r, p.from, p.to, p.entries).locs ==>
      l <= s.lastLsn && SwapOn(s.r, p.from, p.to, p.entries).locs[l].seg in SwapOn(s.r, p.from, p.to, p.entries).lens
  {
    EntriesFacts(s.r, p.from, p.entries);
    MoveLocsAt(s.r.locs, p.entries, p.to);
    var r' := SwapOn(s.r, p.from, p.to, p.entries);
    forall l | l in r'.locs
      ensures l <= s.lastLsn && r'.locs[l].seg in r'.lens
      ensures r'.locs[l].seg in LiveSegs(r') ==> r'.locs[l].off + r'.locs[l].len <= r'.lens[r'.locs[l].seg]
    {
      if i :| 0 <= i < |p.entries| && p.entries[i].lsn == l {
      } else {
        assert r'.locs[l] == s.r.locs[l];
      }
    }
  }

  lemma {:induction false} SwapSound(s: Live, p: Pending)
    requires Sound(s) && s.pend == Some(p) && Covers(s.r, p)
    ensures Sound(s.(r := SwapOn(s.r, p.from, p.to, p.entries), pend := None))
  {
    SwapIndexIn(s, p);
    SwapLocsIn(s, p);
    hide IndexIn, LocsIn, MoveIndex, MoveLocs, EntriesFit;
  }

  lemma {:induction false} AfterSound(s: Live, e: Entry)
    requires Sound(s) && Allowed(s, e)
    ensures Sound(After(s, e))
  {
    hide Sound, After;
    match e.rec
    case Put(_, _, _) => PutSound(s, e);
    case SegmentSeal(_, _) => SealSound(s, e);
    case Commit(_) => CommitSound(s, e);
    case SegmentSwap(_, _) => SwapRecordSound(s, e);
    case SegmentRemap(_, _) => SwapRecordSound(s, e);
    case AggDelta(_) => SwapRecordSound(s, e);
  }

  lemma {:induction false} OnSound(log: seq<Entry>)
    requires Legal(log)
    ensures Sound(On(log))
  {
    hide Sound, After, Allowed;
    if |log| == 0 {
      assert Sound(START) by { StartSound(); }
    } else {
      var n := |log| - 1;
      LegalPrefix(log, n);
      OnSound(log[..n]);
      AfterSound(On(log[..n]), log[n]);
    }
  }

  lemma {:induction false} StartSound()
    ensures Sound(START)
  {
  }

  // ----- what the records of a compaction mean

  lemma {:induction false} SwapLog(s: Live, e: Entry)
    requires Sound(s) && Allowed(s, e) && e.rec.SegmentSwap?
    ensures var from, to := e.rec.oldSegmentId, e.rec.newSegmentId;
      && from != s.r.active && to != s.r.active && from < s.bound && to !in s.r.lens && to !in LiveSegs(s.r) &&
           to >= s.bound
      && s.pend.None?
      && After(s, e) == Live(s.r, Some(Pending(from, to, [])), e.lsn, to + 1)
  {
    hide IndexIn, LocsIn, EntriesFit;
  }

  lemma {:induction false} RemapLog(s: Live, e: Entry)
    requires Sound(s) && Allowed(s, e) && e.rec.SegmentRemap?
    ensures s.pend.Some? && e.rec.targetId == s.pend.value.to && e.lsn > s.lastLsn
    ensures EntriesFit(s.r, s.pend.value.from, s.pend.value.entries + e.rec.entries, 0)
    ensures After(s, e) == s.(lastLsn := e.lsn,
      pend := Some(s.pend.value.(entries := s.pend.value.entries + e.rec.entries)))
    ensures forall i :: 0 <= i < |s.pend.value.entries + e.rec.entries| ==>
      (s.pend.value.entries + e.rec.entries)[i].lsn <= s.lastLsn
  {
    hide IndexIn, LocsIn, EntriesFit;
    EntriesFacts(s.r, s.pend.value.from, s.pend.value.entries + e.rec.entries);
  }
}
