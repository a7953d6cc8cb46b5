/** The segment store as it runs: one object whose maps, counters and files are updated in place. */
module SegmentStore {
  import opened Records
  import opened Wal
  import opened LogModel
  import opened Disk
  import opened CrashSafety
  import Recovery
  import Rollups

  // ----- lists of segment ids

  function SetOf(ids: seq<nat>): (s: set<nat>)
    ensures forall id :: id in s <==> id in ids
  {
    set id | id in ids
  }

  function Without(ids: seq<nat>, id: nat): seq<nat> {
    if |ids| == 0 then []
    else
      var rest, last := Without(ids[..|ids| - 1], id), ids[|ids| - 1];
      if last == id then rest else rest + [last]
  }

  lemma {:induction false} WithoutMembers(ids: seq<nat>, id: nat, x: nat)
    ensures x in Without(ids, id) <==> x in ids && x != id
  {
    if |ids| > 0 {
      WithoutMembers(ids[..|ids| - 1], id, x);
      assert x in ids <==> x in ids[..|ids| - 1] || x == ids[|ids| - 1];
    }
  }

  lemma {:induction false} WithoutSet(ids: seq<nat>, id: nat, added: nat)
    ensures SetOf(Without(ids, id) + [added]) == SetOf(ids) - {id} + {added}
  {
    hide Without;
    forall x ensures x in SetOf(Without(ids, id) + [added]) <==> x in SetOf(ids) - {id} + {added} {
      WithoutMembers(ids, id, x);
    }
  }

  lemma {:induction false} PushSet(ids: seq<nat>, id: nat)
    ensures SetOf(ids + [id]) == SetOf(ids) + {id}
  {
  }

  /** The ids other than one, in order. */
  method Retain(ids: seq<nat>, id: nat) returns (kept: seq<nat>)
    ensures kept == Without(ids, id)
  {
    kept := [];
    var i := 0;
    while i < |ids|
      invariant i <= |ids| && kept == Without(ids[..i], id)
    {
      assert ids[..i + 1][..i] == ids[..i];
      if ids[i] != id { kept := kept + [ids[i]]; }
      i := i + 1;
    }
    assert ids[..i] == ids;
  }

  // ----- repointing memory at a replacement segment

  lemma {:induction false} MoveLocLsn(es: seq<RemapEntry>, key: Text, loc: Loc, to: nat)
    ensures MoveLoc(es, key, loc, to).lsn == loc.lsn
  {
    MovedAt(es, key, loc.lsn);
  }

  lemma {:induction false} MoveOne(index: map<Text, Loc>, es: seq<RemapEntry>, to: nat, i: nat)
    requires i < |es|
    ensures var e, before := es[i], MoveIndex(index, es[..i], to);
      MoveIndex(index, es[..i + 1], to) ==
        if e.key in before && before[e.key].lsn == e.lsn
          then before[e.key := Loc(to, e.offset, e.len, e.lsn)] else before
  {
    var e := es[i];
    assert es[..i + 1][..i] == es[..i];
    forall k | k in index ensures MoveLoc(es[..i], k, index[k], to).lsn == index[k].lsn {
      MoveLocLsn(es[..i], k, index[k], to);
    }
  }

  /** The loop that compactions, follower swaps and recovery share: entry by entry, the key is repointed if
      its current put is the one that moved, and the put's location is replaced. */
  method Repoint(index: map<Text, Loc>, locs: map<nat, PutLoc>, es: seq<RemapEntry>, to: nat)
      returns (index': map<Text, Loc>, locs': map<nat, PutLoc>, extent: nat)
    ensures index' == MoveIndex(index, es, to) && locs' == MoveLocs(locs, es, to) && extent == Extent(es)
  {
    index', locs', extent := index, locs, 0;
    var i := 0;
    MoveNone(index, locs, es, to);
    while i < |es|
      invariant i <= |es|
      invariant index' == MoveIndex(index, es[..i], to) && locs' == MoveLocs(locs, es[..i], to)
      invariant extent == Extent(es[..i])
    {
      hide MoveIndex;
      var e := es[i];
      MoveOne(index, es, to, i);
      assert es[..i + 1][..i] == es[..i];
      if e.key in index' && index'[e.key].lsn == e.lsn {
        index' := index'[e.key := Loc(to, e.offset, e.len, e.lsn)];
      }
      locs' := locs'[e.lsn := PutLoc(e.key, to, e.offset, e.len)];
      if e.offset + e.len > extent { extent := e.offset + e.len; }
      i := i + 1;
    }
    assert es[..i] == es;
  }

  lemma {:induction false} MoveNone(index: map<Text, Loc>, locs: map<nat, PutLoc>, es: seq<RemapEntry>, to: nat)
    ensures MoveIndex(index, es[..0], to) == index && MoveLocs(locs, es[..0], to) == locs && Extent(es[..0]) == 0
  {
    forall k | k in index ensures MoveLoc(es[..0], k, index[k], to) == index[k] {}
  }

  // ----- replaying the log

  /** The list has the segments the compactions replaced. */
  ghost predicate Replaces(g: Recovery.Gathered, replaced: seq<nat>) {
    forall id :: id in replaced <==> exists k :: 0 <= k < |g.swaps| && g.swaps[k].0 == id
  }

  /** What one pass over the log collects, in the lists and maps recovery keeps. */
  class Replay {
    var index: map<Text, Loc>
    var locs: map<nat, PutLoc>
    var active: nat
    var off: nat
    var sealed: seq<nat>
    var lens: map<nat, nat>
    var swaps: seq<(nat, nat)>
    var remaps: map<nat, seq<RemapEntry>>
    var tally: Rollups.Tally
    var lastCommit: nat

    function Base(): Layout
      reads this
    {
      Layout(index, locs, active, off, SetOf(sealed), lens)
    }

    function Gathered(): Recovery.Gathered
      reads this
    {
      Recovery.Gathered(Base(), swaps, remaps)
    }

    constructor ()
      ensures Gathered() == Recovery.NOTHING && tally == Rollups.NOTHING && lastCommit == 0
    {
      index, locs, active, off, sealed, lens := map[], map[], 0, 0, [], map[];
      swaps, remaps, tally, lastCommit := [], map[], Rollups.NOTHING, 0;
    }

    /** One record of the log. */
    method Take(e: Entry)
      modifies this
      ensures Gathered() == Recovery.GatherEntry(old(Gathered()), e)
      ensures tally == if e.rec.Put? then Rollups.Recorded(old(tally), e.rec.key, e.rec.len) else old(tally)
      ensures lastCommit == if e.rec.Commit? && e.lsn > old(lastCommit) then e.lsn else old(lastCommit)
    {
      hide SetOf, Rollups.Recorded;
      match e.rec
      case Put(key, len, _) =>
        index := index[key := Loc(active, off, len, e.lsn)];
        locs := locs[e.lsn := PutLoc(key, active, off, len)];
        tally := Rollups.Recorded(tally, key, len);
        off := off + len;
        lens := lens[active := off];
      case SegmentSeal(id, next) =>
        lens := lens[id := off];
        PushSet(sealed, id);
        sealed := sealed + [id];
        active, off := next, 0;
      case SegmentSwap(from, to) => swaps := swaps + [(from, to)];
      case SegmentRemap(to, es) =>
        var before := if to in remaps then remaps[to] else [];
        remaps := remaps[to := before + es];
      case Commit(_) => if e.lsn > lastCommit { lastCommit := e.lsn; }
      case AggDelta(_) =>
    }

    /** All records of the log, then all compactions in order: the layout, and the segments they replaced. */
    method Run(log: seq<Entry>) returns (replaced: seq<nat>)
      requires Gathered() == Recovery.NOTHING && tally == Rollups.NOTHING
      modifies this
      ensures Base() == Recovery.Recovered(log) && tally == Rollups.RollupOf(log)
      ensures Replaces(Recovery.Gather(log), replaced)
    {
      hide Recovery.GatherEntry, Rollups.Recorded, SwapOn, SetOf;
      var i := 0;
      while i < |log|
        invariant i <= |log| && Gathered() == Recovery.Gather(log[..i]) && tally == Rollups.RollupOf(log[..i])
      {
        Take(log[i]);
        assert log[..i + 1][..i] == log[..i];
        i := i + 1;
      }
      assert log[..i] == log;
      ghost var g := Recovery.Gather(log);
      if active !in lens { lens := lens[active := off]; }
      replaced := Compact(g);
    }

    /** One compaction: memory is repointed, and the new segment takes the old one's place. */
    method CompactOne(from: nat, to: nat, es: seq<RemapEntry>)
      modifies this
      ensures Base() == SwapOn(old(Base()), from, to, es)
      ensures swaps == old(swaps) && remaps == old(remaps) && tally == old(tally)
    {
      hide MoveIndex, MoveLocs, Extent, SetOf, Without;
      var extent;
      index, locs, extent := Repoint(index, locs, es, to);
      lens := lens[to := extent][from := 0];
      WithoutSet(sealed, from, to);
      sealed := Retain(sealed, from);
      sealed := sealed + [to];
    }

    method Compact(ghost g: Recovery.Gathered) returns (replaced: seq<nat>)
      requires Base() == Recovery.Finish(g.base) && swaps == g.swaps && remaps == g.remaps
      modifies this
      ensures Base() == Recovery.Applied(g, |g.swaps|) && tally == old(tally)
      ensures Replaces(g, replaced)
    {
      hide SwapOn, SetOf, Recovery.Finish, Base;
      replaced := [];
      var n := 0;
      while n < |swaps|
        invariant n <= |swaps| && swaps == g.swaps && remaps == g.remaps && tally == old(tally)
        invariant Base() == Recovery.Applied(g, n)
        invariant forall id :: id in replaced <==> exists k :: 0 <= k < n && g.swaps[k].0 == id
      {
        var (from, to) := swaps[n];
        CompactOne(from, to, if to in remaps then remaps[to] else []);
        replaced := replaced + [from];
        n := n + 1;
      }
    }
  }

  // ----- repairing the files

  /** Each existing file cut to its target length. */
  ghost predicate CutTo(image: Files, fs: Files, r: Layout, done: set<nat>) {
    && fs.Keys == image.Keys
    && forall id :: id in image ==> fs[id] == if id in done then Cut(image[id], Target(r, id)) else image[id]
  }

  lemma {:induction false} CutOne(image: Files, fs: Files, r: Layout, done: set<nat>, id: nat)
    requires CutTo(image, fs, r, done) && id in image && id !in done
    ensures fs[id] == image[id] && CutTo(image, fs[id := Cut(fs[id], Target(r, id))], r, done + {id})
  {
    hide Cut, Target;
  }

  method AllPresent(image: Files, r: Layout) returns (ok: bool)
    ensures ok <==> forall id :: id in r.lens && r.lens[id] > 0 ==> id in image
  {
    var todo := r.lens.Keys;
    while todo != {}
      invariant todo <= r.lens.Keys
      invariant forall id :: id in r.lens && id !in todo && r.lens[id] > 0 ==> id in image
      decreases |todo|
    {
      var id :| id in todo;
      if r.lens[id] > 0 && id !in image { return false; }
      todo := todo - {id};
    }
    ok := true;
  }

  /** File by file, in no particular order; the first one that is too short ends it. */
  method CutAll(image: Files, r: Layout) returns (ok: bool, fs: Files)
    ensures ok <==> forall id :: id in image ==> Target(r, id) <= |image[id].content|
    ensures ok ==> CutTo(image, fs, r, image.Keys)
    ensures !ok ==> exists done :: CutTo(image, fs, r, done)
  {
    hide Cut, Target, CutTo;
    fs := image;
    var todo := image.Keys;
    ghost var done: set<nat> := {};
    CutNone(image, r);
    while todo != {}
      invariant todo <= image.Keys && done == image.Keys - todo && CutTo(image, fs, r, done) && fs.Keys == image.Keys
      invariant forall id :: id in done ==> Target(r, id) <= |image[id].content|
      decreases |todo|
    {
      var id :| id in todo;
      CutOne(image, fs, r, done, id);
      if |fs[id].content| < Target(r, id) { return false, fs; }
      fs := fs[id := Cut(fs[id], Target(r, id))];
      todo := todo - {id};
      done := done + {id};
    }
    ok := true;
    assert done == image.Keys;
  }

  lemma {:induction false} CutNone(image: Files, r: Layout)
    ensures CutTo(image, image, r, {})
  {
  }

  /** Recovery fails exactly on a disk that lacks a segment the log needs, or has too little of it. */
  method CutFiles(image: Files, r: Layout) returns (ok: bool, fs: Files)
    ensures ok <==> Recoverable(image, r)
    ensures ok ==> CutTo(image, fs, r, image.Keys)
    ensures !ok ==> exists done :: CutTo(image, fs, r, done)
  {
    hide CutTo;
    var present := AllPresent(image, r);
    if !present {
      CutNone(image, r);
      return false, image;
    }
    ok, fs := CutAll(image, r);
  }

  /** Replaced segments are deleted. */
  method DeleteReplaced(cut: Files, replaced: seq<nat>) returns (fs: Files)
    ensures fs == cut - SetOf(replaced)
  {
    fs := cut;
    var i := 0;
    while i < |replaced|
      invariant i <= |replaced| && fs == cut - SetOf(replaced[..i])
    {
      hide SetOf;
      assert replaced[..i + 1] == replaced[..i] + [replaced[i]];
      PushSet(replaced[..i], replaced[i]);
      fs := fs - {replaced[i]};
      i := i + 1;
    }
    assert replaced[..i] == replaced;
  }

  function OpenedAll(fs: Files, ids: set<nat>): Files {
    map id | id in fs.Keys + ids :: if id in fs then fs[id] else File([], 0)
  }

  lemma {:induction false} OpenNone(kept: Files)
    ensures OpenedAll(kept, {}) == kept
  {
  }

  lemma {:induction false} OpenOne(kept: Files, done: set<nat>, id: nat)
    ensures var fs := OpenedAll(kept, done);
      OpenedAll(kept, done + {id}) == if id in fs then fs else fs[id := File([], 0)]
  {
  }

  /** Every segment of the log is opened, empty if it was not there. */
  method OpenSegments(kept: Files, ids: set<nat>) returns (fs: Files)
    ensures fs == OpenedAll(kept, ids)
  {
    hide OpenedAll;
    fs := kept;
    var todo := ids;
    ghost var done: set<nat> := {};
    OpenNone(kept);
    while todo != {}
      invariant todo <= ids && done == ids - todo && fs == OpenedAll(kept, done)
      decreases |todo|
    {
      var id :| id in todo;
      OpenOne(kept, done, id);
      if id !in fs { fs := fs[id := File([], 0)]; }
      todo := todo - {id};
      done := done + {id};
    }
    assert done == ids;
  }

  /** The files after a recovery: every file is cut to the length the log gives it, the replaced ones are removed,
      and then every segment the log names is there. */
  function Rebuilt(image: Files, r: Layout, replaced: set<nat>): Files {
    map id | id in image.Keys - replaced + r.lens.Keys ::
      if id in image && id !in replaced then Cut(image[id], Target(r, id)) else File([], 0)
  }

  lemma {:induction false} OpenedIsRebuilt(image: Files, cut: Files, r: Layout, replaced: set<nat>)
    requires CutTo(image, cut, r, image.Keys)
    ensures OpenedAll(cut - replaced, r.lens.Keys) == Rebuilt(image, r, replaced)
  {
    hide Cut, Target;
    var a, b := OpenedAll(cut - replaced, r.lens.Keys), Rebuilt(image, r, replaced);
    assert a.Keys == b.Keys;
    forall id | id in b ensures id in a && a[id] == b[id] {}
  }

  /** If only segments that hold nothing current are replaced, every file of a current segment stays. */
  lemma {:induction false} RebuiltIsRepaired(image: Files, r: Layout, replaced: set<nat>)
    requires forall id :: id in replaced ==> id in r.lens && id !in LiveSegs(r)
    requires forall id :: id in r.lens && id !in LiveSegs(r) ==> r.lens[id] == 0
    ensures Rebuilt(image, r, replaced) == Repaired(image, r)
  {
    hide LiveSegs;
    var a, b := Rebuilt(image, r, replaced), Repaired(image, r);
    assert a.Keys == b.Keys;
    forall id | id in b ensures id in a && a[id] == b[id] {}
  }

  /** After a recovery every file has the length the log gives it, and begins as it did; a replaced segment and
      a file that the log does not know are empty. */
  lemma {:induction false} RebuiltLengths(image: Files, r: Layout, replaced: set<nat>, id: nat)
    requires Recoverable(image, r) && id in Rebuilt(image, r, replaced)
    ensures id in image || id in r.lens
    ensures var c := Rebuilt(image, r, replaced)[id].content;
      && |c| == (if id in replaced || id !in r.lens then 0 else r.lens[id])
      && (id in image ==> c <= image[id].content)
  {
  }

  /** Brings the files to the layout of the log, or fails and says so. */
  method RepairFiles(image: Files, r: Layout, replaced: seq<nat>) returns (ok: bool, fs: Files)
    ensures ok <==> Recoverable(image, r)
    ensures ok ==> fs == Rebuilt(image, r, SetOf(replaced))
  {
    hide Recoverable, Rebuilt, CutTo, OpenedAll;
    ok, fs := CutFiles(image, r);
    if !ok { return; }
    OpenedIsRebuilt(image, fs, r, SetOf(replaced));
    fs := DeleteReplaced(fs, replaced);
    fs := OpenSegments(fs, r.lens.Keys);
  }

  /** One more than the largest id in the log or on disk. */
  method FirstFreeId(r: Layout, image: Files) returns (next: nat)
    requires r.active in r.lens
    ensures FirstFree(r, image, next)
    ensures next > 0 && (next - 1 in r.lens || next - 1 in image)
    ensures forall id :: id in r.lens || id in image ==> id < next
  {
    var top := r.active;
    var todo := r.lens.Keys + image.Keys;
    while todo != {}
      invariant todo <= r.lens.Keys + image.Keys && (top in r.lens || top in image)
      invariant forall id :: (id in r.lens || id in image) && id !in todo ==> id <= top
      decreases |todo|
    {
      var id :| id in todo;
      if id > top { top := id; }
      todo := todo - {id};
    }
    next := top + 1;
    assert top in r.lens || top in image;
  }
}
