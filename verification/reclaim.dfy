/** What a compaction gains: exactly the dead puts at or below the horizon go, and the new file has the rest. */
module Reclaiming {
  import opened Bytes
  import opened Records
  import opened LogModel
  import opened Leader
  import RecordCodec
  import Packing
  import StoreObject

  // ----- bytes of a set of puts

  ghost function Weight(locs: map<nat, PutLoc>, ls: set<nat>): nat
    requires ls <= locs.Keys
    decreases ls
  {
    if ls == {} then 0
    else
      var l := Any(ls);
      locs[l].len + Weight(locs, ls - {l})
  }

  ghost function Any(ls: set<nat>): (l: nat)
    requires ls != {}
    ensures l in ls
  {
    var l :| l in ls;
    l
  }

  lemma {:induction false} WeightOf(locs: map<nat, PutLoc>, ls: set<nat>, l: nat)
    requires ls <= locs.Keys && l in ls
    ensures Weight(locs, ls) == locs[l].len + Weight(locs, ls - {l})
    decreases ls
  {
    var a := Any(ls);
    if a != l {
      WeightOf(locs, ls - {a}, l);
      WeightOf(locs, ls - {l}, a);
      assert ls - {a} - {l} == ls - {l} - {a};
    }
  }

  lemma {:induction false} WeightSplit(locs: map<nat, PutLoc>, all: set<nat>, part: set<nat>)
    requires part <= all <= locs.Keys
    ensures Weight(locs, all) == Weight(locs, part) + Weight(locs, all - part)
    decreases part
  {
    if part == {} {
      assert all - part == all;
    } else {
      var l := Any(part);
      WeightSplit(locs, all - {l}, part - {l});
      WeightOf(locs, all, l);
      assert all - {l} - (part - {l}) == all - part;
    }
  }

  lemma {:induction false} WeightPositive(locs: map<nat, PutLoc>, ls: set<nat>)
    requires ls <= locs.Keys
    ensures Weight(locs, ls) > 0 <==> exists l :: l in ls && locs[l].len > 0
    decreases ls
  {
    if ls != {} {
      var a := Any(ls);
      WeightPositive(locs, ls - {a});
      if l :| l in ls && locs[l].len > 0 {
        if l != a { assert l in ls - {a}; }
      }
    }
  }

  // ----- which puts a compaction keeps

  ghost function PutsIn(m: Memory, from: nat): set<nat> {
    set l | l in m.locs && m.locs[l].seg == from
  }

  /** No key has this put of the segment as its current one, and no follower still needs it. */
  ghost function DeadIn(m: Memory, from: nat, horizon: nat): set<nat> {
    set l | l in m.locs && m.locs[l].seg == from && l <= horizon &&
      !exists k :: k in m.index && m.index[k].seg == from && m.index[k].lsn == l
  }

  lemma {:induction false} TotalIsWeight(locs: map<nat, PutLoc>, es: seq<RemapEntry>)
    requires DistinctLsns(es) && forall i :: 0 <= i < |es| ==> es[i].lsn in locs && locs[es[i].lsn].len == es[i].len
    ensures EntryLsns(es) <= locs.Keys && Total(es) == Weight(locs, EntryLsns(es))
  {
    if |es| > 0 {
      var n := |es| - 1;
      var before := es[..n];
      assert DistinctLsns(before);
      TotalIsWeight(locs, before);
      assert EntryLsns(es) - {es[n].lsn} == EntryLsns(before) by { LastApart(es); }
      assert es[n].lsn in EntryLsns(es);
      WeightOf(locs, EntryLsns(es), es[n].lsn);
    }
  }

  lemma {:induction false} LastApart(es: seq<RemapEntry>)
    requires |es| > 0 && DistinctLsns(es)
    ensures EntryLsns(es) - {es[|es| - 1].lsn} == EntryLsns(es[..|es| - 1])
  {
    var n := |es| - 1;
    forall x ensures x in EntryLsns(es) - {es[n].lsn} <==> x in EntryLsns(es[..n]) {
      if x in EntryLsns(es) - {es[n].lsn} {
        var i :| 0 <= i < |es| && es[i].lsn == x;
        assert es[..n][i].lsn == x;
      }
      if x in EntryLsns(es[..n]) {
        var i :| 0 <= i < n && es[..n][i].lsn == x;
        assert es[i].lsn == x;
      }
    }
  }

  /** The plan of a compaction keeps every put of the segment but the dead ones. */
  lemma {:induction false} PlanKeepsRest(m: Memory, from: nat, horizon: nat, es: seq<RemapEntry>)
    requires PlanFor(m, from, horizon, es)
    ensures EntryLsns(es) == PutsIn(m, from) - DeadIn(m, from, horizon)
  {
    forall l ensures l in EntryLsns(es) <==> l in PutsIn(m, from) - DeadIn(m, from, horizon) {
      if l in EntryLsns(es) {
        var i :| 0 <= i < |es| && es[i].lsn == l;
        assert Kept(m, from, horizon, l);
      }
      if l in PutsIn(m, from) - DeadIn(m, from, horizon) {
        assert Kept(m, from, horizon, l);
        var i :| 0 <= i < |es| && es[i].lsn == l;
      }
    }
  }

  /** A segment is worth rewriting exactly if its dead puts have bytes. */
  lemma {:induction false} ReclaimsExactly(m: Memory, id: nat, horizon: nat)
    ensures StoreObject.Reclaims(m.index, m.locs, id, horizon) <==> Weight(m.locs, DeadIn(m, id, horizon)) > 0
  {
    WeightPositive(m.locs, DeadIn(m, id, horizon));
    hide Weight;
    forall l | l in m.locs ensures StoreObject.Dead(m.index, m.locs, id, horizon, l) <==> l in DeadIn(m, id, horizon) {}
    hide StoreObject.Dead, DeadIn;
  }

  lemma {:induction false} MovedKeys(locs: map<nat, PutLoc>, es: seq<RemapEntry>, to: nat)
    requires EntryLsns(es) <= locs.Keys
    ensures MoveLocs(locs, es, to).Keys == locs.Keys
  {
    if |es| > 0 {
      var n := |es| - 1;
      assert es[n].lsn in EntryLsns(es);
      forall l | l in EntryLsns(es[..n]) ensures l in EntryLsns(es) {
        var i :| 0 <= i < n && es[..n][i].lsn == l;
        assert es[i].lsn == l;
      }
      MovedKeys(locs, es[..n], to);
    }
  }

  /** The files and locations after staging, committing and finishing a compaction. */
  lemma {:induction false} CompactedFields(s: Store, from: nat, horizon: nat, chunks: seq<seq<RemapEntry>>, lsn: u64)
    requires Packing.Can(s, Packing.CompactAt(from, horizon, chunks, lsn)) && s.nextFree !in s.files
    ensures var t := Packing.Did(s, Packing.CompactAt(from, horizon, chunks, lsn), 0);
      var es, to := RecordCodec.Flatten(chunks), s.nextFree;
      && t.files.Keys == s.files.Keys - {from} + {to}
      && t.files[to].content == Copied(s.files[from].content, s.mem.locs, es)
      && (forall id :: id in s.files && id != from ==> t.files[id].content == s.files[id].content)
      && t.mem.locs == MoveLocs(s.mem.locs, es, to) - Reclaimed(s.mem, Pending(from, to, es))
  {
    hide PlanFor, Copied, RemapRecords, MoveLocs, MoveIndex, Reclaimed, SwapOn, RecordCodec.Flatten;
  }

  /** A whole compaction, exactly: the old file is gone and every other is as it was; the new one has the bytes
      of all puts of the segment but the dead ones, which are forgotten; and what it is shorter by is what they
      had. */
  lemma {:induction false} CompactionReclaims(s: Store, from: nat, horizon: nat, chunks: seq<seq<RemapEntry>>, lsn: u64)
    requires Inv(s) && Packing.Can(s, Packing.CompactAt(from, horizon, chunks, lsn))
    ensures var t := Packing.Did(s, Packing.CompactAt(from, horizon, chunks, lsn), 0);
      var to, all, dead := s.nextFree, PutsIn(s.mem, from), DeadIn(s.mem, from, horizon);
      && to !in s.files && t.files.Keys == s.files.Keys - {from} + {to}
      && (forall id :: id in s.files && id != from ==> t.files[id].content == s.files[id].content)
      && t.mem.locs.Keys == s.mem.locs.Keys - dead
      && |t.files[to].content| + Weight(s.mem.locs, dead) == Weight(s.mem.locs, all)
  {
    var es, to, dead := RecordCodec.Flatten(chunks), s.nextFree, DeadIn(s.mem, from, horizon);
    assert PlanFor(s.mem, from, horizon, es);
    FreshId(s);
    hide Inv, Copied, MoveLocs, Reclaimed, Weight, RecordCodec.Flatten, Packing.Did, SourcesIn;
    CompactedFields(s, from, horizon, chunks, lsn);
    PlanKeepsRest(s.mem, from, horizon, es);
    PlanFacts(s.mem, from, horizon, es);
    SourcesFit(s, from, es);
    CopiedLength(s.files[from].content, s.mem.locs, es);
    TotalIsWeight(s.mem.locs, es);
    WeightSplit(s.mem.locs, PutsIn(s.mem, from), dead);
    MovedKeys(s.mem.locs, es, to);
    ReclaimedIsDead(s.mem, from, to, horizon, es);
  }

  lemma {:induction false} ReclaimedIsDead(m: Memory, from: nat, to: nat, horizon: nat, es: seq<RemapEntry>)
    requires EntryLsns(es) == PutsIn(m, from) - DeadIn(m, from, horizon)
    ensures Reclaimed(m, Pending(from, to, es)) == DeadIn(m, from, horizon)
  {
  }

  lemma {:induction false} PlanFacts(m: Memory, from: nat, horizon: nat, es: seq<RemapEntry>)
    requires PlanFor(m, from, horizon, es)
    ensures DistinctLsns(es) && forall i :: 0 <= i < |es| ==> es[i].lsn in m.locs && m.locs[es[i].lsn].len == es[i].len
  {
    hide Total;
    forall i | 0 <= i < |es| ensures es[i].lsn in m.locs && m.locs[es[i].lsn].len == es[i].len {
      assert Kept(m, from, horizon, es[i].lsn);
    }
  }

  lemma {:induction false} SourcesFit(s: Store, from: nat, es: seq<RemapEntry>)
    requires SourcesIn(s, from, es)
    ensures from in s.files
    ensures forall i :: 0 <= i < |es| ==>
      es[i].lsn in s.mem.locs && s.mem.locs[es[i].lsn].off + es[i].len <= |s.files[from].content|
  {
  }

  lemma {:induction false} FreshId(s: Store)
    requires Inv(s)
    ensures s.nextFree !in s.files
  {
    hide LogInv, ViewInv, Hosted, Backed;
  }
}
