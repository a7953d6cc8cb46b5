/** Per-prefix counters: every put of a key updates the counters of all its proper prefixes. */
module Rollups {
  import opened Bytes
  import opened Records
  import opened Wal
  import opened LogModel
  import RecordCodec

  const SLASH: byte := 0x2F
  const M := 0x1_0000_0000_0000_0000

  // ----- paths

  /** The text between slashes. */
  function Split(s: Text): (ps: seq<Text>)
    ensures |ps| > 0
  {
    if |s| == 0 then [[]]
    else
      var ps, c := Split(s[..|s| - 1]), s[|s| - 1];
      if c == SLASH then ps + [[]] else ps[..|ps| - 1] + [ps[|ps| - 1] + [c]]
  }

  function NonEmpty(ps: seq<Text>): seq<Text> {
    if |ps| == 0 then []
    else
      var rest, p := NonEmpty(ps[..|ps| - 1]), ps[|ps| - 1];
      if |p| == 0 then rest else rest + [p]
  }

  /** The components of a path; empty ones do not count. */
  function Parts(s: Text): seq<Text> {
    NonEmpty(Split(s))
  }

  function Join(ps: seq<Text>): Text {
    if |ps| == 0 then []
    else if |ps| == 1 then ps[0]
    else Join(ps[..|ps| - 1]) + [SLASH] + ps[|ps| - 1]
  }

  ghost predicate Component(p: Text) {
    |p| > 0 && SLASH !in p
  }

  ghost predicate Components(ps: seq<Text>) {
    forall i :: 0 <= i < |ps| ==> Component(ps[i])
  }

  /** A prefix is in the form in which counters are kept. */
  predicate Canonical(p: Text) {
    p == Join(Parts(p))
  }

  /** The root, and every proper prefix of the path. */
  function Prefixes(ps: seq<Text>): seq<Text> {
    seq(if |ps| == 0 then 1 else |ps|, i requires 0 <= i <= |ps| => Join(ps[..i]))
  }

  lemma {:induction false} SplitSlashFree(s: Text)
    ensures forall i :: 0 <= i < |Split(s)| ==> SLASH !in Split(s)[i]
  {
    if |s| > 0 { SplitSlashFree(s[..|s| - 1]); }
  }

  lemma {:induction false} NonEmptyComponents(ps: seq<Text>)
    requires forall i :: 0 <= i < |ps| ==> SLASH !in ps[i]
    ensures Components(NonEmpty(ps))
  {
    if |ps| > 0 { NonEmptyComponents(ps[..|ps| - 1]); }
  }

  lemma {:induction false} PartsAreComponents(s: Text)
    ensures Components(Parts(s))
  {
    hide Split, NonEmpty, Components;
    SplitSlashFree(s);
    NonEmptyComponents(Split(s));
  }

  lemma {:induction false} SplitAppend(s: Text, p: Text)
    requires SLASH !in p
    ensures var ps := Split(s); Split(s + p) == ps[..|ps| - 1] + [ps[|ps| - 1] + p]
    decreases |p|
  {
    if |p| == 0 {
      assert s + p == s;
      var ps := Split(s);
      assert ps[|ps| - 1] + p == ps[|ps| - 1];
    } else {
      var n := |p| - 1;
      assert (s + p)[..|s + p| - 1] == s + p[..n];
      SplitAppend(s, p[..n]);
      assert p[n] in p;
      var ps := Split(s);
      assert ps[|ps| - 1] + p == ps[|ps| - 1] + p[..n] + [p[n]];
    }
  }

  lemma {:induction false} SplitSlash(s: Text)
    ensures Split(s + [SLASH]) == Split(s) + [[]]
  {
    assert (s + [SLASH])[..|s|] == s;
  }

  lemma {:induction false} SplitJoin(ps: seq<Text>)
    requires Components(ps)
    ensures Split(Join(ps)) == if |ps| == 0 then [[]] else ps
  {
    hide Split;
    var n := |ps| - 1;
    if |ps| == 0 {
      assert Split([]) == [[]] by { SplitNothing(); }
    } else if n == 0 {
      SplitNothing();
      SplitAppend([], ps[0]);
      assert [] + ps[0] == ps[0];
    } else {
      SplitJoin(ps[..n]);
      SplitSlash(Join(ps[..n]));
      SplitAppend(Join(ps[..n]) + [SLASH], ps[n]);
      assert [] + ps[n] == ps[n];
      assert ps[..n] + [ps[n]] == ps;
    }
  }

  lemma {:induction false} SplitNothing()
    ensures Split([]) == [[]]
  {
  }

  lemma {:induction false} NonEmptyAll(ps: seq<Text>)
    requires Components(ps)
    ensures NonEmpty(ps) == ps
  {
    if |ps| > 0 {
      NonEmptyAll(ps[..|ps| - 1]);
      assert ps[..|ps| - 1] + [ps[|ps| - 1]] == ps;
    }
  }

  /** Components survive joining and splitting, so a prefix text names one list of components only. */
  lemma {:induction false} PartsOfJoin(ps: seq<Text>)
    requires Components(ps)
    ensures Parts(Join(ps)) == ps
  {
    SplitJoin(ps);
    hide Split;
    if |ps| > 0 { NonEmptyAll(ps); } else { assert NonEmpty([[]]) == []; }
  }

  lemma {:induction false} SplitLast(s: Text, c: byte)
    ensures Split(s + [c]) ==
      var ps := Split(s);
      if c == SLASH then ps + [[]] else ps[..|ps| - 1] + [ps[|ps| - 1] + [c]]
  {
    assert (s + [c])[..|s|] == s;
  }

  lemma {:induction false} SplitOver(s: Text, t: Text)
    ensures Split(s + [SLASH] + t) == Split(s) + Split(t)
    decreases |t|
  {
    hide Split;
    if |t| == 0 {
      assert s + [SLASH] + t == s + [SLASH];
      SplitSlash(s);
      SplitNothing();
    } else {
      var n := |t| - 1;
      LastApart(s + [SLASH], t);
      SplitOver(s, t[..n]);
      SplitLast(s + [SLASH] + t[..n], t[n]);
      SplitLast(t[..n], t[n]);
      LastOver(Split(s), Split(t[..n]), t[n]);
    }
  }

  lemma {:induction false} LastApart<T>(s: seq<T>, t: seq<T>)
    requires |t| > 0
    ensures s + t == s + t[..|t| - 1] + [t[|t| - 1]] && t == t[..|t| - 1] + [t[|t| - 1]]
  {
  }

  /** Adding a character or a new part at the end, seen from a longer list. */
  lemma {:induction false} LastOver(a: seq<Text>, b: seq<Text>, c: byte)
    requires |b| > 0
    ensures var ab := a + b;
      && ab + [[]] == a + (b + [[]])
      && ab[..|ab| - 1] + [ab[|ab| - 1] + [c]] == a + (b[..|b| - 1] + [b[|b| - 1] + [c]])
  {
  }

  lemma {:induction false} NonEmptyOver(a: seq<Text>, b: seq<Text>)
    ensures NonEmpty(a + b) == NonEmpty(a) + NonEmpty(b)
    decreases |b|
  {
    if |b| == 0 {
      assert a + b == a;
    } else {
      var n := |b| - 1;
      assert (a + b)[..|a + b| - 1] == a + b[..n];
      NonEmptyOver(a, b[..n]);
    }
  }

  /** The byte 0x2F, and no other, separates components: every text is cut at each of them. */
  lemma {:induction false} PartsAtSlash(s: Text, t: Text)
    ensures Parts(s + [0x2F] + t) == Parts(s) + Parts(t)
  {
    hide Split, NonEmpty;
    SplitOver(s, t);
    NonEmptyOver(Split(s), Split(t));
  }

  lemma {:induction false} PartsPlain(s: Text)
    requires 0x2F !in s
    ensures Parts(s) == if |s| == 0 then [] else [s]
  {
    SplitNothing();
    SplitAppend([], s);
    assert [] + s == s;
    assert NonEmpty([s][..0]) == [];
  }

  /** The prefixes of a path one component deeper are those of the path and the path itself. */
  lemma {:induction false} PrefixesDeeper(p: Text, c: Text)
    requires Canonical(p) && |p| > 0 && |c| > 0 && 0x2F !in c
    ensures Prefixes(Parts(p + [0x2F] + c)) == Prefixes(Parts(p)) + [p]
  {
    hide Parts, Join;
    PartsAtSlash(p, c);
    PartsPlain(c);
    var ps := Parts(p);
    assert |ps| > 0 by { EmptyJoin(ps); }
    var all := Prefixes(ps + [c]);
    forall i | 0 <= i < |all| ensures all[i] == (Prefixes(ps) + [p])[i] {
      if i < |ps| { assert (ps + [c])[..i] == ps[..i]; } else { assert (ps + [c])[..i] == ps; }
    }
  }

  lemma {:induction false} EmptyJoin(ps: seq<Text>)
    ensures |ps| == 0 ==> Join(ps) == []
  {
  }

  /** A path of two components has the root and the first component as prefixes. */
  lemma {:induction false} PrefixesOfTwo(a: Text, b: Text)
    requires |a| > 0 && 0x2F !in a && |b| > 0 && 0x2F !in b
    ensures Prefixes(Parts(a + [0x2F] + b)) == [[], a]
  {
    hide Parts;
    PartsPlain(a);
    assert Join([a]) == a;
    PrefixesDeeper(a, b);
    assert [a][..0] == [];
  }

  lemma {:induction false} ComponentsPrefix(ps: seq<Text>, i: nat)
    requires Components(ps) && i <= |ps|
    ensures Components(ps[..i])
  {
  }

  /** The components of one path begin those of another, which has more. */
  ghost predicate ProperPrefix(a: seq<Text>, b: seq<Text>) {
    |a| < |b| && a == b[..|a|]
  }

  /** A canonical prefix gets a counter update from a path exactly if it is a proper prefix of it,
      or both have no components. */
  lemma {:induction false} PrefixMembers(p: Text, key: Text)
    ensures p in Prefixes(Parts(key)) <==>
      Canonical(p) && (ProperPrefix(Parts(p), Parts(key)) || (|Parts(p)| == 0 && |Parts(key)| == 0))
  {
    hide Parts, Join;
    var ps := Parts(key);
    PartsAreComponents(key);
    if p in Prefixes(ps) {
      var i :| 0 <= i < |Prefixes(ps)| && Prefixes(ps)[i] == p;
      ComponentsPrefix(ps, i);
      PartsOfJoin(ps[..i]);
    }
    if Canonical(p) && |Parts(p)| < |Prefixes(ps)| && Parts(p) == ps[..|Parts(p)|] {
      assert Prefixes(ps)[|Parts(p)|] == p;
    }
  }

  lemma {:induction false} PrefixesDistinct(key: Text)
    ensures Distinct(Prefixes(Parts(key)))
  {
    hide Parts, Join;
    var ps := Parts(key);
    PartsAreComponents(key);
    var all := Prefixes(ps);
    forall i, j | 0 <= i < j < |all| ensures all[i] != all[j] {
      ComponentsPrefix(ps, i);
      ComponentsPrefix(ps, j);
      PartsOfJoin(ps[..i]);
      PartsOfJoin(ps[..j]);
    }
  }

  /** The loop of the source: the running prefix grows by one component at a time. */
  method PrefixesOf(key: Text) returns (out: seq<Text>)
    ensures out == Prefixes(Parts(key))
    ensures forall p :: p in out ==> Canonical(p)
  {
    var parts := Parts(key);
    out := [[]];
    var prefix: Text := [];
    var i := 0;
    while i < |parts|
      invariant i <= |parts| && prefix == Join(parts[..i])
      invariant |out| == if i == 0 then 1 else if i < |parts| then i + 1 else i
      invariant forall j :: 0 <= j < |out| ==> out[j] == Join(parts[..j])
    {
      hide Parts;
      if i > 0 { prefix := prefix + [SLASH]; }
      prefix := prefix + parts[i];
      JoinMore(parts, i);
      if i + 1 < |parts| { out := out + [prefix]; }
      i := i + 1;
    }
    assert out == Prefixes(parts);
    hide Prefixes;
    forall p | p in out ensures Canonical(p) { PrefixMembers(p, key); }
  }

  lemma {:induction false} JoinMore(ps: seq<Text>, i: nat)
    requires i < |ps|
    ensures Join(ps[..i + 1]) == (if i > 0 then Join(ps[..i]) + [SLASH] else Join(ps[..i])) + ps[i]
  {
    assert ps[..i + 1][..i] == ps[..i];
  }

  // ----- counters

  datatype Aggregate = Aggregate(objects: u64, bytes: u64)

  const ZERO := Aggregate(0, 0)

  /** The counters by prefix, and the size of every key seen. */
  datatype Tally = Tally(aggregates: map<Text, Aggregate>, sizes: map<Text, u64>)

  const NOTHING := Tally(map[], map[])

  function Wrap(n: int): u64 {
    n % M
  }

  lemma {:induction false} WrapIs(n: int)
    ensures Wrap(n) == n % 0x1_0000_0000_0000_0000
  {
  }

  function Plus(a: Aggregate, b: Aggregate): Aggregate {
    Aggregate(Wrap(a.objects + b.objects), Wrap(a.bytes + b.bytes))
  }

  function AggregateAt(aggs: map<Text, Aggregate>, p: Text): Aggregate {
    if p in aggs then aggs[p] else ZERO
  }

  function Lookup(t: Tally, p: Text): Aggregate {
    AggregateAt(t.aggregates, p)
  }

  /** A new key counts once; an overwrite changes only the bytes, modulo 2^64. */
  function Delta(t: Tally, key: Text, len: u64): Aggregate {
    if key in t.sizes then Aggregate(0, Wrap(len - t.sizes[key])) else Aggregate(1, len)
  }

  function Bumped(aggs: map<Text, Aggregate>, ps: seq<Text>, d: Aggregate): map<Text, Aggregate> {
    if |ps| == 0 then aggs
    else
      var before, p := Bumped(aggs, ps[..|ps| - 1], d), ps[|ps| - 1];
      before[p := Plus(AggregateAt(before, p), d)]
  }

  function Recorded(t: Tally, key: Text, len: u64): Tally {
    Tally(Bumped(t.aggregates, Prefixes(Parts(key)), Delta(t, key, len)), t.sizes[key := len])
  }

  function DeltasFor(t: Tally, key: Text, len: u64): seq<AggDeltaEntry> {
    var d, ps := Delta(t, key, len), Prefixes(Parts(key));
    seq(|ps|, i requires 0 <= i < |ps| => AggDeltaEntry(ps[i], d.objects, d.bytes))
  }

  lemma {:induction false} BumpedNone(aggs: map<Text, Aggregate>, ps: seq<Text>, d: Aggregate)
    ensures Bumped(aggs, ps[..0], d) == aggs
  {
  }

  lemma {:induction false} BumpedMore(aggs: map<Text, Aggregate>, ps: seq<Text>, d: Aggregate, i: nat)
    requires i < |ps|
    ensures var before := Bumped(aggs, ps[..i], d);
      Bumped(aggs, ps[..i + 1], d) == before[ps[i] := Plus(AggregateAt(before, ps[i]), d)]
  {
    hide Plus;
    assert ps[..i + 1][..i] == ps[..i];
  }

  lemma {:induction false} BumpedAt(aggs: map<Text, Aggregate>, ps: seq<Text>, d: Aggregate, p: Text)
    requires Distinct(ps)
    ensures AggregateAt(Bumped(aggs, ps, d), p) ==
      if p in ps then Plus(AggregateAt(aggs, p), d) else AggregateAt(aggs, p)
  {
    hide Plus;
    if |ps| > 0 {
      var before := ps[..|ps| - 1];
      BumpedAt(aggs, before, d, p);
      assert p in ps <==> p in before || p == ps[|ps| - 1];
    }
  }

  lemma {:induction false} LookupRecorded(t: Tally, key: Text, len: u64, p: Text)
    ensures Lookup(Recorded(t, key, len), p) ==
      if p in Prefixes(Parts(key)) then Plus(Lookup(t, p), Delta(t, key, len)) else Lookup(t, p)
  {
    hide Plus, Parts, Prefixes, Bumped;
    PrefixesDistinct(key);
    BumpedAt(t.aggregates, Prefixes(Parts(key)), Delta(t, key, len), p);
  }

  // ----- recounting

  ghost function Pick(keys: set<Text>): (k: Text)
    requires |keys| > 0
    ensures k in keys
  {
    var k :| k in keys; k
  }

  /** Sizes summed over a set of keys. */
  ghost function Sum(keys: set<Text>, sizes: map<Text, u64>): nat
    requires keys <= sizes.Keys
    decreases |keys|
  {
    if |keys| == 0 then 0
    else sizes[Pick(keys)] + Sum(keys - {Pick(keys)}, sizes)
  }

  lemma {:induction false} SumOf(keys: set<Text>, sizes: map<Text, u64>, k: Text)
    requires keys <= sizes.Keys && k in keys
    ensures Sum(keys, sizes) == sizes[k] + Sum(keys - {k}, sizes)
    decreases |keys|
  {
    hide Pick;
    var j := Pick(keys);
    if j != k {
      SumOf(keys - {j}, sizes, k);
      SumOf(keys - {k}, sizes, j);
      assert keys - {j} - {k} == keys - {k} - {j};
    }
  }

  lemma {:induction false} SumSame(keys: set<Text>, sizes: map<Text, u64>, sizes': map<Text, u64>)
    requires keys <= sizes.Keys && keys <= sizes'.Keys && forall k :: k in keys ==> sizes[k] == sizes'[k]
    ensures Sum(keys, sizes) == Sum(keys, sizes')
    decreases |keys|
  {
    if |keys| > 0 {
      var k :| k in keys;
      SumOf(keys, sizes, k);
      SumOf(keys, sizes', k);
      SumSame(keys - {k}, sizes, sizes');
    }
  }

  /** The keys a counter covers. */
  ghost function Counted(sizes: map<Text, u64>, p: Text): (keys: set<Text>)
    ensures keys <= sizes.Keys
  {
    set k | k in sizes && p in Prefixes(Parts(k))
  }

  /** A recount from scratch, modulo 2^64. */
  ghost function Recount(keys: set<Text>, sizes: map<Text, u64>): Aggregate
    requires keys <= sizes.Keys
  {
    Aggregate(Wrap(|keys|), Wrap(Sum(keys, sizes)))
  }

  ghost predicate Accurate(t: Tally) {
    forall p :: Lookup(t, p) == Recount(Counted(t.sizes, p), t.sizes)
  }

  lemma {:induction false} WrapAdd(x: int, y: int)
    ensures Wrap(Wrap(x) + y) == Wrap(x + y)
    ensures Wrap(x + Wrap(y)) == Wrap(x + y)
    ensures 0 <= x < M ==> Wrap(x) == x
  {
  }

  lemma {:induction false} CountedRecorded(sizes: map<Text, u64>, key: Text, len: u64, p: Text)
    ensures var sizes' := sizes[key := len];
      Counted(sizes', p) == if p in Prefixes(Parts(key)) then Counted(sizes, p) + {key} else Counted(sizes, p) - {key}
    ensures p !in Prefixes(Parts(key)) ==> key !in Counted(sizes, p)
  {
    hide Prefixes, Parts;
  }

  lemma {:induction false} RecountNew(keys: set<Text>, sizes: map<Text, u64>, key: Text, len: u64)
    requires keys <= sizes.Keys && key !in sizes
    ensures Recount(keys + {key}, sizes[key := len]) == Plus(Recount(keys, sizes), Aggregate(1, len))
  {
    hide Wrap, Sum;
    var sizes' := sizes[key := len];
    assert keys + {key} - {key} == keys;
    SumOf(keys + {key}, sizes', key);
    SumSame(keys, sizes, sizes');
    WrapAdd(Sum(keys, sizes), len);
    WrapAdd(|keys|, 1);
  }

  lemma {:induction false} RecountOverwrite(keys: set<Text>, sizes: map<Text, u64>, key: Text, len: u64)
    requires keys <= sizes.Keys && key in sizes && key in keys
    ensures Recount(keys, sizes[key := len]) == Plus(Recount(keys, sizes), Aggregate(0, Wrap(len - sizes[key])))
  {
    hide Wrap, Sum;
    var sizes', rest, total := sizes[key := len], keys - {key}, Sum(keys, sizes);
    SumOf(keys, sizes, key);
    SumOf(keys, sizes', key);
    SumSame(rest, sizes, sizes');
    WrapAdd(total, Wrap(len - sizes[key]));
    WrapAdd(total, len - sizes[key]);
    WrapAdd(|keys|, 0);
  }

  /** Every put keeps every counter equal to a recount. */
  lemma {:induction false} RecordedAccurate(t: Tally, key: Text, len: u64)
    requires Accurate(t)
    ensures Accurate(Recorded(t, key, len))
  {
    hide Plus, Prefixes, Parts, Sum, Wrap, Counted;
    var t' := Recorded(t, key, len);
    forall p ensures Lookup(t', p) == Recount(Counted(t'.sizes, p), t'.sizes) {
      LookupRecorded(t, key, len, p);
      CountedRecorded(t.sizes, key, len, p);
      var keys := Counted(t.sizes, p);
      if p in Prefixes(Parts(key)) {
        CountedHas(t.sizes, key, p);
        if key in t.sizes {
          assert keys + {key} == keys;
          RecountOverwrite(keys, t.sizes, key, len);
        } else {
          RecountNew(keys, t.sizes, key, len);
        }
      } else {
        assert keys - {key} == keys;
        SumSame(keys, t.sizes, t'.sizes);
      }
    }
  }

  lemma {:induction false} CountedHas(sizes: map<Text, u64>, key: Text, p: Text)
    requires p in Prefixes(Parts(key))
    ensures key in sizes ==> key in Counted(sizes, p)
  {
  }

  /** With totals below 2^64 the counters are the exact count and byte sum. */
  // ----- the counters in memory

  class Rollup {
    var aggregates: map<Text, Aggregate>
    var sizes: map<Text, u64>

    function State(): Tally
      reads this
    {
      Tally(aggregates, sizes)
    }

    constructor ()
      ensures State() == NOTHING && Accurate(State())
    {
      aggregates, sizes := map[], map[];
      new;
      NothingAccurate();
    }

    /** One put: every proper prefix of the key gets the same change, and all counters stay accurate. */
    method Record(key: Text, len: u64)
      requires Accurate(State())
      modifies this
      ensures State() == Recorded(old(State()), key, len) && Accurate(State())
    {
      hide Accurate, Plus, Parts, Prefixes, Canonical, Wrap, Bumped;
      ghost var before := State();
      var d := if key in sizes then Aggregate(0, Wrap(len - sizes[key])) else Aggregate(1, len);
      sizes := sizes[key := len];
      var ps := PrefixesOf(key);
      var i := 0;
      BumpedNone(before.aggregates, ps, d);
      while i < |ps|
        invariant i <= |ps| && sizes == before.sizes[key := len]
        invariant aggregates == Bumped(before.aggregates, ps[..i], d)
      {
        var agg := if ps[i] in aggregates then aggregates[ps[i]] else ZERO;
        aggregates := aggregates[ps[i] := Plus(agg, d)];
        BumpedMore(before.aggregates, ps, d, i);
        i := i + 1;
      }
      assert ps[..i] == ps;
      RecordedAccurate(before, key, len);
    }

    /** The change a put would make, prefix by prefix, for the log. */
    method Deltas(key: Text, len: u64) returns (out: seq<AggDeltaEntry>)
      ensures out == DeltasFor(State(), key, len)
      ensures forall p :: Lookup(Recorded(State(), key, len), p) == Plus(Lookup(State(), p), DeltaSum(out, p))
    {
      var d := if key in sizes then Aggregate(0, Wrap(len - sizes[key])) else Aggregate(1, len);
      var ps := PrefixesOf(key);
      out := seq(|ps|, i requires 0 <= i < |ps| => AggDeltaEntry(ps[i], d.objects, d.bytes));
      assert out == DeltasFor(State(), key, len);
      forall p ensures Lookup(Recorded(State(), key, len), p) == Plus(Lookup(State(), p), DeltaSum(out, p)) {
        RecordedIsDeltas(State(), key, len, p);
      }
    }

    /** A prefix nobody counted has empty counters. */
    method Get(p: Text) returns (agg: Aggregate)
      requires Accurate(State())
      ensures agg == Recount(Counted(sizes, p), sizes)
    {
      agg := if p in aggregates then aggregates[p] else ZERO;
      assert agg == Lookup(State(), p);
    }
  }

  lemma {:induction false} NothingAccurate()
    ensures Accurate(NOTHING)
  {
  }

  // ----- deltas

  /** The changes of one prefix in a list of deltas, added up modulo 2^64. */
  function DeltaSum(ds: seq<AggDeltaEntry>, p: Text): Aggregate {
    if |ds| == 0 then ZERO
    else
      var rest, d := DeltaSum(ds[..|ds| - 1], p), ds[|ds| - 1];
      if d.prefix == p then Plus(rest, Aggregate(d.objectDelta, d.byteDelta)) else rest
  }

  lemma {:induction false} DeltaSumOnce(ps: seq<Text>, d: Aggregate, p: Text)
    requires Distinct(ps)
    ensures DeltaSum(seq(|ps|, i requires 0 <= i < |ps| => AggDeltaEntry(ps[i], d.objects, d.bytes)), p) ==
      if p in ps then d else ZERO
  {
    var ds := seq(|ps|, i requires 0 <= i < |ps| => AggDeltaEntry(ps[i], d.objects, d.bytes));
    if |ps| > 0 {
      var n := |ps| - 1;
      var before := ps[..n];
      assert ds[..n] == seq(|before|, i requires 0 <= i < |before| => AggDeltaEntry(before[i], d.objects, d.bytes));
      DeltaSumOnce(before, d, p);
      assert p in ps <==> p in before || p == ps[n];
    }
  }

  /** What a put does to every counter is what its logged deltas say. */
  lemma {:induction false} RecordedIsDeltas(t: Tally, key: Text, len: u64, p: Text)
    ensures Lookup(Recorded(t, key, len), p) == Plus(Lookup(t, p), DeltaSum(DeltasFor(t, key, len), p))
  {
    hide Parts, Prefixes, Bumped, DeltaSum;
    LookupRecorded(t, key, len, p);
    PrefixesDistinct(key);
    DeltaSumOnce(Prefixes(Parts(key)), Delta(t, key, len), p);
    PlusZero(Lookup(t, p));
  }

  lemma {:induction false} PlusZero(a: Aggregate)
    ensures Plus(a, ZERO) == a && Plus(ZERO, a) == a
  {
  }

  // ----- the counters of a log

  /** What recovery rebuilds: every put of the log, recorded in order. */
  function RollupOf(log: seq<Entry>): Tally {
    if |log| == 0 then NOTHING
    else
      var t, e := RollupOf(log[..|log| - 1]), log[|log| - 1];
      if e.rec.Put? then Recorded(t, e.rec.key, e.rec.len) else t
  }

  lemma {:induction false} RollupAccurate(log: seq<Entry>)
    ensures Accurate(RollupOf(log))
  {
    hide Accurate, Recorded;
    if |log| == 0 {
      NothingAccurate();
    } else {
      RollupAccurate(log[..|log| - 1]);
      if log[|log| - 1].rec.Put? {
        RecordedAccurate(RollupOf(log[..|log| - 1]), log[|log| - 1].rec.key, log[|log| - 1].rec.len);
      }
    }
  }

  /** Every put is followed by its deltas, and there are no other deltas. */
  ghost predicate DeltasLogged(log: seq<Entry>) {
    && (forall i :: 0 <= i < |log| && log[i].rec.Put? ==> i + 1 < |log| && log[i + 1].rec.AggDelta?)
    && (forall i :: 0 <= i < |log| && log[i].rec.AggDelta? ==>
          && i > 0 && log[i - 1].rec.Put?
          && log[i].rec.deltas == DeltasFor(RollupOf(log[..i - 1]), log[i - 1].rec.key, log[i - 1].rec.len))
  }

  /** All logged deltas of one prefix, added up modulo 2^64. */
  function LoggedSum(log: seq<Entry>, p: Text): Aggregate {
    if |log| == 0 then ZERO
    else
      var rest, e := LoggedSum(log[..|log| - 1], p), log[|log| - 1];
      if e.rec.AggDelta? then Plus(rest, DeltaSum(e.rec.deltas, p)) else rest
  }

  lemma {:induction false} DeltasLoggedPrefix(log: seq<Entry>, n: nat)
    requires DeltasLogged(log) && n <= |log| && (n > 0 ==> !log[n - 1].rec.Put?)
    ensures DeltasLogged(log[..n])
  {
    hide RollupOf, DeltasFor;
    var p := log[..n];
    forall i | 0 <= i < n && p[i].rec.AggDelta?
      ensures i > 0 && p[i - 1].rec.Put?
      ensures p[i].rec.deltas == DeltasFor(RollupOf(p[..i - 1]), p[i - 1].rec.key, p[i - 1].rec.len)
    {
      assert log[i].rec.AggDelta? && p[..i - 1] == log[..i - 1];
    }
  }

  /** The logged deltas add up to the counters that recovery rebuilds from the puts alone. */
  lemma {:induction false} LoggedDeltasAddUp(log: seq<Entry>, p: Text)
    requires DeltasLogged(log)
    ensures LoggedSum(log, p) == Lookup(RollupOf(log), p)
  {
    hide Plus, DeltaSum, DeltasFor, Recorded, Lookup;
    if |log| == 0 {
      LookupNothing(p);
    } else {
      var n := |log| - 1;
      if log[n].rec.AggDelta? {
        var start, put := log[..n - 1], log[n - 1];
        BeforePut(log, n - 1);
        DeltasLoggedPrefix(log, n - 1);
        LoggedDeltasAddUp(start, p);
        RecordedIsDeltas(RollupOf(start), put.rec.key, put.rec.len, p);
        assert log[..n][..n - 1] == start;
      } else {
        DeltasLoggedPrefix(log, n);
        LoggedDeltasAddUp(log[..n], p);
      }
    }
  }

  lemma {:induction false} LookupNothing(p: Text)
    ensures Lookup(NOTHING, p) == ZERO
  {
  }

  /** Two puts are never next to each other. */
  lemma {:induction false} BeforePut(log: seq<Entry>, n: nat)
    requires DeltasLogged(log) && n < |log| && log[n].rec.Put?
    ensures n > 0 ==> !log[n - 1].rec.Put?
  {
    hide RollupOf, DeltasFor;
  }

  // ----- against the index

  /** The index has the keys and sizes the counters were built from, through all compactions. */
  ghost predicate SizesMatch(t: Tally, r: Layout) {
    t.sizes.Keys == r.index.Keys && forall k :: k in r.index ==> t.sizes[k] == r.index[k].len
  }

  lemma {:induction false} MoveKeepsLength(s: Live, k: Text)
    requires Sound(s) && s.pend.Some? && k in s.r.index
    ensures MoveLoc(s.pend.value.entries, k, s.r.index[k], s.pend.value.to).len == s.r.index[k].len
  {
    var p := s.pend.value;
    MovedAt(p.entries, k, s.r.index[k].lsn);
    EntriesFacts(s.r, p.from, p.entries);
    hide EntriesFit, Moved;
  }

  lemma {:induction false} SizesAfter(t: Tally, s: Live, e: Entry)
    requires Sound(s) && Allowed(s, e) && SizesMatch(t, s.r)
    ensures SizesMatch(if e.rec.Put? then Recorded(t, e.rec.key, e.rec.len) else t, After(s, e).r)
  {
    hide Sound, Bumped, Parts, Prefixes, MoveLoc, EntriesFit, LogModel.Covers;
    if e.rec.Commit? && s.pend.Some? {
      forall k | k in s.r.index
        ensures MoveLoc(s.pend.value.entries, k, s.r.index[k], s.pend.value.to).len == s.r.index[k].len
      {
        MoveKeepsLength(s, k);
      }
    }
  }

  lemma {:induction false} SizesOfLog(log: seq<Entry>)
    requires Legal(log)
    ensures SizesMatch(RollupOf(log), On(log).r)
  {
    hide After, Allowed, SizesMatch, Recorded, Sound;
    if |log| == 0 {
      assert SizesMatch(NOTHING, EMPTY) by { NothingMatches(); }
    } else {
      var n := |log| - 1;
      LegalPrefix(log, n);
      SizesOfLog(log[..n]);
      OnSound(log[..n]);
      SizesAfter(RollupOf(log[..n]), On(log[..n]), log[n]);
    }
  }

  lemma {:induction false} NothingMatches()
    ensures SizesMatch(NOTHING, EMPTY)
  {
  }

  /** The keys a listing by prefix returns: committed, with the prefix's components as a proper prefix. */
  ghost function Listed(index: map<Text, Loc>, committed: nat, p: Text): set<Text> {
    set k | k in index && index[k].lsn <= committed && ProperPrefix(Parts(p), Parts(k))
  }

  /** The counter of a canonical prefix covers exactly the listed keys, unless it is the root
      and some key has no component at all. */
  lemma {:induction false} CountedIsListed(sizes: map<Text, u64>, index: map<Text, Loc>, committed: nat, p: Text)
    requires sizes.Keys == index.Keys && (forall k :: k in index ==> index[k].lsn <= committed) && Canonical(p)
    ensures Counted(sizes, p) == Listed(index, committed, p) <==> (|p| > 0 || forall k :: k in index ==> |Parts(k)| > 0)
  {
    hide Parts, Prefixes;
    assert |Parts(p)| == 0 <==> |p| == 0 by { RootHasNoParts(p); }
    forall k | k in sizes
      ensures k in Counted(sizes, p) <==> ProperPrefix(Parts(p), Parts(k)) || (|p| == 0 && |Parts(k)| == 0)
    {
      PrefixMembers(p, k);
    }
    if k :| |p| == 0 && k in index && |Parts(k)| == 0 {
      assert k in Counted(sizes, p) && k !in Listed(index, committed, p);
    }
  }

  lemma {:induction false} RootHasNoParts(p: Text)
    requires Canonical(p)
    ensures |Parts(p)| == 0 <==> |p| == 0
  {
    if |p| == 0 { assert Split(p) == [[]]; assert NonEmpty([[]]) == []; }
  }

  /** A prefix in any other form has no counter. */
  lemma {:induction false} OtherFormsAreEmpty(t: Tally, p: Text)
    requires Accurate(t) && !Canonical(p)
    ensures Lookup(t, p) == ZERO
  {
    hide Parts, Prefixes, Lookup;
    forall k | k in t.sizes ensures k !in Counted(t.sizes, p) { PrefixMembers(p, k); }
    assert Counted(t.sizes, p) == {};
  }

  /** Rollup equals recount: in every legal log, through overwrites and compactions, the counter of a
      canonical prefix is the number of listed keys and the sum of their lengths in the index. */
  lemma {:induction false} RollupIsRecount(log: seq<Entry>, committed: nat, p: Text)
    requires Legal(log) && Canonical(p)
    requires forall k :: k in On(log).r.index ==> On(log).r.index[k].lsn <= committed
    requires |p| > 0 || forall k :: k in On(log).r.index ==> |Parts(k)| > 0
    ensures var t, keys := RollupOf(log), Listed(On(log).r.index, committed, p);
      && SizesMatch(t, On(log).r) && keys <= t.sizes.Keys
      && Lookup(t, p) == Recount(keys, t.sizes)
      && Lookup(t, p) == Aggregate(|keys| % 0x1_0000_0000_0000_0000, Sum(keys, t.sizes) % 0x1_0000_0000_0000_0000)
  {
    hide On, Legal, RollupOf, Parts, Canonical, Sum, Wrap, Lookup;
    var t := RollupOf(log);
    SizesOfLog(log);
    RollupAccurate(log);
    CountedIsListed(t.sizes, On(log).r.index, committed, p);
    WrapIs(|Counted(t.sizes, p)|);
    WrapIs(Sum(Counted(t.sizes, p), t.sizes));
  }

  /** A Commit whose LSN covers everything logged before it covers every put in the index. */
  lemma {:induction false} CommitCoversIndex(log: seq<Entry>, e: Entry)
    requires Legal(log + [e]) && e.rec.Commit? && e.rec.lsn >= On(log).lastLsn
    ensures forall k :: k in On(log + [e]).r.index ==> On(log + [e]).r.index[k].lsn <= e.rec.lsn
  {
    hide Legal, On, After;
    assert (log + [e])[..|log|] == log;
    LegalPrefix(log + [e], |log|);
    OnSound(log);
    OnAppend(log, e);
    forall k | k in On(log + [e]).r.index
      ensures On(log + [e]).r.index[k].lsn <= e.rec.lsn
    {
      IndexedBelow(On(log), e, k);
    }
  }

  lemma {:induction false} IndexedBelow(s: Live, e: Entry, k: Text)
    requires Sound(s) && e.rec.Commit? && k in After(s, e).r.index
    ensures After(s, e).r.index[k].lsn <= s.lastLsn
  {
    hide EntriesFit, LocsIn;
    if s.pend.Some? { MovedAt(s.pend.value.entries, k, s.r.index[k].lsn); }
  }

  /** What a commit publishes: with the LSN its callers pass, that of the last record before it, the counters of every
      canonical prefix are the count and byte sum of the listed keys. */
  lemma {:induction false} PublishedRollupIsRecount(log: seq<Entry>, e: Entry, p: Text)
    requires Legal(log + [e]) && e.rec.Commit? && e.rec.lsn >= On(log).lastLsn && Canonical(p)
    requires |p| > 0 || forall k :: k in On(log + [e]).r.index ==> |Parts(k)| > 0
    ensures var t, keys := RollupOf(log + [e]), Listed(On(log + [e]).r.index, e.rec.lsn, p);
      && SizesMatch(t, On(log + [e]).r) && keys <= t.sizes.Keys && Lookup(t, p) == Recount(keys, t.sizes)
      && Lookup(t, p) == Aggregate(|keys| % 0x1_0000_0000_0000_0000, Sum(keys, t.sizes) % 0x1_0000_0000_0000_0000)
  {
    hide On, Legal, RollupOf, Parts, Canonical, Sum, Wrap, Lookup, Listed, SizesMatch;
    CommitCoversIndex(log, e);
    RollupIsRecount(log + [e], e.rec.lsn, p);
  }

  // ----- what one put does, in bytes

  /** Any path below a canonical prefix has it among its prefixes. */
  lemma {:induction false} PrefixOfDeeper(p: Text, rest: Text)
    requires Canonical(p) && |Parts(rest)| > 0
    ensures p in Prefixes(Parts(p + [0x2F] + rest))
  {
    hide Parts, Join;
    PartsAtSlash(p, rest);
    PrefixMembers(p, p + [0x2F] + rest);
  }

  /** A put of p/rest is counted under p: as one more object with its bytes if the key is new, else by the change of its
      size, modulo 2^64. */
  lemma {:induction false} PutCountsUnder(t: Tally, p: Text, rest: Text, len: u64)
    requires Canonical(p) && |Parts(rest)| > 0
    ensures var key := p + [0x2F] + rest;
      var before, after := Lookup(t, p), Lookup(Recorded(t, key, len), p);
      && after.objects == (before.objects + if key in t.sizes then 0 else 1) % 0x1_0000_0000_0000_0000
      && after.bytes == (before.bytes + len - if key in t.sizes then t.sizes[key] else 0) % 0x1_0000_0000_0000_0000
  {
    hide Parts, Prefixes, Recorded, Lookup;
    PrefixOfDeeper(p, rest);
    LookupRecorded(t, p + [0x2F] + rest, len, p);
    var key, before := p + [0x2F] + rest, Lookup(t, p);
    if key in t.sizes { ShiftedRemainder(before.bytes, len - t.sizes[key]); }
  }

  /** And it is listed under p once its put is committed. */
  lemma {:induction false} PutListedUnder(index: map<Text, Loc>, committed: nat, p: Text, rest: Text)
    requires |Parts(rest)| > 0
    ensures var key := p + [0x2F] + rest;
      key in Listed(index, committed, p) <==> key in index && index[key].lsn <= committed
  {
    hide Parts;
    PartsAtSlash(p, rest);
    assert (Parts(p) + Parts(rest))[..|Parts(p)|] == Parts(p);
  }

  lemma {:induction false} ShiftedRemainder(a: int, b: int)
    ensures (a + b % 0x1_0000_0000_0000_0000) % 0x1_0000_0000_0000_0000 == (a + b) % 0x1_0000_0000_0000_0000
  {
  }

  // ----- keys that can be put and not compacted

  lemma {:induction false} OneComponent(key: Text)
    requires |key| > 0 && SLASH !in key
    ensures Parts(key) == [key] && Prefixes(Parts(key)) == [[]]
  {
    assert Components([key]);
    assert Join([key]) == key;
    PartsOfJoin([key]);
    hide Parts;
    var all := Prefixes([key]);
    assert [key][..0] == [] && all[0] == Join([]) == [];
  }

  lemma {:induction false} OneDelta(d: AggDeltaEntry)
    requires d.prefix == []
    ensures Encodable(AggDelta([d]))
  {
    assert [d][1..] == [];
    assert DeltasBytes([d]) == DeltaBytes(d) + DeltasBytes([]);
  }

  /** A key without slashes of 4040 to 4057 bytes can be put, its deltas included, yet stops the chunk loop of a
      compaction for good. */
  lemma {:induction false} UncompactableKey(t: Tally, key: Text, len: u32, lsn: u64, es: seq<RemapEntry>)
    requires 4040 <= |key| <= 4057 && SLASH !in key && |es| > 0 && es[0].key == key
    ensures Encodable(Put(key, len, lsn)) && Encodable(AggDelta(DeltasFor(t, key, len)))
    ensures RecordCodec.ChunkEnd(es, 0, RecordCodec.CHUNK_BUDGET) == 0
  {
    hide RecordCodec.ChunkEnd, Encodable, DeltasFor;
    RecordCodec.ChunkProgress(es, 0);
    LongPut(key, len, lsn);
    RootDelta(t, key, len);
  }

  lemma {:induction false} LongPut(key: Text, len: u32, lsn: u64)
    requires |key| <= 4057
    ensures Encodable(Put(key, len, lsn))
  {
    assert |TextBytes(key)| == |key| + 2;
  }

  lemma {:induction false} RootDelta(t: Tally, key: Text, len: u32)
    requires |key| > 0 && SLASH !in key
    ensures Encodable(AggDelta(DeltasFor(t, key, len)))
  {
    hide Parts, Prefixes, Join, Encodable;
    OneComponent(key);
    var ds := DeltasFor(t, key, len);
    assert |ds| == 1 && ds[0].prefix == [] && ds == [ds[0]];
    OneDelta(ds[0]);
  }
}
