/** Segment files with a durable part, crashes, and what recovery needs of them. */
module Disk {
  import opened Bytes
  import opened Records
  import opened Wal
  import opened LogModel

  /** The first `durable` bytes are fsynced; a crash may lose or garble the rest. */
  datatype File = File(content: seq<byte>, durable: nat)

  type Files = map<nat, File>

  /** The bytes of every put ever staged, by LSN. */
  type Values = map<nat, seq<byte>>

  ghost predicate FilesOk(fs: Files) {
    forall id :: id in fs ==> fs[id].durable <= |fs[id].content|
  }

  /** The value of a put is in its place. */
  ghost predicate InPlace(fs: Files, l: PutLoc, value: seq<byte>) {
    && |value| == l.len
    && (l.len > 0 ==> l.seg in fs && l.off + l.len <= |fs[l.seg].content| &&
                      fs[l.seg].content[l.off..l.off + l.len] == value)
  }

  /** Every put located in a current segment can be read back. */
  ghost predicate Holds(fs: Files, r: Layout, vals: Values) {
    forall l :: l in r.locs && r.locs[l].seg in LiveSegs(r) ==> l in vals && InPlace(fs, r.locs[l], vals[l])
  }

  /** Current segments are fsynced up to the length the log gives them. */
  ghost predicate Synced(fs: Files, r: Layout) {
    forall id :: id in LiveSegs(r) && id in r.lens && r.lens[id] > 0 ==>
      id in fs && r.lens[id] <= fs[id].durable
  }

  /** A crash that leaves a log meaning r can be recovered from. */
  ghost predicate Safe(fs: Files, r: Layout, vals: Values) {
    Holds(fs, r, vals) && Synced(fs, r)
  }

  /** The named files fsynced in full. */
  function Fsynced(fs: Files, ids: set<nat>): Files {
    map id | id in fs :: if id in ids then fs[id].(durable := |fs[id].content|) else fs[id]
  }

  lemma {:induction false} FsyncedNone(fs: Files)
    ensures Fsynced(fs, {}) == fs
  {
  }

  lemma {:induction false} FsyncedOne(fs: Files, done: set<nat>, id: nat)
    ensures var f := Fsynced(fs, done);
      Fsynced(fs, done + {id}) == if id in f then f[id := f[id].(durable := |f[id].content|)] else f
  {
  }

  // ----- growth

  /** Files only grow: nothing below an existing end is written, and nothing fsynced is forgotten. */
  ghost predicate Grown(fs: Files, fs': Files) {
    forall id :: id in fs ==>
      id in fs' && fs[id].content <= fs'[id].content && fs[id].durable <= fs'[id].durable
  }

  lemma {:induction false} InPlaceGrown(fs: Files, fs': Files, l: PutLoc, value: seq<byte>)
    requires InPlace(fs, l, value) && Grown(fs, fs')
    ensures InPlace(fs', l, value)
  {
    if l.len > 0 {
      var a, b := fs[l.seg].content, fs'[l.seg].content;
      SameBelow(a, b, |a|, l.off, l.off + l.len);
    }
  }

  lemma {:induction false} SafeGrown(fs: Files, fs': Files, r: Layout, vals: Values)
    requires Grown(fs, fs')
    ensures Holds(fs, r, vals) ==> Holds(fs', r, vals)
    ensures Safe(fs, r, vals) ==> Safe(fs', r, vals)
  {
    hide InPlace;
    if Holds(fs, r, vals) {
      forall l | l in r.locs && r.locs[l].seg in LiveSegs(r) ensures l in vals && InPlace(fs', r.locs[l], vals[l]) {
        InPlaceGrown(fs, fs', r.locs[l], vals[l]);
      }
    }
  }

  lemma {:induction false} SafeMoreValues(fs: Files, r: Layout, vals: Values, vals': Values)
    requires forall l :: l in vals ==> l in vals' && vals'[l] == vals[l]
    ensures Holds(fs, r, vals) ==> Holds(fs, r, vals')
    ensures Safe(fs, r, vals) ==> Safe(fs, r, vals')
  {
    hide InPlace;
  }

  /** One file is written from n on; what was fsynced below n still is. */
  ghost predicate WrittenFrom(fs: Files, fs': Files, id: nat, n: nat) {
    && fs'.Keys == fs.Keys + {id} && (forall i :: i in fs && i != id ==> fs'[i] == fs[i])
    && n <= |fs'[id].content|
    && (id !in fs ==> n == 0)
    && (id in fs ==>
          n <= |fs[id].content| && fs'[id].content[..n] == fs[id].content[..n] &&
          (n <= fs'[id].durable || fs[id].durable <= fs'[id].durable))
  }

  lemma {:induction false} InPlaceBelow(fs: Files, fs': Files, id: nat, n: nat, l: PutLoc, value: seq<byte>)
    requires WrittenFrom(fs, fs', id, n) && InPlace(fs, l, value) && (l.seg == id ==> l.off + l.len <= n)
    ensures InPlace(fs', l, value)
  {
    if l.len > 0 && l.seg == id { SameBelow(fs[id].content, fs'[id].content, n, l.off, l.off + l.len); }
  }

  /** A layout that needs nothing from n on is not disturbed. */
  lemma {:induction false} SafeBelow(fs: Files, fs': Files, id: nat, n: nat, r: Layout, vals: Values)
    requires WrittenFrom(fs, fs', id, n) && LocsIn(r) && (id in r.lens ==> r.lens[id] <= n)
    ensures Holds(fs, r, vals) ==> Holds(fs', r, vals)
    ensures Safe(fs, r, vals) ==> Safe(fs', r, vals)
  {
    hide InPlace;
    if Holds(fs, r, vals) {
      forall l | l in r.locs && r.locs[l].seg in LiveSegs(r) ensures l in vals && InPlace(fs', r.locs[l], vals[l]) {
        InPlaceBelow(fs, fs', id, n, r.locs[l], vals[l]);
      }
    }
  }

  // ----- crashes

  /** What may be found after a crash: the fsynced bytes, followed by anything. */
  ghost predicate CrashImage(fs: Files, fs': Files) {
    && fs'.Keys == fs.Keys
    && forall id :: id in fs ==>
         && fs[id].durable <= |fs'[id].content| && fs[id].durable <= |fs[id].content|
         && fs'[id].content[..fs[id].durable] == fs[id].content[..fs[id].durable]
         && fs'[id].durable == |fs'[id].content|
  }

  lemma {:induction false} InPlaceCrash(fs: Files, fs': Files, l: PutLoc, value: seq<byte>)
    requires InPlace(fs, l, value) && CrashImage(fs, fs')
    requires l.len > 0 ==> l.off + l.len <= fs[l.seg].durable
    ensures InPlace(fs', l, value)
  {
    if l.len > 0 {
      assert l.seg in fs && l.seg in fs';
      SameBelow(fs[l.seg].content, fs'[l.seg].content, fs[l.seg].durable, l.off, l.off + l.len);
    }
  }

  /** Contents that agree up to d agree on every range below it. */
  lemma {:induction false} SameBelow<T>(a: seq<T>, b: seq<T>, d: nat, i: nat, j: nat)
    requires i <= j <= d <= |a| && d <= |b| && a[..d] == b[..d]
    ensures a[i..j] == b[i..j]
  {
    forall k | 0 <= k < j - i ensures a[i..j][k] == b[i..j][k] {
      assert a[i + k] == a[..d][i + k];
      assert b[i + k] == b[..d][i + k];
    }
  }

  /** A safe disk is still safe after the crash. */
  lemma {:induction false} SafeCrash(fs: Files, fs': Files, r: Layout, vals: Values)
    requires Safe(fs, r, vals) && CrashImage(fs, fs') && LocsIn(r)
    ensures Safe(fs', r, vals)
  {
    hide InPlace;
    forall l | l in r.locs && r.locs[l].seg in LiveSegs(r) ensures InPlace(fs', r.locs[l], vals[l]) {
      InPlaceCrash(fs, fs', r.locs[l], vals[l]);
    }
  }

  // ----- recovery

  /** The length recovery gives a file: what the log says, or nothing for a file the log does not know. */
  function Target(r: Layout, id: nat): nat {
    if id in r.lens then r.lens[id] else 0
  }

  function Cut(f: File, n: nat): File {
    if n <= |f.content| then File(f.content[..n], n) else f
  }

  /** Recovery refuses a disk that lacks a segment the log needs, or has too little of it. */
  ghost predicate Recoverable(fs: Files, r: Layout) {
    forall id :: id in r.lens && r.lens[id] > 0 ==> id in fs && r.lens[id] <= |fs[id].content|
  }

  lemma {:induction false} SafeIsRecoverable(fs: Files, r: Layout, vals: Values)
    requires Safe(fs, r, vals) && FilesOk(fs)
    requires forall id :: id in r.lens && id !in LiveSegs(r) ==> r.lens[id] == 0
    ensures Recoverable(fs, r)
  {
    hide InPlace;
  }

  /** The steps of a recovery: cut a file to its target, remove a replaced segment, create a missing one. */
  datatype RepairStep = CutFile(id: nat) | RemoveReplaced(id: nat) | CreateMissing(id: nat)

  function Repair(fs: Files, r: Layout, step: RepairStep): Files {
    match step
    case CutFile(id) => if id in fs then fs[id := Cut(fs[id], Target(r, id))] else fs
    case RemoveReplaced(id) => if id in LiveSegs(r) then fs else fs - {id}
    case CreateMissing(id) => if id in fs then fs else fs[id := File([], 0)]
  }

  lemma {:induction false} InPlaceCut(fs: Files, fs': Files, l: PutLoc, value: seq<byte>, n: nat)
    requires InPlace(fs, l, value) && l.off + l.len <= n
    requires l.seg in fs ==> fs' == fs[l.seg := Cut(fs[l.seg], n)]
    requires l.seg !in fs ==> fs' == fs
    ensures InPlace(fs', l, value)
  {
    if l.len > 0 {
      var a, b := fs[l.seg].content, fs'[l.seg].content;
      if n <= |a| { SameBelow(a, b, n, l.off, l.off + l.len); }
    }
  }

  /** An interrupted recovery leaves a disk the next recovery can still use. */
  lemma {:induction false} RepairSafe(fs: Files, r: Layout, vals: Values, step: RepairStep)
    requires Safe(fs, r, vals) && LocsIn(r) && LiveSegs(r) <= r.lens.Keys
    ensures Safe(Repair(fs, r, step), r, vals)
  {
    hide InPlace;
    var fs' := Repair(fs, r, step);
    forall l | l in r.locs && r.locs[l].seg in LiveSegs(r) ensures InPlace(fs', r.locs[l], vals[l]) {
      if step.CutFile? && step.id == r.locs[l].seg {
        InPlaceCut(fs, fs', r.locs[l], vals[l], Target(r, step.id));
      } else {
        SameFile(fs, fs', r.locs[l], vals[l]);
      }
    }
  }

  lemma {:induction false} SameFile(fs: Files, fs': Files, l: PutLoc, value: seq<byte>)
    requires InPlace(fs, l, value)
    requires l.seg in fs ==> l.seg in fs' && fs'[l.seg] == fs[l.seg]
    ensures InPlace(fs', l, value)
  {
  }

  /** The disk after a completed recovery: every file at its target length, every known segment present. */
  function Repaired(fs: Files, r: Layout): Files {
    map id | id in fs.Keys + r.lens.Keys ::
      if id in fs && (id in LiveSegs(r) || id !in r.lens) then Cut(fs[id], Target(r, id)) else File([], 0)
  }

  lemma {:induction false} RepairedSafe(fs: Files, r: Layout, vals: Values)
    requires Safe(fs, r, vals) && LocsIn(r) && LiveSegs(r) <= r.lens.Keys
    ensures Safe(Repaired(fs, r), r, vals)
  {
    hide InPlace;
    var fs' := Repaired(fs, r);
    forall l | l in r.locs && r.locs[l].seg in LiveSegs(r) ensures InPlace(fs', r.locs[l], vals[l]) {
      var seg := r.locs[l].seg;
      var one := if seg in fs then fs[seg := Cut(fs[seg], Target(r, seg))] else fs;
      InPlaceCut(fs, one, r.locs[l], vals[l], Target(r, seg));
      if seg in fs { SameFile(one, fs', r.locs[l], vals[l]); } else { EmptyPut(fs, fs', r.locs[l], vals[l]); }
    }
  }

  lemma {:induction false} EmptyPut(fs: Files, fs': Files, l: PutLoc, value: seq<byte>)
    requires InPlace(fs, l, value) && l.seg !in fs
    ensures InPlace(fs', l, value)
  {
  }

  // ----- reading

  /** A read of the current value: the key is looked up, then the bytes are read from its segment. */
  function Get(fs: Files, index: map<Text, Loc>, key: Text): Option<seq<byte>> {
    if key !in index then None
    else
      var l := index[key];
      if l.seg in fs && l.off + l.len <= |fs[l.seg].content| then Some(fs[l.seg].content[l.off..l.off + l.len])
      else None
  }

  /** The LSN of the last put of a key in the log. */
  function LastPut(log: seq<Entry>, key: Text): Option<nat> {
    if |log| == 0 then None
    else
      var e := log[|log| - 1];
      if e.rec.Put? && e.rec.key == key then Some(e.lsn) else LastPut(log[..|log| - 1], key)
  }

  /** Through all compactions, the index names the last put of every key. */
  lemma {:induction false} IndexIsLastPut(log: seq<Entry>, key: Text)
    requires Legal(log)
    ensures match LastPut(log, key)
      case None => key !in On(log).r.index
      case Some(lsn) => key in On(log).r.index && On(log).r.index[key].lsn == lsn
  {
    hide Allowed, After;
    if |log| > 0 {
      var n := |log| - 1;
      LegalPrefix(log, n);
      IndexIsLastPut(log[..n], key);
      AfterIndex(On(log[..n]), log[n], key);
    }
  }

  lemma {:induction false} AfterIndex(s: Live, e: Entry, key: Text)
    ensures if e.rec.Put? && e.rec.key == key
      then key in After(s, e).r.index && After(s, e).r.index[key].lsn == e.lsn
      else (key in After(s, e).r.index <==> key in s.r.index) &&
           (key in s.r.index ==> After(s, e).r.index[key].lsn == s.r.index[key].lsn)
  {
    if e.rec.Commit? && s.pend.Some? && key in s.r.index {
      MovedAt(s.pend.value.entries, key, s.r.index[key].lsn);
    }
  }

  /** On a disk that holds the log's layout, with every segment open, reads return the last put. */
  lemma {:induction false} GetIsLastPut(fs: Files, log: seq<Entry>, vals: Values, key: Text)
    requires Legal(log) && Holds(fs, On(log).r, vals) && LiveSegs(On(log).r) <= fs.Keys
    requires forall id :: id in fs && id in On(log).r.lens ==> On(log).r.lens[id] <= |fs[id].content|
    ensures match LastPut(log, key)
      case None => Get(fs, On(log).r.index, key) == None
      case Some(lsn) => lsn in vals && Get(fs, On(log).r.index, key) == Some(vals[lsn])
  {
    hide Legal, On, Holds, Sound, LastPut;
    IndexIsLastPut(log, key);
    OnSound(log);
    if key in On(log).r.index { SoundIndex(On(log), key); ReadInPlace(fs, On(log).r, vals, key); }
  }

  lemma {:induction false} SoundIndex(s: Live, key: Text)
    requires Sound(s) && key in s.r.index
    ensures var l := s.r.index[key];
      l.seg in LiveSegs(s.r) && l.lsn in s.r.locs && s.r.locs[l.lsn] == PutLoc(key, l.seg, l.off, l.len) &&
        l.seg in s.r.lens && l.off + l.len <= s.r.lens[l.seg]
  {
    hide EntriesFit;
  }

  lemma {:induction false} ReadInPlace(fs: Files, r: Layout, vals: Values, key: Text)
    requires Holds(fs, r, vals) && key in r.index
    requires var l := r.index[key];
      l.seg in LiveSegs(r) && l.lsn in r.locs && r.locs[l.lsn] == PutLoc(key, l.seg, l.off, l.len)
    requires r.index[key].seg in fs && r.index[key].off + r.index[key].len <= |fs[r.index[key].seg].content|
    ensures r.index[key].lsn in vals && Get(fs, r.index, key) == Some(vals[r.index[key].lsn])
  {
    var l := r.index[key];
    assert InPlace(fs, r.locs[l.lsn], vals[l.lsn]);
    if l.len == 0 { assert fs[l.seg].content[l.off..l.off + l.len] == [] == vals[l.lsn]; }
  }
}
