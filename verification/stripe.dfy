/** Erasure-coded stripes spread over node directories. */
module Stripe {
  import opened Bytes
  import Crc32c
  import Block
  import BlockCodec
  import Format
  import opened ReedSolomonCode
  import Linear
  import Vandermonde

  const LEN_PREFIX := 8

  // ----- one shard file

  /** The file of a shard: its bytes in chunks of a block payload, numbered from i. */
  function FileBytes(shard: Shard, i: nat): (f: seq<byte>)
    requires i + |shard| < 0x1_0000_0000_0000_0000
    decreases |shard|
  {
    if |shard| == 0 then []
    else if |shard| <= Block.PAYLOAD_MAX then Block.Encoded(i, shard, 0)
    else Block.Encoded(i, shard[..Block.PAYLOAD_MAX], 0) + FileBytes(shard[Block.PAYLOAD_MAX..], i + 1)
  }

  /** The payloads of a file of blocks, or nothing if a block is torn or does not decode. */
  function Payloads(f: seq<byte>): Option<Shard>
    decreases |f|
  {
    if |f| == 0 then Some([])
    else if |f| < Block.SIZE then None
    else
      match Block.Decoded(f[..Block.SIZE])
      case Ok(_, _, payload) =>
        var rest := Payloads(f[Block.SIZE..]);
        if rest.None? then None else Some(payload + rest.value)
      case _ => None
  }

  /** What reading a shard file yields; a missing file yields nothing. */
  function ReadBack(f: Option<seq<byte>>): Option<Shard> {
    if f.None? then None
    else
      var s := Payloads(f.value);
      if s.None? || s.value == [] then None else s
  }

  lemma {:induction false} PayloadsOfFile(shard: Shard, i: nat)
    requires i + |shard| < 0x1_0000_0000_0000_0000
    ensures Payloads(FileBytes(shard, i)) == Some(shard)
    decreases |shard|
  {
    hide Block.Encoded, Block.Decoded;
    var f := FileBytes(shard, i);
    if 0 < |shard| <= Block.PAYLOAD_MAX {
      Block.DecodeEncoded(i, shard, 0);
      assert f[..Block.SIZE] == f && f[Block.SIZE..] == [];
      assert shard + [] == shard;
    } else if |shard| > Block.PAYLOAD_MAX {
      var head, tail := shard[..Block.PAYLOAD_MAX], shard[Block.PAYLOAD_MAX..];
      Block.DecodeEncoded(i, head, 0);
      PayloadsOfFile(tail, i + 1);
      assert f[..Block.SIZE] == Block.Encoded(i, head, 0) && f[Block.SIZE..] == FileBytes(tail, i + 1);
      assert head + tail == shard;
    }
  }

  /** Block j of a file. */
  function BlockAt(f: seq<byte>, j: nat): seq<byte>
    requires 4096 * j + 4096 <= |f|
  {
    f[4096 * j..4096 * j + 4096]
  }

  /** The file is made of whole blocks that decode. */
  ghost predicate Sound(f: seq<byte>) {
    |f| % 4096 == 0 && forall j :: 0 <= j && 4096 * j + 4096 <= |f| ==> Block.Decoded(BlockAt(f, j)).Ok?
  }

  lemma {:induction false} PayloadsExactly(f: seq<byte>)
    ensures Payloads(f).Some? <==> Sound(f)
    decreases |f|
  {
    hide Block.Decoded;
    if |f| >= 4096 {
      var rest := f[4096..];
      PayloadsExactly(rest);
      assert f[..4096] == BlockAt(f, 0);
      forall j | 0 <= j && 4096 * j + 4096 <= |rest| ensures BlockAt(rest, j) == BlockAt(f, j + 1) {}
      if Block.Decoded(f[..4096]).Ok? && Sound(rest) {
        forall j | 0 <= j && 4096 * j + 4096 <= |f| ensures Block.Decoded(BlockAt(f, j)).Ok? {
          if j > 0 { assert BlockAt(rest, j - 1) == BlockAt(f, j); }
        }
      }
      if Sound(f) {
        forall j | 0 <= j && 4096 * j + 4096 <= |rest| ensures Block.Decoded(BlockAt(rest, j)).Ok? {
          assert BlockAt(rest, j) == BlockAt(f, j + 1);
        }
      }
    }
  }

  /** A shard counts as missing exactly if its file is missing, torn, has a block that does not decode, or has
      no bytes. */
  lemma {:induction false} MissingExactly(f: Option<seq<byte>>)
    ensures ReadBack(f).None? <==> f.None? || !Sound(f.value) || Payloads(f.value) == Some([])
    ensures ReadBack(f).Some? ==> ReadBack(f) == Payloads(f.value)
  {
    hide Payloads, Sound;
    if f.Some? { PayloadsExactly(f.value); }
  }

  // ----- splitting data into shards and joining them again

  lemma {:induction false} CeilBound(n: nat, k: nat)
    requires k >= 1
    ensures (n + k - 1) / k <= n
  {
    var q := (n + k - 1) / k;
    assert k * q <= n + k - 1;
    if n < q { Monotone(k, n + 1, q); Monotone(n, 1, k); }
  }

  lemma {:induction false} Monotone(k: nat, a: nat, b: nat)
    requires a <= b
    ensures k * a <= k * b && a * k <= b * k
  {
  }

  /** The smallest length with which k shards hold n bytes. */
  function ShardLength(n: nat, k: nat): (len: nat)
    requires k >= 1
    ensures len <= n && n <= k * len && (len > 0 ==> k * (len - 1) < n)
  {
    CeilBound(n, k);
    CeilExact(n, k);
    (n + k - 1) / k
  }

  lemma {:induction false} CeilExact(n: nat, k: nat)
    requires k >= 1
    ensures var q := (n + k - 1) / k; n <= k * q && (q > 0 ==> k * (q - 1) < n)
  {
    var q, r := (n + k - 1) / k, (n + k - 1) % k;
    assert n + k - 1 == k * q + r;
    if q > 0 { assert k * (q - 1) == k * q - k; }
  }

  function Min(a: nat, b: nat): nat {
    if a < b then a else b
  }

  /** Bytes i * len .. (i + 1) * len of the data, as far as there are any, then zeros. */
  function Piece(data: seq<byte>, len: nat, i: nat): (s: seq<byte>)
    ensures |s| == len
  {
    PieceAt(data, len, i * len)
  }

  function PieceAt(data: seq<byte>, len: nat, start: nat): (s: seq<byte>)
    ensures |s| == len
  {
    if start < |data| then
      var copy := Min(|data| - start, len);
      data[start..start + copy] + Padding(len - copy)
    else Padding(len)
  }

  /** Data shard i: shard 0 starts with the data length, the others end with eight zeros. */
  function DataShard(data: seq<byte>, k: nat, i: nat): (s: Shard)
    requires k >= 1
    ensures |s| == ShardLength(|data|, k) + LEN_PREFIX
  {
    var len := ShardLength(|data|, k);
    if i == 0 then LittleEndian(|data|, LEN_PREFIX) + Piece(data, len, 0)
    else Piece(data, len, i) + Padding(LEN_PREFIX)
  }

  function DataShards(data: seq<byte>, k: nat): (s: seq<Shard>)
    requires k >= 1
    ensures EqualLength(s, k, ShardLength(|data|, k) + LEN_PREFIX)
  {
    seq(k, i requires 0 <= i < k => DataShard(data, k, i))
  }

  /** The pieces 0..n laid end to end. */
  function Joined(data: seq<byte>, len: nat, n: nat): seq<byte> {
    if n == 0 then [] else Joined(data, len, n - 1) + Piece(data, len, n - 1)
  }

  lemma {:induction false} JoinedIsData(data: seq<byte>, len: nat, n: nat)
    ensures |Joined(data, len, n)| == n * len
    ensures var m := Min(n * len, |data|); Joined(data, len, n)[..m] == data[..m]
  {
    if n > 0 {
      JoinedIsData(data, len, n - 1);
      assert n * len == (n - 1) * len + len;
      hide PieceAt;
      AnotherPiece(data, Joined(data, len, n - 1), len);
    }
  }

  /** A prefix of the data, followed by the data's next part and padding, is a longer prefix of it. */
  lemma {:induction false} LongerPrefix<T>(data: seq<T>, before: seq<T>, part: seq<T>, padding: seq<T>)
    requires |before| + |part| <= |data| && before == data[..|before|] && part == data[|before|..|before| + |part|]
    ensures (before + (part + padding))[..|before| + |part|] == data[..|before| + |part|]
  {
  }

  lemma {:induction false} OnlyPadding<T>(data: seq<T>, before: seq<T>, padding: seq<T>)
    requires |data| <= |before| && before[..|data|] == data[..|data|]
    ensures (before + padding)[..|data|] == data[..|data|]
  {
  }

  /** One more piece of the data, or of the padding after it. */
  lemma {:induction false} AnotherPiece(data: seq<byte>, before: seq<byte>, len: nat)
    requires before[..Min(|before|, |data|)] == data[..Min(|before|, |data|)]
    ensures var m := Min(|before| + len, |data|); (before + PieceAt(data, len, |before|))[..m] == data[..m]
  {
    hide Padding;
    var start := |before|;
    if start < |data| {
      var copy := Min(|data| - start, len);
      assert before[..start] == before;
      LongerPrefix(data, before, data[start..start + copy], Padding(len - copy));
    } else {
      OnlyPadding(data, before, Padding(len));
    }
  }

  lemma {:induction false} ShardsCoverData(n: nat, k: nat)
    requires k >= 1
    ensures n <= k * ShardLength(n, k)
  {
    var q, r := (n + k - 1) / k, (n + k - 1) % k;
    assert n + k - 1 == k * q + r;
  }

  /** The data shards, byte by byte: shard 0 has the length of the data in its first eight bytes, and then the first
      bytes of the data; shard i has the bytes from i * len on and eight zeros behind; zeros fill what is left. */
  lemma {:induction false} DataShardBytes(data: seq<byte>, k: nat, i: nat, p: nat)
    requires i < k
    ensures var s, len := DataShard(data, k, i), ShardLength(|data|, k);
      && |s| == len + 8 && Format.Little(if i == 0 then s[..8] else s[len..], if i == 0 then |data| else 0)
      && (p < len ==> s[if i == 0 then 8 + p else p] == if i * len + p < |data| then data[i * len + p] else 0)
  {
    hide ShardLength, Format.Little, LittleEndian;
    var s, len := DataShard(data, k, i), ShardLength(|data|, k);
    if p < len { PieceByte(data, len, i * len, p); }
    if i == 0 {
      Format.LittleEndianIs(|data|, 8);
      assert s[..8] == LittleEndian(|data|, 8);
      assert s[8..] == Piece(data, len, 0);
      if p < len { assert s[8 + p] == s[8..][p]; }
    } else {
      assert s[len..] == Padding(8);
      if p < len { assert s[p] == Piece(data, len, i)[p]; }
      ZeroBytes();
    }
  }

  lemma {:induction false} PieceByte(data: seq<byte>, len: nat, start: nat, p: nat)
    requires p < len
    ensures PieceAt(data, len, start)[p] == if start + p < |data| then data[start + p] else 0
  {
  }

  lemma {:induction false} ZeroBytes()
    ensures Format.Little(Padding(8), 0)
  {
    forall i | 0 <= i < 8 ensures Format.Digit(0, i) == 0 { ZeroDigit(i); }
  }

  lemma {:induction false} ZeroDigit(i: nat)
    ensures Format.Digit(0, i) == 0
  {
    if i > 0 { ZeroDigit(i - 1); }
  }

  /** The file of a shard, block by block: block j has the bytes from 4072 * j on, j as its LSN and no flags. */
  lemma {:induction false} ShardFileBytes(shard: Shard, i: nat, j: nat)
    requires i + |shard| < 0x1_0000_0000_0000_0000 && 4072 * j < |shard|
    ensures var f, end := FileBytes(shard, i), Min(4072 * j + 4072, |shard|);
      4096 * j + 4096 <= |f| && f[4096 * j..4096 * j + 4096] == Block.Encoded(i + j, shard[4072 * j..end], 0)
    decreases j
  {
    hide Block.Encoded;
    var f := FileBytes(shard, i);
    if |shard| <= 4072 {
      assert j == 0 && shard[0..|shard|] == shard && f[0..4096] == f;
    } else {
      var head, tail := shard[..4072], shard[4072..];
      var first, rest := Block.Encoded(i, head, 0), FileBytes(tail, i + 1);
      assert f == first + rest;
      if j == 0 {
        assert f[0..4096] == first;
      } else {
        ShardFileBytes(tail, i + 1, j - 1);
        var end := Min(4072 * j + 4072, |shard|);
        assert tail[4072 * (j - 1)..end - 4072] == shard[4072 * j..end];
        assert f[4096 * j..4096 * j + 4096] == rest[4096 * (j - 1)..4096 * (j - 1) + 4096];
      }
    }
  }

  lemma {:induction false} ShardFileLength(shard: Shard, i: nat)
    requires i + |shard| < 0x1_0000_0000_0000_0000
    ensures |FileBytes(shard, i)| == 4096 * ((|shard| + 4071) / 4072)
    decreases |shard|
  {
    hide Block.Encoded;
    if |shard| > 4072 { ShardFileLength(shard[4072..], i + 1); }
  }

  /** What the reader makes of k data shards: every piece, cut to the recorded length. */
  function Reassemble(shards: seq<Shard>, k: nat): Option<seq<byte>>
    requires 1 <= k <= |shards|
  {
    var first := shards[0];
    if |first| < LEN_PREFIX then None
    else
      var dataLen := Number(first[..LEN_PREFIX]);
      var len := |first| - LEN_PREFIX;
      if dataLen > len * k then None
      else if exists i :: 0 <= i < k && |shards[i]| != |first| then None
      else Some(Bodies(shards, len, k)[..dataLen])
  }

  /** The data bytes of the first n shards. */
  function Bodies(shards: seq<Shard>, len: nat, n: nat): (s: seq<byte>)
    requires n <= |shards| && forall i :: 0 <= i < n ==> |shards[i]| == len + LEN_PREFIX
    ensures |s| == len * n
  {
    if n == 0 then []
    else
      assert len * n == len * (n - 1) + len;
      Bodies(shards, len, n - 1) + (if n == 1 then shards[0][LEN_PREFIX..] else shards[n - 1][..len])
  }

  lemma {:induction false} BodiesOfDataShards(data: seq<byte>, k: nat, n: nat, shards: seq<Shard>)
    requires k >= 1 && n <= k <= |shards|
    requires forall i :: 0 <= i < k ==>
      shards[i] == DataShard(data, k, i) && |shards[i]| == ShardLength(|data|, k) + LEN_PREFIX
    ensures Bodies(shards, ShardLength(|data|, k), n) == Joined(data, ShardLength(|data|, k), n)
  {
    hide ShardLength, Piece, LittleEndian, Padding;
    if n > 0 {
      BodiesOfDataShards(data, k, n - 1, shards);
      var len := ShardLength(|data|, k);
      assert shards[0][LEN_PREFIX..] == Piece(data, len, 0);
      if n > 1 { assert shards[n - 1][..len] == Piece(data, len, n - 1); }
    }
  }

  lemma {:induction false} ReassembleDataShards(data: seq<byte>, k: nat, shards: seq<Shard>)
    requires k >= 1 && k <= |shards| && |data| < 0x1_0000_0000_0000_0000
    requires forall i :: 0 <= i < k ==> shards[i] == DataShard(data, k, i)
    ensures Reassemble(shards, k) == Some(data)
  {
    var len := ShardLength(|data|, k);
    BodiesOfDataShards(data, k, k, shards);
    JoinedIsData(data, len, k);
    ShardsCoverData(|data|, k);
    hide ShardLength, Piece, Bodies, Joined;
    assert shards[0][..LEN_PREFIX] == LittleEndian(|data|, LEN_PREFIX);
    Widths();
    LittleEndianRoundTrip(|data|, LEN_PREFIX);
    assert data[..|data|] == data;
    assert len * k == k * len;
  }

  // ----- the stripe

  ghost predicate Fits(data: seq<byte>) {
    |data| + 8 < 0x1_0000_0000_0000_0000
  }

  /** Shard i of the stripe that stores `data`. */
  ghost function StripeShard(enc: Linear.Mat, data: seq<byte>, k: nat, i: nat): Shard
    requires k >= 1 && i < |enc| && Linear.Shaped(enc, |enc|, k)
  {
    Encoded(enc, DataShards(data, k), ShardLength(|data|, k) + LEN_PREFIX, i)
  }

  /** Every shard that could be read is the one that was written for `data`. */
  ghost predicate Intact(enc: Linear.Mat, data: seq<byte>, k: nat, m: nat, shards: seq<Option<Shard>>)
    requires k >= 1 && Linear.Shaped(enc, k + m, k)
  {
    Fits(data) && |shards| == k + m &&
    forall i :: 0 <= i < k + m && shards[i].Some? ==> shards[i].value == StripeShard(enc, data, k, i)
  }

  /** Files as written, apart from those that are gone or no longer decode, read back as an intact stripe. */
  lemma {:induction false} WrittenReadsIntact(enc: Linear.Mat, data: seq<byte>, k: nat, m: nat,
                                              files: seq<Option<seq<byte>>>, found: seq<Option<Shard>>)
    requires k >= 1 && Linear.Shaped(enc, k + m, k) && Fits(data) && |files| == |found| == k + m
    requires forall i :: 0 <= i < k + m ==> found[i] == ReadBack(files[i])
    requires forall i :: 0 <= i < k + m ==>
      files[i] == Some(FileBytes(StripeShard(enc, data, k, i), 0)) || ReadBack(files[i]).None?
    ensures Intact(enc, data, k, m, found)
    ensures forall i :: 0 <= i < k + m ==> (found[i].None? <==> ReadBack(files[i]).None?)
  {
    hide Payloads, FileBytes, Encoded, ShardLength;
    forall i | 0 <= i < k + m && found[i].Some? ensures found[i].value == StripeShard(enc, data, k, i) {
      PayloadsOfFile(StripeShard(enc, data, k, i), 0);
    }
  }

  /** Reading survives any m losses: with k shards left, the rebuilt data shards reassemble to the data. */
  lemma {:induction false} StripeSurvives(enc: Linear.Mat, data: seq<byte>, k: nat, m: nat, before: seq<Option<Shard>>,
                                          after: seq<Option<Shard>>, found: seq<Shard>, len: nat)
    requires k >= 1 && k + m <= 255 && Vandermonde.Systematic(enc, k, m) && Linear.Shaped(enc, k + m, k)
    requires Intact(enc, data, k, m, before) && |after| == |before|
    requires Expected(before, k, m) == Ok
    requires EqualLength(found, k, len) && Filled(enc, k, m, before, after, found, len)
    ensures forall i :: 0 <= i < k ==> after[i] == Some(DataShard(data, k, i))
  {
    hide Vandermonde.Systematic, Encoded, ShardLength, DataShard;
    var s := Survivors(before, k);
    var d := DataShards(data, k);
    assert before[s[0]].value == Encoded(enc, found, len, s[0]);
    assert before[s[0]].value == StripeShard(enc, data, k, s[0]);
    assert len == ShardLength(|data|, k) + LEN_PREFIX;
    ReconstructionExact(enc, k, m, before, after, found, d, len);
    forall i | 0 <= i < k ensures after[i] == Some(DataShard(data, k, i)) {
      DataPassesThrough(enc, k, m, d, len, i);
    }
  }

  /** The outcome of a reconstruction for data d: the data shards if enough survived, else a refusal. */
  ghost predicate RestoredTo(d: seq<byte>, k: nat, enough: bool, ok: bool, dataShards: seq<Shard>)
    requires k >= 1
  {
    ok == enough && (ok ==> |dataShards| == k && forall i :: 0 <= i < k ==> dataShards[i] == DataShard(d, k, i))
  }

  ghost predicate Restored(enc: Linear.Mat, k: nat, m: nat, before: seq<Option<Shard>>, ok: bool,
                           dataShards: seq<Shard>)
    requires k >= 1 && Linear.Shaped(enc, k + m, k) && |before| == k + m
  {
    forall d: seq<byte> :: Intact(enc, d, k, m, before) ==>
      RestoredTo(d, k, |Indices(before, k + m, false)| <= m, ok, dataShards)
  }

  /** What a read returns: the data, if at most m shards are missing or damaged, and nothing otherwise. */
  ghost predicate Recovered(enc: Linear.Mat, k: nat, m: nat, found: seq<Option<Shard>>, data: Option<seq<byte>>)
    requires k >= 1 && Linear.Shaped(enc, k + m, k) && |found| == k + m
  {
    forall d: seq<byte> :: Intact(enc, d, k, m, found) ==>
      data == if |Indices(found, k + m, false)| <= m then Some(d) else None
  }

  lemma {:induction false} EnoughIsOk(enc: Linear.Mat, data: seq<byte>, k: nat, m: nat, shards: seq<Option<Shard>>)
    requires k >= 1 && Linear.Shaped(enc, k + m, k) && Intact(enc, data, k, m, shards)
    requires |Indices(shards, |shards|, false)| <= m
    ensures Expected(shards, k, m) == Ok
  {
    hide Indices, ShardLength;
    PresentAndMissing(shards, |shards|);
    var s := Survivors(shards, k);
    forall i | 0 <= i < k ensures |shards[s[i]].value| == ShardLength(|data|, k) + LEN_PREFIX {
      assert shards[s[i]].value == StripeShard(enc, data, k, s[i]);
    }
  }

  /** The shard files, by node and stripe. */
  class NodeDirs {
    var files: map<(nat, u64), seq<byte>>

    function Find(node: nat, id: u64): Option<seq<byte>>
      reads this
    {
      if (node, id) in files then Some(files[(node, id)]) else None
    }

    /** What reading stripe `id` finds on nodes 0..n. */
    ghost function Readable(id: u64, n: nat): (s: seq<Option<Shard>>)
      reads this
      ensures |s| == n && forall i :: 0 <= i < n ==> s[i] == ReadBack(Find(i, id))
    {
      seq(n, i requires 0 <= i < n reads this => ReadBack(Find(i, id)))
    }
  }

  method EncodeShard(tables: Crc32c.Tables, shard: Shard) returns (f: seq<byte>)
    requires tables.Valid() && |shard| < 0x1_0000_0000_0000_0000
    ensures f == FileBytes(shard, 0)
  {
    hide Crc32c.Tables.Valid, Block.Encoded, FileBytes;
    f := [];
    assert shard[0..] == shard && f + FileBytes(shard, 0) == FileBytes(shard, 0);
    var pos, i := 0, 0;
    var blk := new byte[Block.SIZE];
    while pos < |shard|
      invariant 0 <= i <= pos <= |shard| && tables.Valid()
      invariant FileBytes(shard, 0) == f + FileBytes(shard[pos..], i)
      decreases |shard| - pos
    {
      var next := Min(pos + Block.PAYLOAD_MAX, |shard|);
      var ok := BlockCodec.Encode(tables, blk, i, shard[pos..next], 0);
      NextBlock(shard, pos, next, i);
      assert f + (blk[..] + FileBytes(shard[next..], i + 1)) == f + blk[..] + FileBytes(shard[next..], i + 1);
      f := f + blk[..];
      pos, i := next, i + 1;
    }
    assert shard[pos..] == [] && f + [] == f;
    assert FileBytes([], i) == [] by { NoBlocks(i); }
  }

  lemma {:induction false} NoBlocks(i: nat)
    requires i < 0x1_0000_0000_0000_0000
    ensures FileBytes([], i) == []
  {
  }

  lemma {:induction false} NextBlock(shard: Shard, pos: nat, next: nat, i: nat)
    requires pos < |shard| < 0x1_0000_0000_0000_0000 && i <= pos && next == Min(pos + Block.PAYLOAD_MAX, |shard|)
    ensures FileBytes(shard[pos..], i) == Block.Encoded(i, shard[pos..next], 0) + FileBytes(shard[next..], i + 1)
  {
    hide Block.Encoded;
    if next == |shard| {
      assert shard[pos..next] == shard[pos..];
      assert shard[next..] == [];
    } else {
      assert shard[pos..][..Block.PAYLOAD_MAX] == shard[pos..next];
      assert shard[pos..][Block.PAYLOAD_MAX..] == shard[next..];
    }
  }

  method DecodeShard(tables: Crc32c.Tables, f: seq<byte>) returns (shard: Option<Shard>)
    requires tables.Valid()
    ensures shard == ReadBack(Some(f))
  {
    hide Crc32c.Tables.Valid, Block.Decoded;
    var out: Shard := [];
    var pos := 0;
    assert f[0..] == f && (Payloads(f).Some? ==> [] + Payloads(f).value == Payloads(f).value);
    while pos < |f|
      invariant 0 <= pos <= |f|
      invariant var rest := Payloads(f[pos..]);
        Payloads(f) == if rest.None? then None else Some(out + rest.value)
      decreases |f| - pos
    {
      if |f| - pos < Block.SIZE {
        return None;
      }
      var blk := new byte[Block.SIZE](j requires 0 <= j < Block.SIZE => f[pos + j]);
      assert blk[..] == f[pos..][..Block.SIZE];
      var decoded := BlockCodec.Decode(tables, blk);
      if !decoded.Ok? {
        return None;
      }
      assert f[pos..][Block.SIZE..] == f[pos + Block.SIZE..];
      ghost var rest := Payloads(f[pos + Block.SIZE..]);
      assert rest.Some? ==> out + (decoded.payload + rest.value) == (out + decoded.payload) + rest.value;
      out := out + decoded.payload;
      pos := pos + Block.SIZE;
    }
    assert f[pos..] == [] && out + [] == out;
    if out == [] {
      return None;
    }
    return Some(out);
  }

  class StripeIo {
    const rs: ReedSolomon
    const tables: Crc32c.Tables

    ghost predicate Valid()
      reads rs.matrix.data, tables.tbl
    {
      rs.Valid() && tables.Valid()
    }

    constructor (k: nat, m: nat)
      requires k >= 1 && m >= 1 && k + m <= 255
      ensures Valid() && rs.k == k && rs.m == m
    {
      rs := new ReedSolomon(k, m);
      tables := new Crc32c.Tables();
    }

    /** The k data shards and the m parity shards. */
    method CodeShards(data: seq<byte>) returns (all: seq<Shard>)
      requires Valid() && Fits(data)
      ensures |all| == rs.k + rs.m
      ensures forall i :: 0 <= i < |all| ==> all[i] == StripeShard(rs.matrix.Value(), data, rs.k, i)
    {
      var k := rs.k;
      var shards := seq(k, i requires 0 <= i < k => DataShard(data, k, i));
      assert shards == DataShards(data, k);
      var parity := rs.Encode(shards);
      all := shards + parity;
      hide Vandermonde.Systematic, Encoded, DataShard, ReedSolomon.RowTables;
      forall i | 0 <= i < k ensures all[i] == StripeShard(rs.matrix.Value(), data, k, i) {
        DataPassesThrough(rs.matrix.Value(), k, rs.m, shards, |shards[0]|, i);
      }
    }

    /** Writes one file per node, replacing what the stripe had there before. */
    method Write(dirs: NodeDirs, id: u64, data: seq<byte>)
      requires Valid() && Fits(data)
      modifies dirs
      ensures forall i :: 0 <= i < rs.k + rs.m ==>
        dirs.Find(i, id) == Some(FileBytes(StripeShard(rs.matrix.Value(), data, rs.k, i), 0))
      ensures forall node: nat, other: u64 :: other != id || node >= rs.k + rs.m ==>
        dirs.Find(node, other) == old(dirs.Find(node, other))
    {
      var all := CodeShards(data);
      hide Valid;
      WriteFiles(tables, dirs, id, all, ShardLength(|data|, rs.k) + LEN_PREFIX);
    }

    static method WriteFiles(tables: Crc32c.Tables, dirs: NodeDirs, id: u64, all: seq<Shard>, ghost len: nat)
      requires tables.Valid() && EqualLength(all, |all|, len) && len < 0x1_0000_0000_0000_0000
      modifies dirs
      ensures forall i :: 0 <= i < |all| ==> dirs.Find(i, id) == Some(FileBytes(all[i], 0))
      ensures forall node: nat, other: u64 :: other != id || node >= |all| ==>
        dirs.Find(node, other) == old(dirs.Find(node, other))
    {
      hide Crc32c.Tables.Valid, FileBytes;
      for node := 0 to |all|
        invariant tables.Valid()
        invariant forall i :: 0 <= i < node ==> dirs.Find(i, id) == Some(FileBytes(all[i], 0))
        invariant forall n: nat, other: u64 :: other != id || n >= |all| ==>
          dirs.Find(n, other) == old(dirs.Find(n, other))
      {
        var f := EncodeShard(tables, all[node]);
        dirs.files := dirs.files[(node, id) := f];
      }
    }

    method ReadAll(dirs: NodeDirs, id: u64, n: nat) returns (shards: array<Option<Shard>>)
      requires tables.Valid()
      ensures fresh(shards) && shards[..] == dirs.Readable(id, n)
    {
      hide Crc32c.Tables.Valid, ReadBack;
      shards := new Option<Shard>[n](_ => None);
      for i := 0 to n
        invariant tables.Valid() && fresh(shards)
        invariant forall j :: 0 <= j < i ==> shards[j] == ReadBack(dirs.Find(j, id))
      {
        if (i, id) in dirs.files {
          var s := DecodeShard(tables, dirs.files[(i, id)]);
          shards[i] := s;
        } else {
          MissingFile();
          shards[i] := None;
        }
      }
    }

    static lemma {:induction false} MissingFile()
      ensures ReadBack(None) == None
    {
    }

    static method Assemble(shards: seq<Shard>, k: nat) returns (data: Option<seq<byte>>)
      requires 1 <= k <= |shards|
      ensures data == Reassemble(shards, k)
    {
      var first := shards[0];
      if |first| < LEN_PREFIX {
        return None;
      }
      var dataLen := Number(first[..LEN_PREFIX]);
      var len := |first| - LEN_PREFIX;
      if dataLen > len * k {
        return None;
      }
      var out := [];
      for i := 0 to k
        invariant forall j :: 0 <= j < i ==> |shards[j]| == |first|
        invariant out == Bodies(shards, len, i)
      {
        var s := shards[i];
        if |s| != |first| {
          return None;
        }
        out := out + (if i == 0 then s[LEN_PREFIX..] else s[..len]);
      }
      return Some(out[..dataLen]);
    }

    /** Fills in the missing shards and hands back the k data shards. */
    method Restore(shards: array<Option<Shard>>) returns (ok: bool, dataShards: seq<Shard>)
      requires rs.Valid() && shards.Length == rs.k + rs.m && rs.matrix.data as object != shards
      modifies shards
      ensures ok ==> |dataShards| == rs.k
      ensures Restored(rs.matrix.Value(), rs.k, rs.m, old(shards[..]), ok, dataShards)
    {
      hide Indices, Vandermonde.Systematic, ReedSolomon.RowTables, Filled, Restored, Expected, EqualLength;
      var k, m := rs.k, rs.m;
      ghost var enc, before := rs.matrix.Value(), shards[..];
      var outcome := rs.Reconstruct(shards);
      ok, dataShards := outcome == Ok, [];
      if ok {
        forall i | 0 <= i < k ensures shards[..][i].Some? {
          FilledPresent(enc, k, m, before, shards[..], i);
        }
        dataShards := Unwrap(shards, k);
      }
      RestoredFrom(enc, k, m, before, shards[..], outcome, dataShards);
    }

    static method Unwrap(shards: array<Option<Shard>>, k: nat) returns (values: seq<Shard>)
      requires k <= shards.Length && forall i :: 0 <= i < k ==> shards[..][i].Some?
      ensures |values| == k && forall i :: 0 <= i < k ==> shards[..][i] == Some(values[i])
    {
      values := [];
      for i := 0 to k
        invariant |values| == i && forall j :: 0 <= j < i ==> shards[..][j] == Some(values[j])
      {
        assert shards[..][i].Some?;
        values := values + [shards[i].value];
      }
    }

    /** Reads the stripe, rebuilding what is missing. It returns the stored data whenever at most m
        shard files are missing or damaged, and nothing when more are. */
    method Read(dirs: NodeDirs, id: u64) returns (data: Option<seq<byte>>)
      requires Valid()
      ensures Recovered(rs.matrix.Value(), rs.k, rs.m, dirs.Readable(id, rs.k + rs.m), data)
    {
      var k, m := rs.k, rs.m;
      var shards := ReadAll(dirs, id, k + m);
      ghost var enc, before := rs.matrix.Value(), shards[..];
      hide Crc32c.Tables.Valid, Restored, Recovered;
      var ok, dataShards := Restore(shards);
      data := None;
      if ok {
        data := Assemble(dataShards, k);
      }
      RecoveredFrom(enc, k, m, before, ok, dataShards, data);
    }

    static lemma {:induction false} RestoredFrom(enc: Linear.Mat, k: nat, m: nat, before: seq<Option<Shard>>,
        after: seq<Option<Shard>>,
                              outcome: Outcome, dataShards: seq<Shard>)
      requires k >= 1 && k + m <= 255 && Vandermonde.Systematic(enc, k, m) && Linear.Shaped(enc, k + m, k)
      requires |after| == |before| == k + m && outcome == Expected(before, k, m)
      requires outcome == Ok ==>
        && |dataShards| == k && (forall j :: 0 <= j < k ==> after[j] == Some(dataShards[j]))
        && exists f: seq<Shard>, len: nat :: EqualLength(f, k, len) && Filled(enc, k, m, before, after, f, len)
      ensures Restored(enc, k, m, before, outcome == Ok, dataShards)
    {
      hide Indices, Vandermonde.Systematic, Filled, StripeShard, DataShard, Intact, Expected, Linear.Shaped;
      forall d: seq<byte> | Intact(enc, d, k, m, before)
        ensures RestoredTo(d, k, |Indices(before, k + m, false)| <= m, outcome == Ok, dataShards)
      {
        ReadOutcome(enc, d, k, m, before, after, outcome);
      }
    }

    static lemma {:induction false} RecoveredFrom(enc: Linear.Mat, k: nat, m: nat, before: seq<Option<Shard>>, ok: bool,
        dataShards: seq<Shard>, data: Option<seq<byte>>)
      requires k >= 1 && Linear.Shaped(enc, k + m, k) && |before| == k + m && (ok ==> |dataShards| == k)
      requires Restored(enc, k, m, before, ok, dataShards)
      requires data == if ok then Reassemble(dataShards, k) else None
      ensures Recovered(enc, k, m, before, data)
    {
      hide Indices, StripeShard, DataShard, Reassemble;
      forall d: seq<byte> | Intact(enc, d, k, m, before)
        ensures data == if |Indices(before, k + m, false)| <= m then Some(d) else None
      {
        assert RestoredTo(d, k, |Indices(before, k + m, false)| <= m, ok, dataShards);
        if ok { ReassembleDataShards(d, k, dataShards); }
      }
    }

    static lemma {:induction false} FilledPresent(enc: Linear.Mat, k: nat, m: nat, before: seq<Option<Shard>>,
        after: seq<Option<Shard>>, i: nat)
      requires k >= 1 && Linear.Shaped(enc, k + m, k) && Expected(before, k, m) == Ok && |after| == |before| && i < k
      requires exists f: seq<Shard>, len: nat :: EqualLength(f, k, len) && Filled(enc, k, m, before, after, f, len)
      ensures after[i].Some?
    {
    }

    static lemma {:induction false} ReadOutcome(enc: Linear.Mat, d: seq<byte>, k: nat, m: nat,
        before: seq<Option<Shard>>, after: seq<Option<Shard>>, outcome: Outcome)
      requires k >= 1 && k + m <= 255 && Vandermonde.Systematic(enc, k, m) && Linear.Shaped(enc, k + m, k)
      requires Intact(enc, d, k, m, before) && |after| == |before| && outcome == Expected(before, k, m)
      requires outcome == Ok ==> exists f: seq<Shard>, len: nat ::
        EqualLength(f, k, len) && Filled(enc, k, m, before, after, f, len)
      ensures if |Indices(before, k + m, false)| <= m then outcome == Ok && forall i :: 0 <= i < k ==>
        after[i] == Some(DataShard(d, k, i))
              else outcome == TooFewShards
    {
      hide Indices, Vandermonde.Systematic, DataShard, StripeShard;
      PresentAndMissing(before, k + m);
      if |Indices(before, k + m, false)| <= m {
        EnoughIsOk(enc, d, k, m, before);
        var f: seq<Shard>, len: nat :| EqualLength(f, k, len) && Filled(enc, k, m, before, after, f, len);
        StripeSurvives(enc, d, k, m, before, after, f, len);
      }
    }
  }
}
