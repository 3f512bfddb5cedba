/** After interleaving and concatenation every rank's contiguous shard is exactly what it needs, the
    reordering can be undone, and nothing is lost; with the exact condition under which that holds. */
module LoraProofs {
  import opened Arithmetic
  import opened Wrappers
  import opened LoraInterleave

  // ----- Concatenation -----

  lemma {:induction false} ConcatAppend<T>(xs: seq<seq<T>>, ys: seq<seq<T>>)
    ensures Concat(xs + ys) == Concat(xs) + Concat(ys)
  {
    if xs == [] {
      assert xs + ys == ys;
    } else {
      ConcatAppend(xs[1..], ys);
      assert (xs + ys)[0] == xs[0] && (xs + ys)[1..] == xs[1..] + ys;
      assert xs[0] + (Concat(xs[1..]) + Concat(ys)) == (xs[0] + Concat(xs[1..])) + Concat(ys);
    }
  }

  function MapConcat<T>(rows: seq<seq<seq<T>>>): seq<seq<T>> {
    seq(|rows|, r requires 0 <= r < |rows| => Concat(rows[r]))
  }

  lemma {:induction false} ConcatOfConcat<T>(rows: seq<seq<seq<T>>>)
    ensures Concat(Concat(rows)) == Concat(MapConcat(rows))
  {
    if rows != [] {
      ConcatOfConcat(rows[1..]);
      ConcatAppend(rows[0], Concat(rows[1..]));
      assert MapConcat(rows)[1..] == MapConcat(rows[1..]);
    }
  }

  /** Blocks of one size sit at multiples of it. */
  lemma {:induction false} UniformBlocks<T>(xs: seq<seq<T>>, size: nat, r: nat)
    requires forall i :: 0 <= i < |xs| ==> |xs[i]| == size
    requires r < |xs|
    ensures |Concat(xs)| == |xs| * size
    ensures 0 <= r * size <= (r + 1) * size <= |Concat(xs)|
    ensures Concat(xs)[r * size..(r + 1) * size] == xs[r]
    decreases |xs|
  {
    UniformLength(xs, size);
    ScaleMonotone(r + 1, |xs|, size);
    ScaleMonotone(r, r + 1, size);
    if r > 0 {
      var rest := xs[1..];
      UniformBlocks(rest, size, r - 1);
      assert (r - 1) * size + size == r * size && r * size + size == (r + 1) * size;
      assert Concat(xs)[r * size..(r + 1) * size] == Concat(rest)[(r - 1) * size..r * size];
    }
  }

  lemma {:induction false} UniformLength<T>(xs: seq<seq<T>>, size: nat)
    requires forall i :: 0 <= i < |xs| ==> |xs[i]| == size
    ensures |Concat(xs)| == |xs| * size
    decreases |xs|
  {
    if xs != [] {
      UniformLength(xs[1..], size);
      assert (|xs| - 1) * size + size == |xs| * size;
    }
  }

  // ----- Splitting -----

  lemma SliceOfTail<T>(x: seq<T>, n: nat, lo: nat, hi: nat)
    requires n <= lo <= hi <= |x|
    ensures x[n..][lo - n..hi - n] == x[lo..hi]
  {
  }

  lemma OneFewer(k: nat, size: nat)
    requires k > 0
    ensures (k - 1) * size == k * size - size >= 0
  {
    ScaleMonotone(1, k, size);
  }

  lemma {:induction false} SplitExact<T>(x: seq<T>, size: nat, k: nat, r: nat)
    requires size > 0 && k > 0 && |x| == k * size && r < k
    ensures |Split(x, size)| == k
    ensures 0 <= r * size <= (r + 1) * size <= |x| && Split(x, size)[r] == x[r * size..(r + 1) * size]
    decreases k
  {
    ScaleMonotone(r + 1, k, size);
    ScaleMonotone(r, r + 1, size);
    if k > 1 {
      ScaleMonotone(2, k, size);
      OneFewer(k, size);
      SplitExact(x[size..], size, k - 1, if r == 0 then 0 else r - 1);
      if r > 0 {
        OneFewer(r, size);
        OneFewer(r + 1, size);
        SliceOfTail(x, size, r * size, (r + 1) * size);
      }
    }
  }

  /** The pieces of a part are its rank chunks; but an empty part is one piece however many ranks there are. */
  lemma SplitIntoChunks<T>(part: seq<T>, tp: nat, r: nat)
    requires tp > 0 && |part| % tp == 0 && r < if part == [] then 1 else tp
    ensures |part| / tp > 0 || part == []
    ensures var pieces := Split(part, |part| / tp);
      |pieces| == (if part == [] then 1 else tp) && pieces[r] == Chunk(part, tp, r)
  {
    DivisibleIsProduct(|part|, tp);
    if part != [] {
      SplitExact(part, |part| / tp, tp, r);
    }
  }

  lemma {:induction false} ChunksConcat<T>(part: seq<T>, tp: nat)
    requires tp > 0 && |part| % tp == 0
    ensures Concat(seq(tp, r requires 0 <= r < tp => Chunk(part, tp, r))) == part
  {
    var c := |part| / tp;
    DivisibleIsProduct(|part|, tp);
    PrefixChunks(part, tp, tp);
    assert part[..tp * c] == part;
  }

  lemma {:induction false} PrefixChunks<T>(part: seq<T>, tp: nat, k: nat)
    requires tp > 0 && |part| % tp == 0 && k <= tp
    ensures 0 <= k * (|part| / tp) <= |part|
    ensures Concat(seq(k, r requires 0 <= r < k => Chunk(part, tp, r))) == part[..k * (|part| / tp)]
    decreases k
  {
    var c := |part| / tp;
    DivisibleIsProduct(|part|, tp);
    ScaleMonotone(k, tp, c);
    if k > 0 {
      PrefixChunks(part, tp, k - 1);
      var shorter := seq(k - 1, r requires 0 <= r < k - 1 => Chunk(part, tp, r));
      var last := Chunk(part, tp, k - 1);
      assert seq(k, r requires 0 <= r < k => Chunk(part, tp, r)) == shorter + [last];
      ConcatAppend(shorter, [last]);
      assert Concat([last]) == last;
      assert part[..(k - 1) * c] + part[(k - 1) * c..k * c] == part[..k * c];
    }
  }

  // ----- The interleaved result -----

  function ShardSize(sizes: seq<nat>, tp: nat): nat
    requires tp > 0
  {
    if sizes == [] then 0 else sizes[0] / tp + ShardSize(sizes[1..], tp)
  }

  lemma {:induction false} ShardSizeTotal(sizes: seq<nat>, tp: nat)
    requires tp > 0 && Divisible(sizes, tp)
    ensures Sum(sizes) == tp * ShardSize(sizes, tp)
  {
    if sizes != [] {
      DivisibleIsProduct(sizes[0], tp);
      assert Divisible(sizes[1..], tp) by { assert forall i :: 0 <= i < |sizes[1..]| ==> sizes[1..][i] == sizes[i + 1]; }
      ShardSizeTotal(sizes[1..], tp);
      assert tp * (sizes[0] / tp) + tp * ShardSize(sizes[1..], tp) == tp * (sizes[0] / tp + ShardSize(sizes[1..], tp));
    }
  }

  lemma {:induction false} RankShardSize<T>(weight: seq<T>, tp: nat, sizes: seq<nat>, r: nat)
    requires tp > 0 && r < tp && |weight| == Sum(sizes) && Divisible(sizes, tp)
    ensures |RankShard(weight, tp, sizes, r)| == ShardSize(sizes, tp)
    decreases |sizes|
  {
    if sizes != [] {
      var c := sizes[0] / tp;
      ChunkBounds(sizes[0], tp, r);
      assert (r + 1) * c - r * c == c;
      RankShardSize(weight[sizes[0]..], tp, sizes[1..], r);
    }
  }

  predicate AllPositive(sizes: seq<nat>) {
    forall i :: 0 <= i < |sizes| ==> sizes[i] > 0
  }

  /** How many ranks' rows the zip yields. */
  function Rows(sizes: seq<nat>, tp: nat): nat {
    if AllPositive(sizes) then tp else 1
  }

  lemma {:induction false} ConcatChunksOfParts<T>(weight: seq<T>, tp: nat, sizes: seq<nat>, r: nat)
    requires tp > 0 && r < tp && |weight| == Sum(sizes) && Divisible(sizes, tp)
    ensures forall i :: 0 <= i < |sizes| ==> |Parts(weight, sizes)[i]| == sizes[i]
    ensures Concat(seq(|sizes|, i requires 0 <= i < |sizes| => Chunk(Parts(weight, sizes)[i], tp, r)))
            == RankShard(weight, tp, sizes, r)
    decreases |sizes|
  {
    PartSizes(weight, sizes);
    if sizes != [] {
      var rest, restSizes := weight[sizes[0]..], sizes[1..];
      ConcatChunksOfParts(rest, tp, restSizes, r);
      var chunks := seq(|sizes|, i requires 0 <= i < |sizes| => Chunk(Parts(weight, sizes)[i], tp, r));
      assert chunks[1..] == seq(|restSizes|, i requires 0 <= i < |restSizes| => Chunk(Parts(rest, restSizes)[i], tp, r));
    }
  }

  function Pieces<T>(weight: seq<T>, tp: nat, sizes: seq<nat>): seq<seq<seq<T>>>
    requires tp > 0 && |weight| == Sum(sizes) && Divisible(sizes, tp)
  {
    PartSizes(weight, sizes);
    var parts := Parts(weight, sizes);
    seq(|parts|, i requires 0 <= i < |parts| => Split(parts[i], |parts[i]| / tp))
  }

  /** An empty part gives one piece, any other part one piece per rank. */
  lemma {:induction false} PieceShapes<T>(weight: seq<T>, tp: nat, sizes: seq<nat>, i: nat)
    requires tp > 0 && |weight| == Sum(sizes) && Divisible(sizes, tp) && i < |sizes|
    ensures |Parts(weight, sizes)| == |sizes| == |Pieces(weight, tp, sizes)|
    ensures |Parts(weight, sizes)[i]| == sizes[i]
    ensures var piece := Pieces(weight, tp, sizes)[i];
      && |piece| == (if sizes[i] == 0 then 1 else tp)
      && forall r :: 0 <= r < |piece| ==> piece[r] == Chunk(Parts(weight, sizes)[i], tp, r)
  {
    PartSizes(weight, sizes);
    var part, piece := Parts(weight, sizes)[i], Pieces(weight, tp, sizes)[i];
    SplitIntoChunks(part, tp, 0);
    forall r | 0 <= r < |piece| ensures piece[r] == Chunk(part, tp, r) {
      SplitIntoChunks(part, tp, r);
    }
  }

  lemma {:induction false} ZippedCount<T>(weight: seq<T>, tp: nat, sizes: seq<nat>)
    requires tp > 0 && |weight| == Sum(sizes) && Divisible(sizes, tp) && sizes != []
    ensures |Zip(Pieces(weight, tp, sizes))| == Rows(sizes, tp) <= tp
  {
    var pieces := Pieces(weight, tp, sizes);
    forall i | 0 <= i < |sizes| ensures |pieces[i]| == if sizes[i] == 0 then 1 else tp {
      PieceShapes(weight, tp, sizes, i);
    }
    if !AllPositive(sizes) {
      var i :| 0 <= i < |sizes| && sizes[i] == 0;
      assert MinLength(pieces) <= |pieces[i]|;
    }
  }

  lemma {:induction false} ZippedRows<T>(weight: seq<T>, tp: nat, sizes: seq<nat>)
    requires tp > 0 && |weight| == Sum(sizes) && Divisible(sizes, tp) && sizes != []
    ensures var zipped := Zip(Pieces(weight, tp, sizes));
      && |zipped| == Rows(sizes, tp) <= tp
      && forall r :: 0 <= r < |zipped| ==> Concat(zipped[r]) == RankShard(weight, tp, sizes, r)
  {
    PartSizes(weight, sizes);
    ZippedCount(weight, tp, sizes);
    var parts, pieces := Parts(weight, sizes), Pieces(weight, tp, sizes);
    var zipped := Zip(pieces);
    forall r | 0 <= r < |zipped| ensures Concat(zipped[r]) == RankShard(weight, tp, sizes, r) {
      ConcatChunksOfParts(weight, tp, sizes, r);
      forall i | 0 <= i < |sizes| ensures zipped[r][i] == Chunk(parts[i], tp, r) {
        PieceShapes(weight, tp, sizes, i);
      }
      assert zipped[r] == seq(|sizes|, i requires 0 <= i < |sizes| => Chunk(parts[i], tp, r));
    }
  }

  /** The tensor that replaces the weight. */
  function Reordered<T>(weight: seq<T>, tp: nat, sizes: seq<nat>): seq<T>
    requires tp > 0 && |weight| == Sum(sizes) && Divisible(sizes, tp)
  {
    Concat(Interleave(weight, tp, sizes).value)
  }

  function RankShards<T>(weight: seq<T>, tp: nat, sizes: seq<nat>, count: nat): seq<seq<T>>
    requires tp > 0 && count <= tp && |weight| == Sum(sizes) && Divisible(sizes, tp)
  {
    seq(count, r requires 0 <= r < count => RankShard(weight, tp, sizes, r))
  }

  lemma ReorderedIsRankShards<T>(weight: seq<T>, tp: nat, sizes: seq<nat>)
    requires tp > 0 && |weight| == Sum(sizes) && Divisible(sizes, tp) && sizes != []
    ensures Rows(sizes, tp) <= tp
    ensures Reordered(weight, tp, sizes) == Concat(RankShards(weight, tp, sizes, Rows(sizes, tp)))
  {
    var zipped := Zip(Pieces(weight, tp, sizes));
    ZippedRows(weight, tp, sizes);
    ConcatOfConcat(zipped);
    assert MapConcat(zipped) == RankShards(weight, tp, sizes, Rows(sizes, tp));
  }

  /** Every rank's contiguous shard of the result is the concatenation of its chunk of every part. */
  ghost predicate ShardsCorrect<T>(weight: seq<T>, tp: nat, sizes: seq<nat>, out: seq<T>)
    requires tp > 0 && |weight| == Sum(sizes) && Divisible(sizes, tp)
  {
    && |out| == |weight| && |out| % tp == 0
    && forall r {:trigger Shard(out, tp, r)} :: 0 <= r < tp ==> Shard(out, tp, r) == RankShard(weight, tp, sizes, r)
  }

  lemma TotalDivisible(sizes: seq<nat>, tp: nat)
    requires tp > 0 && Divisible(sizes, tp)
    ensures Sum(sizes) % tp == 0 && Sum(sizes) / tp == ShardSize(sizes, tp)
  {
    ShardSizeTotal(sizes, tp);
    ExactQuotient(ShardSize(sizes, tp), tp);
  }

  lemma ConcatRankShardsCorrect<T>(weight: seq<T>, tp: nat, sizes: seq<nat>)
    requires tp > 0 && |weight| == Sum(sizes) && Divisible(sizes, tp)
    ensures ShardsCorrect(weight, tp, sizes, Concat(RankShards(weight, tp, sizes, tp)))
  {
    var shards, size := RankShards(weight, tp, sizes, tp), ShardSize(sizes, tp);
    forall r | 0 <= r < tp ensures |shards[r]| == size {
      RankShardSize(weight, tp, sizes, r);
    }
    UniformLength(shards, size);
    ShardSizeTotal(sizes, tp);
    TotalDivisible(sizes, tp);
    forall r | 0 <= r < tp ensures Shard(Concat(shards), tp, r) == RankShard(weight, tp, sizes, r) {
      UniformBlocks(shards, size, r);
    }
  }

  lemma EmptyShardsCorrect<T>(weight: seq<T>, tp: nat, sizes: seq<nat>)
    requires tp > 0 && |weight| == Sum(sizes) == 0 && Divisible(sizes, tp)
    ensures ShardsCorrect(weight, tp, sizes, [])
  {
    TotalDivisible(sizes, tp);
    forall r | 0 <= r < tp ensures Shard([], tp, r) == RankShard(weight, tp, sizes, r) {
      RankShardSize(weight, tp, sizes, r);
    }
  }

  lemma OneRowLength<T>(weight: seq<T>, tp: nat, sizes: seq<nat>)
    requires tp > 1 && |weight| == Sum(sizes) && Divisible(sizes, tp) && sizes != [] && !AllPositive(sizes)
    ensures |Reordered(weight, tp, sizes)| == ShardSize(sizes, tp)
    ensures |weight| > 0 ==> |Reordered(weight, tp, sizes)| < |weight|
  {
    ReorderedIsRankShards(weight, tp, sizes);
    var size := ShardSize(sizes, tp);
    RankShardSize(weight, tp, sizes, 0);
    assert RankShards(weight, tp, sizes, 1) == [RankShard(weight, tp, sizes, 0)];
    ShardSizeTotal(sizes, tp);
    ScaleMonotone(2, tp, size);
  }

  /** Sharding is right exactly when no part is empty, or all are, or there is one rank. Otherwise the empty part
      splits into a single piece, the zip stops after rank 0, and the other ranks' rows are lost. */
  lemma ShardsCorrectIff<T>(weight: seq<T>, tp: nat, sizes: seq<nat>)
    requires tp > 0 && |weight| == Sum(sizes) && Divisible(sizes, tp) && sizes != []
    ensures ShardsCorrect(weight, tp, sizes, Reordered(weight, tp, sizes))
            <==> tp == 1 || AllPositive(sizes) || Sum(sizes) == 0
  {
    if tp == 1 || AllPositive(sizes) {
      ReorderedIsRankShards(weight, tp, sizes);
      ConcatRankShardsCorrect(weight, tp, sizes);
    } else {
      OneRowLength(weight, tp, sizes);
      if Sum(sizes) == 0 {
        TotalDivisible(sizes, tp);
        assert Reordered(weight, tp, sizes) == [];
        EmptyShardsCorrect(weight, tp, sizes);
      }
    }
  }

  lemma QkvSizes()
    ensures PartSizesOf(AttnQkv, 2, 2, ModelConfig(1, 1, 0)) == Some([2, 0, 0])
    ensures Sum([2, 0, 0]) == 2 && Divisible([2, 0, 0], 2) && ShardSize([2, 0, 0], 2) == 1
  {
    var sizes: seq<nat> := [2, 0, 0];
    var two, one: seq<nat> := sizes[1..], sizes[2..];
    assert two[1..] == one && one[1..] == [] && two[0] == one[0] == 0;
    assert Sum(one) == 0 && ShardSize(one, 2) == 0;
    assert Sum(two) == two[0] + Sum(one) && ShardSize(two, 2) == two[0] / 2 + ShardSize(one, 2);
    assert Sum(sizes) == sizes[0] + Sum(two) && ShardSize(sizes, 2) == sizes[0] / 2 + ShardSize(two, 2);
  }

  /** A concrete loss: fused qkv for two ranks, with one query head and no key-value head each; one of its two rows
      is gone. */
  lemma EmptyPartLosesRows<T>(a: T, b: T)
    ensures Prepare(AttnQkv, [a, b], 2, ModelConfig(1, 1, 0)).Ok?
    ensures |Prepare(AttnQkv, [a, b], 2, ModelConfig(1, 1, 0)).value| == 1
  {
    var sizes: seq<nat> := [2, 0, 0];
    QkvSizes();
    assert sizes[1] == 0;
    OneRowLength([a, b], 2, sizes);
  }

  // ----- Undoing it -----

  /** Cuts every shard's leading chunk off, joins those into the first part, and goes on. */
  function Regroup<T>(shards: seq<seq<T>>, tp: nat, sizes: seq<nat>): seq<T>
    requires tp > 0 && |shards| == tp
    requires forall r :: 0 <= r < tp ==> |shards[r]| == ShardSize(sizes, tp)
    decreases |sizes|
  {
    if sizes == [] then []
    else
      var c := sizes[0] / tp;
      assert ShardSize(sizes, tp) == c + ShardSize(sizes[1..], tp);
      Concat(Heads(shards, c)) + Regroup(Tails(shards, c), tp, sizes[1..])
  }

  function Heads<T>(shards: seq<seq<T>>, c: nat): seq<seq<T>>
    requires forall r :: 0 <= r < |shards| ==> c <= |shards[r]|
  {
    seq(|shards|, r requires 0 <= r < |shards| => shards[r][..c])
  }

  function Tails<T>(shards: seq<seq<T>>, c: nat): seq<seq<T>>
    requires forall r :: 0 <= r < |shards| ==> c <= |shards[r]|
  {
    seq(|shards|, r requires 0 <= r < |shards| => shards[r][c..])
  }

  lemma {:induction false} FirstChunk<T>(weight: seq<T>, tp: nat, sizes: seq<nat>, r: nat)
    requires tp > 0 && r < tp && |weight| == Sum(sizes) && Divisible(sizes, tp) && sizes != []
    ensures var shard, c := RankShard(weight, tp, sizes, r), sizes[0] / tp;
      && c <= |shard| && shard[..c] == Chunk(weight[..sizes[0]], tp, r)
      && shard[c..] == RankShard(weight[sizes[0]..], tp, sizes[1..], r)
  {
    ChunkBounds(sizes[0], tp, r);
    var c := sizes[0] / tp;
    assert (r + 1) * c - r * c == c;
  }

  lemma {:induction false} RegroupRankShards<T>(weight: seq<T>, tp: nat, sizes: seq<nat>)
    requires tp > 0 && |weight| == Sum(sizes) && Divisible(sizes, tp)
    ensures forall r :: 0 <= r < tp ==> |RankShards(weight, tp, sizes, tp)[r]| == ShardSize(sizes, tp)
    ensures Regroup(RankShards(weight, tp, sizes, tp), tp, sizes) == weight
    decreases |sizes|
  {
    var shards := RankShards(weight, tp, sizes, tp);
    forall r | 0 <= r < tp ensures |shards[r]| == ShardSize(sizes, tp) {
      RankShardSize(weight, tp, sizes, r);
    }
    if sizes != [] {
      var c, first, rest := sizes[0] / tp, weight[..sizes[0]], weight[sizes[0]..];
      RegroupRankShards(rest, tp, sizes[1..]);
      forall r | 0 <= r < tp
        ensures shards[r][..c] == Chunk(first, tp, r) && shards[r][c..] == RankShard(rest, tp, sizes[1..], r)
      {
        FirstChunk(weight, tp, sizes, r);
      }
      assert Heads(shards, c) == seq(tp, r requires 0 <= r < tp => Chunk(first, tp, r));
      assert Tails(shards, c) == RankShards(rest, tp, sizes[1..], tp);
      ChunksConcat(first, tp);
    }
  }

  /** The original order, recovered from the reordered tensor. */
  function Restored<T>(out: seq<T>, tp: nat, sizes: seq<nat>): seq<T>
    requires tp > 0 && Divisible(sizes, tp) && |out| == Sum(sizes)
  {
    TotalDivisible(sizes, tp);
    var shards := seq(tp, r requires 0 <= r < tp => Shard(out, tp, r));
    ShardLengths(out, tp, sizes);
    Regroup(shards, tp, sizes)
  }

  lemma ShardLengths<T>(out: seq<T>, tp: nat, sizes: seq<nat>)
    requires tp > 0 && Divisible(sizes, tp) && |out| == Sum(sizes)
    ensures |out| % tp == 0
    ensures forall r :: 0 <= r < tp ==> |Shard(out, tp, r)| == ShardSize(sizes, tp)
  {
    TotalDivisible(sizes, tp);
    forall r | 0 <= r < tp ensures |Shard(out, tp, r)| == ShardSize(sizes, tp) {
      ChunkBounds(|out|, tp, r);
      var c := |out| / tp;
      assert (r + 1) * c - r * c == c;
    }
  }

  /** Restoring undoes reordering. */
  lemma RestoreInverts<T>(weight: seq<T>, tp: nat, sizes: seq<nat>)
    requires tp > 0 && |weight| == Sum(sizes) && Divisible(sizes, tp) && sizes != [] && AllPositive(sizes)
    ensures |Reordered(weight, tp, sizes)| == |weight|
    ensures Restored(Reordered(weight, tp, sizes), tp, sizes) == weight
  {
    var out := Reordered(weight, tp, sizes);
    ShardsCorrectIff(weight, tp, sizes);
    assert seq(tp, r requires 0 <= r < tp => Shard(out, tp, r)) == RankShards(weight, tp, sizes, tp);
    RegroupRankShards(weight, tp, sizes);
  }

  lemma {:induction false} RankShardsOfRegroup<T>(shards: seq<seq<T>>, tp: nat, sizes: seq<nat>, r: nat)
    requires tp > 0 && |shards| == tp && r < tp && Divisible(sizes, tp)
    requires forall q :: 0 <= q < tp ==> |shards[q]| == ShardSize(sizes, tp)
    ensures |Regroup(shards, tp, sizes)| == Sum(sizes)
    ensures RankShard(Regroup(shards, tp, sizes), tp, sizes, r) == shards[r]
    decreases |sizes|
  {
    if sizes != [] {
      var c := sizes[0] / tp;
      DivisibleIsProduct(sizes[0], tp);
      var heads, tails := Heads(shards, c), Tails(shards, c);
      RankShardsOfRegroup(tails, tp, sizes[1..], r);
      UniformBlocks(heads, c, r);
      var weight := Regroup(shards, tp, sizes);
      assert weight[..sizes[0]] == Concat(heads);
      assert weight[sizes[0]..] == Regroup(tails, tp, sizes[1..]);
    }
  }

  /** Reordering undoes restoring, so the reordering is a bijection on tensors of that shape. */
  lemma ReorderInverts<T>(out: seq<T>, tp: nat, sizes: seq<nat>)
    requires tp > 0 && Divisible(sizes, tp) && |out| == Sum(sizes) && sizes != [] && AllPositive(sizes)
    ensures |Restored(out, tp, sizes)| == |out|
    ensures Reordered(Restored(out, tp, sizes), tp, sizes) == out
  {
    TotalDivisible(sizes, tp);
    ShardLengths(out, tp, sizes);
    var shards := seq(tp, r requires 0 <= r < tp => Shard(out, tp, r));
    var weight := Restored(out, tp, sizes);
    forall r | 0 <= r < tp
      ensures |weight| == Sum(sizes) && RankShard(weight, tp, sizes, r) == shards[r]
    {
      RankShardsOfRegroup(shards, tp, sizes, r);
    }
    RankShardsOfRegroup(shards, tp, sizes, 0);
    ReorderedIsRankShards(weight, tp, sizes);
    assert RankShards(weight, tp, sizes, tp) == shards;
    ChunksConcat(out, tp);
    assert shards == seq(tp, r requires 0 <= r < tp => Chunk(out, tp, r));
  }

  /** With one rank the reordering is the identity, in agreement with the early return. */
  lemma OneRankIsIdentity<T>(weight: seq<T>, sizes: seq<nat>)
    requires |weight| == Sum(sizes) && sizes != []
    ensures Divisible(sizes, 1) && Reordered(weight, 1, sizes) == weight
  {
    ReorderedIsRankShards(weight, 1, sizes);
    OneRankShard(weight, sizes);
    var shards := RankShards(weight, 1, sizes, 1);
    assert shards == [weight];
  }

  lemma {:induction false} OneRankShard<T>(weight: seq<T>, sizes: seq<nat>)
    requires |weight| == Sum(sizes) && Divisible(sizes, 1)
    ensures RankShard(weight, 1, sizes, 0) == weight
    decreases |sizes|
  {
    if sizes != [] {
      OneRankShard(weight[sizes[0]..], sizes[1..]);
      assert Chunk(weight[..sizes[0]], 1, 0) == weight[..sizes[0]];
    }
  }

  // ----- Nothing is lost -----

  lemma {:induction false} ConcatMultiset<T>(shards: seq<seq<T>>, c: nat)
    requires forall r :: 0 <= r < |shards| ==> c <= |shards[r]|
    ensures multiset(Concat(shards)) == multiset(Concat(Heads(shards, c))) + multiset(Concat(Tails(shards, c)))
    decreases |shards|
  {
    if shards != [] {
      var rest := shards[1..];
      ConcatMultiset(rest, c);
      ConcatHead(Heads(shards, c), shards[0][..c], Heads(rest, c));
      ConcatHead(Tails(shards, c), shards[0][c..], Tails(rest, c));
      ConcatHead(shards, shards[0], rest);
      assert shards[0] == shards[0][..c] + shards[0][c..];
      Regrouped(multiset(shards[0][..c]), multiset(shards[0][c..]),
                multiset(Concat(Heads(rest, c))), multiset(Concat(Tails(rest, c))));
    }
  }

  lemma Regrouped<T>(a: multiset<T>, b: multiset<T>, c: multiset<T>, d: multiset<T>)
    ensures (a + b) + (c + d) == (a + c) + (b + d)
  {
  }

  /** The rows of a concatenation are those of its first part and of the others. */
  lemma {:induction false} ConcatHead<T>(xs: seq<seq<T>>, first: seq<T>, rest: seq<seq<T>>)
    requires xs != [] && xs[0] == first && xs[1..] == rest
    ensures multiset(Concat(xs)) == multiset(first) + multiset(Concat(rest))
  {
  }

  lemma {:induction false} RegroupMultiset<T>(shards: seq<seq<T>>, tp: nat, sizes: seq<nat>)
    requires tp > 0 && |shards| == tp
    requires forall r :: 0 <= r < tp ==> |shards[r]| == ShardSize(sizes, tp)
    ensures multiset(Regroup(shards, tp, sizes)) == multiset(Concat(shards))
    decreases |sizes|
  {
    if sizes == [] {
      UniformLength(shards, 0);
      assert Concat(shards) == [];
    } else {
      var c := sizes[0] / tp;
      ConcatMultiset(shards, c);
      RegroupMultiset(Tails(shards, c), tp, sizes[1..]);
    }
  }

  /** The reordered tensor is a permutation of the rows of the weight. */
  lemma ReorderedIsPermutation<T>(weight: seq<T>, tp: nat, sizes: seq<nat>)
    requires tp > 0 && |weight| == Sum(sizes) && Divisible(sizes, tp) && sizes != [] && AllPositive(sizes)
    ensures multiset(Reordered(weight, tp, sizes)) == multiset(weight)
  {
    ReorderedIsRankShards(weight, tp, sizes);
    RegroupRankShards(weight, tp, sizes);
    RegroupMultiset(RankShards(weight, tp, sizes, tp), tp, sizes);
  }

  // ----- The two fused modules -----

  /** When preparing a fused module raises, and what each rank's shard of the result is when it does not. */
  lemma PrepareOutcome<T>(m: LoraModule, weight: seq<T>, tp: nat, config: ModelConfig)
    requires tp > 1 && !m.OtherModule?
    ensures var sizes := PartSizesOf(m, |weight|, tp, config);
      Prepare(m, weight, tp, config).Ok? <==>
        sizes.Some? && Sum(sizes.value) == |weight| && Divisible(sizes.value, tp)
    ensures Prepare(m, weight, tp, config).Ok? ==>
      var sizes := PartSizesOf(m, |weight|, tp, config).value;
      (ShardsCorrect(weight, tp, sizes, Prepare(m, weight, tp, config).value)
       <==> AllPositive(sizes) || weight == [])
  {
    var sizes := PartSizesOf(m, |weight|, tp, config);
    if sizes.Some? && Sum(sizes.value) == |weight| && Divisible(sizes.value, tp) {
      ShardsCorrectIff(weight, tp, sizes.value);
    }
  }
}
