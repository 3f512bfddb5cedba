/** Reordering fused LoRA output weights for tensor parallelism, on the rows along the rank dimension. */
module LoraInterleave {
  import opened Wrappers

  function Sum(sizes: seq<nat>): nat {
    if sizes == [] then 0 else sizes[0] + Sum(sizes[1..])
  }

  function Concat<T>(xs: seq<seq<T>>): seq<T> {
    if xs == [] then [] else xs[0] + Concat(xs[1..])
  }

  // ----- The source's steps -----

  /** The consecutive parts of the weight, of the given sizes. */
  function Parts<T>(weight: seq<T>, sizes: seq<nat>): (parts: seq<seq<T>>)
    requires |weight| == Sum(sizes)
    ensures |parts| == |sizes|
  {
    if sizes == [] then [] else [weight[..sizes[0]]] + Parts(weight[sizes[0]..], sizes[1..])
  }

  /** `torch.split`: pieces of the given size; a zero size is only legal on, and leaves whole, an empty tensor. */
  function Split<T>(x: seq<T>, size: nat): (pieces: seq<seq<T>>)
    requires size > 0 || x == []
    ensures pieces != []
    decreases |x|
  {
    if |x| <= size then [x] else [x[..size]] + Split(x[size..], size)
  }

  function MinLength<T>(lists: seq<seq<T>>): (m: nat)
    requires lists != []
    ensures forall i :: 0 <= i < |lists| ==> m <= |lists[i]|
    ensures exists i :: 0 <= i < |lists| && m == |lists[i]|
  {
    if |lists| == 1 then |lists[0]|
    else
      var rest := MinLength(lists[1..]);
      assert forall i :: 1 <= i < |lists| ==> lists[i] == lists[1..][i - 1];
      if |lists[0]| < rest then |lists[0]| else rest
  }

  /** `zip`: stops at the shortest list. */
  function Zip<T>(lists: seq<seq<T>>): seq<seq<T>> {
    if lists == [] then []
    else seq(MinLength(lists), r requires 0 <= r < MinLength(lists) =>
           seq(|lists|, i requires 0 <= i < |lists| => lists[i][r]))
  }

  predicate Divisible(sizes: seq<nat>, tp: nat)
    requires tp > 0
  {
    forall i :: 0 <= i < |sizes| ==> sizes[i] % tp == 0
  }

  lemma {:induction false} PartSizes<T>(weight: seq<T>, sizes: seq<nat>)
    requires |weight| == Sum(sizes)
    ensures forall i :: 0 <= i < |sizes| ==> |Parts(weight, sizes)[i]| == sizes[i]
    decreases |sizes|
  {
    if sizes != [] {
      PartSizes(weight[sizes[0]..], sizes[1..]);
    }
  }

  /** Splits every part into rank chunks and interleaves them: rank 0's chunk of every part, then rank 1's, ... */
  function Interleave<T>(weight: seq<T>, tp: nat, sizes: seq<nat>): Result<seq<seq<T>>>
    requires tp > 0
  {
    if |weight| != Sum(sizes) || !Divisible(sizes, tp) then Raised
    else
      PartSizes(weight, sizes);
      var parts := Parts(weight, sizes);
      Ok(Concat(Zip(seq(|parts|, i requires 0 <= i < |parts| => Split(parts[i], |parts[i]| / tp)))))
  }

  datatype LoraModule = MlpGateUp | AttnQkv | OtherModule
  datatype ModelConfig = ModelConfig(headSize: nat, numHeads: nat, numKvHeads: nat)

  /** Sizes of the fused parts; None where the source's evenness check fails. */
  function PartSizesOf(m: LoraModule, rows: nat, tp: nat, config: ModelConfig): Option<seq<nat>> {
    match m
    case MlpGateUp => if rows % 2 != 0 then None else Some([rows / 2, rows / 2])
    case AttnQkv =>
      var q, kv := config.headSize * config.numHeads * tp, config.headSize * config.numKvHeads * tp;
      Some([q, kv, kv])
    case OtherModule => Some([])
  }

  function Prepare<T>(m: LoraModule, weight: seq<T>, tp: nat, config: ModelConfig): Result<seq<T>>
    requires tp > 0
  {
    if tp == 1 then Ok(weight)
    else
      match PartSizesOf(m, |weight|, tp, config)
      case None => Raised
      case Some(sizes) =>
        if sizes == [] then Ok(weight)
        else
          var r := Interleave(weight, tp, sizes);
          if r.Raised? then Raised else Ok(Concat(r.value))
  }

  // ----- What a rank must see -----

  /** The `r`-th of `tp` equal chunks. */
  function Chunk<T>(part: seq<T>, tp: nat, r: nat): seq<T>
    requires tp > 0 && r < tp && |part| % tp == 0
  {
    var c := |part| / tp;
    ChunkBounds(|part|, tp, r);
    part[r * c..(r + 1) * c]
  }

  /** What rank `r` needs: the `r`-th chunk of every fused part, in part order. */
  function RankShard<T>(weight: seq<T>, tp: nat, sizes: seq<nat>, r: nat): seq<T>
    requires tp > 0 && r < tp && |weight| == Sum(sizes) && Divisible(sizes, tp)
  {
    if sizes == [] then []
    else Chunk(weight[..sizes[0]], tp, r) + RankShard(weight[sizes[0]..], tp, sizes[1..], r)
  }

  /** The contiguous shard of rank `r` of a tensor sharded over `tp` ranks. */
  function Shard<T>(x: seq<T>, tp: nat, r: nat): seq<T>
    requires tp > 0 && r < tp && |x| % tp == 0
  {
    Chunk(x, tp, r)
  }

  lemma DivisibleIsProduct(n: nat, tp: nat)
    requires tp > 0 && n % tp == 0
    ensures n == tp * (n / tp)
  {
  }

  lemma ScaleMonotone(a: nat, b: nat, c: nat)
    requires a <= b
    ensures a * c <= b * c
  {
  }

  lemma ChunkBounds(n: nat, tp: nat, r: nat)
    requires tp > 0 && r < tp && n % tp == 0
    ensures 0 <= r * (n / tp) <= (r + 1) * (n / tp) <= n
  {
    DivisibleIsProduct(n, tp);
    ScaleMonotone(r, r + 1, n / tp);
    ScaleMonotone(r + 1, tp, n / tp);
  }
}
