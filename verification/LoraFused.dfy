/** The two fused modules spelled out: which weights are accepted, and which rows each rank ends up with. */
module LoraFused {
  import opened Arithmetic
  import opened Wrappers
  import opened LoraInterleave
  import opened LoraProofs

  lemma PieceBounds(c: nat, tp: nat, r: nat)
    requires r < tp
    ensures r * c <= (r + 1) * c <= c * tp
  {
    ScaleMonotone(r, r + 1, c);
    ScaleMonotone(r + 1, tp, c);
  }

  /** The rows for rank `r` of a part that starts at row `start` and has `c` rows for each of `tp` ranks. */
  function Piece<T>(weight: seq<T>, start: nat, c: nat, tp: nat, r: nat): seq<T>
    requires r < tp && start + c * tp <= |weight|
  {
    PieceBounds(c, tp, r);
    weight[start + r * c..start + (r + 1) * c]
  }

  lemma PieceFurther<T>(weight: seq<T>, h: nat, start: nat, c: nat, tp: nat, r: nat)
    requires r < tp && h + start + c * tp <= |weight|
    ensures Piece(weight[h..], start, c, tp, r) == Piece(weight, h + start, c, tp, r)
  {
    PieceBounds(c, tp, r);
  }

  /** The rank's rows of a first part with `c` rows for every rank, `h` in all, and then of the other parts. */
  lemma FirstPart<T>(weight: seq<T>, tp: nat, c: nat, h: nat, rest: seq<nat>, r: nat)
    requires tp > 0 && r < tp && h == c * tp && |weight| == h + Sum(rest) && Divisible(rest, tp)
    ensures Sum([h] + rest) == |weight| && Divisible([h] + rest, tp)
    ensures RankShard(weight, tp, [h] + rest, r) == Piece(weight, 0, c, tp, r) + RankShard(weight[h..], tp, rest, r)
  {
    var sizes := [h] + rest;
    assert sizes[1..] == rest && sizes[0] == h;
    ExactQuotient(c, tp);
    forall i | 0 <= i < |sizes| ensures sizes[i] % tp == 0 {
      assert i > 0 ==> sizes[i] == rest[i - 1];
    }
    PieceBounds(c, tp, r);
    assert weight[..h][r * c..(r + 1) * c] == weight[r * c..(r + 1) * c];
  }

  lemma LastPart<T>(weight: seq<T>, tp: nat, c: nat, h: nat, r: nat)
    requires tp > 0 && r < tp && h == c * tp == |weight|
    ensures Sum([h]) == |weight| && Divisible([h], tp)
    ensures RankShard(weight, tp, [h], r) == Piece(weight, 0, c, tp, r)
  {
    FirstPart(weight, tp, c, h, [], r);
    assert [h] + [] == [h];
  }

  lemma TwoParts<T>(weight: seq<T>, tp: nat, a: nat, b: nat, h: nat, k: nat, r: nat)
    requires tp > 0 && r < tp && h == a * tp && k == b * tp && |weight| == h + k
    ensures Sum([h, k]) == |weight| && Divisible([h, k], tp)
    ensures RankShard(weight, tp, [h, k], r) == Piece(weight, 0, a, tp, r) + Piece(weight, h, b, tp, r)
  {
    LastPart(weight[h..], tp, b, k, r);
    FirstPart(weight, tp, a, h, [k], r);
    PieceFurther(weight, h, 0, b, tp, r);
    assert [h] + [k] == [h, k];
  }

  lemma ThreeParts<T>(weight: seq<T>, tp: nat, a: nat, b: nat, h: nat, k: nat, r: nat)
    requires tp > 0 && r < tp && h == a * tp && k == b * tp && |weight| == h + k + k
    ensures Sum([h, k, k]) == |weight| && Divisible([h, k, k], tp)
    ensures RankShard(weight, tp, [h, k, k], r)
      == Piece(weight, 0, a, tp, r) + (Piece(weight, h, b, tp, r) + Piece(weight, h + k, b, tp, r))
  {
    TwoParts(weight[h..], tp, b, b, k, k, r);
    FirstPart(weight, tp, a, h, [k, k], r);
    PieceFurther(weight, h, 0, b, tp, r);
    PieceFurther(weight, h, k, b, tp, r);
    assert [h] + [k, k] == [h, k, k];
  }

  /** Gate and up projections with `c` rows for every rank: rank `r` gets its rows of the first half and then of the
      second. */
  lemma GateUpRows<T>(weight: seq<T>, tp: nat, config: ModelConfig, c: nat, h: nat, r: nat)
    requires tp > 1 && r < tp && c > 0 && h == c * tp && |weight| == h + h
    ensures Prepare(MlpGateUp, weight, tp, config).Ok?
    ensures var out := Prepare(MlpGateUp, weight, tp, config).value;
      && |out| == |weight| && |out| % tp == 0
      && Shard(out, tp, r) == Piece(weight, 0, c, tp, r) + Piece(weight, h, c, tp, r)
  {
    Magnitude(c, tp);
    assert PartSizesOf(MlpGateUp, |weight|, tp, config) == Some([h, h]);
    TwoParts(weight, tp, c, c, h, h, r);
    PrepareOutcome(MlpGateUp, weight, tp, config);
    assert AllPositive([h, h]);
  }

  /** They are accepted exactly if both halves divide among the ranks. */
  lemma GateUpAccepts<T>(weight: seq<T>, tp: nat, config: ModelConfig)
    requires tp > 1
    ensures Prepare(MlpGateUp, weight, tp, config).Ok? <==> |weight| % 2 == 0 && |weight| / 2 % tp == 0
  {
    PrepareOutcome(MlpGateUp, weight, tp, config);
    if |weight| % 2 == 0 {
      var h := |weight| / 2;
      var sizes: seq<nat> := [h, h];
      assert PartSizesOf(MlpGateUp, |weight|, tp, config) == Some(sizes);
      SumOfTwo(h, h);
      assert Divisible(sizes, tp) <==> sizes[0] % tp == 0 && sizes[1] % tp == 0;
    }
  }

  lemma SumOfTwo(a: nat, b: nat)
    ensures Sum([a, b]) == a + b
  {
    assert [a, b][1..] == [b] && [b][1..] == [];
    assert Sum([b]) == b + Sum([]);
  }

  lemma SumOfThree(a: nat, b: nat, c: nat)
    ensures Sum([a, b, c]) == a + b + c
  {
    assert [a, b, c][1..] == [b, c];
    SumOfTwo(b, c);
  }

  /** Fused query, key and value: the sizes are those of one rank's heads, times the ranks. */
  lemma QkvSizesAre(rows: nat, tp: nat, config: ModelConfig, q: nat, kv: nat, h: nat, k: nat)
    requires q == config.headSize * config.numHeads && kv == config.headSize * config.numKvHeads && h == q * tp && k == kv * tp
    ensures PartSizesOf(AttnQkv, rows, tp, config) == Some([h, k, k])
  {
  }

  /** Rank `r` gets the rows of its own query heads, then of its own key heads, then of its own value heads. */
  lemma QkvRows<T>(weight: seq<T>, tp: nat, config: ModelConfig, q: nat, kv: nat, h: nat, k: nat, r: nat)
    requires q == config.headSize * config.numHeads > 0 && kv == config.headSize * config.numKvHeads > 0
    requires tp > 1 && r < tp && h == q * tp && k == kv * tp && |weight| == h + k + k
    ensures Prepare(AttnQkv, weight, tp, config).Ok?
    ensures var out := Prepare(AttnQkv, weight, tp, config).value;
      && |out| == |weight| && |out| % tp == 0
      && Shard(out, tp, r) == Piece(weight, 0, q, tp, r) + (Piece(weight, h, kv, tp, r) + Piece(weight, h + k, kv, tp, r))
  {
    QkvSizesAre(|weight|, tp, config, q, kv, h, k);
    ThreeParts(weight, tp, q, kv, h, k, r);
    Magnitude(q, tp);
    Magnitude(kv, tp);
    PrepareOutcome(AttnQkv, weight, tp, config);
    assert AllPositive([h, k, k]);
  }

  /** They are accepted exactly if there are as many rows as the heads of all ranks have. */
  lemma QkvAccepts<T>(weight: seq<T>, tp: nat, config: ModelConfig, q: nat, kv: nat, h: nat, k: nat)
    requires q == config.headSize * config.numHeads && kv == config.headSize * config.numKvHeads
    requires tp > 1 && h == q * tp && k == kv * tp
    ensures Prepare(AttnQkv, weight, tp, config).Ok? <==> |weight| == h + k + k
  {
    QkvSizesAre(|weight|, tp, config, q, kv, h, k);
    PrepareOutcome(AttnQkv, weight, tp, config);
    SumOfThree(h, k, k);
    if |weight| == h + k + k {
      ThreeParts(weight, tp, q, kv, h, k, 0);
    }
  }

  /** Any other module, and any module on a single rank, stays as it is. */
  lemma OthersUnchanged<T>(m: LoraModule, weight: seq<T>, tp: nat, config: ModelConfig)
    requires tp == 1 || (tp > 1 && m.OtherModule?)
    ensures Prepare(m, weight, tp, config) == Ok(weight)
  {
  }
}
