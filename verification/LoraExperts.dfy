/** Fused modules of a mixture of experts: the experts' tensors are stacked, and narrowed, split and concatenated
    along their second dimension. */
module LoraExperts {
  import opened Wrappers
  import opened LoraInterleave
  import opened LoraProofs

  /** A stacked tensor: as many rows for every expert. */
  predicate Stacked<T>(experts: seq<seq<T>>, rows: nat) {
    forall e :: 0 <= e < |experts| ==> |experts[e]| == rows
  }

  /** The tensor along its second dimension: position `j` holds row `j` of every expert. */
  function Slices<T>(experts: seq<seq<T>>, rows: nat): seq<seq<T>>
    requires Stacked(experts, rows)
  {
    seq(rows, j requires 0 <= j < rows => seq(|experts|, e requires 0 <= e < |experts| => experts[e][j]))
  }

  /** Expert `e` of a tensor given along its second dimension. */
  function ExpertOf<T>(slices: seq<seq<T>>, e: nat): seq<T>
    requires forall j :: 0 <= j < |slices| ==> e < |slices[j]|
  {
    seq(|slices|, j requires 0 <= j < |slices| => slices[j][e])
  }

  /** The operations along the second dimension are those of `Prepare` on the slices. */
  function PrepareStacked<T>(m: LoraModule, experts: seq<seq<T>>, rows: nat, tp: nat, config: ModelConfig)
    : Result<seq<seq<T>>>
    requires tp > 0 && Stacked(experts, rows)
  {
    Prepare(m, Slices(experts, rows), tp, config)
  }

  // ----- One expert's part of every step -----

  ghost predicate Lifts<T>(whole: seq<seq<T>>, one: seq<T>, e: nat) {
    |whole| == |one| && forall j :: 0 <= j < |one| ==> e < |whole[j]| && whole[j][e] == one[j]
  }

  ghost predicate ListLifts<T>(wholes: seq<seq<seq<T>>>, ones: seq<seq<T>>, e: nat) {
    |wholes| == |ones| && forall i :: 0 <= i < |ones| ==> Lifts(wholes[i], ones[i], e)
  }

  ghost predicate ListsLift<T>(wholes: seq<seq<seq<seq<T>>>>, ones: seq<seq<seq<T>>>, e: nat) {
    |wholes| == |ones| && forall i :: 0 <= i < |ones| ==> ListLifts(wholes[i], ones[i], e)
  }

  lemma {:induction false} ConcatLifts<T>(wholes: seq<seq<seq<T>>>, ones: seq<seq<T>>, e: nat)
    requires ListLifts(wholes, ones, e)
    ensures Lifts(Concat(wholes), Concat(ones), e)
    decreases |ones|
  {
    if ones != [] {
      ConcatLifts(wholes[1..], ones[1..], e);
    }
  }

  lemma {:induction false} ConcatListLifts<T>(wholes: seq<seq<seq<seq<T>>>>, ones: seq<seq<seq<T>>>, e: nat)
    requires ListsLift(wholes, ones, e)
    ensures ListLifts(Concat(wholes), Concat(ones), e)
    decreases |ones|
  {
    if ones != [] {
      ConcatListLifts(wholes[1..], ones[1..], e);
    }
  }

  lemma {:induction false} PartsLift<T>(whole: seq<seq<T>>, one: seq<T>, sizes: seq<nat>, e: nat)
    requires Lifts(whole, one, e) && |one| == Sum(sizes)
    ensures ListLifts(Parts(whole, sizes), Parts(one, sizes), e)
    decreases |sizes|
  {
    if sizes != [] {
      PartsLift(whole[sizes[0]..], one[sizes[0]..], sizes[1..], e);
      assert Lifts(whole[..sizes[0]], one[..sizes[0]], e);
    }
  }

  lemma {:induction false} SplitLifts<T>(whole: seq<seq<T>>, one: seq<T>, size: nat, e: nat)
    requires Lifts(whole, one, e) && (size > 0 || one == [])
    ensures ListLifts(Split(whole, size), Split(one, size), e)
    decreases |one|
  {
    if |one| > size {
      SplitLifts(whole[size..], one[size..], size, e);
      assert Lifts(whole[..size], one[..size], e);
    }
  }

  lemma {:induction false} MinLengthLifts<T>(wholes: seq<seq<seq<seq<T>>>>, ones: seq<seq<seq<T>>>, e: nat)
    requires ListsLift(wholes, ones, e) && ones != []
    ensures MinLength(wholes) == MinLength(ones)
    decreases |ones|
  {
    if |ones| > 1 {
      MinLengthLifts(wholes[1..], ones[1..], e);
    }
  }

  lemma ZipLifts<T>(wholes: seq<seq<seq<seq<T>>>>, ones: seq<seq<seq<T>>>, e: nat)
    requires ListsLift(wholes, ones, e)
    ensures ListsLift(Zip(wholes), Zip(ones), e)
  {
    if ones != [] {
      MinLengthLifts(wholes, ones, e);
    }
  }

  lemma InterleaveLifts<T>(whole: seq<seq<T>>, one: seq<T>, tp: nat, sizes: seq<nat>, e: nat)
    requires tp > 0 && Lifts(whole, one, e)
    ensures Interleave(whole, tp, sizes).Ok? == Interleave(one, tp, sizes).Ok?
    ensures Interleave(one, tp, sizes).Ok? ==>
              ListLifts(Interleave(whole, tp, sizes).value, Interleave(one, tp, sizes).value, e)
  {
    if |one| == Sum(sizes) && Divisible(sizes, tp) {
      PartsLift(whole, one, sizes, e);
      PartSizes(whole, sizes);
      PartSizes(one, sizes);
      var wholes, ones := Parts(whole, sizes), Parts(one, sizes);
      var chunkedWholes := seq(|wholes|, i requires 0 <= i < |wholes| => Split(wholes[i], |wholes[i]| / tp));
      var chunkedOnes := seq(|ones|, i requires 0 <= i < |ones| => Split(ones[i], |ones[i]| / tp));
      forall i | 0 <= i < |ones| ensures ListLifts(chunkedWholes[i], chunkedOnes[i], e) {
        SplitLifts(wholes[i], ones[i], |ones[i]| / tp, e);
      }
      ZipLifts(chunkedWholes, chunkedOnes, e);
      ConcatListLifts(Zip(chunkedWholes), Zip(chunkedOnes), e);
    }
  }

  lemma PrepareLifts<T>(m: LoraModule, whole: seq<seq<T>>, one: seq<T>, tp: nat, config: ModelConfig, e: nat)
    requires tp > 0 && Lifts(whole, one, e)
    ensures Prepare(m, whole, tp, config).Ok? == Prepare(m, one, tp, config).Ok?
    ensures Prepare(m, one, tp, config).Ok? ==>
              Lifts(Prepare(m, whole, tp, config).value, Prepare(m, one, tp, config).value, e)
  {
    var sizes := PartSizesOf(m, |one|, tp, config);
    if tp > 1 && sizes.Some? && sizes.value != [] {
      InterleaveLifts(whole, one, tp, sizes.value, e);
      var r := Interleave(one, tp, sizes.value);
      if r.Ok? {
        ConcatLifts(Interleave(whole, tp, sizes.value).value, r.value, e);
      }
    }
  }

  /** Preparing a stacked tensor prepares every expert on its own: it raises exactly when preparing any one of
      them would, and otherwise each expert's rows are reordered as if it stood alone. */
  lemma PrepareStackedOutcome<T>(m: LoraModule, experts: seq<seq<T>>, rows: nat, tp: nat, config: ModelConfig, e: nat)
    requires tp > 0 && Stacked(experts, rows) && e < |experts|
    ensures PrepareStacked(m, experts, rows, tp, config).Ok? <==> Prepare(m, experts[e], tp, config).Ok?
    ensures PrepareStacked(m, experts, rows, tp, config).Ok? ==>
      var slices := PrepareStacked(m, experts, rows, tp, config).value;
      && (forall j :: 0 <= j < |slices| ==> e < |slices[j]|)
      && ExpertOf(slices, e) == Prepare(m, experts[e], tp, config).value
  {
    PrepareLifts(m, Slices(experts, rows), experts[e], tp, config, e);
  }

  /** So every rank's shard of every expert is the rank's shard of that expert's fused parts, exactly when no part
      is empty. */
  lemma ExpertShardsCorrectIff<T>(m: LoraModule, experts: seq<seq<T>>, rows: nat, tp: nat, config: ModelConfig, e: nat)
    requires tp > 1 && !m.OtherModule? && Stacked(experts, rows) && e < |experts|
    requires PrepareStacked(m, experts, rows, tp, config).Ok?
    ensures var slices := PrepareStacked(m, experts, rows, tp, config).value;
      var sizes := PartSizesOf(m, rows, tp, config);
      && sizes.Some? && Sum(sizes.value) == rows && Divisible(sizes.value, tp)
      && (forall j :: 0 <= j < |slices| ==> e < |slices[j]|)
      && (ShardsCorrect(experts[e], tp, sizes.value, ExpertOf(slices, e)) <==> AllPositive(sizes.value) || rows == 0)
  {
    PrepareStackedOutcome(m, experts, rows, tp, config, e);
    PrepareOutcome(m, experts[e], tp, config);
  }
}
