/** Normalising the sequence and token limits of a build, and raising them for speculative decoding. */
module TokenLimits {
  import opened Wrappers

  datatype Settings = Settings(maxBatchSize: int, maxBeamWidth: int, tokensPerBlock: int,
                               removeInputPadding: bool, contextFmha: bool, multipleProfiles: bool)

  datatype Rotary = NoScaling | Scaling(kind: Option<string>, ropeKind: Option<string>, factor: Option<real>)

  datatype ModelInfo = ModelInfo(encoder: bool, maxPositionEmbeddings: Option<int>, rotary: Rotary)

  datatype Limits = Limits(maxSeqLen: Option<int>, maxInputLen: int, maxNumTokens: Option<int>, optNumTokens: Option<int>)

  function Min(a: int, b: int): int { if a <= b then a else b }
  function Max(a: int, b: int): int { if a >= b then a else b }

  const DEFAULT_SEQ_LEN := 2048

  function Given(limit: Option<int>, default: int): int {
    if limit.Some? then limit.value else default
  }

  // ----- The token limits -----

  /** The least number of tokens a step must be able to hold. */
  function Floor(s: Settings, maxInputLen: int): int {
    if s.contextFmha then s.tokensPerBlock else maxInputLen
  }

  /** The checked limits as a clamp: what is asked for, at most a full batch, and at least the floor, which wins. */
  function Clamped(s: Settings, maxInputLen: int, maxSeqLen: int, max: Option<int>, opt: Option<int>): (Option<int>, Option<int>)
  {
    var batch := maxSeqLen * s.maxBatchSize;
    if !s.removeInputPadding then (if max == None && opt == None then None else Some(batch), opt)
    else
      var asked := Given(max, batch);
      var tokens := Max(Floor(s, maxInputLen), Min(asked, batch));
      (Some(tokens),
       if opt == None && s.multipleProfiles then None
       else Some(Min(Given(opt, Min(s.maxBatchSize * s.maxBeamWidth, asked)), tokens)))
  }

  method CheckMaxNumTokens(s: Settings, maxInputLen: int, maxSeqLen: int, max: Option<int>, opt: Option<int>)
    returns (newMax: Option<int>, newOpt: Option<int>)
    ensures (newMax, newOpt) == Clamped(s, maxInputLen, maxSeqLen, max, opt)
    ensures s.removeInputPadding ==>
      && newMax.Some? && newMax.value >= Floor(s, maxInputLen)
      && (newMax.value <= maxSeqLen * s.maxBatchSize || newMax.value == Floor(s, maxInputLen))
      && (newOpt.Some? ==> newOpt.value <= newMax.value)
  {
    newMax, newOpt := max, opt;
    if !s.removeInputPadding {
      if newMax.Some? || newOpt.Some? {
        newMax := Some(s.maxBatchSize * maxSeqLen);
      }
      return;
    }
    if newMax.None? {
      newMax := Some(maxSeqLen * s.maxBatchSize);
    }
    if newOpt.None? && !s.multipleProfiles {
      newOpt := Some(Min(s.maxBatchSize * s.maxBeamWidth, newMax.value));
    }
    if newMax.value > maxSeqLen * s.maxBatchSize {
      newMax := Some(maxSeqLen * s.maxBatchSize);
    }
    if newMax.value < maxInputLen && !s.contextFmha {
      newMax := Some(maxInputLen);
    } else if newMax.value < s.tokensPerBlock && s.contextFmha {
      newMax := Some(s.tokensPerBlock);
    }
    if newOpt.Some? && newOpt.value > newMax.value {
      newOpt := newMax;
    }
  }

  // ----- The sequence length -----

  function RotaryFactor(r: Rotary): real {
    if r.NoScaling? then 1.0
    else
      var kind := if r.kind.Some? then r.kind else r.ropeKind;
      if kind.Some? && kind.value in {"su", "longrope", "llama3"} then 1.0
      else if r.factor.Some? then r.factor.value else 1.0
  }

  function Ceil(x: real): (n: int)
    ensures n as real - 1.0 < x <= n as real
  {
    -((-x).Floor)
  }

  function DeducedSeqLen(model: ModelInfo): int {
    var base := Given(model.maxPositionEmbeddings, DEFAULT_SEQ_LEN);
    var factor := RotaryFactor(model.rotary);
    if factor == 1.0 then base else Ceil(base as real * factor)
  }

  /** An encoder must have equal input and sequence lengths when both are given. */
  predicate Refused(model: ModelInfo, l: Limits) {
    model.encoder && l.maxSeqLen.Some? && l.maxSeqLen.value != l.maxInputLen
  }

  function SeqLen(model: ModelInfo, l: Limits): int {
    Given(l.maxSeqLen, if model.encoder then l.maxInputLen else DeducedSeqLen(model))
  }

  function Normalised(model: ModelInfo, s: Settings, l: Limits): Limits
  {
    var seqLen := SeqLen(model, l);
    var inputLen := Min(l.maxInputLen, seqLen);
    var tokens := Clamped(s, inputLen, seqLen, l.maxNumTokens, l.optNumTokens);
    Limits(Some(seqLen), inputLen, tokens.0, tokens.1)
  }

  // ----- Speculative decoding -----

  datatype Mode = NoSpeculation | Eagle | ExplicitDraftTokens | OtherMode

  /** Attributes a model config may lack. */
  datatype DraftInfo = DraftInfo(maxDraftLen: Option<nat>, redrafter: Option<(nat, nat)>, eagleLayers: Option<nat>)

  function DraftLen(d: DraftInfo, given: nat): nat {
    if d.redrafter.Some? then d.redrafter.value.0 * d.redrafter.value.1
    else if d.maxDraftLen.Some? && given == 0 then d.maxDraftLen.value else given
  }

  function ModeOf(d: DraftInfo, given: Mode): Mode {
    if d.redrafter.Some? then ExplicitDraftTokens else given
  }

  /** Raises where a missing attribute or an unset token limit is used. */
  function Speculated(s: Settings, d: DraftInfo, mode: Mode, draftLen: nat, l: Limits): Result<Limits>
    requires l.maxSeqLen.Some?
  {
    var mode, draft := ModeOf(d, mode), DraftLen(d, draftLen);
    if mode.NoSpeculation? then Ok(l)
    else if mode.Eagle? && d.eagleLayers.None? then Raised
    else if l.maxNumTokens.None? then Raised
    else
      var layers := if mode.Eagle? then d.eagleLayers.value else 0;
      Ok(l.(maxSeqLen := Some(l.maxSeqLen.value + draft + layers),
            maxNumTokens := Some(Max(l.maxNumTokens.value, s.maxBatchSize * (draft + 1)))))
  }

  // ----- The build config, changed in place -----

  class BuildConfig {
    const settings: Settings
    var maxSeqLen: Option<int>
    var maxInputLen: int
    var maxNumTokens: Option<int>
    var optNumTokens: Option<int>

    constructor (settings: Settings, l: Limits)
      ensures this.settings == settings && Contents() == l
    {
      this.settings := settings;
      maxSeqLen, maxInputLen, maxNumTokens, optNumTokens := l.maxSeqLen, l.maxInputLen, l.maxNumTokens, l.optNumTokens;
    }

    function Contents(): Limits
      reads this
    {
      Limits(maxSeqLen, maxInputLen, maxNumTokens, optNumTokens)
    }

    /** The source's last assertions, that the input fits the sequence, cannot fail. */
    method InitMaxSeqLen(model: ModelInfo) returns (ok: bool)
      modifies this
      ensures ok <==> !Refused(model, old(Contents()))
      ensures Contents() == if ok then Normalised(model, settings, old(Contents())) else old(Contents())
      ensures ok ==> maxSeqLen.Some? && maxInputLen <= maxSeqLen.value
    {
      if model.encoder {
        if maxSeqLen.None? {
          maxSeqLen := Some(maxInputLen);
        }
        if maxInputLen != maxSeqLen.value {
          return false;
        }
      }
      if maxSeqLen.None? {
        maxSeqLen := Some(DeducedSeqLen(model));
      }
      if maxInputLen > maxSeqLen.value {
        maxInputLen := maxSeqLen.value;
      }
      maxNumTokens, optNumTokens :=
        CheckMaxNumTokens(settings, maxInputLen, maxSeqLen.value, maxNumTokens, optNumTokens);
      return true;
    }

    /** A build that raises here has already lengthened the sequence. */
    method Speculate(d: DraftInfo, mode: Mode, draftLen: nat) returns (ok: bool)
      requires maxSeqLen.Some?
      modifies this
      ensures ok <==> Speculated(settings, d, mode, draftLen, old(Contents())).Ok?
      ensures ok ==> Contents() == Speculated(settings, d, mode, draftLen, old(Contents())).value
      ensures !ok ==> maxSeqLen.Some? && maxSeqLen.value >= old(maxSeqLen.value) + DraftLen(d, draftLen)
                      && Contents() == old(Contents()).(maxSeqLen := maxSeqLen)
    {
      var draft, current := draftLen, mode;
      if d.maxDraftLen.Some? && draft == 0 {
        draft := d.maxDraftLen.value;
      }
      if d.redrafter.Some? {
        draft := d.redrafter.value.0 * d.redrafter.value.1;
        current := ExplicitDraftTokens;
      }
      if !current.NoSpeculation? {
        maxSeqLen := Some(maxSeqLen.value + draft);
      }
      if current.Eagle? {
        if d.eagleLayers.None? {
          return false;
        }
        maxSeqLen := Some(maxSeqLen.value + d.eagleLayers.value);
      }
      if !current.NoSpeculation? {
        if maxNumTokens.None? {
          return false;
        }
        var tokens := settings.maxBatchSize * (draft + 1);
        if maxNumTokens.value < tokens {
          maxNumTokens := Some(tokens);
        }
      }
      return true;
    }
  }

  /** A full batch holds at least one longest sequence. */
  lemma BatchHoldsSequence(seqLen: int, batch: int)
    requires seqLen >= 0 && batch >= 1
    ensures seqLen * batch >= seqLen
  {
  }

  lemma ClampedTwice(s: Settings, maxInputLen: int, maxSeqLen: int, max: Option<int>, opt: Option<int>)
    ensures var once := Clamped(s, maxInputLen, maxSeqLen, max, opt);
      Clamped(s, maxInputLen, maxSeqLen, once.0, once.1) == once
  {
  }

  /** Normalising again changes nothing and is not refused: whatever the sizes, with or without padding removal. */
  lemma NormalisingIsIdempotent(model: ModelInfo, s: Settings, l: Limits)
    requires !Refused(model, l)
    ensures var once := Normalised(model, s, l);
      !Refused(model, once) && Normalised(model, s, once) == once
  {
    var once := Normalised(model, s, l);
    ClampedTwice(s, once.maxInputLen, once.maxSeqLen.value, l.maxNumTokens, l.optNumTokens);
  }

  /** With padding removed and sensible sizes the token limit lies between the floor and a full batch, except that
      a larger cache block wins over the batch, and the optimum lies below the limit. */
  lemma NormalisedBounds(model: ModelInfo, s: Settings, l: Limits)
    requires s.removeInputPadding && !Refused(model, l) && s.maxBatchSize >= 1 && SeqLen(model, l) >= 0
    ensures var n := Normalised(model, s, l);
      && n.maxSeqLen.Some? && n.maxInputLen <= n.maxSeqLen.value && n.maxNumTokens.Some?
      && Floor(s, n.maxInputLen) <= n.maxNumTokens.value
      && (if s.contextFmha then n.maxNumTokens.value <= Max(n.maxSeqLen.value * s.maxBatchSize, s.tokensPerBlock)
          else n.maxNumTokens.value <= n.maxSeqLen.value * s.maxBatchSize)
      && (n.optNumTokens == None <==> l.optNumTokens == None && s.multipleProfiles)
      && (n.optNumTokens.Some? ==> n.optNumTokens.value <= n.maxNumTokens.value)
  {
    BatchHoldsSequence(SeqLen(model, l), s.maxBatchSize);
  }

  /** Without padding removal a given optimum is not checked: it stays below the limit exactly when it was given
      below a full batch. */
  lemma UncheckedOptimum(model: ModelInfo, s: Settings, l: Limits)
    requires !s.removeInputPadding && !Refused(model, l) && l.optNumTokens.Some?
    ensures var n := Normalised(model, s, l);
      && n.maxNumTokens.Some? && n.optNumTokens.Some?
      && (n.optNumTokens.value <= n.maxNumTokens.value <==>
          l.optNumTokens.value <= SeqLen(model, l) * s.maxBatchSize)
  {
  }

  /** Normalising and then speculating: the input still fits the sequence, the optimum still fits the limit, and a
      speculating build holds every draft of a full batch. With padding removed only an Eagle model without its
      layer count is refused. */
  lemma SpeculatedBounds(model: ModelInfo, s: Settings, l: Limits, d: DraftInfo, mode: Mode, draftLen: nat)
    requires s.removeInputPadding && !Refused(model, l) && s.maxBatchSize >= 1 && SeqLen(model, l) >= 0
    ensures var r := Speculated(s, d, mode, draftLen, Normalised(model, s, l));
      && (r.Raised? <==> ModeOf(d, mode).Eagle? && d.eagleLayers.None?)
      && (r.Ok? ==>
            && r.value.maxSeqLen.Some? && r.value.maxInputLen <= r.value.maxSeqLen.value && r.value.maxNumTokens.Some?
            && Floor(s, r.value.maxInputLen) <= r.value.maxNumTokens.value
            && (r.value.optNumTokens.Some? ==> r.value.optNumTokens.value <= r.value.maxNumTokens.value)
            && (!ModeOf(d, mode).NoSpeculation? ==>
                  r.value.maxNumTokens.value >= s.maxBatchSize * (DraftLen(d, draftLen) + 1)))
  {
    NormalisedBounds(model, s, l);
  }

  // ----- What is left alone, and what is filled in -----

  /** With padding removed, limits that are given within their bounds are kept. */
  lemma GivenLimitsKept(model: ModelInfo, s: Settings, l: Limits, tokens: int)
    requires s.removeInputPadding && !Refused(model, l) && l.maxSeqLen.Some? && l.maxInputLen <= l.maxSeqLen.value
    requires l.maxNumTokens == Some(tokens) && Floor(s, l.maxInputLen) <= tokens <= l.maxSeqLen.value * s.maxBatchSize
    requires l.optNumTokens.Some? ==> l.optNumTokens.value <= tokens
    requires l.optNumTokens.None? ==> s.multipleProfiles
    ensures Normalised(model, s, l) == l
  {
  }

  /** A token limit that is not given is a full batch, or the floor where that is larger; one that is out of bounds
      becomes the bound. */
  lemma TokensFilledIn(model: ModelInfo, s: Settings, l: Limits)
    requires s.removeInputPadding && !Refused(model, l)
    ensures var n := Normalised(model, s, l);
      var batch, floor := SeqLen(model, l) * s.maxBatchSize, if s.contextFmha then s.tokensPerBlock else n.maxInputLen;
      && n.maxNumTokens.Some?
      && (l.maxNumTokens.None? || l.maxNumTokens.value > batch ==> n.maxNumTokens.value == Max(batch, floor))
      && (l.maxNumTokens.Some? && l.maxNumTokens.value < floor ==> n.maxNumTokens.value == floor)
  {
  }

  /** An optimum that is not given is the number of beams of a full batch, cut to the token limit as it is given and as it
      is in the end: none of these three is smaller, and one of them is equal. */
  lemma OptimumFilledIn(model: ModelInfo, s: Settings, l: Limits)
    requires s.removeInputPadding && !Refused(model, l) && l.optNumTokens.None? && !s.multipleProfiles
    ensures var n := Normalised(model, s, l);
      var beams := s.maxBatchSize * s.maxBeamWidth;
      && n.maxNumTokens.Some? && n.optNumTokens.Some?
      && n.optNumTokens.value <= beams && n.optNumTokens.value <= n.maxNumTokens.value
      && (l.maxNumTokens.Some? ==> n.optNumTokens.value <= l.maxNumTokens.value)
      && (n.optNumTokens.value == beams || n.optNumTokens.value == n.maxNumTokens.value ||
          n.optNumTokens == l.maxNumTokens || (l.maxNumTokens.None? && n.optNumTokens.value == SeqLen(model, l) * s.maxBatchSize))
  {
  }

  /** A sequence length that is given is kept. Without one an encoder takes its input length, and any other model its
      position embeddings, or 2048, scaled and rounded up where the rotary scaling asks for it. */
  lemma SeqLenFilledIn(model: ModelInfo, s: Settings, l: Limits)
    requires !Refused(model, l)
    ensures var n := Normalised(model, s, l);
      var positions := if model.maxPositionEmbeddings.Some? then model.maxPositionEmbeddings.value else 2048;
      && n.maxSeqLen.Some?
      && (l.maxSeqLen.Some? ==> n.maxSeqLen == l.maxSeqLen)
      && (l.maxSeqLen.None? && model.encoder ==> n.maxSeqLen.value == l.maxInputLen)
      && (l.maxSeqLen.None? && !model.encoder ==>
            if Unscaled(model.rotary) then n.maxSeqLen.value == positions
            else
              var scaled := positions as real * model.rotary.factor.value;
              n.maxSeqLen.value as real - 1.0 < scaled <= n.maxSeqLen.value as real)
  {
  }

  /** There is no scaling factor, or the kind of scaling, which may be named in two places, needs none. */
  predicate Unscaled(r: Rotary) {
    || r.NoScaling? || r.factor.None?
    || r.kind == Some("su") || r.kind == Some("longrope") || r.kind == Some("llama3")
    || (r.kind.None? && (r.ropeKind == Some("su") || r.ropeKind == Some("longrope") || r.ropeKind == Some("llama3")))
  }

  /** The speculative step lengthens the sequence by the drafts, and for Eagle by its layers, and changes nothing else but
      the token limit; without speculation it changes nothing. */
  lemma SpeculationLengthens(s: Settings, d: DraftInfo, mode: Mode, draftLen: nat, l: Limits)
    requires l.maxSeqLen.Some? && Speculated(s, d, mode, draftLen, l).Ok?
    ensures var r := Speculated(s, d, mode, draftLen, l).value;
      && r.maxSeqLen.Some? && r.maxInputLen == l.maxInputLen && r.optNumTokens == l.optNumTokens
      && (mode.NoSpeculation? && d.redrafter.None? ==> r == l)
      && (d.redrafter.Some? ==> r.maxSeqLen.value == l.maxSeqLen.value + d.redrafter.value.0 * d.redrafter.value.1)
      && (d.redrafter.None? && !mode.NoSpeculation? ==>
            var drafts := if draftLen == 0 && d.maxDraftLen.Some? then d.maxDraftLen.value else draftLen;
            r.maxSeqLen.value == l.maxSeqLen.value + drafts + if mode.Eagle? && d.eagleLayers.Some? then d.eagleLayers.value else 0)
      && (r.maxNumTokens == l.maxNumTokens ||
          r.maxNumTokens == Some(s.maxBatchSize * (DraftLen(d, draftLen) + 1)))
  {
  }
}
