/**
 * `U3PEfficientNetDecoder` (model/u3_effnet/unet3plus.py, lines 131-167):
 * the stack of UNet3+ decoder stages. The encoder maps are taken coarsest
 * first; stage 0 passes the coarsest map through, and every later stage
 * `ii` fuses the encoder maps from `ii` on with all decoder maps so far.
 */
module Decoder {
  import opened Layers
  import opened SkipConnection

  /** One entry of the `decoders` registry: `nn.Identity` or a skip-connection stage. */
  datatype Stage = IdentityStage | Fusion(sc: SkipConnect)

  /** The registry `decoder1 .. decoder{n}`, kept in insertion order. */
  datatype DecoderStack = DecoderStack(stages: seq<Stage>)

  /** `xs[::-1]`. */
  function Reverse<T>(xs: seq<T>): (r: seq<T>)
    ensures |r| == |xs|
    ensures forall i :: 0 <= i < |xs| ==> r[i] == xs[|xs| - 1 - i]
  {
    if |xs| == 0 then [] else Reverse(xs[1..]) + [xs[0]]
  }

  /** Python's `xs[k:]`: empty once `k` runs past the end. */
  function Drop<T>(xs: seq<T>, k: nat): (r: seq<T>)
    ensures |r| == if k <= |xs| then |xs| - k else 0
  {
    if k <= |xs| then xs[k..] else []
  }

  /** `2 ** np.arange(0, m)`. */
  function Pow2Range(m: nat): (r: seq<nat>)
    ensures |r| == m
  {
    seq(m, t requires 0 <= t => Pow2(t))
  }

  /** The stage `__init__` registers at position `ii` for the reversed channel list `rev`. */
  function StageAt(rev: seq<nat>, ii: nat, skipCh: nat, fastUp: bool): Stage
    requires ii < |rev|
  {
    if ii == 0 then IdentityStage
    else Fusion(SkipConnectSpec(Drop(rev, ii), Pow2Range(|rev| - ii), ii, skipCh, None, rev[0], fastUp))
  }

  /** The stage registered at each position for the reversed channel list `rev`. */
  function StageOf(rev: seq<nat>, skipCh: nat, fastUp: bool): nat -> Stage
  {
    (ii: nat) => if ii < |rev| then StageAt(rev, ii, skipCh, fastUp) else IdentityStage
  }

  /** The registry `__init__` builds for `en_channels` (finest first). */
  function DecoderSpec(enChannels: seq<nat>, skipCh: nat, fastUp: bool): DecoderStack
  {
    var rev := Reverse(enChannels);
    DecoderStack(Tabulate(StageOf(rev, skipCh, fastUp), |rev|))
  }

  /** `__init__`: one stage per encoder channel, `decoder1` the identity. */
  method NewDecoder(enChannels: seq<nat>, skipCh: nat, fastUp: bool) returns (d: DecoderStack)
    ensures d == DecoderSpec(enChannels, skipCh, fastUp)
    ensures |d.stages| == |enChannels|
  {
    var rev := Reverse(enChannels);
    var n := |rev|;
    var stages: seq<Stage> := [];
    var ii := 0;
    while ii < n
      invariant 0 <= ii <= n
      invariant stages == Tabulate(StageOf(rev, skipCh, fastUp), ii)
    {
      var stage := NewStage(rev, ii, skipCh, fastUp);
      stages := stages + [stage];
      ii := ii + 1;
    }
    d := DecoderStack(stages);
  }

  /** One iteration of `__init__`'s loop: `nn.Identity` first, a skip connection after. */
  method NewStage(rev: seq<nat>, ii: nat, skipCh: nat, fastUp: bool) returns (stage: Stage)
    requires ii < |rev|
    ensures stage == StageAt(rev, ii, skipCh, fastUp)
  {
    if ii == 0 {
      stage := IdentityStage;
    } else {
      var sc := NewSkipConnect(Drop(rev, ii), Pow2Range(|rev| - ii), ii, skipCh, None, rev[0], fastUp);
      stage := Fusion(sc);
    }
  }

  /** Every stage after the first concatenates to the same width `skip_ch * n`. */
  lemma StageWidths(enChannels: seq<nat>, skipCh: nat, fastUp: bool)
    ensures var d := DecoderSpec(enChannels, skipCh, fastUp);
      |d.stages| == |enChannels| &&
      (|d.stages| > 0 ==> d.stages[0] == IdentityStage) &&
      forall ii :: 1 <= ii < |d.stages| ==>
        d.stages[ii].Fusion? && d.stages[ii].sc.concatCh == skipCh * |enChannels|
  {
    var d := DecoderSpec(enChannels, skipCh, fastUp);
    var rev := Reverse(enChannels);
    if |rev| > 0 {
      TabulateAt(StageOf(rev, skipCh, fastUp), |rev|, 0);
    }
    forall ii | 1 <= ii < |d.stages|
      ensures d.stages[ii].Fusion? && d.stages[ii].sc.concatCh == skipCh * |enChannels|
    {
      TabulateAt(StageOf(rev, skipCh, fastUp), |rev|, ii);
      assert |Drop(rev, ii)| + ii == |enChannels|;
    }
  }

  /**
   * One call of a stage in `forward`: stage 0 maps the coarsest encoder
   * map, stage `ii` the encoder maps from `ii` on together with the decoder
   * maps so far. A stage of the other kind, or a missing map, fails.
   */
  function StageOut(stage: Stage, ii: nat, rev: seq<Shape>, decs: seq<Shape>): Option<Shape>
  {
    if ii == 0 then
      if |rev| == 0 || stage.Fusion? then None else Some(rev[0])
    else if stage.IdentityStage? then None
    else SkipForward(stage.sc, Drop(rev, ii), Some(decs))
  }

  /**
   * The outputs of the first `k` steps of a chain in which step `ii` sees
   * every earlier output, `None` as soon as one step fails.
   */
  function Chain(step: (nat, seq<Shape>) -> Option<Shape>, k: nat): (r: Option<seq<Shape>>)
    ensures r.Some? ==> |r.value| == k
  {
    if k == 0 then Some([])
    else
      match Chain(step, k - 1)
      case None => None
      case Some(decs) =>
        match step(k - 1, decs)
        case None => None
        case Some(s) => Some(decs + [s])
  }

  /** Stage `ii` of `d` on the reversed encoder maps `rev`; there is no stage past the last. */
  function StageStep(d: DecoderStack, rev: seq<Shape>): (nat, seq<Shape>) -> Option<Shape>
  {
    (ii: nat, decs: seq<Shape>) => if ii < |d.stages| then StageOut(d.stages[ii], ii, rev, decs) else None
  }

  /** `forward`: one output per stage, stage `ii` seeing every earlier output. */
  function DecoderOut(d: DecoderStack, encMaps: seq<Shape>): Option<seq<Shape>>
  {
    Chain(StageStep(d, Reverse(encMaps)), |d.stages|)
  }

  /** Each output of a chain is its step applied to the outputs before it. */
  lemma {:induction false} ChainStep(step: (nat, seq<Shape>) -> Option<Shape>, k: nat)
    ensures var r := Chain(step, k);
      r.Some? ==> forall ii :: 0 <= ii < k ==> step(ii, r.value[..ii]) == Some(r.value[ii])
  {
    if k > 0 {
      ChainStep(step, k - 1);
      var r := Chain(step, k);
      if r.Some? {
        var decs := Chain(step, k - 1).value;
        assert r.value == decs + [step(k - 1, decs).value];
        forall ii | 0 <= ii < k
          ensures step(ii, r.value[..ii]) == Some(r.value[ii])
        {
          if ii < k - 1 {
            assert r.value[..ii] == decs[..ii];
          } else {
            assert r.value[..ii] == decs;
          }
        }
      }
    }
  }

  /** Conversely, a list each of whose entries is its step on the entries before it is the chain. */
  lemma {:induction false} ChainOf(step: (nat, seq<Shape>) -> Option<Shape>, e: seq<Shape>)
    requires forall ii :: 0 <= ii < |e| ==> step(ii, e[..ii]) == Some(e[ii])
    ensures Chain(step, |e|) == Some(e)
    decreases |e|
  {
    var k := |e|;
    if k > 0 {
      var init := e[..k - 1];
      forall ii | 0 <= ii < |init|
        ensures step(ii, init[..ii]) == Some(init[ii])
      {
        assert init[..ii] == e[..ii];
      }
      ChainOf(step, init);
      assert e == init + [e[k - 1]];
    }
  }

  /** Once a step fails, the whole chain fails. */
  lemma {:induction false} ChainNone(step: (nat, seq<Shape>) -> Option<Shape>, k: nat, m: nat)
    requires k <= m && Chain(step, k) == None
    ensures Chain(step, m) == None
    decreases m - k
  {
    if k < m {
      ChainNone(step, k + 1, m);
    }
  }

  /**
   * The decoder's outputs: one per stage, stage `ii` applied to the
   * reversed encoder maps and to exactly the outputs of the stages before
   * it, in order.
   */
  lemma DecoderOutStep(d: DecoderStack, encMaps: seq<Shape>)
    ensures var out := DecoderOut(d, encMaps);
      out.Some? ==> (|out.value| == |d.stages| &&
        forall ii :: 0 <= ii < |d.stages| ==>
          StageOut(d.stages[ii], ii, Reverse(encMaps), out.value[..ii]) == Some(out.value[ii]))
  {
    var step := StageStep(d, Reverse(encMaps));
    ChainStep(step, |d.stages|);
  }

  /** The loop of `forward` that grows `dec_map_list`: each step sees every output so far. */
  method RunChain(step: (nat, seq<Shape>) -> Option<Shape>, n: nat) returns (r: Option<seq<Shape>>)
    ensures r == Chain(step, n)
  {
    var decs: seq<Shape> := [];
    var ii := 0;
    while ii < n
      invariant 0 <= ii <= n
      invariant Chain(step, ii) == Some(decs)
    {
      var out := step(ii, decs);
      if out.None? {
        ChainNone(step, ii + 1, n);
        return None;
      }
      decs := decs + [out.value];
      ii := ii + 1;
    }
    r := Some(decs);
  }

  /** `forward`: the stages in registry order on the encoder maps, coarsest first. */
  method DecoderForward(d: DecoderStack, encMaps: seq<Shape>) returns (r: Option<seq<Shape>>)
    ensures r == DecoderOut(d, encMaps)
  {
    var rev := Reverse(encMaps);
    r := RunChain(StageStep(d, rev), |d.stages|);
  }

  // ------------------------------------------------------------ shape theorem

  /** Encoder map `k` of `n` sits `2^(n-1-k)` times finer than the coarsest, `bh x bw`. */
  predicate EncoderPyramid(enChannels: seq<nat>, encMaps: seq<Shape>, bh: nat, bw: nat)
  {
    |encMaps| == |enChannels| &&
    forall k {:trigger encMaps[k]} :: 0 <= k < |encMaps| ==>
      encMaps[k] == Shape(enChannels[k], Scaled(bh, |encMaps| - 1 - k), Scaled(bw, |encMaps| - 1 - k))
  }

  /** The outputs the first `k` stages should produce: the coarsest map, then `skip_ch * n` maps doubling in size. */
  function Expected(rev: seq<Shape>, k: nat, width: nat, bh: nat, bw: nat): (r: seq<Shape>)
    requires |rev| > 0
    ensures |r| == k
  {
    seq(k, ii requires 0 <= ii => if ii == 0 then rev[0] else Shape(width, Scaled(bh, ii), Scaled(bw, ii)))
  }

  /** The size `b` doubled `k` times. */
  function Scaled(b: nat, k: nat): nat {
    b * Pow2(k)
  }

  /** Doubling `i` times and then `t` times is doubling `i + t` times. */
  lemma ScaleUp(b: nat, i: nat, t: nat)
    ensures Scaled(b, i) * Pow2(t) == Scaled(b, i + t)
  {
    Pow2Add(i, t);
    MulAssoc(b, Pow2(i), Pow2(t));
  }

  lemma MulAssoc(a: nat, x: nat, y: nat)
    ensures (a * x) * y == a * (x * y)
  {
  }

  /** The encoder maps stage `ii` sees sit `2^t` times finer than its target, as its `en_scales` say. */
  lemma StageEnMaps(revCh: seq<nat>, rev: seq<Shape>, ii: nat, bh: nat, bw: nat)
    requires 1 <= ii < |rev| == |revCh|
    requires forall r {:trigger rev[r]} :: 0 <= r < |rev| ==> rev[r] == Shape(revCh[r], Scaled(bh, r), Scaled(bw, r))
    ensures EnMapsAt(Drop(revCh, ii), Pow2Range(|revCh| - ii), Drop(rev, ii), Scaled(bh, ii), Scaled(bw, ii))
  {
    var enMaps := Drop(rev, ii);
    var scales := Pow2Range(|revCh| - ii);
    forall t | 0 <= t < |enMaps|
      ensures scales[t] > 0 &&
        enMaps[t] == Shape(Drop(revCh, ii)[t], Scaled(bh, ii) * scales[t], Scaled(bw, ii) * scales[t])
    {
      ScaleUp(bh, ii, t);
      ScaleUp(bw, ii, t);
    }
  }

  /** The decoder maps stage `ii` sees sit exactly the default `2^(ii-j)` times coarser than its target. */
  lemma StageDecMaps(rev: seq<Shape>, ii: nat, width: nat, bh: nat, bw: nat, bottom: nat)
    requires 1 <= ii < |rev| && bh > 0 && bw > 0
    requires rev[0] == Shape(bottom, bh, bw)
    ensures DecMapsAt(ScalesOf(ii, None), Expected(rev, ii, width, bh, bw), bottom, width,
                      Scaled(bh, ii), Scaled(bw, ii))
  {
    var decs := Expected(rev, ii, width, bh, bw);
    var scales := ScalesOf(ii, None);
    DefaultDecScalesAt(ii);
    forall j | 0 <= j < ii
      ensures scales[j] > 0 && decs[j].h > 0 && decs[j].w > 0 &&
        decs[j].h * scales[j] == Scaled(bh, ii) && decs[j].w * scales[j] == Scaled(bw, ii)
    {
      ScaleUp(bh, j, ii - j);
      ScaleUp(bw, j, ii - j);
      if j > 0 {
        assert decs[j].h == Scaled(bh, j);
        ScaledPositive(bh, j);
        ScaledPositive(bw, j);
      } else {
        assert Pow2(0) == 1;
      }
    }
  }

  lemma ScaledPositive(b: nat, k: nat)
    requires b > 0
    ensures Scaled(b, k) > 0
  {
    MulAtLeast(Pow2(k), b);
  }

  /** Reversed, the encoder pyramid lists map `r` at `2^r` times the coarsest size. */
  lemma ReversedPyramid(enChannels: seq<nat>, encMaps: seq<Shape>, bh: nat, bw: nat)
    requires EncoderPyramid(enChannels, encMaps, bh, bw)
    ensures var rev := Reverse(encMaps);
      var revCh := Reverse(enChannels);
      |rev| == |revCh| &&
      forall r {:trigger rev[r]} :: 0 <= r < |rev| ==> rev[r] == Shape(revCh[r], Scaled(bh, r), Scaled(bw, r))
  {
    var rev := Reverse(encMaps);
    var n := |encMaps|;
    forall r | 0 <= r < n
      ensures rev[r] == Shape(Reverse(enChannels)[r], Scaled(bh, r), Scaled(bw, r))
    {
      assert rev[r] == encMaps[n - 1 - r];
    }
  }

  /** Stage `ii`, given the expected earlier outputs, produces the expected next one. */
  lemma StageOutShape(revCh: seq<nat>, rev: seq<Shape>, skipCh: nat, fastUp: bool, bh: nat, bw: nat, ii: nat)
    requires ii < |rev| == |revCh|
    requires ii > 0 ==> Scaled(bh, ii) > 0 && Scaled(bw, ii) > 0
    requires ii > 0 ==> EnMapsAt(Drop(revCh, ii), Pow2Range(|rev| - ii), Drop(rev, ii), Scaled(bh, ii), Scaled(bw, ii))
    requires ii > 0 ==> DecMapsAt(ScalesOf(ii, None), Expected(rev, ii, skipCh * |rev|, bh, bw), revCh[0],
                                  skipCh * |rev|, Scaled(bh, ii), Scaled(bw, ii))
    ensures var width := skipCh * |rev|;
      StageOut(Tabulate(StageOf(revCh, skipCh, fastUp), |revCh|)[ii], ii, rev, Expected(rev, ii, width, bh, bw))
      == Some(Expected(rev, ii + 1, width, bh, bw)[ii])
  {
    TabulateAt(StageOf(revCh, skipCh, fastUp), |revCh|, ii);
    if ii > 0 {
      FusionStageShape(revCh, rev, skipCh, fastUp, bh, bw, ii, Scaled(bh, ii), Scaled(bw, ii));
    }
  }

  /** A fusion stage fed the expected maps emits `skip_ch * n` channels at the target size `h x w`. */
  lemma FusionStageShape(revCh: seq<nat>, rev: seq<Shape>, skipCh: nat, fastUp: bool, bh: nat, bw: nat, ii: nat,
                         h: nat, w: nat)
    requires 1 <= ii < |rev| == |revCh| && h > 0 && w > 0
    requires EnMapsAt(Drop(revCh, ii), Pow2Range(|rev| - ii), Drop(rev, ii), h, w)
    requires DecMapsAt(ScalesOf(ii, None), Expected(rev, ii, skipCh * |rev|, bh, bw), revCh[0], skipCh * |rev|, h, w)
    ensures StageOut(StageAt(revCh, ii, skipCh, fastUp), ii, rev, Expected(rev, ii, skipCh * |rev|, bh, bw))
            == Some(Shape(skipCh * |rev|, h, w))
  {
    FusionForward(revCh, rev, skipCh, fastUp, bh, bw, ii, h, w);
  }

  /** The maps stage `ii` is fed meet the skip connection's shape contract. */
  lemma FusionInputs(revCh: seq<nat>, rev: seq<Shape>, bh: nat, bw: nat, ii: nat, width: nat)
    requires 1 <= ii < |rev| == |revCh| && bh > 0 && bw > 0
    requires forall r {:trigger rev[r]} :: 0 <= r < |rev| ==> rev[r] == Shape(revCh[r], Scaled(bh, r), Scaled(bw, r))
    ensures Scaled(bh, ii) > 0 && Scaled(bw, ii) > 0
    ensures EnMapsAt(Drop(revCh, ii), Pow2Range(|rev| - ii), Drop(rev, ii), Scaled(bh, ii), Scaled(bw, ii))
    ensures DecMapsAt(ScalesOf(ii, None), Expected(rev, ii, width, bh, bw), revCh[0], width,
                      Scaled(bh, ii), Scaled(bw, ii))
  {
    assert Scaled(bh, 0) == bh && Scaled(bw, 0) == bw;
    StageEnMaps(revCh, rev, ii, bh, bw);
    StageDecMaps(rev, ii, width, bh, bw, revCh[0]);
    ScaledPositive(bh, ii);
    ScaledPositive(bw, ii);
  }

  /** The skip connection stage `ii` registers, fed the expected maps, emits `skip_ch * (|enCh| + ii)` channels. */
  lemma FusionForward(revCh: seq<nat>, rev: seq<Shape>, skipCh: nat, fastUp: bool, bh: nat, bw: nat, ii: nat,
                      h: nat, w: nat)
    requires 1 <= ii < |rev| == |revCh| && h > 0 && w > 0
    requires EnMapsAt(Drop(revCh, ii), Pow2Range(|rev| - ii), Drop(rev, ii), h, w)
    requires DecMapsAt(ScalesOf(ii, None), Expected(rev, ii, skipCh * |rev|, bh, bw), revCh[0], skipCh * |rev|, h, w)
    ensures SkipForward(SkipConnectSpec(Drop(revCh, ii), Pow2Range(|rev| - ii), ii, skipCh, None, revCh[0], fastUp),
                        Drop(rev, ii), Some(Expected(rev, ii, skipCh * |rev|, bh, bw)))
            == Some(Shape(skipCh * |rev|, h, w))
  {
    var enCh := Drop(revCh, ii);
    assert |enCh| + ii == |rev|;
    SkipForwardShape(enCh, Pow2Range(|rev| - ii), ii, skipCh, None, revCh[0], fastUp,
                     Drop(rev, ii), Expected(rev, ii, skipCh * |rev|, bh, bw), h, w);
  }

  /** On an encoder pyramid, stage `ii >= 1` receives the encoder and decoder maps the fusion expects. */
  lemma StageInputs(enChannels: seq<nat>, encMaps: seq<Shape>, bh: nat, bw: nat, ii: nat, width: nat)
    requires bh > 0 && bw > 0 && 1 <= ii < |enChannels|
    requires EncoderPyramid(enChannels, encMaps, bh, bw)
    ensures var rev := Reverse(encMaps); var revCh := Reverse(enChannels);
      Scaled(bh, ii) > 0 && Scaled(bw, ii) > 0 &&
      EnMapsAt(Drop(revCh, ii), Pow2Range(|rev| - ii), Drop(rev, ii), Scaled(bh, ii), Scaled(bw, ii)) &&
      DecMapsAt(ScalesOf(ii, None), Expected(rev, ii, width, bh, bw), revCh[0], width, Scaled(bh, ii), Scaled(bw, ii))
  {
    var rev := Reverse(encMaps);
    var revCh := Reverse(enChannels);
    ReversedPyramid(enChannels, encMaps, bh, bw);
    assert |rev| == |revCh| == |enChannels|;
    FusionInputs(revCh, rev, bh, bw, ii, width);
  }

  /** Stage `ii` of the decoder, fed the expected earlier outputs, returns the expected output `ii`. */
  lemma StageStepFits(enChannels: seq<nat>, skipCh: nat, fastUp: bool, encMaps: seq<Shape>, bh: nat, bw: nat, ii: nat)
    requires bh > 0 && bw > 0 && ii < |enChannels|
    requires EncoderPyramid(enChannels, encMaps, bh, bw)
    ensures var n := |enChannels|; var rev := Reverse(encMaps);
      var e := Expected(rev, n, skipCh * n, bh, bw);
      StageStep(DecoderSpec(enChannels, skipCh, fastUp), rev)(ii, e[..ii]) == Some(e[ii])
  {
    var n := |enChannels|;
    var rev := Reverse(encMaps);
    var revCh := Reverse(enChannels);
    var width := skipCh * n;
    var e := Expected(rev, n, width, bh, bw);
    assert e[..ii] == Expected(rev, ii, width, bh, bw);
    assert e[ii] == Expected(rev, ii + 1, width, bh, bw)[ii];
    if ii > 0 {
      StageInputs(enChannels, encMaps, bh, bw, ii, width);
    }
    StageOutShape(revCh, rev, skipCh, fastUp, bh, bw, ii);
  }

  /** Running all stages yields the expected maps. */
  lemma DecoderOutExpected(enChannels: seq<nat>, skipCh: nat, fastUp: bool,
                           encMaps: seq<Shape>, bh: nat, bw: nat)
    requires bh > 0 && bw > 0 && |enChannels| > 0
    requires EncoderPyramid(enChannels, encMaps, bh, bw)
    ensures DecoderOut(DecoderSpec(enChannels, skipCh, fastUp), encMaps)
            == Some(Expected(Reverse(encMaps), |enChannels|, skipCh * |enChannels|, bh, bw))
  {
    var n := |enChannels|;
    var rev := Reverse(encMaps);
    var e := Expected(rev, n, skipCh * n, bh, bw);
    var step := StageStep(DecoderSpec(enChannels, skipCh, fastUp), rev);
    forall ii | 0 <= ii < n
      ensures step(ii, e[..ii]) == Some(e[ii])
    {
      StageStepFits(enChannels, skipCh, fastUp, encMaps, bh, bw, ii);
    }
    ChainOf(step, e);
  }

  /**
   * What the decoder returns on an encoder pyramid whose coarsest map is
   * `bh x bw`: one map per encoder map; the first is the coarsest encoder
   * map itself, and entry `ii >= 1` has `width` channels at `2^ii` times the
   * coarsest resolution, so the last matches the finest encoder map's size.
   */
  predicate DecoderOutputs(out: seq<Shape>, encMaps: seq<Shape>, width: nat, bh: nat, bw: nat)
  {
    |out| == |encMaps| > 0 &&
    out[0] == encMaps[|encMaps| - 1] &&
    (forall ii :: 1 <= ii < |out| ==> out[ii] == Shape(width, Scaled(bh, ii), Scaled(bw, ii))) &&
    out[|out| - 1].h == encMaps[0].h && out[|out| - 1].w == encMaps[0].w
  }

  /** The decoder's shape theorem: it returns the outputs `DecoderOutputs` describes, `skip_ch * n` channels wide. */
  lemma DecoderShapes(enChannels: seq<nat>, skipCh: nat, fastUp: bool, encMaps: seq<Shape>, bh: nat, bw: nat)
    requires bh > 0 && bw > 0 && |enChannels| > 0
    requires EncoderPyramid(enChannels, encMaps, bh, bw)
    ensures var out := DecoderOut(DecoderSpec(enChannels, skipCh, fastUp), encMaps);
      out.Some? && DecoderOutputs(out.value, encMaps, skipCh * |enChannels|, bh, bw)
  {
    DecoderOutExpected(enChannels, skipCh, fastUp, encMaps, bh, bw);
    ExpectedOutputs(enChannels, skipCh, encMaps, bh, bw);
  }

  /** The expected outputs of the stages are the ones `DecoderOutputs` describes. */
  lemma ExpectedOutputs(enChannels: seq<nat>, skipCh: nat, encMaps: seq<Shape>, bh: nat, bw: nat)
    requires |enChannels| > 0
    requires EncoderPyramid(enChannels, encMaps, bh, bw)
    ensures var n := |enChannels|;
      DecoderOutputs(Expected(Reverse(encMaps), n, skipCh * n, bh, bw), encMaps, skipCh * n, bh, bw)
  {
    var n := |enChannels|;
    var rev := Reverse(encMaps);
    var e := Expected(rev, n, skipCh * n, bh, bw);
    assert rev[0] == encMaps[n - 1];
    if n > 1 {
      assert e[n - 1] == Shape(skipCh * n, Scaled(bh, n - 1), Scaled(bw, n - 1));
    }
  }
}
