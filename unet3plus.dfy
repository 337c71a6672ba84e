/**
 * `UNet3Plus` (model/u3_effnet/unet3plus.py, lines 170-250): encoder,
 * decoder stack, the segmentation head on the last decoder output, the
 * optional class-guidance branch and the auxiliary heads on the earlier
 * decoder outputs, and `forward`'s dictionary of predictions.
 */
module UNet3Plus {
  import opened Layers
  import opened Text
  import opened Encoder
  import opened Decoder

  /** One value of the prediction dictionary: a score map, or the class-guidance scores. */
  datatype Pred = MapPred(s: Shape) | ClassScores(n: nat)

  /** The sub-modules `__init__` registers. */
  datatype UNet = UNet(
    encoder: EncoderState,
    decoder: DecoderStack,
    cls: Option<Layer>,
    head: Layer,
    auxHead: Option<map<int, Layer>>)

  /** The class-guidance branch: dropout, a 1x1 convolution to 2 scores, global max-pool, sigmoid. */
  function ClsBranch(lastCh: nat): Layer {
    Sequential([Dropout, Conv(lastCh, 2, 1, 0), GlobalMaxPool, Sigmoid])
  }

  /** The segmentation head: a stride-2 transposed convolution, or a size-keeping 3x3 convolution. */
  function Head(decoderCh: nat, numClasses: nat, transposeFinal: bool): Layer {
    if transposeFinal then Sequential([ConvTranspose(decoderCh, numClasses, 4, 2, 1)])
    else Conv(decoderCh, numClasses, 3, 1)
  }

  /** Auxiliary head `ii`: it reads the coarsest map's `lastCh` channels at index 0, `decoder_ch` elsewhere. */
  function AuxConv(ii: int, decoderCh: nat, lastCh: nat, numClasses: nat): Layer {
    Conv(if ii != 0 then decoderCh else lastCh, numClasses, 3, 1)
  }

  /** The auxiliary heads, one per index of `np.arange(nd - aux_losses - 1, nd - 1)`. */
  function AuxHeadsSpec(numDecoders: int, auxLosses: int, decoderCh: nat, lastCh: nat, numClasses: nat): map<int, Layer>
  {
    map ii | numDecoders - auxLosses - 1 <= ii < numDecoders - 1 :: AuxConv(ii, decoderCh, lastCh, numClasses)
  }

  /**
   * The auxiliary heads sit inside the range `0 .. nd-2` that `forward`
   * walks exactly when `aux_losses < num_decoders`; with more auxiliary
   * losses the range starts below 0, and a head is built for index -1.
   */
  lemma AuxIndicesInRange(numDecoders: int, auxLosses: int, decoderCh: nat, lastCh: nat, numClasses: nat)
    requires auxLosses > 0
    ensures var heads := AuxHeadsSpec(numDecoders, auxLosses, decoderCh, lastCh, numClasses);
      (forall ii :: ii in heads ==> 0 <= ii < numDecoders - 1) <==> auxLosses < numDecoders
    ensures var heads := AuxHeadsSpec(numDecoders, auxLosses, decoderCh, lastCh, numClasses);
      auxLosses >= numDecoders ==> numDecoders - auxLosses - 1 < 0 && numDecoders - auxLosses - 1 in heads
  {
    var heads := AuxHeadsSpec(numDecoders, auxLosses, decoderCh, lastCh, numClasses);
    var lo := numDecoders - auxLosses - 1;
    if auxLosses >= numDecoders {
      assert lo in heads;
    }
  }

  /** The heads `forward` can reach are those with index in `max(0, nd - aux_losses - 1) .. nd - 2`. */
  lemma AuxHeadsReached(numDecoders: int, auxLosses: int, decoderCh: nat, lastCh: nat, numClasses: nat, ii: int)
    requires 0 <= ii < numDecoders - 1
    ensures ii in AuxHeadsSpec(numDecoders, auxLosses, decoderCh, lastCh, numClasses)
            <==> ii >= numDecoders - 1 - auxLosses
  {
  }

  /** The encoder the model uses: the one given, or the default EfficientNet-B5 one. */
  function EncoderOf(encoder: Option<EncoderState>, channels: seq<nat>, cfgs: map<string, BackboneCfg>): Result<EncoderState>
  {
    match encoder
    case Some(e) => Ok(e)
    case None =>
      match SelectBackbone("efficientnet-b5", cfgs)
      case Err(msg) => Err(msg)
      case Ok(cfg) => Ok(EncoderState(CompressSpec(cfg.feChannels, cfg.channels), channels))
  }

  /** The modules `__init__` registers around an encoder with `channels` of length `nd + 1`. */
  function Assemble(enc: EncoderState, numClasses: nat, skipCh: nat, auxLosses: int,
                    transposeFinal: bool, useCgm: bool, fastUp: bool): UNet
    requires |enc.channels| > 0
  {
    var chs := enc.channels;
    var nd := |chs| - 1;
    var decoderCh := skipCh * nd;
    var lastCh := chs[|chs| - 1];
    UNet(
      enc,
      DecoderSpec(chs[1..], skipCh, fastUp),
      if useCgm then Some(ClsBranch(lastCh)) else None,
      Head(decoderCh, numClasses, transposeFinal),
      if auxLosses > 0 then Some(AuxHeadsSpec(nd, auxLosses, decoderCh, lastCh, numClasses)) else None)
  }

  /** The model `__init__` builds, or the error it raises. */
  function UNetSpec(numClasses: nat, skipCh: nat, auxLosses: int, encoder: Option<EncoderState>,
                    channels: seq<nat>, cfgs: map<string, BackboneCfg>,
                    transposeFinal: bool, useCgm: bool, fastUp: bool): Result<UNet>
  {
    match EncoderOf(encoder, channels, cfgs)
    case Err(msg) => Err(msg)
    case Ok(enc) =>
      if |enc.channels| == 0 then Err("negative dimension")
      else Ok(Assemble(enc, numClasses, skipCh, auxLosses, transposeFinal, useCgm, fastUp))
  }

  /** The loop that registers one auxiliary head per index. */
  method BuildAuxHeads(numDecoders: int, auxLosses: int, decoderCh: nat, lastCh: nat, numClasses: nat)
    returns (heads: map<int, Layer>)
    requires auxLosses > 0
    ensures heads == AuxHeadsSpec(numDecoders, auxLosses, decoderCh, lastCh, numClasses)
  {
    var lo := numDecoders - auxLosses - 1;
    heads := map[];
    var ii := lo;
    while ii < numDecoders - 1
      invariant lo <= ii <= numDecoders - 1
      invariant heads == map k | lo <= k < ii :: AuxConv(k, decoderCh, lastCh, numClasses)
    {
      heads := heads[ii := AuxConv(ii, decoderCh, lastCh, numClasses)];
      ii := ii + 1;
    }
  }

  /** `aux_head`: the auxiliary heads when `aux_losses > 0`, otherwise none. */
  method NewAuxHead(numDecoders: int, auxLosses: int, decoderCh: nat, lastCh: nat, numClasses: nat)
    returns (aux: Option<map<int, Layer>>)
    ensures aux == if auxLosses > 0 then Some(AuxHeadsSpec(numDecoders, auxLosses, decoderCh, lastCh, numClasses)) else None
  {
    if auxLosses > 0 {
      var heads := BuildAuxHeads(numDecoders, auxLosses, decoderCh, lastCh, numClasses);
      aux := Some(heads);
    } else {
      aux := None;
    }
  }

  /** Registering the decoder, the branch, the head and the auxiliary heads around `enc`. */
  method AssembleUNet(enc: EncoderState, numClasses: nat, skipCh: nat, auxLosses: int,
                      transposeFinal: bool, useCgm: bool, fastUp: bool) returns (m: UNet)
    requires |enc.channels| > 0
    ensures m == Assemble(enc, numClasses, skipCh, auxLosses, transposeFinal, useCgm, fastUp)
  {
    var chs := enc.channels;
    var nd := |chs| - 1;
    var decoderCh := skipCh * nd;
    var lastCh := chs[|chs| - 1];
    var decoder := NewDecoder(chs[1..], skipCh, fastUp);
    var cls := if useCgm then Some(ClsBranch(lastCh)) else None;
    var head := Head(decoderCh, numClasses, transposeFinal);
    var aux := NewAuxHead(nd, auxLosses, decoderCh, lastCh, numClasses);
    m := UNet(enc, decoder, cls, head, aux);
  }

  /** `__init__`: the encoder given or the default one, then the modules around it. */
  method NewUNet(numClasses: nat, skipCh: nat, auxLosses: int, encoder: Option<EncoderState>,
                 channels: seq<nat>, cfgs: map<string, BackboneCfg>,
                 transposeFinal: bool, useCgm: bool, fastUp: bool)
    returns (r: Result<UNet>)
    ensures r == UNetSpec(numClasses, skipCh, auxLosses, encoder, channels, cfgs, transposeFinal, useCgm, fastUp)
  {
    var enc: EncoderState;
    if encoder.Some? {
      enc := encoder.value;
    } else {
      var e := NewEncoder(channels, "efficientnet-b5", cfgs);
      if e.Err? {
        return Err(e.msg);
      }
      enc := e.value;
    }
    if |enc.channels| == 0 {
      return Err("negative dimension");
    }
    var m := AssembleUNet(enc, numClasses, skipCh, auxLosses, transposeFinal, useCgm, fastUp);
    r := Ok(m);
  }

  // ---------------------------------------------------------------- forward

  /** `resize`: the map is interpolated to `h x w` unless it already has that size. */
  function Resize(s: Shape, h: nat, w: nat): (r: Shape)
    ensures r.ch == s.ch && r.h == h && r.w == w
    ensures s.h == h && s.w == w ==> r == s
  {
    if s.h != h || s.w != w then Shape(s.ch, h, w) else s
  }

  /** The key `aux{ii}`. */
  function AuxKey(ii: nat): string {
    "aux" + NatToString(ii)
  }

  /** Auxiliary keys are distinct from each other and from `out` and `cls`. */
  lemma AuxKeyDistinct(a: nat, b: nat)
    ensures AuxKey(a) != "out" && AuxKey(a) != "cls"
    ensures AuxKey(a) == AuxKey(b) <==> a == b
  {
    assert AuxKey(a)[0] == 'a';
    if AuxKey(a) == AuxKey(b) {
      assert NatToString(a) == AuxKey(a)[3..];
      assert NatToString(b) == AuxKey(b)[3..];
      NatToStringInjective(a, b);
    }
  }

  /**
   * One pass of the loop over `de_out[:-1]`: at index 0 the class branch
   * (when present) adds `cls`, then a head registered for `ii` adds
   * `aux{ii}`, resized to the input size. A failing layer fails.
   */
  function AuxStep(heads: map<int, Layer>, cls: Option<Layer>, de: Shape, ii: nat, h: nat, w: nat,
                   pred: map<string, Pred>): Option<map<string, Pred>>
  {
    var withCls :=
      if ii == 0 && cls.Some? then
        match Apply(cls.value, de)
        case None => None
        case Some(c) => Some(pred["cls" := ClassScores(c.ch)])
      else Some(pred);
    match withCls
    case None => None
    case Some(q) =>
      if ii in heads then
        match Apply(heads[ii], de)
        case None => None
        case Some(a) => Some(q[AuxKey(ii) := MapPred(Resize(a, h, w))])
      else Some(q)
  }

  /** The dictionary after the first `k` passes of the loop. */
  function AuxRun(heads: map<int, Layer>, cls: Option<Layer>, de: seq<Shape>, k: nat, h: nat, w: nat,
                  base: map<string, Pred>): Option<map<string, Pred>>
    requires k <= |de|
  {
    if k == 0 then Some(base)
    else
      match AuxRun(heads, cls, de, k - 1, h, w, base)
      case None => None
      case Some(p) => AuxStep(heads, cls, de[k - 1], k - 1, h, w, p)
  }

  /** The head on the last decoder output, then the auxiliary loop over the others. */
  function Heads(head: Layer, cls: Option<Layer>, auxHead: Option<map<int, Layer>>, de: seq<Shape>, h: nat, w: nat)
    : Option<map<string, Pred>>
  {
    if |de| == 0 then None
    else
      match Apply(head, de[|de| - 1])
      case None => None
      case Some(o) =>
        var base := map["out" := MapPred(Resize(o, h, w))];
        if auxHead.None? then Some(base)
        else AuxRun(auxHead.value, cls, de, |de| - 1, h, w, base)
  }

  /** `forward` on the backbone's feature dictionary `feats` for an `h x w` input. */
  function UNetOut(m: UNet, feats: map<string, Shape>, h: nat, w: nat): Option<map<string, Pred>>
  {
    match EncoderOut(m.encoder.compress, feats)
    case None => None
    case Some(en) =>
      match DecoderOut(m.decoder, en)
      case None => None
      case Some(de) => Heads(m.head, m.cls, m.auxHead, de, h, w)
  }

  /** Once a pass fails, the loop fails. */
  lemma {:induction false} AuxRunNone(heads: map<int, Layer>, cls: Option<Layer>, de: seq<Shape>, k: nat, j: nat,
                                      h: nat, w: nat, base: map<string, Pred>)
    requires k <= j <= |de| && AuxRun(heads, cls, de, k, h, w, base).None?
    ensures AuxRun(heads, cls, de, j, h, w, base).None?
    decreases j - k
  {
    if k < j {
      assert AuxRun(heads, cls, de, k + 1, h, w, base).None?;
      AuxRunNone(heads, cls, de, k + 1, j, h, w, base);
    }
  }

  /** The loop over `de_out[:-1]`, run for its first `k` passes. */
  method RunAux(heads: map<int, Layer>, cls: Option<Layer>, de: seq<Shape>, k: nat, h: nat, w: nat,
                base: map<string, Pred>) returns (r: Option<map<string, Pred>>)
    requires k <= |de|
    ensures r == AuxRun(heads, cls, de, k, h, w, base)
  {
    var pred := base;
    var ii := 0;
    while ii < k
      invariant 0 <= ii <= k
      invariant AuxRun(heads, cls, de, ii, h, w, base) == Some(pred)
    {
      var d := de[ii];
      if ii == 0 && cls.Some? {
        var c := Apply(cls.value, d);
        if c.None? {
          AuxRunNone(heads, cls, de, ii + 1, k, h, w, base);
          return None;
        }
        pred := pred["cls" := ClassScores(c.value.ch)];
      }
      if ii in heads {
        var a := Apply(heads[ii], d);
        if a.None? {
          AuxRunNone(heads, cls, de, ii + 1, k, h, w, base);
          return None;
        }
        pred := pred[AuxKey(ii) := MapPred(Resize(a.value, h, w))];
      }
      ii := ii + 1;
    }
    r := Some(pred);
  }

  /** The head on the last decoder output, then the auxiliary loop. */
  method RunHeads(head: Layer, cls: Option<Layer>, auxHead: Option<map<int, Layer>>, de: seq<Shape>, h: nat, w: nat)
    returns (r: Option<map<string, Pred>>)
    ensures r == Heads(head, cls, auxHead, de, h, w)
  {
    if |de| == 0 {
      return None;
    }
    var o := Apply(head, de[|de| - 1]);
    if o.None? {
      return None;
    }
    var base := map["out" := MapPred(Resize(o.value, h, w))];
    if auxHead.None? {
      return Some(base);
    }
    r := RunAux(auxHead.value, cls, de, |de| - 1, h, w, base);
  }

  /** `forward`: encoder, decoder, then the heads on the decoder outputs. */
  method UNetForward(m: UNet, feats: map<string, Shape>, h: nat, w: nat) returns (r: Option<map<string, Pred>>)
    ensures r == UNetOut(m, feats, h, w)
  {
    var en := EncoderForward(m.encoder, feats);
    if en.None? {
      return None;
    }
    var de := DecoderForward(m.decoder, en.value);
    if de.None? {
      return None;
    }
    r := RunHeads(m.head, m.cls, m.auxHead, de.value, h, w);
  }

  // ------------------------------------------------------------ output keys

  /** The auxiliary keys the first `k` passes can add. */
  function AuxKeys(heads: map<int, Layer>, k: nat): set<string>
  {
    if k == 0 then {} else AuxKeys(heads, k - 1) + (if k - 1 in heads then {AuxKey(k - 1)} else {})
  }

  /** `aux{ii}` is among them exactly when a head is registered for `ii < k`. */
  lemma {:induction false} AuxKeysMember(heads: map<int, Layer>, k: nat, ii: nat)
    ensures AuxKey(ii) in AuxKeys(heads, k) <==> ii < k && ii in heads
  {
    if k > 0 {
      AuxKeysMember(heads, k - 1, ii);
      AuxKeyDistinct(ii, k - 1);
    }
  }

  /** A pass adds `cls` at index 0 with a class branch, and `aux{ii}` when a head is registered for `ii`. */
  lemma AuxStepKeys(heads: map<int, Layer>, cls: Option<Layer>, de: Shape, ii: nat, h: nat, w: nat,
                    pred: map<string, Pred>)
    ensures var r := AuxStep(heads, cls, de, ii, h, w, pred);
      r.Some? ==> r.value.Keys == pred.Keys + (if ii == 0 && cls.Some? then {"cls"} else {}) +
                                  (if ii in heads then {AuxKey(ii)} else {})
  {
  }

  /**
   * The keys after `k` passes: those of `base`, `cls` once index 0 has
   * been seen with a class branch, and `aux{ii}` for every registered
   * head below `k`.
   */
  lemma {:induction false} AuxRunKeys(heads: map<int, Layer>, cls: Option<Layer>, de: seq<Shape>, k: nat,
                                      h: nat, w: nat, base: map<string, Pred>)
    requires k <= |de|
    ensures var r := AuxRun(heads, cls, de, k, h, w, base);
      r.Some? ==> r.value.Keys == base.Keys + (if k > 0 && cls.Some? then {"cls"} else {}) + AuxKeys(heads, k)
  {
    if k > 0 {
      var ii := k - 1;
      AuxRunKeys(heads, cls, de, ii, h, w, base);
      var prev := AuxRun(heads, cls, de, ii, h, w, base);
      if prev.Some? {
        AuxStepKeys(heads, cls, de[ii], ii, h, w, prev.value);
      }
    }
  }

  /** The keys once the head and the auxiliary loop have run on the decoder outputs `de`. */
  lemma HeadsKeys(head: Layer, cls: Option<Layer>, auxHead: Option<map<int, Layer>>, de: seq<Shape>, h: nat, w: nat)
    ensures var r := Heads(head, cls, auxHead, de, h, w);
      r.Some? ==>
        r.value.Keys ==
          {"out"} +
          (if auxHead.Some? && cls.Some? && |de| >= 2 then {"cls"} else {}) +
          (if auxHead.Some? then AuxKeys(auxHead.value, |de| - 1) else {})
  {
    if Heads(head, cls, auxHead, de, h, w).Some? {
      var base := map["out" := MapPred(Resize(Apply(head, de[|de| - 1]).value, h, w))];
      assert base.Keys == {"out"};
      if auxHead.Some? {
        AuxRunKeys(auxHead.value, cls, de, |de| - 1, h, w, base);
      }
    }
  }

  /**
   * The keys of `forward`'s dictionary: always `out`; `cls` exactly when
   * auxiliary heads and the class branch exist and there are at least two
   * decoder outputs; `aux{ii}` exactly for the registered heads with
   * `0 <= ii < n - 1`, `n` the number of decoder stages.
   */
  lemma UNetKeys(m: UNet, feats: map<string, Shape>, h: nat, w: nat)
    ensures var r := UNetOut(m, feats, h, w);
      var n := |m.decoder.stages|;
      r.Some? ==>
        r.value.Keys ==
          {"out"} +
          (if m.auxHead.Some? && m.cls.Some? && n >= 2 then {"cls"} else {}) +
          (if m.auxHead.Some? then AuxKeys(m.auxHead.value, n - 1) else {})
  {
    if UNetOut(m, feats, h, w).Some? {
      var en := EncoderOut(m.encoder.compress, feats).value;
      var de := DecoderOut(m.decoder, en).value;
      assert |de| == |m.decoder.stages|;
      HeadsKeys(m.head, m.cls, m.auxHead, de, h, w);
    }
  }

  /** `aux{ii}` comes from the head registered for `ii`, when `ii` is inside the walked range. */
  lemma HeadsKeyPresent(head: Layer, cls: Option<Layer>, auxHead: Option<map<int, Layer>>, de: seq<Shape>,
                        h: nat, w: nat, ii: nat)
    requires Heads(head, cls, auxHead, de, h, w).Some?
    ensures AuxKey(ii) in Heads(head, cls, auxHead, de, h, w).value <==>
      auxHead.Some? && ii < |de| - 1 && ii in auxHead.value
  {
    HeadsKeys(head, cls, auxHead, de, h, w);
    AuxKeyDistinct(ii, ii);
    if auxHead.Some? {
      AuxKeysMember(auxHead.value, |de| - 1, ii);
    }
  }

  /** In particular `aux{ii}` is present only for a registered head inside the walked range. */
  lemma AuxKeyPresent(m: UNet, feats: map<string, Shape>, h: nat, w: nat, ii: nat)
    requires UNetOut(m, feats, h, w).Some?
    ensures AuxKey(ii) in UNetOut(m, feats, h, w).value <==>
      m.auxHead.Some? && ii < |m.decoder.stages| - 1 && ii in m.auxHead.value
  {
    var en := EncoderOut(m.encoder.compress, feats).value;
    var de := DecoderOut(m.decoder, en).value;
    assert |de| == |m.decoder.stages|;
    HeadsKeyPresent(m.head, m.cls, m.auxHead, de, h, w, ii);
  }

  // ---------------------------------------------------------- output shapes

  /** Every score map is `num_classes x h x w`; the class-guidance entry holds 2 scores. */
  predicate WellShaped(p: map<string, Pred>, numClasses: nat, h: nat, w: nat)
  {
    forall k :: k in p ==> p[k] == if k == "cls" then ClassScores(2) else MapPred(Shape(numClasses, h, w))
  }

  /** The class-guidance branch turns a `lastCh`-wide map into 2 scores. */
  lemma ClsBranchShape(lastCh: nat, s: Shape)
    requires s.ch == lastCh && s.h > 0 && s.w > 0
    ensures Apply(ClsBranch(lastCh), s) == Some(Shape(2, 1, 1))
  {
    var g := Shape(2, 1, 1);
    var conv := Shape(2, s.h, s.w);
    var tail2 := [GlobalMaxPool, Sigmoid];
    var tail3 := [Conv(lastCh, 2, 1, 0), GlobalMaxPool, Sigmoid];
    var body := [Dropout, Conv(lastCh, 2, 1, 0), GlobalMaxPool, Sigmoid];
    assert ApplyAll([Sigmoid], g) == Some(g);
    assert tail2[1..] == [Sigmoid];
    assert ApplyAll(tail2, conv) == Some(g);
    assert tail3[1..] == tail2;
    assert Apply(Conv(lastCh, 2, 1, 0), s) == Some(conv);
    assert ApplyAll(tail3, s) == Some(g);
    assert body[1..] == tail3;
    assert ApplyAll(body, s) == Some(g);
  }

  /** The head maps a `decoder_ch`-wide map to `num_classes` channels. */
  lemma HeadShape(decoderCh: nat, numClasses: nat, transposeFinal: bool, s: Shape)
    requires s.ch == decoderCh && s.h > 0 && s.w > 0
    ensures var r := Apply(Head(decoderCh, numClasses, transposeFinal), s);
      r.Some? && r.value.ch == numClasses &&
      r.value.h == (if transposeFinal then 2 * s.h else s.h) &&
      r.value.w == (if transposeFinal then 2 * s.w else s.w)
  {
    if transposeFinal {
      var up := Shape(numClasses, 2 * s.h, 2 * s.w);
      assert Apply(ConvTranspose(decoderCh, numClasses, 4, 2, 1), s) == Some(up);
      assert ApplyAll([ConvTranspose(decoderCh, numClasses, 4, 2, 1)], s) == Some(up);
    }
  }

  /** The auxiliary loop keeps every entry well shaped when each decoder output has the width its head expects. */
  lemma {:induction false} AuxRunShapes(numDecoders: int, auxLosses: int, decoderCh: nat, lastCh: nat, numClasses: nat,
                                        cls: Option<Layer>, de: seq<Shape>, k: nat, h: nat, w: nat,
                                        base: map<string, Pred>)
    requires k <= |de|
    requires WellShaped(base, numClasses, h, w)
    requires cls.Some? ==> cls.value == ClsBranch(lastCh)
    requires OutputsFit(de, lastCh, decoderCh)
    ensures var r := AuxRun(AuxHeadsSpec(numDecoders, auxLosses, decoderCh, lastCh, numClasses), cls, de, k, h, w, base);
      r.Some? && WellShaped(r.value, numClasses, h, w)
  {
    if k > 0 {
      var heads := AuxHeadsSpec(numDecoders, auxLosses, decoderCh, lastCh, numClasses);
      AuxRunShapes(numDecoders, auxLosses, decoderCh, lastCh, numClasses, cls, de, k - 1, h, w, base);
      var p := AuxRun(heads, cls, de, k - 1, h, w, base).value;
      var ii := k - 1;
      var d := de[ii];
      var q := p;
      if ii == 0 && cls.Some? {
        ClsBranchShape(lastCh, d);
        q := p["cls" := ClassScores(2)];
      }
      assert WellShaped(q, numClasses, h, w);
      if ii in heads {
        var a := Shape(numClasses, d.h, d.w);
        assert Apply(heads[ii], d) == Some(a);
        AuxKeyDistinct(ii, ii);
        var q' := q[AuxKey(ii) := MapPred(Resize(a, h, w))];
        assert AuxRun(heads, cls, de, k, h, w, base) == Some(q');
        assert WellShaped(q', numClasses, h, w);
      } else {
        assert AuxRun(heads, cls, de, k, h, w, base) == Some(q);
      }
    }
  }

  /** Each decoder output is non-empty and has the width its consumer expects. */
  predicate OutputsFit(de: seq<Shape>, lastCh: nat, decoderCh: nat)
  {
    forall ii :: 0 <= ii < |de| ==>
      de[ii].h > 0 && de[ii].w > 0 && de[ii].ch == if ii == 0 then lastCh else decoderCh
  }

  /** The backbone returns feature `layer{k}` of `nd` with `fe[k]` channels, `2^(nd-1-k)` times finer than `bh x bw`. */
  predicate BackbonePyramid(fe: seq<nat>, feats: map<string, Shape>, bh: nat, bw: nat)
  {
    forall k {:trigger LayerKey(k)} :: 0 <= k < |fe| ==>
      LayerKey(k) in feats && feats[LayerKey(k)] == Shape(fe[k], Scaled(bh, |fe| - 1 - k), Scaled(bw, |fe| - 1 - k))
  }

  /** The encoder turns a backbone pyramid into a pyramid of the configured widths. */
  lemma EncoderPyramidOut(fe: seq<nat>, enCh: seq<nat>, feats: map<string, Shape>, bh: nat, bw: nat)
    requires |fe| == |enCh| && bh > 0 && bw > 0
    requires BackbonePyramid(fe, feats, bh, bw)
    ensures var en := EncoderOut(CompressSpec(fe, enCh), feats);
      en.Some? && EncoderPyramid(enCh, en.value, bh, bw)
  {
    var nd := |fe|;
    forall k | 0 <= k < nd
      ensures LayerKey(k) in feats && feats[LayerKey(k)].ch == fe[k]
      ensures feats[LayerKey(k)].h > 0 && feats[LayerKey(k)].w > 0
    {
      ScaledPositive(bh, nd - 1 - k);
      ScaledPositive(bw, nd - 1 - k);
    }
    EncoderOutShapes(fe, enCh, feats);
  }

  /** The decoder's outputs have the widths the head, the class branch and the auxiliary heads expect. */
  lemma OutputsFitShapes(out: seq<Shape>, encMaps: seq<Shape>, enCh: seq<nat>, width: nat, bh: nat, bw: nat)
    requires bh > 0 && bw > 0
    requires EncoderPyramid(enCh, encMaps, bh, bw)
    requires DecoderOutputs(out, encMaps, width, bh, bw)
    ensures OutputsFit(out, enCh[|enCh| - 1], width)
  {
    var n := |encMaps|;
    assert out[0] == encMaps[n - 1];
    forall ii | 0 <= ii < |out|
      ensures out[ii].h > 0 && out[ii].w > 0 && out[ii].ch == if ii == 0 then enCh[n - 1] else width
    {
      if ii == 0 {
        ScaledPositive(bh, 0);
        ScaledPositive(bw, 0);
      } else {
        ScaledPositive(bh, ii);
        ScaledPositive(bw, ii);
      }
    }
  }

  /** Encoder then decoder on a backbone pyramid: `nd` outputs, each as wide as its head expects. */
  lemma PipelineShapes(chs: seq<nat>, skipCh: nat, fastUp: bool, fe: seq<nat>, feats: map<string, Shape>,
                       bh: nat, bw: nat)
    requires |chs| >= 3 && |fe| == |chs| - 1
    requires bh > 0 && bw > 0
    requires BackbonePyramid(fe, feats, bh, bw)
    ensures var en := EncoderOut(CompressSpec(fe, chs[1..]), feats);
      en.Some? &&
      var de := DecoderOut(DecoderSpec(chs[1..], skipCh, fastUp), en.value);
      de.Some? && |de.value| == |chs| - 1 && OutputsFit(de.value, chs[|chs| - 1], skipCh * (|chs| - 1))
  {
    var enCh := chs[1..];
    EncoderPyramidOut(fe, enCh, feats, bh, bw);
    var en := EncoderOut(CompressSpec(fe, enCh), feats).value;
    DecoderShapes(enCh, skipCh, fastUp, en, bh, bw);
    var de := DecoderOut(DecoderSpec(enCh, skipCh, fastUp), en).value;
    OutputsFitShapes(de, en, enCh, skipCh * |enCh|, bh, bw);
  }

  /**
   * The head and the auxiliary loop of a model with `nd >= 2` decoder
   * stages, on decoder outputs of the widths they expect: they succeed and
   * every entry is well shaped.
   */
  lemma HeadsShapes(de: seq<Shape>, h: nat, w: nat, numClasses: nat, auxLosses: int,
                    transposeFinal: bool, useCgm: bool, lastCh: nat, decoderCh: nat)
    requires h > 0 && w > 0
    requires |de| >= 2 && OutputsFit(de, lastCh, decoderCh)
    ensures var r := Heads(Head(decoderCh, numClasses, transposeFinal),
                           if useCgm then Some(ClsBranch(lastCh)) else None,
                           if auxLosses > 0 then Some(AuxHeadsSpec(|de|, auxLosses, decoderCh, lastCh, numClasses)) else None,
                           de, h, w);
      r.Some? && "out" in r.value && WellShaped(r.value, numClasses, h, w)
  {
    var cls := if useCgm then Some(ClsBranch(lastCh)) else None;
    var heads := AuxHeadsSpec(|de|, auxLosses, decoderCh, lastCh, numClasses);
    var last := de[|de| - 1];
    HeadShape(decoderCh, numClasses, transposeFinal, last);
    var o := Apply(Head(decoderCh, numClasses, transposeFinal), last).value;
    var base := map["out" := MapPred(Resize(o, h, w))];
    assert WellShaped(base, numClasses, h, w);
    if auxLosses > 0 {
      AuxRunShapes(|de|, auxLosses, decoderCh, lastCh, numClasses, cls, de, |de| - 1, h, w, base);
      AuxRunKeys(heads, cls, de, |de| - 1, h, w, base);
    }
  }

  /**
   * End to end: `__init__` succeeds when its encoder has at least two
   * decoder stages' worth of `channels`, and when the encoder's compress
   * layers map the configured features to `channels[1:]` and the model is
   * fed a backbone pyramid (feature `k` of `nd` sits `2^(nd-1-k)` times
   * finer than the coarsest), `forward` succeeds, every score map in the
   * dictionary is `num_classes x h x w` and `cls` holds 2 scores.
   */
  lemma UNetShapes(numClasses: nat, skipCh: nat, auxLosses: int, encoder: Option<EncoderState>,
                   channels: seq<nat>, cfgs: map<string, BackboneCfg>,
                   transposeFinal: bool, useCgm: bool, fastUp: bool,
                   fe: seq<nat>, feats: map<string, Shape>, bh: nat, bw: nat, h: nat, w: nat)
    requires EncoderOf(encoder, channels, cfgs).Ok?
    requires var enc := EncoderOf(encoder, channels, cfgs).value;
      |enc.channels| >= 3 && |fe| == |enc.channels| - 1 && enc.compress == CompressSpec(fe, enc.channels[1..])
    requires bh > 0 && bw > 0 && h > 0 && w > 0
    requires BackbonePyramid(fe, feats, bh, bw)
    ensures var m := UNetSpec(numClasses, skipCh, auxLosses, encoder, channels, cfgs, transposeFinal, useCgm, fastUp);
      m.Ok? &&
      var r := UNetOut(m.value, feats, h, w);
      r.Some? && "out" in r.value && WellShaped(r.value, numClasses, h, w)
  {
    var enc := EncoderOf(encoder, channels, cfgs).value;
    var chs := enc.channels;
    var m := Assemble(enc, numClasses, skipCh, auxLosses, transposeFinal, useCgm, fastUp);
    PipelineShapes(chs, skipCh, fastUp, fe, feats, bh, bw);
    var en := EncoderOut(enc.compress, feats).value;
    var de := DecoderOut(m.decoder, en).value;
    assert UNetOut(m, feats, h, w) == Heads(m.head, m.cls, m.auxHead, de, h, w);
    HeadsShapes(de, h, w, numClasses, auxLosses, transposeFinal, useCgm, chs[|chs| - 1], skipCh * |de|);
  }
}
