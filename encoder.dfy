/**
 * `U3PEfficientNetEncoder` (model/u3_effnet/unet3plus.py, lines 87-128):
 * the backbone is chosen by name, and each backbone feature is passed
 * through a compress layer that maps its width to the configured width.
 * The backbone network itself and its configuration table are outside
 * this model; the configuration is given as a table of channel lists.
 */
module Encoder {
  import opened Layers
  import opened Text

  /** The backbone entry of the configuration table: feature widths and target widths. */
  datatype BackboneCfg = BackboneCfg(feChannels: seq<nat>, channels: seq<nat>)

  /** The encoder's registered state: the compress layers and the channel list it reports. */
  datatype EncoderState = EncoderState(compress: seq<Layer>, channels: seq<nat>)

  const SupportedBackbones: set<string> := {"efficientnet-b0", "efficientnet-b5", "efficientnet-b6"}

  /** The name dispatch: a supported name selects its table entry; any other name is a ValueError. */
  function SelectBackbone(name: string, cfgs: map<string, BackboneCfg>): (r: Result<BackboneCfg>)
    ensures r.Ok? <==> name in SupportedBackbones && name in cfgs
    ensures r.Ok? ==> r.value == cfgs[name]
    ensures name !in SupportedBackbones ==> r == Err("Unsupported backbone : " + name)
  {
    if name == "efficientnet-b0" || name == "efficientnet-b5" || name == "efficientnet-b6" then
      if name in cfgs then Ok(cfgs[name]) else Err("KeyError: " + name)
    else Err("Unsupported backbone : " + name)
  }

  /** The compress layer for one feature: Identity when the widths agree, else a 1x1 convolution. */
  function CompressLayer(feCh: nat, ch: nat): Layer {
    if feCh != ch then Conv(feCh, ch, 1, 0) else Identity
  }

  /** The compress layers the constructor registers: one per (fe_ch, ch) pair, `zip` truncating. */
  function CompressSpec(feChannels: seq<nat>, channels: seq<nat>): (r: seq<Layer>)
  {
    var n := if |feChannels| <= |channels| then |feChannels| else |channels|;
    seq(n, i requires 0 <= i < n => CompressLayer(feChannels[i], channels[i]))
  }

  /** The loop over `zip(cfg['fe_channels'], cfg['channels'])`. */
  method BuildCompress(feChannels: seq<nat>, channels: seq<nat>) returns (convs: seq<Layer>)
    ensures convs == CompressSpec(feChannels, channels)
  {
    convs := [];
    var i := 0;
    while i < |feChannels| && i < |channels|
      invariant 0 <= i <= |feChannels| && i <= |channels|
      invariant convs == CompressSpec(feChannels[..i], channels[..i])
    {
      convs := convs + [CompressLayer(feChannels[i], channels[i])];
      i := i + 1;
      assert feChannels[..i][..i - 1] == feChannels[..i - 1];
      assert channels[..i][..i - 1] == channels[..i - 1];
    }
    assert feChannels[..i] == feChannels || channels[..i] == channels;
    CompressSpecPrefix(feChannels, channels, i);
  }

  /** Only the first `min(|fe|, |ch|)` pairs matter. */
  lemma CompressSpecPrefix(feChannels: seq<nat>, channels: seq<nat>, i: nat)
    requires i <= |feChannels| && i <= |channels|
    requires i == |feChannels| || i == |channels|
    ensures CompressSpec(feChannels[..i], channels[..i]) == CompressSpec(feChannels, channels)
  {
  }

  /**
   * A compress layer is the identity exactly when the widths agree, and
   * in either case turns a `fe_ch`-wide map into a `ch`-wide map of the
   * same spatial size.
   */
  lemma CompressShape(feChannels: seq<nat>, channels: seq<nat>, i: nat, s: Shape)
    requires i < |feChannels| && i < |channels|
    requires s.ch == feChannels[i] && s.h > 0 && s.w > 0
    ensures var c := CompressSpec(feChannels, channels);
      |c| > i &&
      (c[i] == Identity <==> feChannels[i] == channels[i]) &&
      Apply(c[i], s) == Some(Shape(channels[i], s.h, s.w))
  {
  }

  /** `__init__`: select the backbone, then build one compress layer per configured feature. */
  method NewEncoder(channels: seq<nat>, backbone: string, cfgs: map<string, BackboneCfg>)
    returns (r: Result<EncoderState>)
    ensures r.Ok? <==> SelectBackbone(backbone, cfgs).Ok?
    ensures r.Err? ==> r.msg == SelectBackbone(backbone, cfgs).msg
    ensures r.Ok? ==>
      var cfg := SelectBackbone(backbone, cfgs).value;
      r.value == EncoderState(CompressSpec(cfg.feChannels, cfg.channels), channels)
  {
    var sel := SelectBackbone(backbone, cfgs);
    if sel.Err? {
      return Err(sel.msg);
    }
    var convs := BuildCompress(sel.value.feChannels, sel.value.channels);
    r := Ok(EncoderState(convs, channels));
  }

  /** The key under which the feature extractor returns feature `ii`. */
  function LayerKey(ii: nat): string {
    "layer" + NatToString(ii)
  }

  /** Distinct features have distinct keys. */
  lemma LayerKeyInjective(a: nat, b: nat)
    ensures LayerKey(a) == LayerKey(b) <==> a == b
  {
    if LayerKey(a) == LayerKey(b) {
      assert NatToString(a) == LayerKey(a)[5..];
      assert NatToString(b) == LayerKey(b)[5..];
      NatToStringInjective(a, b);
    }
  }

  /**
   * `forward` after the backbone: feature `layer{ii}` through compress
   * layer `ii`, for every compress layer in order. A missing key (a
   * KeyError) or a failing layer fails the whole.
   */
  function EncoderOut(compress: seq<Layer>, feats: map<string, Shape>): Option<seq<Shape>>
    decreases |compress|
  {
    if |compress| == 0 then Some([])
    else
      match EncoderOut(compress[..|compress| - 1], feats)
      case None => None
      case Some(prev) =>
        var key := LayerKey(|compress| - 1);
        if key !in feats then None
        else
          match Apply(compress[|compress| - 1], feats[key])
          case None => None
          case Some(s) => Some(prev + [s])
  }

  /** The loop of `forward` that fills `encoder_out`. */
  method EncoderForward(enc: EncoderState, feats: map<string, Shape>) returns (r: Option<seq<Shape>>)
    ensures r == EncoderOut(enc.compress, feats)
  {
    var out: seq<Shape> := [];
    var ii := 0;
    while ii < |enc.compress|
      invariant 0 <= ii <= |enc.compress|
      invariant EncoderOut(enc.compress[..ii], feats) == Some(out)
    {
      assert enc.compress[..ii + 1][..ii] == enc.compress[..ii];
      var key := LayerKey(ii);
      if key !in feats {
        assert EncoderOut(enc.compress[..ii + 1], feats).None?;
        EncoderOutFails(enc.compress, feats, ii + 1);
        return None;
      }
      var s := Apply(enc.compress[ii], feats[key]);
      if s.None? {
        assert EncoderOut(enc.compress[..ii + 1], feats).None?;
        EncoderOutFails(enc.compress, feats, ii + 1);
        return None;
      }
      out := out + [s.value];
      ii := ii + 1;
    }
    assert enc.compress[..ii] == enc.compress;
    r := Some(out);
  }

  /** Once a prefix fails, the whole run fails. */
  lemma {:induction false} EncoderOutFails(compress: seq<Layer>, feats: map<string, Shape>, k: nat)
    requires k <= |compress| && EncoderOut(compress[..k], feats).None?
    ensures EncoderOut(compress, feats).None?
    decreases |compress| - k
  {
    if k < |compress| {
      assert compress[..k + 1][..k] == compress[..k];
      EncoderOutFails(compress, feats, k + 1);
    } else {
      assert compress[..k] == compress;
    }
  }

  /**
   * When the backbone returns every feature `layer{ii}` with its configured
   * `fe_ch` width, the encoder returns one map per feature, in order, with
   * the configured width `ch` and the feature's spatial size.
   */
  lemma {:induction false} EncoderOutShapes(feChannels: seq<nat>, channels: seq<nat>, feats: map<string, Shape>)
    requires |feChannels| == |channels|
    requires forall ii {:trigger LayerKey(ii)} :: 0 <= ii < |channels| ==>
      LayerKey(ii) in feats && feats[LayerKey(ii)].ch == feChannels[ii] &&
      feats[LayerKey(ii)].h > 0 && feats[LayerKey(ii)].w > 0
    ensures var out := EncoderOut(CompressSpec(feChannels, channels), feats);
      out.Some? && |out.value| == |channels| &&
      forall ii :: 0 <= ii < |channels| ==>
        out.value[ii] == Shape(channels[ii], feats[LayerKey(ii)].h, feats[LayerKey(ii)].w)
    decreases |channels|
  {
    var n := |channels|;
    if n > 0 {
      var fe', ch' := feChannels[..n - 1], channels[..n - 1];
      EncoderOutShapes(fe', ch', feats);
      var c := CompressSpec(feChannels, channels);
      assert c[..n - 1] == CompressSpec(fe', ch');
      CompressShape(feChannels, channels, n - 1, feats[LayerKey(n - 1)]);
    }
  }

  /** A feature the backbone does not return makes `forward` fail with a KeyError. */
  lemma EncoderOutMissing(compress: seq<Layer>, feats: map<string, Shape>, ii: nat)
    requires ii < |compress| && LayerKey(ii) !in feats
    ensures EncoderOut(compress, feats).None?
  {
    var p := compress[..ii + 1];
    assert p[..ii] == compress[..ii];
    assert EncoderOut(p, feats).None?;
    EncoderOutFails(compress, feats, ii + 1);
  }
}
