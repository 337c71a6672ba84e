/**
 * `FullScaleSkipConnect` (model/u3_effnet/unet3plus.py, lines 44-84): one
 * UNet3+ decoder stage. Every encoder map is pooled down and every earlier
 * decoder map is upsampled to this stage's resolution, each is projected to
 * `skip_ch` channels, and the results are concatenated and fused.
 */
module SkipConnection {
  import opened Layers

  /** The sub-modules a FullScaleSkipConnect registers in its constructor. */
  datatype SkipConnect = SkipConnect(
    en2dec: seq<Layer>,
    dec2dec: seq<Layer>,
    concatCh: nat,
    fuse: Layer)

  function Min(a: nat, b: nat): nat {
    if a <= b then a else b
  }

  /** The default decoder-to-decoder scales `[2^numDec, ..., 2^1]`. */
  function DefaultDecScales(numDec: nat): seq<nat> {
    if numDec == 0 then [] else [Pow2(numDec)] + DefaultDecScales(numDec - 1)
  }

  /** The j-th default scale is `2^(numDec - j)`: one per earlier decoder map. */
  lemma {:induction false} DefaultDecScalesAt(numDec: nat)
    ensures |DefaultDecScales(numDec)| == numDec
    ensures forall j :: 0 <= j < numDec ==> DefaultDecScales(numDec)[j] == Pow2(numDec - j)
  {
    if numDec > 0 {
      DefaultDecScalesAt(numDec - 1);
    }
  }

  lemma {:induction false} Pow2Increasing(a: nat, b: nat)
    requires a < b
    ensures Pow2(a) < Pow2(b)
    decreases b
  {
    if a < b - 1 {
      Pow2Increasing(a, b - 1);
    }
  }

  /** The default scales are strictly decreasing, and all at least 2. */
  lemma DefaultDecScalesDecreasing(numDec: nat)
    ensures var r := DefaultDecScales(numDec);
      (forall i, j :: 0 <= i < j < |r| ==> r[i] > r[j]) &&
      (forall i :: 0 <= i < |r| ==> r[i] >= 2)
  {
    DefaultDecScalesAt(numDec);
    var r := DefaultDecScales(numDec);
    forall i, j | 0 <= i < j < |r|
      ensures r[i] > r[j]
    {
      Pow2Increasing(numDec - j, numDec - i);
    }
    forall i | 0 <= i < |r|
      ensures r[i] >= 2
    {
      Pow2Increasing(0, numDec - i);
    }
  }

  /** The scales a stage uses: the given ones, or the default. */
  function ScalesOf(numDec: nat, decScales: Option<seq<nat>>): seq<nat>
  {
    if decScales.Some? then decScales.value else DefaultDecScales(numDec)
  }

  /** The en2dec layer `__init__` registers for encoder map `i`. */
  function En2DecAt(enChannels: seq<nat>, enScales: seq<nat>, skipCh: nat): nat -> Layer
  {
    (i: nat) => if i < |enChannels| && i < |enScales| then En2DecLayer(enChannels[i], skipCh, enScales[i]) else Identity
  }

  /** The dec2dec layer `__init__` registers for decoder map `j`: the first reads `bottomDecCh` channels. */
  function Dec2DecAt(scales: seq<nat>, bottomDecCh: nat, concat: nat, skipCh: nat, fastUp: bool): nat -> Layer
  {
    (j: nat) => if j < |scales| then Dec2DecLayer(if j == 0 then bottomDecCh else concat, skipCh, scales[j], fastUp)
                else Identity
  }

  /** The block `__init__` builds from its arguments; `decScales` None means the default. */
  function SkipConnectSpec(enChannels: seq<nat>, enScales: seq<nat>, numDec: nat, skipCh: nat,
                           decScales: Option<seq<nat>>, bottomDecCh: nat, fastUp: bool): SkipConnect
  {
    var concat := skipCh * (|enChannels| + numDec);
    var scales := ScalesOf(numDec, decScales);
    SkipConnect(
      Tabulate(En2DecAt(enChannels, enScales, skipCh), Min(|enChannels|, |enScales|)),
      Tabulate(Dec2DecAt(scales, bottomDecCh, concat, skipCh, fastUp), |scales|),
      concat,
      U3PBlock(concat, concat, 1, 3, 1, false))
  }

  /**
   * The constructor's three loops: an en2dec layer per (channel, scale)
   * pair, the default scales when none are given, and a dec2dec layer per
   * scale, the first reading `bottomDecCh` channels and the rest `concat_ch`.
   */
  method NewSkipConnect(enChannels: seq<nat>, enScales: seq<nat>, numDec: nat, skipCh: nat,
                        decScales: Option<seq<nat>>, bottomDecCh: nat, fastUp: bool)
    returns (sc: SkipConnect)
    ensures sc == SkipConnectSpec(enChannels, enScales, numDec, skipCh, decScales, bottomDecCh, fastUp)
    ensures sc.concatCh == skipCh * (|enChannels| + numDec)
    ensures sc.fuse == U3PBlock(sc.concatCh, sc.concatCh, 1, 3, 1, false)
    ensures |sc.en2dec| == Min(|enChannels|, |enScales|)
    ensures decScales.None? ==> |sc.dec2dec| == numDec
  {
    var concat := skipCh * (|enChannels| + numDec);
    var en2dec := BuildEn2Dec(enChannels, enScales, skipCh);
    var scales: seq<nat>;
    if decScales.None? {
      scales := BuildDefaultScales(numDec);
    } else {
      scales := decScales.value;
    }
    var dec2dec := BuildDec2Dec(scales, bottomDecCh, concat, skipCh, fastUp);
    sc := SkipConnect(en2dec, dec2dec, concat, U3PBlock(concat, concat, 1, 3, 1, false));
  }

  /** The first loop: one en2dec layer per (channel, scale) pair, as `zip` pairs them. */
  method BuildEn2Dec(enChannels: seq<nat>, enScales: seq<nat>, skipCh: nat) returns (en2dec: seq<Layer>)
    ensures en2dec == Tabulate(En2DecAt(enChannels, enScales, skipCh), Min(|enChannels|, |enScales|))
  {
    var n := Min(|enChannels|, |enScales|);
    en2dec := [];
    var i := 0;
    while i < n
      invariant 0 <= i <= n
      invariant en2dec == Tabulate(En2DecAt(enChannels, enScales, skipCh), i)
    {
      en2dec := en2dec + [En2DecLayer(enChannels[i], skipCh, enScales[i])];
      i := i + 1;
    }
  }

  /**
   * The second loop, when no scales are given: for `ii` in `reversed(range(num_dec))`
   * it appends `2 ** (ii + 1)`, giving `2^num_dec, ..., 2^1`.
   */
  method BuildDefaultScales(numDec: nat) returns (scales: seq<nat>)
    ensures scales == DefaultDecScales(numDec)
    ensures |scales| == numDec
  {
    scales := [];
    var ii := numDec;
    while ii > 0
      invariant 0 <= ii <= numDec
      invariant |scales| == numDec - ii
      invariant forall j {:trigger scales[j]} :: 0 <= j < |scales| ==> scales[j] == Pow2(numDec - j)
    {
      ii := ii - 1;
      scales := scales + [Pow2(ii + 1)];
    }
    DefaultDecScalesAt(numDec);
  }

  /** The third loop: one dec2dec layer per scale, the first reading the bottom decoder's channels. */
  method BuildDec2Dec(scales: seq<nat>, bottomDecCh: nat, concat: nat, skipCh: nat, fastUp: bool)
    returns (dec2dec: seq<Layer>)
    ensures dec2dec == Tabulate(Dec2DecAt(scales, bottomDecCh, concat, skipCh, fastUp), |scales|)
  {
    dec2dec := [];
    var j := 0;
    while j < |scales|
      invariant 0 <= j <= |scales|
      invariant dec2dec == Tabulate(Dec2DecAt(scales, bottomDecCh, concat, skipCh, fastUp), j)
    {
      var decCh := if j == 0 then bottomDecCh else concat;
      dec2dec := dec2dec + [Dec2DecLayer(decCh, skipCh, scales[j], fastUp)];
      j := j + 1;
    }
  }

  // ---------------------------------------------------------------- forward

  /**
   * The list `out` of `forward`: one entry per encoder map (zip with the
   * en2dec layers), then one per decoder map (zip with the dec2dec layers)
   * only when decoder maps are given and not empty.
   */
  function SkipInputs(sc: SkipConnect, enMaps: seq<Shape>, decMaps: Option<seq<Shape>>): seq<Option<Shape>>
  {
    var nEn := Min(|enMaps|, |sc.en2dec|);
    var en := seq(nEn, i requires 0 <= i < nEn => Apply(sc.en2dec[i], enMaps[i]));
    if decMaps.Some? && |decMaps.value| > 0 then
      var ds := decMaps.value;
      var nDec := Min(|ds|, |sc.dec2dec|);
      en + seq(nDec, j requires 0 <= j < nDec => Apply(sc.dec2dec[j], ds[j]))
    else en
  }

  /**
   * The entries of `out`: the first `min(|enMaps|, |en2dec|)` from the
   * encoder maps, zipped with the en2dec layers; then, when decoder maps
   * are given and not empty, `min(|decMaps|, |dec2dec|)` from them.
   */
  lemma SkipInputsAt(sc: SkipConnect, enMaps: seq<Shape>, decMaps: Option<seq<Shape>>)
    ensures var r := SkipInputs(sc, enMaps, decMaps);
      var nEn := Min(|enMaps|, |sc.en2dec|);
      var nDec := if decMaps.Some? && |decMaps.value| > 0 then Min(|decMaps.value|, |sc.dec2dec|) else 0;
      |r| == nEn + nDec &&
      (forall i :: 0 <= i < nEn ==> r[i] == Apply(sc.en2dec[i], enMaps[i])) &&
      (forall j :: 0 <= j < nDec ==> r[nEn + j] == Apply(sc.dec2dec[j], decMaps.value[j]))
  {
  }

  /** `torch.cat(out, 1)`: the channel counts add up; the spatial sizes must agree; an empty list fails. */
  function Concat(parts: seq<Option<Shape>>): Option<Shape>
  {
    if |parts| == 0 then None
    else if |parts| == 1 then parts[0]
    else
      match (Concat(parts[..|parts| - 1]), parts[|parts| - 1])
      case (Some(a), Some(b)) =>
        if a.h == b.h && a.w == b.w then Some(Shape(a.ch + b.ch, a.h, a.w)) else None
      case _ => None
  }

  /** Every part is a map of `c` channels at `h x w`. */
  predicate Uniform(parts: seq<Option<Shape>>, c: nat, h: nat, w: nat)
  {
    forall i {:trigger parts[i]} :: 0 <= i < |parts| ==> parts[i] == Some(Shape(c, h, w))
  }

  /** Concatenating `k` maps of `c` channels at one resolution gives `c * k` channels there. */
  lemma {:induction false} ConcatUniform(parts: seq<Option<Shape>>, c: nat, h: nat, w: nat)
    requires |parts| > 0
    requires Uniform(parts, c, h, w)
    ensures Concat(parts) == Some(Shape(c * |parts|, h, w))
  {
    if |parts| > 1 {
      ConcatUniform(parts[..|parts| - 1], c, h, w);
      assert c * |parts| == c * (|parts| - 1) + c;
    }
  }

  /** A part that fails makes the concatenation fail. */
  lemma {:induction false} ConcatFails(parts: seq<Option<Shape>>, k: nat)
    requires k < |parts| && parts[k].None?
    ensures Concat(parts).None?
  {
    if |parts| > 1 && k < |parts| - 1 {
      ConcatFails(parts[..|parts| - 1], k);
    }
  }

  /** `forward`: concatenate, apply dropout, then the fuse block. */
  function SkipForward(sc: SkipConnect, enMaps: seq<Shape>, decMaps: Option<seq<Shape>>): Option<Shape>
  {
    match Concat(SkipInputs(sc, enMaps, decMaps))
    case None => None
    case Some(c) => ApplyAll([Dropout, sc.fuse], c)
  }

  /** The two loops of `forward` that grow `out`, then the concatenation and fuse. */
  method SkipConnectForward(sc: SkipConnect, enMaps: seq<Shape>, decMaps: Option<seq<Shape>>)
    returns (r: Option<Shape>)
    ensures r == SkipForward(sc, enMaps, decMaps)
  {
    var out: seq<Option<Shape>> := [];
    var nEn := Min(|enMaps|, |sc.en2dec|);
    var i := 0;
    while i < nEn
      invariant 0 <= i <= nEn
      invariant |out| == i
      invariant forall k :: 0 <= k < i ==> out[k] == Apply(sc.en2dec[k], enMaps[k])
    {
      out := out + [Apply(sc.en2dec[i], enMaps[i])];
      i := i + 1;
    }
    if decMaps.Some? && |decMaps.value| > 0 {
      var ds := decMaps.value;
      var nDec := Min(|ds|, |sc.dec2dec|);
      var j := 0;
      while j < nDec
        invariant 0 <= j <= nDec
        invariant |out| == nEn + j
        invariant forall k :: 0 <= k < nEn ==> out[k] == Apply(sc.en2dec[k], enMaps[k])
        invariant forall k :: 0 <= k < j ==> out[nEn + k] == Apply(sc.dec2dec[k], ds[k])
      {
        out := out + [Apply(sc.dec2dec[j], ds[j])];
        j := j + 1;
      }
    }
    SkipInputsAt(sc, enMaps, decMaps);
    assert out == SkipInputs(sc, enMaps, decMaps);
    var cat := Concat(out);
    if cat.None? {
      r := None;
    } else {
      r := ApplyAll([Dropout, sc.fuse], cat.value);
    }
  }

  /** Every encoder map sits exactly its scale times finer than `h x w` and carries its declared width. */
  predicate EnMapsAt(enChannels: seq<nat>, enScales: seq<nat>, enMaps: seq<Shape>, h: nat, w: nat)
  {
    |enScales| == |enChannels| == |enMaps| &&
    forall i {:trigger enMaps[i]} :: 0 <= i < |enMaps| ==>
      enScales[i] > 0 && enMaps[i] == Shape(enChannels[i], h * enScales[i], w * enScales[i])
  }

  /**
   * Every decoder map sits exactly its scale times coarser than `h x w`;
   * the first carries `bottomDecCh` channels and the others `concat`.
   */
  predicate DecMapsAt(scales: seq<nat>, decMaps: seq<Shape>, bottomDecCh: nat, concat: nat, h: nat, w: nat)
  {
    |scales| == |decMaps| &&
    forall j {:trigger decMaps[j]} :: 0 <= j < |decMaps| ==>
      scales[j] > 0 && decMaps[j].h > 0 && decMaps[j].w > 0 &&
      decMaps[j].h * scales[j] == h && decMaps[j].w * scales[j] == w &&
      decMaps[j].ch == (if j == 0 then bottomDecCh else concat)
  }

  /** Each entry of `out` that comes from an encoder map is `skip_ch` channels at `h x w`. */
  lemma EnPartShape(enChannels: seq<nat>, enScales: seq<nat>, numDec: nat, skipCh: nat,
                    decScales: Option<seq<nat>>, bottomDecCh: nat, fastUp: bool,
                    enMaps: seq<Shape>, decMaps: seq<Shape>, h: nat, w: nat, i: nat)
    requires h > 0 && w > 0
    requires EnMapsAt(enChannels, enScales, enMaps, h, w)
    requires i < |enMaps|
    ensures var sc := SkipConnectSpec(enChannels, enScales, numDec, skipCh, decScales, bottomDecCh, fastUp);
      |SkipInputs(sc, enMaps, Some(decMaps))| > i &&
      SkipInputs(sc, enMaps, Some(decMaps))[i] == Some(Shape(skipCh, h, w))
  {
    var sc := SkipConnectSpec(enChannels, enScales, numDec, skipCh, decScales, bottomDecCh, fastUp);
    SkipInputsAt(sc, enMaps, Some(decMaps));
    TabulateAt(En2DecAt(enChannels, enScales, skipCh), Min(|enChannels|, |enScales|), i);
    En2DecBridges(enChannels[i], skipCh, enScales[i], h, w);
  }

  /** Each entry of `out` that comes from a decoder map is `skip_ch` channels at `h x w`. */
  lemma DecPartShape(enChannels: seq<nat>, enScales: seq<nat>, numDec: nat, skipCh: nat,
                     decScales: Option<seq<nat>>, bottomDecCh: nat, fastUp: bool,
                     enMaps: seq<Shape>, decMaps: seq<Shape>, h: nat, w: nat, j: nat)
    requires h > 0 && w > 0 && |enChannels| == |enScales| == |enMaps|
    requires DecMapsAt(ScalesOf(numDec, decScales), decMaps, bottomDecCh, skipCh * (|enChannels| + numDec), h, w)
    requires j < |decMaps|
    ensures var sc := SkipConnectSpec(enChannels, enScales, numDec, skipCh, decScales, bottomDecCh, fastUp);
      |SkipInputs(sc, enMaps, Some(decMaps))| > |enMaps| + j &&
      SkipInputs(sc, enMaps, Some(decMaps))[|enMaps| + j] == Some(Shape(skipCh, h, w))
  {
    var sc := SkipConnectSpec(enChannels, enScales, numDec, skipCh, decScales, bottomDecCh, fastUp);
    var scales := ScalesOf(numDec, decScales);
    var concat := skipCh * (|enChannels| + numDec);
    SkipInputsAt(sc, enMaps, Some(decMaps));
    TabulateAt(Dec2DecAt(scales, bottomDecCh, concat, skipCh, fastUp), |scales|, j);
    Dec2DecBridges(decMaps[j].ch, skipCh, scales[j], fastUp, decMaps[j], h, w);
  }

  /**
   * Under the same conditions, every input of the concatenation is a
   * `skip_ch`-wide map at `h x w`, one per encoder map and decoder map.
   */
  lemma SkipPartsShape(enChannels: seq<nat>, enScales: seq<nat>, numDec: nat, skipCh: nat,
                       decScales: Option<seq<nat>>, bottomDecCh: nat, fastUp: bool,
                       enMaps: seq<Shape>, decMaps: seq<Shape>, h: nat, w: nat)
    requires h > 0 && w > 0
    requires EnMapsAt(enChannels, enScales, enMaps, h, w)
    requires |decMaps| == numDec
    requires DecMapsAt(ScalesOf(numDec, decScales), decMaps, bottomDecCh, skipCh * (|enChannels| + numDec), h, w)
    ensures var parts := SkipInputs(SkipConnectSpec(enChannels, enScales, numDec, skipCh, decScales, bottomDecCh, fastUp),
                                    enMaps, Some(decMaps));
      |parts| == |enChannels| + numDec && Uniform(parts, skipCh, h, w)
  {
    var sc := SkipConnectSpec(enChannels, enScales, numDec, skipCh, decScales, bottomDecCh, fastUp);
    var parts := SkipInputs(sc, enMaps, Some(decMaps));
    SkipInputsAt(sc, enMaps, Some(decMaps));
    assert |parts| == |enChannels| + numDec;
    forall i | 0 <= i < |parts|
      ensures parts[i] == Some(Shape(skipCh, h, w))
    {
      if i < |enMaps| {
        EnPartShape(enChannels, enScales, numDec, skipCh, decScales, bottomDecCh, fastUp, enMaps, decMaps, h, w, i);
      } else {
        DecPartShape(enChannels, enScales, numDec, skipCh, decScales, bottomDecCh, fastUp, enMaps, decMaps, h, w,
                     i - |enMaps|);
      }
    }
  }

  /**
   * The stage's shape contract: when every encoder map sits exactly
   * `scale` times finer than the target `h x w` and every decoder map
   * exactly `scale` times coarser, and the decoder maps carry the widths
   * the constructor expects (`bottomDecCh` first, `concat_ch` after), the
   * stage emits `skip_ch * (len(en_channels) + num_dec)` channels at `h x w`.
   */
  lemma SkipForwardShape(enChannels: seq<nat>, enScales: seq<nat>, numDec: nat, skipCh: nat,
                         decScales: Option<seq<nat>>, bottomDecCh: nat, fastUp: bool,
                         enMaps: seq<Shape>, decMaps: seq<Shape>, h: nat, w: nat)
    requires h > 0 && w > 0 && |enChannels| + numDec > 0
    requires EnMapsAt(enChannels, enScales, enMaps, h, w)
    requires |decMaps| == numDec
    requires DecMapsAt(ScalesOf(numDec, decScales), decMaps, bottomDecCh, skipCh * (|enChannels| + numDec), h, w)
    ensures SkipForward(SkipConnectSpec(enChannels, enScales, numDec, skipCh, decScales, bottomDecCh, fastUp),
                        enMaps, Some(decMaps))
            == Some(Shape(skipCh * (|enChannels| + numDec), h, w))
  {
    var sc := SkipConnectSpec(enChannels, enScales, numDec, skipCh, decScales, bottomDecCh, fastUp);
    var parts := SkipInputs(sc, enMaps, Some(decMaps));
    SkipPartsShape(enChannels, enScales, numDec, skipCh, decScales, bottomDecCh, fastUp, enMaps, decMaps, h, w);
    ConcatUniform(parts, skipCh, h, w);
    FuseShape(sc.concatCh, Shape(skipCh * |parts|, h, w));
  }

  lemma En2DecBridges(inCh: nat, outCh: nat, scale: nat, h: nat, w: nat)
    requires scale > 0 && h > 0 && w > 0
    ensures Apply(En2DecLayer(inCh, outCh, scale), Shape(inCh, h * scale, w * scale)) == Some(Shape(outCh, h, w))
  {
    En2DecShape(inCh, outCh, scale, Shape(inCh, h * scale, w * scale));
    CeilDivMultiple(h, scale);
    CeilDivMultiple(w, scale);
  }

  lemma Dec2DecBridges(inCh: nat, outCh: nat, scale: nat, fastUp: bool, s: Shape, h: nat, w: nat)
    requires scale > 0 && s.ch == inCh && s.h > 0 && s.w > 0 && s.h * scale == h && s.w * scale == w
    ensures Apply(Dec2DecLayer(inCh, outCh, scale, fastUp), s) == Some(Shape(outCh, h, w))
  {
    Dec2DecShape(inCh, outCh, scale, fastUp, s);
  }

  lemma FuseShape(concat: nat, cat: Shape)
    requires cat.ch == concat && cat.h > 0 && cat.w > 0
    ensures ApplyAll([Dropout, U3PBlock(concat, concat, 1, 3, 1, false)], cat) == Some(cat)
  {
    var fuse := U3PBlock(concat, concat, 1, 3, 1, false);
    U3PBlockShape(concat, concat, 1, false, cat);
    assert [Dropout, fuse][1..] == [fuse];
    assert ApplyAll([fuse], cat) == Some(cat);
  }
}
