/**
 * Layer descriptors of the UNet3+ decoder (model/u3_effnet/unet3plus.py,
 * lines 12-41) and the shape each torch layer gives its output.
 *
 * A feature map is described by its shape without the batch dimension:
 * channels, height and width. A layer maps a shape to a shape or fails,
 * as torch raises an error on a channel mismatch or an empty output.
 */
module Layers {

  datatype Option<T> = None | Some(value: T)

  /** A value, or the message of the exception the source raises instead. */
  datatype Result<T> = Ok(value: T) | Err(msg: string)

  /** Shape of one feature map: channels, height, width. */
  datatype Shape = Shape(ch: nat, h: nat, w: nat)

  /** The torch modules the decoder is built from, with their integer parameters. */
  datatype Layer =
    | Identity
      /** MaxPool2d with kernel size = stride = `size`, no padding. */
    | MaxPool(size: nat, ceilMode: bool)
      /** Conv2d with stride 1 and the same padding on both sides of both axes. */
    | Conv(inCh: nat, outCh: nat, kernel: nat, padding: nat)
    | ConvTranspose(inCh: nat, outCh: nat, kernel: nat, stride: nat, padding: nat)
    | BatchNorm(ch: nat)
    | ReLU
      /** Bilinear Upsample by an integer `scale_factor`. */
    | Upsample(scale: nat)
    | Dropout
      /** AdaptiveMaxPool2d(1) followed by squeezing to a class-score vector. */
    | GlobalMaxPool
    | Sigmoid
    | Sequential(body: seq<Layer>)

  /** Ceiling of `a / b`, the output size of a ceil-mode pooling. */
  function CeilDiv(a: nat, b: nat): nat
    requires b > 0
  {
    (a + b - 1) / b
  }

  /** Output length along one axis of a convolution with stride 1. */
  function ConvOut(n: nat, kernel: nat, padding: nat): int {
    n + 2 * padding - kernel + 1
  }

  /** Output length along one axis of a pooling with kernel = stride = `size`. */
  function PoolOut(n: nat, size: nat, ceilMode: bool): nat
    requires size > 0
  {
    if ceilMode then CeilDiv(n, size) else n / size
  }

  /** The shape a layer produces from `s`, or None where torch raises. */
  function Apply(l: Layer, s: Shape): Option<Shape>
    decreases l, 1
  {
    match l
    case Identity => Some(s)
    case MaxPool(size, ceilMode) =>
      if size == 0 || s.h == 0 || s.w == 0 then None
      else
        var h, w := PoolOut(s.h, size, ceilMode), PoolOut(s.w, size, ceilMode);
        if h == 0 || w == 0 then None else Some(Shape(s.ch, h, w))
    case Conv(inCh, outCh, kernel, padding) =>
      var h, w := ConvOut(s.h, kernel, padding), ConvOut(s.w, kernel, padding);
      if s.ch != inCh || kernel == 0 || h <= 0 || w <= 0 then None
      else Some(Shape(outCh, h, w))
    case ConvTranspose(inCh, outCh, kernel, stride, padding) =>
      var h := (s.h - 1) * stride - 2 * padding + kernel;
      var w := (s.w - 1) * stride - 2 * padding + kernel;
      if s.ch != inCh || s.h == 0 || s.w == 0 || h <= 0 || w <= 0 then None
      else Some(Shape(outCh, h, w))
    case BatchNorm(ch) => if s.ch != ch then None else Some(s)
    case ReLU => Some(s)
    case Upsample(scale) =>
      if scale == 0 || s.h == 0 || s.w == 0 then None
      else Some(Shape(s.ch, s.h * scale, s.w * scale))
    case Dropout => Some(s)
    case GlobalMaxPool => if s.h == 0 || s.w == 0 then None else Some(Shape(s.ch, 1, 1))
    case Sigmoid => Some(s)
    case Sequential(body) => ApplyAll(body, s)
  }

  /** Runs the layers of a Sequential in order; the first failure fails the whole. */
  function ApplyAll(ls: seq<Layer>, s: Shape): Option<Shape>
    decreases ls, 0
  {
    if ls == [] then Some(s)
    else
      match Apply(ls[0], s)
      case None => None
      case Some(t) => ApplyAll(ls[1..], t)
  }

  lemma {:induction false} ApplyAllAppend(xs: seq<Layer>, ys: seq<Layer>, s: Shape)
    ensures ApplyAll(xs + ys, s) ==
      match ApplyAll(xs, s)
      case None => None
      case Some(t) => ApplyAll(ys, t)
  {
    if xs != [] {
      assert (xs + ys)[1..] == xs[1..] + ys;
      match Apply(xs[0], s)
      case None =>
      case Some(t) => ApplyAllAppend(xs[1..], ys, t);
    } else {
      assert xs + ys == ys;
    }
  }

  // ---------------------------------------------------------------- autopad

  /** A kernel size: one int for both axes, or one per axis. */
  datatype KernelSize = Single(k: int) | PerAxis(ks: seq<int>)

  /**
   * `autopad(k, p)`: an explicit padding is returned as given; otherwise
   * half the kernel, rounded down (Python's `//`), for each axis.
   */
  function AutoPad(k: KernelSize, p: Option<KernelSize>): (r: KernelSize)
    ensures p.Some? ==> r == p.value
    ensures p.None? && k.Single? ==> r.Single? && 2 * r.k <= k.k < 2 * r.k + 2
    ensures p.None? && k.PerAxis? ==>
      r.PerAxis? && |r.ks| == |k.ks| &&
      forall i :: 0 <= i < |k.ks| ==> 2 * r.ks[i] <= k.ks[i] < 2 * r.ks[i] + 2
  {
    match p
    case Some(given) => given
    case None =>
      match k
      case Single(n) => Single(n / 2)
      case PerAxis(ks) => PerAxis(seq(|ks|, i requires 0 <= i < |ks| => ks[i] / 2))
  }

  /** With the automatic padding, a convolution with an odd kernel keeps the spatial size. */
  lemma AutoPadKeepsSize(inCh: nat, outCh: nat, k: nat, s: Shape)
    requires k % 2 == 1 && s.ch == inCh && s.h > 0 && s.w > 0
    ensures AutoPad(Single(k), None).k >= 0
    ensures Apply(Conv(inCh, outCh, k, AutoPad(Single(k), None).k as nat), s) == Some(Shape(outCh, s.h, s.w))
  {
  }

  // --------------------------------------------------------------- u3pblock

  /** `num_block` conv + BatchNorm + ReLU triples; the first conv reads `inCh`, later ones `outCh`. */
  function ConvTriples(inCh: nat, outCh: nat, numBlock: nat, kernel: nat, padding: nat): seq<Layer>
    decreases numBlock
  {
    if numBlock == 0 then []
    else [Conv(inCh, outCh, kernel, padding), BatchNorm(outCh), ReLU]
         + ConvTriples(outCh, outCh, numBlock - 1, kernel, padding)
  }

  /** `u3pblock(in_ch, out_ch, num_block, kernel_size, padding, down_sample)`. */
  function U3PBlock(inCh: nat, outCh: nat, numBlock: nat, kernel: nat, padding: nat, downSample: bool): Layer
  {
    Sequential((if downSample then [MaxPool(2, false)] else [])
               + ConvTriples(inCh, outCh, numBlock, kernel, padding))
  }

  /** The triples can be built back to front, as the source's loop appends them. */
  lemma {:induction false} ConvTriplesSnoc(inCh: nat, outCh: nat, n: nat, kernel: nat, padding: nat)
    ensures ConvTriples(inCh, outCh, n + 1, kernel, padding) ==
      ConvTriples(inCh, outCh, n, kernel, padding)
      + [Conv(if n == 0 then inCh else outCh, outCh, kernel, padding), BatchNorm(outCh), ReLU]
    decreases n
  {
    if n > 0 {
      ConvTriplesSnoc(outCh, outCh, n - 1, kernel, padding);
    }
  }

  /**
   * The loop of `u3pblock`: an optional max-pool, then `numBlock` triples,
   * `in_ch` being replaced by `out_ch` after the first.
   */
  method BuildU3PBlock(inCh: nat, outCh: nat, numBlock: nat, kernel: nat, padding: nat, downSample: bool)
    returns (block: Layer)
    ensures block == U3PBlock(inCh, outCh, numBlock, kernel, padding, downSample)
  {
    var m: seq<Layer> := [];
    if downSample {
      m := m + [MaxPool(2, false)];
    }
    ghost var head := m;
    var ch := inCh;
    var i := 0;
    while i < numBlock
      invariant 0 <= i <= numBlock
      invariant ch == if i == 0 then inCh else outCh
      invariant m == head + ConvTriples(inCh, outCh, i, kernel, padding)
    {
      ConvTriplesSnoc(inCh, outCh, i, kernel, padding);
      m := m + [Conv(ch, outCh, kernel, padding), BatchNorm(outCh), ReLU];
      ch := outCh;
      i := i + 1;
    }
    block := Sequential(m);
  }

  /**
   * Structure of `u3pblock`: a max-pool first iff `downSample`, then exactly
   * `numBlock` triples; the first conv reads `inCh`, every later one `outCh`,
   * and every conv writes `outCh`.
   */
  lemma {:induction false} U3PBlockStructure(inCh: nat, outCh: nat, numBlock: nat, kernel: nat, padding: nat, downSample: bool)
    ensures var body := U3PBlock(inCh, outCh, numBlock, kernel, padding, downSample).body;
      var off := if downSample then 1 else 0;
      |body| == off + 3 * numBlock &&
      (downSample ==> body[0] == MaxPool(2, false)) &&
      (forall j :: 0 <= j < numBlock ==>
         body[off + 3 * j] == Conv(if j == 0 then inCh else outCh, outCh, kernel, padding) &&
         body[off + 3 * j + 1] == BatchNorm(outCh) &&
         body[off + 3 * j + 2] == ReLU)
  {
    TriplesAt(inCh, outCh, numBlock, kernel, padding);
  }

  lemma {:induction false} TriplesAt(inCh: nat, outCh: nat, n: nat, kernel: nat, padding: nat)
    ensures var t := ConvTriples(inCh, outCh, n, kernel, padding);
      |t| == 3 * n &&
      forall j :: 0 <= j < n ==>
        t[3 * j] == Conv(if j == 0 then inCh else outCh, outCh, kernel, padding) &&
        t[3 * j + 1] == BatchNorm(outCh) && t[3 * j + 2] == ReLU
    decreases n
  {
    if n > 0 {
      TriplesAt(outCh, outCh, n - 1, kernel, padding);
      var t := ConvTriples(inCh, outCh, n, kernel, padding);
      var rest := ConvTriples(outCh, outCh, n - 1, kernel, padding);
      forall j | 1 <= j < n
        ensures t[3 * j] == Conv(outCh, outCh, kernel, padding)
        ensures t[3 * j + 1] == BatchNorm(outCh) && t[3 * j + 2] == ReLU
      {
        assert t[3 * j] == rest[3 * (j - 1)];
        assert t[3 * j + 1] == rest[3 * (j - 1) + 1];
        assert t[3 * j + 2] == rest[3 * (j - 1) + 2];
      }
    }
  }

  /** With kernel 3 and padding 1 every triple keeps the spatial size and leaves `outCh` channels. */
  lemma {:induction false} ConvTriplesShape(inCh: nat, outCh: nat, n: nat, s: Shape)
    requires s.ch == inCh && s.h > 0 && s.w > 0
    ensures ApplyAll(ConvTriples(inCh, outCh, n, 3, 1), s) ==
      Some(Shape(if n == 0 then inCh else outCh, s.h, s.w))
    decreases n
  {
    if n > 0 {
      var t := ConvTriples(inCh, outCh, n, 3, 1);
      var mid := Shape(outCh, s.h, s.w);
      assert Apply(t[0], s) == Some(mid);
      assert t[1..] == [BatchNorm(outCh), ReLU] + ConvTriples(outCh, outCh, n - 1, 3, 1);
      ConvTriplesShape(outCh, outCh, n - 1, mid);
      ApplyAllAppend([BatchNorm(outCh), ReLU], ConvTriples(outCh, outCh, n - 1, 3, 1), mid);
      assert [BatchNorm(outCh), ReLU][1..] == [ReLU] && [ReLU][1..] == [];
      assert ApplyAll([ReLU], mid) == Some(mid);
      assert ApplyAll([BatchNorm(outCh), ReLU], mid) == Some(mid);
    }
  }

  /**
   * Shape of `u3pblock` with the default kernel 3 and padding 1: the
   * optional max-pool halves the size (rounding down), the convs keep it,
   * and the output width is `outCh` as soon as there is one triple.
   */
  lemma U3PBlockShape(inCh: nat, outCh: nat, numBlock: nat, downSample: bool, s: Shape)
    requires s.ch == inCh
    requires if downSample then s.h >= 2 && s.w >= 2 else s.h > 0 && s.w > 0
    ensures Apply(U3PBlock(inCh, outCh, numBlock, 3, 1, downSample), s) ==
      Some(Shape(if numBlock == 0 then inCh else outCh,
                 if downSample then s.h / 2 else s.h,
                 if downSample then s.w / 2 else s.w))
  {
    var triples := ConvTriples(inCh, outCh, numBlock, 3, 1);
    if downSample {
      var pooled := Shape(inCh, s.h / 2, s.w / 2);
      assert Apply(MaxPool(2, false), s) == Some(pooled);
      ConvTriplesShape(inCh, outCh, numBlock, pooled);
      ApplyAllAppend([MaxPool(2, false)], triples, s);
    } else {
      ConvTriplesShape(inCh, outCh, numBlock, s);
      assert [] + triples == triples;
    }
  }

  // ------------------------------------------------ en2dec and dec2dec layers

  /**
   * `en2dec_layer`: Identity when `scale == 1`, otherwise a ceil-mode
   * max-pool of size and stride `scale`; then a single-conv block.
   */
  function En2DecLayer(inCh: nat, outCh: nat, scale: nat): Layer {
    Sequential([if scale == 1 then Identity else MaxPool(scale, true),
                U3PBlock(inCh, outCh, 1, 3, 1, false)])
  }

  /**
   * `dec2dec_layer`: a single-conv block and an upsample by `scale`
   * (Identity when 1), the upsample after the conv when `fastUp`, before it otherwise.
   */
  function Dec2DecLayer(inCh: nat, outCh: nat, scale: nat, fastUp: bool): Layer {
    var up := if scale != 1 then Upsample(scale) else Identity;
    var conv := U3PBlock(inCh, outCh, 1, 3, 1, false);
    Sequential(if fastUp then [conv, up] else [up, conv])
  }

  /** An encoder map, pooled by `scale` with rounding up, emits `outCh` channels. */
  lemma En2DecShape(inCh: nat, outCh: nat, scale: nat, s: Shape)
    requires s.ch == inCh && s.h > 0 && s.w > 0 && scale > 0
    ensures Apply(En2DecLayer(inCh, outCh, scale), s) ==
      Some(Shape(outCh, CeilDiv(s.h, scale), CeilDiv(s.w, scale)))
  {
    var pooled := Shape(inCh, CeilDiv(s.h, scale), CeilDiv(s.w, scale));
    assert CeilDiv(s.h, scale) >= 1 && CeilDiv(s.w, scale) >= 1;
    if scale == 1 {
      assert CeilDiv(s.h, 1) == s.h && CeilDiv(s.w, 1) == s.w;
    }
    var pool := if scale == 1 then Identity else MaxPool(scale, true);
    assert Apply(pool, s) == Some(pooled);
    U3PBlockShape(inCh, outCh, 1, false, pooled);
    assert ApplyAll([U3PBlock(inCh, outCh, 1, 3, 1, false)], pooled) == Some(Shape(outCh, pooled.h, pooled.w));
  }

  /** Either order of conv and upsample gives `outCh` channels at `scale` times the size. */
  lemma Dec2DecShape(inCh: nat, outCh: nat, scale: nat, fastUp: bool, s: Shape)
    requires s.ch == inCh && s.h > 0 && s.w > 0 && scale > 0
    ensures Apply(Dec2DecLayer(inCh, outCh, scale, fastUp), s) ==
      Some(Shape(outCh, s.h * scale, s.w * scale))
  {
    var up := if scale != 1 then Upsample(scale) else Identity;
    var conv := U3PBlock(inCh, outCh, 1, 3, 1, false);
    if fastUp {
      U3PBlockShape(inCh, outCh, 1, false, s);
      var mid := Shape(outCh, s.h, s.w);
      assert Apply(up, mid) == Some(Shape(outCh, s.h * scale, s.w * scale));
      assert Apply(conv, s) == Some(mid);
      assert [conv, up][1..] == [up];
      assert ApplyAll([up], mid) == Some(Shape(outCh, s.h * scale, s.w * scale));
    } else {
      var mid := Shape(inCh, s.h * scale, s.w * scale);
      assert s.h * scale >= s.h && s.w * scale >= s.w;
      assert Apply(up, s) == Some(mid);
      U3PBlockShape(inCh, outCh, 1, false, mid);
      assert [up, conv][1..] == [conv];
      assert ApplyAll([conv], mid) == Some(Shape(outCh, s.h * scale, s.w * scale));
    }
  }

  // -------------------------------------------------------------- sequences

  /** `[f(0), ..., f(k - 1)]`, built one entry after the other. */
  function Tabulate<T>(f: nat -> T, k: nat): (r: seq<T>)
    ensures |r| == k
  {
    if k == 0 then [] else Tabulate(f, k - 1) + [f(k - 1)]
  }

  /** Entry `ii` of a tabulation is `f(ii)`. */
  lemma {:induction false} TabulateAt<T>(f: nat -> T, k: nat, ii: nat)
    requires ii < k
    ensures Tabulate(f, k)[ii] == f(ii)
  {
    if ii < k - 1 {
      TabulateAt(f, k - 1, ii);
    }
  }

  // ------------------------------------------------------------- arithmetic

  function Pow2(k: nat): (r: nat)
    ensures r >= 1
  {
    if k == 0 then 1 else 2 * Pow2(k - 1)
  }

  lemma {:induction false} Pow2Add(a: nat, b: nat)
    ensures Pow2(a + b) == Pow2(a) * Pow2(b)
  {
    if b > 0 {
      Pow2Add(a, b - 1);
      assert Pow2(a + b) == 2 * Pow2(a + b - 1);
    }
  }

  /** Pooling a size that is an exact multiple of the stride, with rounding up, divides exactly. */
  lemma CeilDivMultiple(x: nat, m: nat)
    requires m > 0
    ensures CeilDiv(x * m, m) == x
  {
    var q := x * m + m - 1;
    assert q == x * m + (m - 1);
    assert 0 <= m - 1 < m;
    assert q / m == x by {
      DivUnique(q, m, x, m - 1);
    }
  }

  lemma DivUnique(a: int, m: int, q: int, r: int)
    requires m > 0 && 0 <= r < m && a == q * m + r
    ensures a / m == q
  {
    var q' := a / m;
    var r' := a % m;
    assert a == q' * m + r';
    assert 0 <= r' < m;
    if q' > q {
      MulAtLeast(q' - q, m);
    } else if q' < q {
      MulAtLeast(q - q', m);
    }
  }

  lemma {:induction false} MulAtLeast(d: int, m: int)
    requires d >= 1 && m > 0
    ensures d * m >= m
    decreases d
  {
    if d > 1 {
      MulAtLeast(d - 1, m);
      assert d * m == (d - 1) * m + m;
    }
  }
}
