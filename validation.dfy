/**
 * The bookkeeping of `validation` (archive/trainer_hook.py, lines 155-220):
 * one sample per image of every batch, in the order the images arrive,
 * losses summed over batches and divided by the batch count, and the
 * worst samples: a stable ascending sort by mean Dice cut to the first
 * `num_worst_samples`. The model, the criterion and `dice_coef` are
 * outside this model; what they produce for each batch is given.
 */
module Validation {
  import opened Layers

  /** A collected sample: the batch it came from, its position in that batch, and its mean Dice. */
  datatype Sample = Sample(batch: nat, index: nat, dice: real)

  /** What `validation` returns, apart from the average and per-class Dice. */
  datatype ValResult = ValResult(avgLoss: real, classLosses: seq<real>, worst: seq<Sample>)

  // ------------------------------------------------------------ accumulation

  /** The samples of batch `b`, whose images have mean Dice `dices`. */
  function BatchSamples(b: nat, dices: seq<real>): (r: seq<Sample>)
  {
    seq(|dices|, i requires 0 <= i < |dices| => Sample(b, i, dices[i]))
  }

  /** The samples of the batches `batches`, batch after batch. */
  function SamplesOf(batches: seq<seq<real>>): seq<Sample>
    decreases |batches|
  {
    if |batches| == 0 then []
    else SamplesOf(batches[..|batches| - 1]) + BatchSamples(|batches| - 1, batches[|batches| - 1])
  }

  /** The number of images in `batches`. */
  function ImageCount(batches: seq<seq<real>>): nat
    decreases |batches|
  {
    if |batches| == 0 then 0 else ImageCount(batches[..|batches| - 1]) + |batches[|batches| - 1]|
  }

  /** One sample per image. */
  lemma {:induction false} SamplesOfLength(batches: seq<seq<real>>)
    ensures |SamplesOf(batches)| == ImageCount(batches)
    decreases |batches|
  {
    if |batches| > 0 {
      SamplesOfLength(batches[..|batches| - 1]);
    }
  }

  /**
   * In encounter order: image `i` of batch `b` is the sample at position
   * (images before batch `b`) + `i`.
   */
  lemma {:induction false} SamplesOfIndex(batches: seq<seq<real>>, b: nat, i: nat)
    requires b < |batches| && i < |batches[b]|
    ensures ImageCount(batches[..b]) + i < |SamplesOf(batches)|
    ensures SamplesOf(batches)[ImageCount(batches[..b]) + i] == Sample(b, i, batches[b][i])
    decreases |batches|
  {
    var n := |batches|;
    var init := batches[..n - 1];
    var last := BatchSamples(n - 1, batches[n - 1]);
    assert SamplesOf(batches) == SamplesOf(init) + last;
    SamplesOfLength(init);
    if b < n - 1 {
      assert init[..b] == batches[..b];
      assert init[b] == batches[b];
      SamplesOfIndex(init, b, i);
    } else {
      assert batches[..b] == init;
      assert last[i] == Sample(b, i, batches[b][i]);
    }
  }

  /** The sum of the batch losses `loss(0) + ... + loss(b - 1)`, in that order. */
  function LossSum(loss: nat -> real, b: nat): real
  {
    if b == 0 then 0.0 else LossSum(loss, b - 1) + loss(b - 1)
  }

  /** The sum of class `c`'s losses over the first `b` batches. */
  function ClassSum(classLoss: (nat, nat) -> real, c: nat, b: nat): real
  {
    if b == 0 then 0.0 else ClassSum(classLoss, c, b - 1) + classLoss(b - 1, c)
  }

  // ------------------------------------------------------------ worst samples

  /** Ascending by mean Dice. */
  predicate SortedByDice(s: seq<Sample>)
  {
    forall i, j :: 0 <= i < j < |s| ==> s[i].dice <= s[j].dice
  }

  /** The samples whose mean Dice is `d`, in their order in `s`. */
  function WithDice(s: seq<Sample>, d: real): (r: seq<Sample>)
    ensures |r| <= |s|
  {
    if |s| == 0 then []
    else (if s[0].dice == d then [s[0]] else []) + WithDice(s[1..], d)
  }

  /** Puts `x` before the first element whose Dice is not below its own. */
  function Insert(x: Sample, t: seq<Sample>): seq<Sample>
  {
    if |t| == 0 || x.dice <= t[0].dice then [x] + t
    else [t[0]] + Insert(x, t[1..])
  }

  /** `sorted(samples, key=lambda x: x[3])`: Python's sort is stable. */
  function SortByDice(s: seq<Sample>): seq<Sample>
  {
    if |s| == 0 then [] else Insert(s[0], SortByDice(s[1..]))
  }

  /** Inserting adds exactly `x`. */
  lemma {:induction false} InsertMultiset(x: Sample, t: seq<Sample>)
    ensures multiset(Insert(x, t)) == multiset{x} + multiset(t)
  {
    if |t| > 0 && t[0].dice < x.dice {
      InsertMultiset(x, t[1..]);
      assert t == [t[0]] + t[1..];
    }
  }

  /** Inserting into a sorted list keeps it sorted. */
  lemma {:induction false} InsertSorted(x: Sample, t: seq<Sample>)
    requires SortedByDice(t)
    ensures SortedByDice(Insert(x, t))
  {
    if |t| > 0 && t[0].dice < x.dice {
      var rest := Insert(x, t[1..]);
      InsertSorted(x, t[1..]);
      InsertMultiset(x, t[1..]);
      var r := [t[0]] + rest;
      forall j | 0 < j < |r|
        ensures t[0].dice <= r[j].dice
      {
        assert r[j] == rest[j - 1];
        assert r[j] in multiset(rest);
        if r[j] != x {
          assert r[j] in multiset(t[1..]);
          var k :| 0 <= k < |t[1..]| && t[1..][k] == r[j];
          assert t[k + 1] == r[j];
        }
      }
    }
  }

  /** Inserting `x` puts it first among the samples of its own Dice value, and leaves the others in order. */
  lemma {:induction false} InsertWithDice(x: Sample, t: seq<Sample>, d: real)
    ensures WithDice(Insert(x, t), d) == (if x.dice == d then [x] else []) + WithDice(t, d)
  {
    var here: seq<Sample> := if x.dice == d then [x] else [];
    if |t| == 0 || x.dice <= t[0].dice {
      var r := [x] + t;
      assert r[0] == x && r[1..] == t;
      assert WithDice(r, d) == here + WithDice(t, d);
    } else {
      var rest := Insert(x, t[1..]);
      var first: seq<Sample> := if t[0].dice == d then [t[0]] else [];
      InsertWithDice(x, t[1..], d);
      var r := [t[0]] + rest;
      assert r[0] == t[0] && r[1..] == rest;
      assert WithDice(r, d) == first + WithDice(rest, d);
      assert WithDice(t, d) == first + WithDice(t[1..], d);
      assert first == [] || here == [];
    }
  }

  /**
   * The sort returns the samples ascending by Dice, as a permutation of
   * its input, and stably: the samples of any one Dice value keep their
   * relative order.
   */
  lemma {:induction false} SortByDiceCorrect(s: seq<Sample>)
    ensures SortedByDice(SortByDice(s))
    ensures multiset(SortByDice(s)) == multiset(s)
    ensures forall d :: WithDice(SortByDice(s), d) == WithDice(s, d)
  {
    if |s| > 0 {
      SortByDiceCorrect(s[1..]);
      InsertSorted(s[0], SortByDice(s[1..]));
      InsertMultiset(s[0], SortByDice(s[1..]));
      assert s == [s[0]] + s[1..];
      forall d
        ensures WithDice(SortByDice(s), d) == WithDice(s, d)
      {
        InsertWithDice(s[0], SortByDice(s[1..]), d);
      }
    }
  }

  /** Where Python's `s[:k]` stops, for a list of length `n`: a negative `k` counts from the end. */
  function SliceStop(n: nat, k: int): (r: nat)
    ensures r <= n
    ensures k >= 0 ==> r == (if k <= n then k else n)
    ensures k < 0 ==> r == (if n + k >= 0 then n + k else 0)
  {
    if k >= 0 then (if k <= n then k else n)
    else if n + k >= 0 then n + k else 0
  }

  /** `sorted(samples, key=...)[:num_worst_samples]`. */
  function WorstSamples(samples: seq<Sample>, k: int): seq<Sample>
  {
    var sorted := SortByDice(samples);
    sorted[..SliceStop(|sorted|, k)]
  }

  /** The length of the sort's output is that of its input. */
  lemma SortByDiceLength(s: seq<Sample>)
    ensures |SortByDice(s)| == |s|
  {
    SortByDiceCorrect(s);
    assert |multiset(SortByDice(s))| == |multiset(s)|;
  }

  /**
   * The worst list holds as many samples as Python's slice `[:k]` keeps
   * (`min(k, |samples|)` for a non-negative `k`), ascending by Dice, drawn
   * from `samples` (a sub-multiset), none with a higher Dice than any
   * sample left out, and samples of equal Dice in encounter order.
   */
  lemma WorstSamplesCorrect(samples: seq<Sample>, k: int)
    ensures var w := WorstSamples(samples, k);
      |w| == SliceStop(|samples|, k) &&
      (k >= 0 ==> |w| == if k <= |samples| then k else |samples|) &&
      SortedByDice(w) &&
      multiset(w) <= multiset(samples) &&
      (forall x: Sample, y: Sample :: x in multiset(w) && y in multiset(samples) - multiset(w) ==> x.dice <= y.dice) &&
      (forall d :: WithDice(w, d) <= WithDice(samples, d))
  {
    var sorted := SortByDice(samples);
    SortByDiceCorrect(samples);
    SortByDiceLength(samples);
    var m := SliceStop(|sorted|, k);
    SortedSplit(sorted, m);
    var w := sorted[..m];
    forall d
      ensures WithDice(w, d) <= WithDice(samples, d)
    {
      WithDiceAppend(w, sorted[m..], d);
    }
  }

  /**
   * Cutting a sorted list at `m` gives a sorted front, the front and back
   * together are the whole, and nothing in the front is above anything in
   * the back.
   */
  lemma SortedSplit(r: seq<Sample>, m: nat)
    requires SortedByDice(r) && m <= |r|
    ensures SortedByDice(r[..m])
    ensures r == r[..m] + r[m..]
    ensures multiset(r) - multiset(r[..m]) == multiset(r[m..])
    ensures forall x: Sample, y: Sample :: x in multiset(r[..m]) && y in multiset(r[m..]) ==> x.dice <= y.dice
  {
    var w, rest := r[..m], r[m..];
    assert r == w + rest;
    assert multiset(r) == multiset(w) + multiset(rest);
    forall x: Sample, y: Sample | x in multiset(w) && y in multiset(rest)
      ensures x.dice <= y.dice
    {
      assert x in w && y in rest;
      var i :| 0 <= i < |w| && w[i] == x;
      var j :| 0 <= j < |rest| && rest[j] == y;
      assert r[i] == x && r[m + j] == y;
    }
  }

  /** Selecting by Dice commutes with concatenation. */
  lemma {:induction false} WithDiceAppend(a: seq<Sample>, b: seq<Sample>, d: real)
    ensures WithDice(a + b, d) == WithDice(a, d) + WithDice(b, d)
  {
    if |a| > 0 {
      assert (a + b)[1..] == a[1..] + b;
      WithDiceAppend(a[1..], b, d);
    } else {
      assert a + b == b;
    }
  }

  // ------------------------------------------------------------ the loop

  /**
   * `validation` over `batches` (the mean Dice of each image, batch by
   * batch), with `loss(b)` the batch loss of batch `b` and
   * `classLoss(b, c)` its loss on class `c`. With no batches the
   * concatenation of the empty Dice list fails.
   */
  method Validate(batches: seq<seq<real>>, loss: nat -> real, classLoss: (nat, nat) -> real,
                  numClasses: nat, numWorst: int)
    returns (r: Result<ValResult>)
    ensures r.Err? <==> |batches| == 0
    ensures r.Ok? ==>
      var n := |batches| as real;
      r.value == ValResult(
        LossSum(loss, |batches|) / n,
        seq(numClasses, c requires 0 <= c => ClassSum(classLoss, c, |batches|) / n),
        WorstSamples(SamplesOf(batches), numWorst))
  {
    var samples: seq<Sample> := [];
    var totalLoss := 0.0;
    var classLosses := new real[numClasses](_ => 0.0);
    var b := 0;
    while b < |batches|
      invariant 0 <= b <= |batches|
      invariant samples == SamplesOf(batches[..b])
      invariant totalLoss == LossSum(loss, b)
      invariant forall c :: 0 <= c < numClasses ==> classLosses[c] == ClassSum(classLoss, c, b)
    {
      totalLoss := totalLoss + loss(b);
      AccumulateClasses(classLosses, classLoss, b);
      var i := 0;
      while i < |batches[b]|
        invariant 0 <= i <= |batches[b]|
        invariant samples == SamplesOf(batches[..b]) + BatchSamples(b, batches[b][..i])
      {
        samples := samples + [Sample(b, i, batches[b][i])];
        i := i + 1;
      }
      assert batches[b][..i] == batches[b];
      assert batches[..b + 1][..b] == batches[..b];
      b := b + 1;
    }
    if b == 0 {
      return Err("RuntimeError: torch.cat(): expected a non-empty list of Tensors");
    }
    assert batches[..b] == batches;
    var n := b as real;
    var sums := classLosses[..];
    var avg := seq(numClasses, c requires 0 <= c < numClasses => sums[c] / n);
    assert avg == seq(numClasses, c requires 0 <= c => ClassSum(classLoss, c, |batches|) / n);
    r := Ok(ValResult(totalLoss / n, avg, WorstSamples(samples, numWorst)));
  }

  /** `class_losses[c] += criterion(...)` for every class, on the per-class tensor in place. */
  method AccumulateClasses(classLosses: array<real>, classLoss: (nat, nat) -> real, b: nat)
    modifies classLosses
    ensures forall c :: 0 <= c < classLosses.Length ==>
      classLosses[c] == old(classLosses[c]) + classLoss(b, c)
  {
    var c := 0;
    while c < classLosses.Length
      invariant 0 <= c <= classLosses.Length
      invariant forall j :: 0 <= j < c ==> classLosses[j] == old(classLosses[j]) + classLoss(b, j)
      invariant forall j :: c <= j < classLosses.Length ==> classLosses[j] == old(classLosses[j])
    {
      classLosses[c] := classLosses[c] + classLoss(b, c);
      c := c + 1;
    }
  }
}
