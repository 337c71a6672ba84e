/**
 * The bookkeeping of `train` (archive/trainer_hook.py, lines 18-152):
 * elapsed-time formatting, the epoch and validation schedule, the value
 * handed to the hook, and the best-Dice / best-checkpoint updates over a
 * set of file paths. Training steps, losses, logging and the model are
 * outside this model; the validation Dice of each epoch and the naming of
 * checkpoints are given as functions.
 */
module Trainer {
  import opened Layers
  import opened Text

  // ------------------------------------------------------------ time format

  datatype Hms = Hms(hours: nat, minutes: nat, seconds: nat)

  /** `a % m` is the remainder `r` of any split `a == q * m + r` with `0 <= r < m`. */
  lemma ModUnique(a: int, m: int, q: int, r: int)
    requires m > 0 && 0 <= r < m && a == q * m + r
    ensures a / m == q && a % m == r
  {
    DivUnique(a, m, q, r);
  }

  /**
   * The divmod steps of `convert_seconds_to_hms` on a whole number of
   * seconds: hours, the minutes and seconds below an hour, which add back
   * up to the input.
   */
  function ToHms(s: nat): (r: Hms)
    ensures Seconds(r.hours, r.minutes, r.seconds) == s
    ensures r.minutes < 60 && r.seconds < 60
  {
    var q, rest := s / 3600, s % 3600;
    var m, x := rest / 60, rest % 60;
    assert s == q * 3600 + m * 60 + x;
    ModUnique(s, 60, q * 60 + m, x);
    Hms(q, m, s % 60)
  }

  /** The number of seconds in `h` hours, `m` minutes and `x` seconds. */
  function Seconds(h: nat, m: nat, x: nat): nat {
    h * 3600 + m * 60 + x
  }

  /** The split is the only one with minutes and seconds below 60. */
  lemma ToHmsUnique(s: nat, h: nat, m: nat, x: nat)
    requires h * 3600 + m * 60 + x == s && m < 60 && x < 60
    ensures ToHms(s) == Hms(h, m, x)
  {
    ModUnique(s, 3600, h, m * 60 + x);
    ModUnique(s % 3600, 60, m, x);
  }

  /** `f"{h:02d}:{m:02d}:{s:02d}"`. */
  function FormatHms(s: nat): string
  {
    var t := ToHms(s);
    Pad2(t.hours) + ":" + Pad2(t.minutes) + ":" + Pad2(t.seconds)
  }

  /** Reads `h...h:mm:ss` back as a number of seconds. */
  function ParseHms(t: string): nat
    requires |t| >= 6 && AllDigits(t[..|t| - 6]) && AllDigits(t[|t| - 5..|t| - 3]) && AllDigits(t[|t| - 2..])
  {
    ValueOf(t[..|t| - 6]) * 3600 + ValueOf(t[|t| - 5..|t| - 3]) * 60 + ValueOf(t[|t| - 2..])
  }

  /**
   * The rendered time has two-digit minutes and seconds after colons, at
   * least two digits of hours before them, and it reads back as the input.
   */
  lemma HmsRoundTrip(s: nat)
    ensures var t := FormatHms(s);
      |t| >= 8 && t[|t| - 3] == ':' && t[|t| - 6] == ':' &&
      AllDigits(t[..|t| - 6]) && AllDigits(t[|t| - 5..|t| - 3]) && AllDigits(t[|t| - 2..]) &&
      ParseHms(t) == s
  {
    var r := ToHms(s);
    var a, b, c := Pad2(r.hours), Pad2(r.minutes), Pad2(r.seconds);
    var t := a + ":" + b + ":" + c;
    assert FormatHms(s) == t;
    FieldsRoundTrip(t, a, b, c, r.hours, r.minutes, r.seconds);
  }

  lemma FieldsRoundTrip(t: string, a: string, b: string, c: string, h: nat, m: nat, x: nat)
    requires |a| >= 2 && |b| == 2 && |c| == 2 && t == a + ":" + b + ":" + c
    requires AllDigits(a) && AllDigits(b) && AllDigits(c)
    requires ValueOf(a) == h && ValueOf(b) == m && ValueOf(c) == x
    ensures |t| >= 8 && t[|t| - 3] == ':' && t[|t| - 6] == ':' &&
      AllDigits(t[..|t| - 6]) && AllDigits(t[|t| - 5..|t| - 3]) && AllDigits(t[|t| - 2..]) &&
      ParseHms(t) == Seconds(h, m, x)
  {
    FieldSlices(a, b, c);
    ParseFields(t, h, m, x);
  }

  /** The three fields of `a:b:c` sit where `ParseHms` reads them when `b` and `c` have two characters. */
  lemma FieldSlices(a: string, b: string, c: string)
    requires |a| >= 2 && |b| == 2 && |c| == 2
    ensures var t := a + ":" + b + ":" + c;
      |t| >= 8 && t[|t| - 3] == ':' && t[|t| - 6] == ':' &&
      t[..|t| - 6] == a && t[|t| - 5..|t| - 3] == b && t[|t| - 2..] == c
  {
  }

  lemma ParseFields(t: string, h: nat, m: nat, x: nat)
    requires |t| >= 6 && AllDigits(t[..|t| - 6]) && AllDigits(t[|t| - 5..|t| - 3]) && AllDigits(t[|t| - 2..])
    requires ValueOf(t[..|t| - 6]) == h && ValueOf(t[|t| - 5..|t| - 3]) == m && ValueOf(t[|t| - 2..]) == x
    ensures ParseHms(t) == Seconds(h, m, x)
  {
  }

  // -------------------------------------------------------- epoch schedule

  /** Validation runs after epoch `epoch` (0-based) when its 1-based number is a multiple of the interval. */
  predicate Validates(epoch: nat, valInterval: int)
    requires valInterval != 0
  {
    (epoch + 1) % valInterval == 0
  }

  function Abs(x: int): nat {
    if x < 0 then -x else x
  }

  function Multiple(k: int, m: int): int {
    k * m
  }

  /**
   * For a negative `b`, Dafny's `a % b` equals `a % -b`. Python's `a % b`
   * differs from Dafny's in sign for a negative `b`, but both are 0 exactly
   * when `b` divides `a`, so the test `(epoch + 1) % val_interval == 0` is the
   * test against the absolute value of the interval.
   */
  lemma ModAbs(a: int, b: int)
    requires b < 0
    ensures a % b == a % -b
  {
    ModUnique(a, -b, -(a / b), a % b);
  }

  /** The validated epochs are exactly those whose 1-based number is `k * |val_interval|` for some `k >= 1`. */
  lemma ValidatesIff(epoch: nat, valInterval: int)
    requires valInterval != 0
    ensures Validates(epoch, valInterval) <==>
      exists k: nat :: k >= 1 && epoch + 1 == Multiple(k, Abs(valInterval))
  {
    var m := Abs(valInterval);
    if valInterval < 0 {
      ModAbs(epoch + 1, valInterval);
    }
    if Validates(epoch, valInterval) {
      var k := (epoch + 1) / m;
      assert epoch + 1 == Multiple(k, m);
      if k < 1 {
        NonPositiveMultiple(k, m);
      }
    } else {
      forall k: nat | k >= 1
        ensures epoch + 1 != Multiple(k, m)
      {
        if epoch + 1 == Multiple(k, m) {
          ModUnique(epoch + 1, m, k, 0);
        }
      }
    }
  }

  lemma NonPositiveMultiple(k: int, m: int)
    requires k <= 0 && m > 0
    ensures Multiple(k, m) <= 0
  {
    if k < 0 {
      MulAtLeast(-k, m);
    }
  }

  // --------------------------------------------------- best-Dice bookkeeping

  /** What one epoch leaves behind: its 1-based number, the epochs still to go, the hook's buffer, whether it validated. */
  datatype EpochLog = EpochLog(epoch: nat, remaining: nat, hookBuffer: Option<real>, validated: bool)

  /**
   * The state `train` carries across epochs: the best Dice so far, the
   * path of the checkpoint saved for it, the files on disk, the paths this
   * run has written, and one log entry per finished epoch.
   */
  datatype TrainState = TrainState(
    best: real,
    bestPath: Option<string>,
    files: set<string>,
    written: set<string>,
    log: seq<EpochLog>)

  function PathSet(p: Option<string>): set<string> {
    if p.Some? then {p.value} else {}
  }

  /**
   * The update after a validation with Dice `dice`: on a strict
   * improvement the best moves up, the previous checkpoint is removed if
   * it is set (a non-empty string) and exists, and a new checkpoint is written under `path`.
   */
  function Improve(st: TrainState, dice: real, path: string): TrainState
  {
    if st.best < dice then
      var files := if st.bestPath.Some? && st.bestPath.value != "" && st.bestPath.value in st.files
                   then st.files - {st.bestPath.value} else st.files;
      st.(best := dice, bestPath := Some(path), files := files + {path}, written := st.written + {path})
    else st
  }

  /** One epoch (0-based `e`): the hook sees the best so far, then validation may improve it. */
  function EpochStep(st: TrainState, e: nat, numEpochs: nat, valInterval: int, hasHook: bool,
                     valDice: nat -> real, pathFor: real -> string): TrainState
    requires valInterval != 0 && e < numEpochs
  {
    var entry := EpochLog(e + 1, numEpochs - (e + 1), if hasHook then Some(st.best) else None, Validates(e, valInterval));
    var logged := st.(log := st.log + [entry]);
    if Validates(e, valInterval) then Improve(logged, valDice(e + 1), pathFor(valDice(e + 1))) else logged
  }

  /** The state after the first `k` epochs, starting from `files` on disk. */
  function RunEpochs(k: nat, numEpochs: nat, valInterval: int, hasHook: bool,
                     valDice: nat -> real, pathFor: real -> string, initial: set<string>): TrainState
    requires valInterval != 0 && k <= numEpochs
  {
    if k == 0 then TrainState(0.0, None, initial, {}, [])
    else EpochStep(RunEpochs(k - 1, numEpochs, valInterval, hasHook, valDice, pathFor, initial),
                   k - 1, numEpochs, valInterval, hasHook, valDice, pathFor)
  }

  /** Some epoch among the first `numEpochs` runs a validation. */
  predicate SomeValidation(numEpochs: nat, valInterval: int)
    requires valInterval != 0
  {
    exists e :: 0 <= e < numEpochs && Validates(e, valInterval)
  }

  /**
   * `train`'s epoch loop, without the training steps, over a training
   * loader of `trainBatches` batches and a validation loader of
   * `valBatches` batches. It fails in the first epoch when the training
   * loader is empty (the average divides by `len(data_loader)`) or the
   * interval is zero (the schedule test divides by it), and at the first
   * validation when the validation loader is empty (`torch.cat` of no
   * Dice tensors).
   */
  method Train(numEpochs: nat, trainBatches: nat, valBatches: nat, valInterval: int, hasHook: bool,
               valDice: nat -> real, pathFor: real -> string, initial: set<string>)
    returns (r: Result<TrainState>)
    ensures r.Err? <==>
      numEpochs > 0 &&
      (trainBatches == 0 || valInterval == 0 || (valBatches == 0 && SomeValidation(numEpochs, valInterval)))
    ensures r.Ok? && valInterval != 0 ==> r.value == RunEpochs(numEpochs, numEpochs, valInterval, hasHook, valDice, pathFor, initial)
    ensures r.Ok? && valInterval == 0 ==> r.value == TrainState(0.0, None, initial, {}, [])
  {
    var best := 0.0;
    var bestPath: Option<string> := None;
    var files := initial;
    var written: set<string> := {};
    var log: seq<EpochLog> := [];
    if numEpochs > 0 && trainBatches == 0 {
      return Err("ZeroDivisionError: division by zero");
    }
    if valInterval == 0 {
      if numEpochs > 0 {
        return Err("ZeroDivisionError: integer division or modulo by zero");
      }
      return Ok(TrainState(best, bestPath, files, written, log));
    }
    var epoch := 0;
    while epoch < numEpochs
      invariant 0 <= epoch <= numEpochs
      invariant valBatches == 0 ==> forall e :: 0 <= e < epoch ==> !Validates(e, valInterval)
      invariant TrainState(best, bestPath, files, written, log)
                == RunEpochs(epoch, numEpochs, valInterval, hasHook, valDice, pathFor, initial)
    {
      var remaining := numEpochs - (epoch + 1);
      var buffer := if hasHook then Some(best) else None;
      var validated := (epoch + 1) % valInterval == 0;
      log := log + [EpochLog(epoch + 1, remaining, buffer, validated)];
      if validated {
        if valBatches == 0 {
          assert Validates(epoch, valInterval);
          return Err("RuntimeError: torch.cat(): expected a non-empty list of Tensors");
        }
        var dice := valDice(epoch + 1);
        if best < dice {
          best := dice;
          if bestPath.Some? && bestPath.value != "" && bestPath.value in files {
            files := files - {bestPath.value};
          }
          bestPath := Some(pathFor(best));
          files := files + {bestPath.value};
          written := written + {bestPath.value};
        }
      }
      epoch := epoch + 1;
    }
    r := Ok(TrainState(best, bestPath, files, written, log));
  }

  /**
   * The log: one entry per epoch, numbered from 1, counting down the
   * remaining epochs to 0, validating exactly on the scheduled epochs,
   * and handing the hook the best Dice from before that epoch's validation.
   */
  lemma {:induction false} RunLog(k: nat, numEpochs: nat, valInterval: int, hasHook: bool,
                                  valDice: nat -> real, pathFor: real -> string, initial: set<string>)
    requires valInterval != 0 && k <= numEpochs
    ensures var log := RunEpochs(k, numEpochs, valInterval, hasHook, valDice, pathFor, initial).log;
      |log| == k &&
      forall e :: 0 <= e < k ==>
        log[e].epoch == e + 1 && log[e].remaining == numEpochs - (e + 1) &&
        log[e].validated == Validates(e, valInterval) &&
        log[e].hookBuffer == (if hasHook then Some(RunEpochs(e, numEpochs, valInterval, hasHook, valDice, pathFor, initial).best) else None)
  {
    if k > 0 {
      RunLog(k - 1, numEpochs, valInterval, hasHook, valDice, pathFor, initial);
    }
  }

  /** The last epoch's log reports no epochs remaining. */
  lemma LastEpochRemaining(numEpochs: nat, valInterval: int, hasHook: bool,
                           valDice: nat -> real, pathFor: real -> string, initial: set<string>)
    requires valInterval != 0 && numEpochs > 0
    ensures var log := RunEpochs(numEpochs, numEpochs, valInterval, hasHook, valDice, pathFor, initial).log;
      |log| == numEpochs && log[numEpochs - 1].remaining == 0
  {
    RunLog(numEpochs, numEpochs, valInterval, hasHook, valDice, pathFor, initial);
  }

  /**
   * An epoch changes the best Dice only when it validates and its Dice is
   * strictly greater; the best then becomes that Dice.
   */
  lemma BestChangesOnImprovement(st: TrainState, e: nat, numEpochs: nat, valInterval: int, hasHook: bool,
                                 valDice: nat -> real, pathFor: real -> string)
    requires valInterval != 0 && e < numEpochs
    ensures var st' := EpochStep(st, e, numEpochs, valInterval, hasHook, valDice, pathFor);
      (st'.best != st.best <==> Validates(e, valInterval) && st.best < valDice(e + 1)) &&
      (st'.best != st.best ==> st'.best == valDice(e + 1) && st'.bestPath == Some(pathFor(valDice(e + 1)))) &&
      (st'.best == st.best ==> st'.bestPath == st.bestPath && st'.files == st.files)
  {
  }

  /** The best Dice never decreases from one epoch to the next. */
  lemma {:induction false} BestMonotone(a: nat, b: nat, numEpochs: nat, valInterval: int, hasHook: bool,
                                        valDice: nat -> real, pathFor: real -> string, initial: set<string>)
    requires valInterval != 0 && a <= b <= numEpochs
    ensures RunEpochs(a, numEpochs, valInterval, hasHook, valDice, pathFor, initial).best
            <= RunEpochs(b, numEpochs, valInterval, hasHook, valDice, pathFor, initial).best
    decreases b - a
  {
    if a < b {
      BestMonotone(a, b - 1, numEpochs, valInterval, hasHook, valDice, pathFor, initial);
    }
  }

  /**
   * The returned best Dice is the maximum of 0 and the Dice of every
   * validated epoch: at least all of them, and 0 or one of them.
   */
  lemma {:induction false} BestIsMax(k: nat, numEpochs: nat, valInterval: int, hasHook: bool,
                                     valDice: nat -> real, pathFor: real -> string, initial: set<string>)
    requires valInterval != 0 && k <= numEpochs
    ensures var best := RunEpochs(k, numEpochs, valInterval, hasHook, valDice, pathFor, initial).best;
      best >= 0.0 &&
      (forall e :: 0 <= e < k && Validates(e, valInterval) ==> valDice(e + 1) <= best) &&
      (best == 0.0 || exists e :: 0 <= e < k && Validates(e, valInterval) && best == valDice(e + 1))
  {
    if k > 0 {
      BestIsMax(k - 1, numEpochs, valInterval, hasHook, valDice, pathFor, initial);
    }
  }

  /**
   * The files on disk are the initial ones this run did not write, plus
   * at most one checkpoint of this run: the one for the current best,
   * named after that best. A checkpoint exists exactly when the best
   * has risen above 0. Checkpoint paths are joined onto the save
   * directory, so they are never empty.
   */
  lemma {:induction false} CheckpointInvariant(k: nat, numEpochs: nat, valInterval: int, hasHook: bool,
                                               valDice: nat -> real, pathFor: real -> string, initial: set<string>)
    requires valInterval != 0 && k <= numEpochs
    requires forall d :: pathFor(d) != ""
    ensures var st := RunEpochs(k, numEpochs, valInterval, hasHook, valDice, pathFor, initial);
      st.files == (initial - st.written) + PathSet(st.bestPath) &&
      st.files * st.written == PathSet(st.bestPath) &&
      (st.bestPath.Some? <==> st.best > 0.0) &&
      (st.bestPath.Some? ==> st.bestPath.value == pathFor(st.best) && st.bestPath.value in st.written)
  {
    if k > 0 {
      CheckpointInvariant(k - 1, numEpochs, valInterval, hasHook, valDice, pathFor, initial);
      BestIsMax(k - 1, numEpochs, valInterval, hasHook, valDice, pathFor, initial);
    }
  }
}
