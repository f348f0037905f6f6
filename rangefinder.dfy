/** The HC-SR04 range finder of rangefinder.py: one echo timing becomes a distance
    sample (`_sample`), and `get_distance` reduces a batch of samples to one reading.
    The GPIO pulses and the busy-wait loops on the echo pin are hardware I/O: the
    model takes what they produce (the two pulse timestamps, or the fact that a call
    raised) as input. */
module RangeFinder {
  import opened Common

  /** Centimetres per second of echo: half the speed of sound (rangefinder.py:49). */
  const SoundFactor: real := 17150.0

  /** The distance `_sample` keeps when anything goes wrong (rangefinder.py:33). */
  const InvalidSample: real := -1.0

  /** Default batch size and settle time of the constructor (rangefinder.py:17). */
  const DefaultSampleSize: int := 3
  const DefaultSettleTime: real := 1.0

  /** What one sense cycle of `_sample` observed. `Timed` carries the last values the
      two busy-wait loops stored in `pulse_start` and `pulse_end`, `None` when a loop
      body never ran; `Raised` stands for a GPIO call that raised. */
  datatype EchoTiming =
    | Timed(pulseStart: Option<real>, pulseEnd: Option<real>)
    | Raised

  /** The subtraction at rangefinder.py:48 succeeds only when both timestamps were taken. */
  predicate Succeeded(t: EchoTiming) {
    t.Timed? && t.pulseStart.Some? && t.pulseEnd.Some?
  }

  function Duration(t: EchoTiming): real
    requires Succeeded(t)
  {
    t.pulseEnd.value - t.pulseStart.value
  }

  /** `round(x, 2)`, rounding halves upwards: a whole number of hundredths. */
  function Round2(x: real): (r: real)
    ensures x - 0.005 < r <= x + 0.005
    ensures (r * 100.0).Floor as real == r * 100.0
  {
    ((x * 100.0 + 0.5).Floor as real) / 100.0
  }

  lemma FloorMonotone(a: real, b: real)
    requires a <= b
    ensures a.Floor <= b.Floor
  {
  }

  lemma Round2Monotone(x: real, y: real)
    requires x <= y
    ensures Round2(x) <= Round2(y)
  {
    FloorMonotone(x * 100.0 + 0.5, y * 100.0 + 0.5);
  }

  lemma Round2NonNegative(x: real)
    requires x >= 0.0
    ensures Round2(x) >= 0.0
  {
    var f := (x * 100.0 + 0.5).Floor;
    assert (f + 1) as real > x * 100.0 + 0.5;
  }

  /** `RangeFinder._sample` after its pulses: the default `-1` survives every failure,
      because the bare `except` swallows it (a GPIO error, or `None - None` at line 48),
      and a completed echo becomes `round(duration * 17150, 2)`. */
  function Sample(t: EchoTiming): (d: real)
    ensures !Succeeded(t) ==> d == InvalidSample
    ensures Succeeded(t) ==> Duration(t) * SoundFactor - 0.005 < d <= Duration(t) * SoundFactor + 0.005
  {
    if Succeeded(t) then Round2(Duration(t) * SoundFactor) else InvalidSample
  }

  /** A non-negative pulse width never yields a negative distance. */
  lemma SampleNonNegative(t: EchoTiming)
    requires Succeeded(t) && Duration(t) >= 0.0
    ensures Sample(t) >= 0.0
  {
    Round2NonNegative(Duration(t) * SoundFactor);
  }

  /** A longer echo never gives a shorter distance. */
  lemma SampleMonotone(t: EchoTiming, u: EchoTiming)
    requires Succeeded(t) && Succeeded(u) && Duration(t) <= Duration(u)
    ensures Sample(t) <= Sample(u)
  {
    Round2Monotone(Duration(t) * SoundFactor, Duration(u) * SoundFactor);
  }

  /** Echoes whose pulse width is non-negative, the only kind the sensor produces. */
  predicate Physical(t: EchoTiming) {
    Succeeded(t) ==> Duration(t) >= 0.0
  }

  /** For physical echoes the sign of the sample tells exactly whether the cycle failed. */
  lemma SampleNegativeIffFailed(t: EchoTiming)
    requires Physical(t)
    ensures Sample(t) < 0.0 <==> !Succeeded(t)
    ensures Sample(t) < 0.0 ==> Sample(t) == InvalidSample
  {
    if Succeeded(t) {
      SampleNonNegative(t);
    }
  }

  /** The number of `_sample` calls of one `get_distance`: the loop at
      rangefinder.py:62 never runs for a size of zero or less. */
  function BatchSize(sampleSize: int): nat {
    if sampleSize < 0 then 0 else sampleSize
  }

  /** The samples `get_distance` collects from the first readings, in order. */
  function SampleBatch(timings: seq<EchoTiming>, sampleSize: int): (s: seq<real>)
    requires BatchSize(sampleSize) <= |timings|
    ensures |s| == BatchSize(sampleSize)
    ensures forall i :: 0 <= i < |s| ==> s[i] == Sample(timings[i])
  {
    seq(BatchSize(sampleSize), i requires 0 <= i < BatchSize(sampleSize) => Sample(timings[i]))
  }

  /** The filter at rangefinder.py:64 as written: keeps the samples below zero. */
  function KeepNegative(s: seq<real>): (r: seq<real>)
    ensures |r| <= |s|
    ensures forall x :: x in r <==> x in s && x < 0.0
    ensures forall x :: multiset(r)[x] == if x < 0.0 then multiset(s)[x] else 0
  {
    if s == [] then []
    else
      assert s == [s[0]] + s[1..];
      (if s[0] < 0.0 then [s[0]] else []) + KeepNegative(s[1..])
  }

  /** Intended variant of the filter: keeps the valid, non-negative samples. */
  function KeepValid(s: seq<real>): (r: seq<real>)
    ensures |r| <= |s|
    ensures forall x :: x in r <==> x in s && x >= 0.0
    ensures forall x :: multiset(r)[x] == if x >= 0.0 then multiset(s)[x] else 0
  {
    if s == [] then []
    else
      assert s == [s[0]] + s[1..];
      (if s[0] >= 0.0 then [s[0]] else []) + KeepValid(s[1..])
  }

  /** Filtering a concatenation filters each part: the survivors keep their order. */
  lemma {:induction false} KeepNegativeAppend(a: seq<real>, b: seq<real>)
    ensures KeepNegative(a + b) == KeepNegative(a) + KeepNegative(b)
  {
    if a != [] {
      assert (a + b)[1..] == a[1..] + b;
      KeepNegativeAppend(a[1..], b);
      assert (a + b)[0] == a[0];
    } else {
      assert a + b == b;
    }
  }

  lemma {:induction false} KeepValidAppend(a: seq<real>, b: seq<real>)
    ensures KeepValid(a + b) == KeepValid(a) + KeepValid(b)
  {
    if a != [] {
      assert (a + b)[1..] == a[1..] + b;
      KeepValidAppend(a[1..], b);
      assert (a + b)[0] == a[0];
    } else {
      assert a + b == b;
    }
  }

  /** The filter of the chosen variant. */
  function Keep(v: Variant, s: seq<real>): (r: seq<real>)
    ensures forall x :: x in r <==> x in s && (if v == AsWritten then x < 0.0 else x >= 0.0)
  {
    match v
    case AsWritten => KeepNegative(s)
    case Intended => KeepValid(s)
  }

  /** `sum(samples)`, folded from the right; Python's `sum` folds from the left, which
      gives the same value on exact reals. */
  function Sum(s: seq<real>): real
  {
    if s == [] then 0.0 else s[0] + Sum(s[1..])
  }

  /** `sum(samples) / len(samples)` for a non-empty list: it lies between the least and
      the greatest sample. */
  function Mean(s: seq<real>): (m: real)
    requires |s| > 0
    ensures MinOf(s) <= m <= MaxOf(s)
  {
    AverageBetween(s);
    Sum(s) / (|s| as real)
  }

  lemma AverageBetween(s: seq<real>)
    requires |s| > 0
    ensures MinOf(s) <= Sum(s) / (|s| as real) <= MaxOf(s)
  {
    var lo, hi := MinOf(s), MaxOf(s);
    forall i | 0 <= i < |s| ensures lo <= s[i] <= hi {
      assert s[i] in s;
    }
    AverageWithin(s, lo, hi);
  }

  lemma AverageWithin(s: seq<real>, lo: real, hi: real)
    requires |s| > 0
    requires forall i :: 0 <= i < |s| ==> lo <= s[i] <= hi
    ensures lo <= Sum(s) / (|s| as real) <= hi
  {
    SumBounds(s, lo, hi);
    var n := |s| as real;
    assert Sum(s) / n * n == Sum(s);
  }

  lemma {:induction false} SumBounds(s: seq<real>, lo: real, hi: real)
    requires forall i :: 0 <= i < |s| ==> lo <= s[i] <= hi
    ensures (|s| as real) * lo <= Sum(s) <= (|s| as real) * hi
  {
    if s != [] {
      SumBounds(s[1..], lo, hi);
    }
  }

  /** The mean lies between any bounds of the averaged samples, in particular between
      their minimum and their maximum. */
  lemma MeanBetween(s: seq<real>, lo: real, hi: real)
    requires |s| > 0
    requires forall i :: 0 <= i < |s| ==> lo <= s[i] <= hi
    ensures lo <= Mean(s) <= hi
  {
    var least, greatest := MinOf(s), MaxOf(s);
    var i :| 0 <= i < |s| && s[i] == least;
    var j :| 0 <= j < |s| && s[j] == greatest;
  }

  /** Averaging copies of one value gives that value. */
  lemma MeanOfConstant(s: seq<real>, c: real)
    requires |s| > 0
    requires forall i :: 0 <= i < |s| ==> s[i] == c
    ensures Mean(s) == c
  {
    MeanBetween(s, c, c);
  }

  datatype SensorError =
    | ZeroDivision     // the ZeroDivisionError of rangefinder.py:65
    | NoValidSamples   // the intended variant's explicit error for an empty batch

  /** What `get_distance` produces: a distance in centimetres, or an error. */
  datatype Reading = Distance(cm: real) | Failure(error: SensorError)

  /** The reduction at rangefinder.py:64-65: filter, then `sum / len`. As written the
      division of an empty list raises; the intended variant reports it. */
  function Reduce(v: Variant, samples: seq<real>): (r: Reading)
    ensures r.Failure? <==> Keep(v, samples) == []
    ensures r.Failure? ==> r.error == (if v == AsWritten then ZeroDivision else NoValidSamples)
  {
    var kept := Keep(v, samples);
    if kept == [] then
      Failure(if v == AsWritten then ZeroDivision else NoValidSamples)
    else
      Distance(Mean(kept))
  }

  /** When a sample survives the filter, the reading is the mean of the survivors and
      lies between the least and the greatest of them. */
  lemma ReduceIsMeanOfSurvivors(v: Variant, samples: seq<real>, lo: real, hi: real)
    requires Keep(v, samples) != []
    requires forall x :: x in Keep(v, samples) ==> lo <= x <= hi
    ensures Reduce(v, samples) == Distance(Mean(Keep(v, samples)))
    ensures lo <= Reduce(v, samples).cm <= hi
  {
    var kept := Keep(v, samples);
    assert forall i :: 0 <= i < |kept| ==> kept[i] in kept;
    MeanBetween(kept, lo, hi);
  }

  /** As written, a reading is a mean of negative samples, so it is negative, and it is
      exactly -1 when every negative sample is the sentinel. */
  lemma AsWrittenReadingIsNegative(samples: seq<real>)
    requires Reduce(AsWritten, samples).Distance?
    ensures Reduce(AsWritten, samples).cm < 0.0
    ensures (forall x :: x in samples && x < 0.0 ==> x == InvalidSample) ==>
              Reduce(AsWritten, samples).cm == InvalidSample
  {
    var kept := KeepNegative(samples);
    var hi, lo := MaxOf(kept), MinOf(kept);
    ReduceIsMeanOfSurvivors(AsWritten, samples, lo, hi);
    if forall x :: x in samples && x < 0.0 ==> x == InvalidSample {
      ReduceIsMeanOfSurvivors(AsWritten, samples, InvalidSample, InvalidSample);
    }
  }

  function MaxOf(s: seq<real>): (m: real)
    requires s != []
    ensures m in s && forall x :: x in s ==> x <= m
  {
    if |s| == 1 then s[0]
    else
      var m := MaxOf(s[1..]);
      assert s == [s[0]] + s[1..];
      if s[0] >= m then s[0] else m
  }

  function MinOf(s: seq<real>): (m: real)
    requires s != []
    ensures m in s && forall x :: x in s ==> m <= x
  {
    if |s| == 1 then s[0]
    else
      var m := MinOf(s[1..]);
      assert s == [s[0]] + s[1..];
      if s[0] <= m then s[0] else m
  }

  /** As written, a batch of physical echoes never yields a usable distance: the
      reading is either the ZeroDivisionError or exactly the sentinel -1. */
  lemma AsWrittenNeverMeasures(timings: seq<EchoTiming>, sampleSize: int)
    requires BatchSize(sampleSize) <= |timings|
    requires forall i :: 0 <= i < |timings| ==> Physical(timings[i])
    ensures Reduce(AsWritten, SampleBatch(timings, sampleSize)) in
              {Failure(ZeroDivision), Distance(InvalidSample)}
  {
    var samples := SampleBatch(timings, sampleSize);
    forall x | x in samples && x < 0.0
      ensures x == InvalidSample
    {
      var i :| 0 <= i < |samples| && samples[i] == x;
      SampleNegativeIffFailed(timings[i]);
    }
    if Reduce(AsWritten, samples).Distance? {
      AsWrittenReadingIsNegative(samples);
    }
  }

  /** As written, a batch in which every sense cycle completed always raises the
      ZeroDivisionError, and so does a batch of size zero or less. */
  lemma AsWrittenAllGoodDividesByZero(timings: seq<EchoTiming>, sampleSize: int)
    requires BatchSize(sampleSize) <= |timings|
    requires forall i :: 0 <= i < BatchSize(sampleSize) ==> Succeeded(timings[i]) && Physical(timings[i])
    ensures Reduce(AsWritten, SampleBatch(timings, sampleSize)) == Failure(ZeroDivision)
  {
    var samples := SampleBatch(timings, sampleSize);
    forall x | x in samples
      ensures x >= 0.0
    {
      var i :| 0 <= i < |samples| && samples[i] == x;
      SampleNegativeIffFailed(timings[i]);
    }
    if KeepNegative(samples) != [] {
      assert KeepNegative(samples)[0] in KeepNegative(samples);
    }
  }

  /** Intended variant: the reading is the mean of the completed cycles' distances, so
      it is non-negative; it is `NoValidSamples` exactly when no cycle completed. */
  lemma IntendedMeasuresValidMean(timings: seq<EchoTiming>, sampleSize: int)
    requires BatchSize(sampleSize) <= |timings|
    requires forall i :: 0 <= i < |timings| ==> Physical(timings[i])
    ensures var r := Reduce(Intended, SampleBatch(timings, sampleSize));
      && (r == Failure(NoValidSamples) <==> forall i :: 0 <= i < BatchSize(sampleSize) ==> !Succeeded(timings[i]))
      && (r.Distance? ==> r == Distance(Mean(KeepValid(SampleBatch(timings, sampleSize)))) && r.cm >= 0.0)
  {
    var samples := SampleBatch(timings, sampleSize);
    forall i | 0 <= i < BatchSize(sampleSize)
      ensures samples[i] >= 0.0 <==> Succeeded(timings[i])
    {
      SampleNegativeIffFailed(timings[i]);
    }
    if KeepValid(samples) != [] {
      var kept := KeepValid(samples);
      var hi := MaxOf(kept);
      ReduceIsMeanOfSurvivors(Intended, samples, 0.0, hi);
      assert kept[0] in samples;
    } else {
      forall i | 0 <= i < BatchSize(sampleSize)
        ensures !Succeeded(timings[i])
      {
        assert samples[i] in samples;
      }
    }
  }

  /** A batch of five samples with two valid ones: the intended variant averages the two,
      the code as written averages the three sentinels. */
  lemma FiveSampleExample()
    ensures Reduce(Intended, [12.3, -1.0, 13.0, -1.0, -1.0]) == Distance(12.65)
    ensures Reduce(AsWritten, [12.3, -1.0, 13.0, -1.0, -1.0]) == Distance(-1.0)
  {
    var s := [12.3, -1.0, 13.0, -1.0, -1.0];
    assert KeepValid(s) == [12.3, 13.0] by {
      assert s[1..] == [-1.0, 13.0, -1.0, -1.0];
      assert s[1..][1..] == [13.0, -1.0, -1.0];
      assert s[1..][1..][1..] == [-1.0, -1.0];
      assert s[1..][1..][1..][1..] == [-1.0];
    }
    assert Sum([12.3, 13.0]) == 25.3 by {
      assert [12.3, 13.0][1..] == [13.0];
    }
    assert KeepNegative(s) == [-1.0, -1.0, -1.0] by {
      assert s[1..] == [-1.0, 13.0, -1.0, -1.0];
      assert s[1..][1..] == [13.0, -1.0, -1.0];
      assert s[1..][1..][1..] == [-1.0, -1.0];
      assert s[1..][1..][1..][1..] == [-1.0];
    }
    MeanOfConstant([-1.0, -1.0, -1.0], -1.0);
  }

  /** The range finder object: its configuration is fixed by the constructor. */
  class RangeFinder {
    const variant: Variant
    const sampleSize: int
    const settleTime: real
    const triggerPin: int
    const echoPin: int

    /** rangefinder.py:17-21; the GPIO set-up of lines 22-24 is hardware I/O. */
    constructor (variant: Variant, sampleSize: int := DefaultSampleSize, settleTime: real := DefaultSettleTime)
      ensures this.variant == variant && this.sampleSize == sampleSize && this.settleTime == settleTime
      ensures triggerPin == 7 && echoPin == 11
    {
      this.variant := variant;
      this.sampleSize := sampleSize;
      this.settleTime := settleTime;
      triggerPin := 7;
      echoPin := 11;
    }

    /** The fill loop at rangefinder.py:61-63: one `_sample` call per missing sample,
        consuming the sense cycles in order. */
    method CollectSamples(timings: seq<EchoTiming>) returns (samples: seq<real>)
      requires BatchSize(sampleSize) <= |timings|
      ensures |samples| == BatchSize(sampleSize)
      ensures forall i :: 0 <= i < |samples| ==> samples[i] == Sample(timings[i])
    {
      samples := [];
      while |samples| < sampleSize
        invariant |samples| <= BatchSize(sampleSize)
        invariant forall i :: 0 <= i < |samples| ==> samples[i] == Sample(timings[i])
        decreases sampleSize - |samples|
      {
        samples := samples + [Sample(timings[|samples|])];
      }
    }

    /** `RangeFinder.get_distance` (rangefinder.py:55-66). */
    method GetDistance(timings: seq<EchoTiming>) returns (r: Reading)
      requires BatchSize(sampleSize) <= |timings|
      ensures r == Reduce(variant, SampleBatch(timings, sampleSize))
    {
      var samples := CollectSamples(timings);
      assert samples == SampleBatch(timings, sampleSize);
      r := Reduce(variant, samples);
    }
  }
}
