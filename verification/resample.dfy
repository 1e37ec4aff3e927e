/** Linear resampling of 16-bit PCM between two sample rates. Rates and lengths are taken not to overflow. */
module Resampling {

  type sample = x: int | -0x8000 <= x < 0x8000

  datatype Result<+T> = Ok(value: T) | InvalidSampleRate

  // ----- the resampled signal -----

  /** Division that truncates toward zero. */
  function Quotient(n: int, d: int): int
    requires d > 0
  {
    if n >= 0 then n / d else -(-n / d)
  }

  function Min(a: int, b: int): int {
    if a < b then a else b
  }

  function Max(a: int, b: int): int {
    if a > b then a else b
  }

  function LengthOf(n: nat, fromRate: nat, toRate: nat): (m: nat)
    requires fromRate > 0
    ensures m >= 1
  {
    Max(1, (n * toRate + fromRate / 2) / fromRate)
  }

  /** The input positions that output i lies between. */
  function LeftOf(n: nat, i: nat, fromRate: nat, toRate: nat): (k: nat)
    requires n > 0 && toRate > 0
    ensures k < n
  {
    Min(i * fromRate / toRate, n - 1)
  }

  function RightOf(n: nat, i: nat, fromRate: nat, toRate: nat): (k: nat)
    requires n > 0 && toRate > 0
    ensures k < n
  {
    Min(LeftOf(n, i, fromRate, toRate) + 1, n - 1)
  }

  /** x times whole is the sum up to less than a whole, on the side of zero. */
  ghost predicate IsTruncated(x: int, sum: int, whole: nat) {
    if sum >= 0 then x * whole <= sum < x * whole + whole else x * whole - whole < sum <= x * whole
  }

  /** Between the two samples, and their weighted mean but for the fraction. */
  function Blended(left: sample, right: sample, weight: nat, whole: nat): (x: sample)
    requires weight < whole
    ensures Min(left, right) <= x <= Max(left, right)
    ensures IsTruncated(x, left * (whole - weight) + right * weight, whole)
  {
    BlendIsBetween(left, right, weight, whole);
    QuotientIsTruncated(left * (whole - weight) + right * weight, whole);
    Quotient(left * (whole - weight) + right * weight, whole)
  }

  /** However the weights fall, the result lies between the two samples, so it always fits. */
  lemma BlendIsBetween(left: sample, right: sample, weight: nat, whole: nat)
    requires weight < whole
    ensures Min(left, right) <= Quotient(left * (whole - weight) + right * weight, whole) <= Max(left, right)
  {
    var n := left * (whole - weight) + right * weight;
    WeightsAddUp(left, right, weight, whole);
    QuotientBetween(n, whole, Min(left, right), Max(left, right));
  }

  lemma WeightsAddUp(left: int, right: int, weight: nat, whole: nat)
    requires weight < whole
    ensures Min(left, right) * whole <= left * (whole - weight) + right * weight <= Max(left, right) * whole
  {
    var lo, hi := Min(left, right), Max(left, right);
    Scale(lo, left, whole - weight);
    Scale(lo, right, weight);
    Scale(left, hi, whole - weight);
    Scale(right, hi, weight);
    assert lo * (whole - weight) + lo * weight == lo * whole;
    assert hi * (whole - weight) + hi * weight == hi * whole;
  }

  lemma Scale(a: int, b: int, k: nat)
    requires a <= b
    ensures a * k <= b * k
  {
  }

  lemma QuotientBetween(n: int, d: int, lo: int, hi: int)
    requires d > 0 && lo * d <= n <= hi * d
    ensures lo <= Quotient(n, d) <= hi
  {
    if n >= 0 {
      DivBounds(n, d);
      Cancel(n / d, hi, d);
      if lo > n / d { Scale(n / d + 1, lo, d); }
    } else {
      DivBounds(-n, d);
      Cancel(lo, -(-n / d), d);
      if -(-n / d) > hi { Scale(hi + 1, -(-n / d), d); }
    }
  }

  lemma DivBounds(n: int, d: int)
    requires d > 0
    ensures (n / d) * d <= n < (n / d) * d + d
  {
  }

  lemma Cancel(a: int, b: int, d: int)
    requires d > 0 && a * d <= b * d
    ensures a <= b
  {
    if a > b { Scale(b + 1, a, d); }
  }

  lemma QuotientIsTruncated(n: int, d: nat)
    requires d > 0
    ensures IsTruncated(Quotient(n, d), n, d)
  {
    if n >= 0 {
      DivBounds(n, d);
    } else {
      DivBounds(-n, d);
      Negated(-n / d, d);
    }
  }

  lemma Negated(q: int, d: int)
    ensures -q * d == -(q * d)
  {
  }

  function SampleAt(input: seq<sample>, i: nat, fromRate: nat, toRate: nat): sample
    requires |input| > 0 && toRate > 0
  {
    Blended(input[LeftOf(|input|, i, fromRate, toRate)], input[RightOf(|input|, i, fromRate, toRate)],
            i * fromRate % toRate, toRate)
  }

  function Resampled(input: seq<sample>, fromRate: nat, toRate: nat): seq<sample>
    requires fromRate > 0 && toRate > 0
  {
    if input == [] || fromRate == toRate then input
    else seq(LengthOf(|input|, fromRate, toRate), i requires i >= 0 => SampleAt(input, i, fromRate, toRate))
  }

  method ResampleLinear(input: array<sample>, fromRate: int, toRate: int) returns (r: Result<array<sample>>)
    ensures r.Ok? <==> fromRate > 0 && toRate > 0
    ensures r.Ok? ==> fresh(r.value) && r.value[..] == Resampled(input[..], fromRate, toRate)
  {
    if fromRate <= 0 || toRate <= 0 {
      return InvalidSampleRate;
    }
    if input.Length == 0 {
      var none := new sample[0];
      return Ok(none);
    }
    if fromRate == toRate {
      var copy := new sample[input.Length](i requires 0 <= i < input.Length reads input => input[i]);
      return Ok(copy);
    }
    ghost var samples := input[..];
    var outputLen := LengthOf(input.Length, fromRate, toRate);
    var out := new sample[outputLen];
    for i := 0 to outputLen
      invariant samples == input[..]
      invariant forall k :: 0 <= k < i ==> out[k] == SampleAt(samples, k, fromRate, toRate)
    {
      out[i] := OneSample(input, i, fromRate, toRate);
    }
    assert out[..] == Resampled(samples, fromRate, toRate);
    r := Ok(out);
  }

  method OneSample(input: array<sample>, i: nat, fromRate: nat, toRate: nat) returns (x: sample)
    requires input.Length > 0 && toRate > 0
    ensures x == SampleAt(input[..], i, fromRate, toRate)
  {
    var sourceNumerator := i * fromRate;
    var left := sourceNumerator / toRate;
    if left >= input.Length {
      left := input.Length - 1;
    }
    var right := Min(left + 1, input.Length - 1);
    var remainder := sourceNumerator % toRate;
    x := Blended(input[left], input[right], remainder, toRate);
  }

  // ----- what it preserves -----

  /** A multiple divides exactly. */
  lemma Divides(a: nat, d: nat)
    requires d > 0
    ensures a * d / d == a && a * d % d == 0
  {
    DivBounds(a * d, d);
    Cancel(a * d / d, a, d);
    if a * d / d < a { Scale(a * d / d + 1, a, d); }
  }

  lemma DividesWithRest(a: nat, rest: nat, d: nat)
    requires rest < d
    ensures (a * d + rest) / d == a && (a * d + rest) % d == rest
  {
    var q := (a * d + rest) / d;
    DivBounds(a * d + rest, d);
    if q < a { Scale(q + 1, a, d); }
    if q > a { Scale(a + 1, q, d); }
  }

  lemma NoWeight(left: sample, right: sample, whole: nat)
    requires whole > 0
    ensures Blended(left, right, 0, whole) == left
  {
    var x: int := left;
    if x >= 0 {
      Divides(x, whole);
    } else {
      Divides(-x, whole);
      assert -(x * whole) == (-x) * whole;
    }
  }

  /** Where an output falls on an input sample, it is that sample. */
  lemma OnTheSpot(input: seq<sample>, i: nat, k: nat, fromRate: nat, toRate: nat)
    requires toRate > 0 && k < |input| && i * fromRate == k * toRate
    ensures SampleAt(input, i, fromRate, toRate) == input[k]
  {
    Divides(k, toRate);
    NoWeight(input[k], input[RightOf(|input|, i, fromRate, toRate)], toRate);
  }

  /**
   Output i stands at k + rest / toRate on the input's positions. It blends the
   samples k and k + 1 by that fraction; from the last sample on it is the last.
   */
  lemma SampleBlends(input: seq<sample>, i: nat, k: nat, rest: nat, fromRate: nat, toRate: nat)
    requires |input| > 0 && rest < toRate && i * fromRate == k * toRate + rest
    ensures var x := SampleAt(input, i, fromRate, toRate);
      if k + 1 < |input| then IsTruncated(x, input[k] * (toRate - rest) + input[k + 1] * rest, toRate)
      else x == input[|input| - 1]
  {
    DividesWithRest(k, rest, toRate);
  }

  lemma UpLength(n: nat, rate: nat, factor: nat)
    requires n > 0 && rate > 0 && factor > 0
    ensures LengthOf(n, rate, factor * rate) == n * factor && n * factor >= 1
  {
    assert n * (factor * rate) == (n * factor) * rate;
    DividesWithRest(n * factor, rate / 2, rate);
  }

  lemma DownLength(n: nat, rate: nat, factor: nat)
    requires n > 0 && rate > 0 && factor > 0
    ensures factor * rate > 0 && LengthOf(n * factor, factor * rate, rate) == n
  {
    var whole := factor * rate;
    assert (n * factor) * rate == n * whole;
    DividesWithRest(n, whole / 2, whole);
  }

  lemma Below(j: nat, n: nat, factor: nat)
    requires j < n && factor > 0
    ensures j * factor < n * factor
  {
  }

  lemma OneBack(input: seq<sample>, up: seq<sample>, j: nat, rate: nat, factor: nat, high: nat)
    requires rate > 0 && factor > 0 && high == factor * rate && j < |input| && |up| == |input| * factor
    requires j * factor < |up| && up[j * factor] == SampleAt(input, j * factor, rate, high)
    ensures SampleAt(up, j, high, rate) == input[j]
  {
    TimesTimes(j, factor, rate);
    BackAt(input, up, j, j * factor, rate, high);
  }

  lemma TimesTimes(a: nat, b: nat, c: nat)
    ensures a * (b * c) == (a * b) * c
  {
  }

  /** Output k of the way up and output j of the way down fall on the same instant as input j. */
  lemma BackAt(input: seq<sample>, up: seq<sample>, j: nat, k: nat, rate: nat, high: nat)
    requires rate > 0 && high > 0 && j < |input| && k < |up| && j * high == k * rate
    requires up[k] == SampleAt(input, k, rate, high)
    ensures SampleAt(up, j, high, rate) == input[j]
  {
    OnTheSpot(up, j, k, high, rate);
    OnTheSpot(input, k, j, rate, high);
  }

  lemma UpIs(input: seq<sample>, rate: nat, factor: nat, high: nat)
    requires rate > 0 && factor > 0 && high == factor * rate && high != rate && input != []
    ensures var up := Resampled(input, rate, high);
      && |up| == |input| * factor && up != []
      && forall k :: 0 <= k < |up| ==> up[k] == SampleAt(input, k, rate, high)
  {
    UpLength(|input|, rate, factor);
  }

  /** Up by a whole factor and down again gives back the signal. */
  lemma UpAndDown(input: seq<sample>, rate: nat, factor: nat)
    requires rate > 0 && factor > 0
    ensures factor * rate > 0
    ensures Resampled(Resampled(input, rate, factor * rate), factor * rate, rate) == input
  {
    var high := factor * rate;
    if input != [] && high != rate {
      DownLength(|input|, rate, factor);
      UpIs(input, rate, factor, high);
      var up := Resampled(input, rate, high);
      forall j | 0 <= j < |input| ensures SampleAt(up, j, high, rate) == input[j] {
        Below(j, |input|, factor);
        OneBack(input, up, j, rate, factor, high);
      }
    }
  }

  /**
   The result's duration is the signal's to within half a sample, exactly if
   that is half a sample at least; else it is one.
   */
  lemma DurationKept(n: nat, fromRate: nat, toRate: nat)
    requires fromRate > 0 && n > 0
    ensures var m := LengthOf(n, fromRate, toRate);
      && (WithinHalf(m * fromRate, n * toRate, fromRate) <==> 2 * (n * toRate) >= fromRate)
      && (2 * (n * toRate) < fromRate ==> m == 1)
  {
    RoundedWithin(n * toRate, fromRate);
  }

  predicate WithinHalf(a: int, b: int, whole: int) {
    2 * (a - b) <= whole && 2 * (b - a) <= whole
  }

  lemma RoundedWithin(x: nat, whole: nat)
    requires whole > 0
    ensures var m := Max(1, (x + whole / 2) / whole);
      && (WithinHalf(m * whole, x, whole) <==> 2 * x >= whole)
      && (2 * x < whole ==> m == 1)
  {
    var q := (x + whole / 2) / whole;
    DivBounds(x + whole / 2, whole);
    if q == 0 {
      Whole(whole);
    } else {
      Scale(1, q, whole);
      Whole(whole);
      BetweenHalves(x, whole, q * whole);
    }
  }

  lemma Whole(d: nat)
    ensures 0 * d == 0 && 1 * d == d
  {
  }

  lemma BetweenHalves(x: nat, whole: nat, p: nat)
    requires whole > 0 && whole <= p <= x + whole / 2 < p + whole
    ensures WithinHalf(p, x, whole) && 2 * x >= whole
  {
  }
}
