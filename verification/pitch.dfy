/** The controller's pitch estimate: a search over candidate periods for the first one
    whose normalised autocorrelation is the largest positive value. Floating-point sums
    and quotients are modelled as exact reals. */
module PitchDetector {
  import opened JavaInt

  /** `(int) (sampleRate / 800)`: the shortest period searched, for 800 Hz. */
  function MinPeriod(sampleRate: real): (p: int)
    ensures 0.0 <= sampleRate ==> 0 <= p && p as real * 800.0 <= sampleRate < (p + 1) as real * 800.0
  {
    TruncToInt(sampleRate / 800.0)
  }

  /** `(int) (sampleRate / 80)`, lowered to `len / 2 - 1` when it reaches `len / 2`: the
      exclusive upper end of the search. A non-empty search range never starts below 0. */
  function MaxPeriod(sampleRate: real, len: nat): (p: int)
    ensures p <= len / 2 - 1
    ensures p <= TruncToInt(sampleRate / 80.0)
    ensures TruncToInt(sampleRate / 80.0) < len / 2 ==> p == TruncToInt(sampleRate / 80.0)
    ensures TruncToInt(sampleRate / 80.0) >= len / 2 ==> p == len / 2 - 1
    ensures MinPeriod(sampleRate) < p ==> 0 <= MinPeriod(sampleRate)
  {
    var p := TruncToInt(sampleRate / 80.0);
    if sampleRate < 0.0 then
      TruncMonotone(sampleRate / 80.0, sampleRate / 800.0);
      if p >= len / 2 then len / 2 - 1 else p
    else if p >= len / 2 then len / 2 - 1 else p
  }

  /** The sum of `s[i] * s[i + p]` over the first `k` indices `i`. */
  function LagSum(s: seq<real>, p: nat, k: nat): real
    requires p + k <= |s|
  {
    if k == 0 then 0.0 else LagSum(s, p, k - 1) + s[k - 1] * s[k - 1 + p]
  }

  /** The autocorrelation at period `p`, divided by the number of products summed. */
  function Correlation(s: seq<real>, p: nat): real
    requires p < |s|
  {
    LagSum(s, p, |s| - p) / (|s| - p) as real
  }

  /** No period in `[lo, hi)` has a positive correlation. */
  ghost predicate NonePositive(s: seq<real>, lo: int, hi: int)
    requires lo < hi ==> 0 <= lo && hi <= |s|
  {
    forall p :: lo <= p < hi ==> Correlation(s, p) <= 0.0
  }

  /** `best` is the first period of `[lo, hi)` reaching the largest correlation there, and
      that correlation is positive. */
  ghost predicate IsFirstBest(s: seq<real>, lo: int, hi: int, best: int)
    requires lo < hi ==> 0 <= lo && hi <= |s|
  {
    && lo <= best < hi
    && Correlation(s, best) > 0.0
    && (forall p :: lo <= p < hi ==> Correlation(s, p) <= Correlation(s, best))
    && (forall p :: lo <= p < best ==> Correlation(s, p) < Correlation(s, best))
  }

  /** The search has one answer: two first-best periods of the same range coincide. */
  lemma FirstBestUnique(s: seq<real>, lo: int, hi: int, b1: int, b2: int)
    requires lo < hi ==> 0 <= lo && hi <= |s|
    requires IsFirstBest(s, lo, hi, b1) && IsFirstBest(s, lo, hi, b2)
    ensures b1 == b2
  {
  }

  /** The frequency reported for a period: the sentinel -1 unless the period is positive. */
  function PitchOfPeriod(sampleRate: real, best: int): (hz: real)
    ensures best > 0 ==> hz * best as real == sampleRate
    ensures best <= 0 ==> hz == -1.0
  {
    if best > 0 then sampleRate / best as real else -1.0
  }

  /** The inner loop of the search: the products `buffer[i] * buffer[i + period]` summed
      over every `i` with `i + period` in bounds, divided by their number. */
  method LagCorrelation(buffer: array<real>, period: nat) returns (correlation: real)
    requires period < buffer.Length
    ensures correlation == Correlation(buffer[..], period)
  {
    correlation := 0.0;
    var samples := buffer.Length - period;
    var i := 0;
    while i < samples
      invariant 0 <= i <= samples
      invariant correlation == LagSum(buffer[..], period, i)
    {
      correlation := correlation + buffer[i] * buffer[i + period];
      i := i + 1;
    }
    correlation := correlation / samples as real;
  }

  /** The period search. Every read `buffer[i + period]` is in bounds for every sample
      rate. The result is 0 when no period correlates positively; otherwise it is the first
      period reaching the maximum, because a later period must correlate strictly more to
      replace it. */
  method BestPeriod(buffer: array<real>, sampleRate: real) returns (best: int)
    ensures NonePositive(buffer[..], MinPeriod(sampleRate), MaxPeriod(sampleRate, buffer.Length)) ==> best == 0
    ensures !NonePositive(buffer[..], MinPeriod(sampleRate), MaxPeriod(sampleRate, buffer.Length)) ==>
              IsFirstBest(buffer[..], MinPeriod(sampleRate), MaxPeriod(sampleRate, buffer.Length), best)
  {
    ghost var s := buffer[..];
    var minPeriod := TruncToInt(sampleRate / 800.0);
    var maxPeriod := TruncToInt(sampleRate / 80.0);
    if maxPeriod >= buffer.Length / 2 {
      maxPeriod := buffer.Length / 2 - 1;
    }
    assert minPeriod == MinPeriod(sampleRate) && maxPeriod == MaxPeriod(sampleRate, buffer.Length);

    var maxCorrelation := 0.0;
    best := 0;
    var period := minPeriod;
    while period < maxPeriod
      invariant minPeriod <= period
      invariant period == minPeriod || (0 <= minPeriod && period <= maxPeriod)
      invariant || (best == 0 && maxCorrelation == 0.0 && NonePositive(s, minPeriod, period))
                || (IsFirstBest(s, minPeriod, period, best) && maxCorrelation == Correlation(s, best))
    {
      var correlation := LagCorrelation(buffer, period);
      if correlation > maxCorrelation {
        maxCorrelation := correlation;
        best := period;
      }
      period := period + 1;
    }
  }

  /** The detected frequency: the sample rate divided by the best period, or -1 when the
      search selected no positive period. A detected frequency is always above 80 Hz. */
  method DetectPitchAutocorrelation(buffer: array<real>, sampleRate: real) returns (pitch: real)
    ensures NonePositive(buffer[..], MinPeriod(sampleRate), MaxPeriod(sampleRate, buffer.Length)) ==> pitch == -1.0
    ensures !NonePositive(buffer[..], MinPeriod(sampleRate), MaxPeriod(sampleRate, buffer.Length)) ==>
              exists best :: IsFirstBest(buffer[..], MinPeriod(sampleRate), MaxPeriod(sampleRate, buffer.Length), best)
                          && pitch == PitchOfPeriod(sampleRate, best)
    ensures pitch == -1.0 || pitch > 80.0
  {
    var best := BestPeriod(buffer, sampleRate);
    if best > 0 {
      PitchAboveSearchFloor(sampleRate, best, buffer.Length);
      pitch := sampleRate / best as real;
    } else {
      pitch := -1.0;
    }
  }

  /** A period inside the search range stands for a frequency above 80 Hz. */
  lemma PitchAboveSearchFloor(sampleRate: real, best: int, len: nat)
    requires 0 < best < MaxPeriod(sampleRate, len)
    ensures sampleRate / best as real > 80.0
  {
    var t := TruncToInt(sampleRate / 80.0);
    var b := best as real;
    assert b < t as real;
    assert 80.0 * b < sampleRate;
    QuotientAbove(sampleRate, b, 80.0);
  }

  lemma SignOfProduct(x: real, k: real)
    requires k > 0.0 && x * k > 0.0
    ensures x > 0.0
  {
  }

  lemma QuotientAbove(s: real, b: real, c: real)
    requires b > 0.0 && c * b < s
    ensures s / b > c
  {
    var q := s / b;
    assert q * b == s;
    assert (q - c) * b == s - c * b;
    SignOfProduct(q - c, b);
  }
}
