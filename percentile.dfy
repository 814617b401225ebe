/** `calculatePercentile` and `normalCDF`: the WHO LMS (Box-Cox) percentile
    estimator. It sorts the caller's reference rows by age, finds the pair of
    rows that bracket the age (clamping to the first or last row outside the
    table), interpolates L, M and S linearly, forms the LMS z-score, turns it
    into a percentile with formula 26.2.17 of Abramowitz and Stegun's Handbook
    of Mathematical Functions, and clamps and rounds the result. */
module Percentile {
  import opened GrowthTypes
  import opened JsNumber
  import Sorting

  /** `Math.pow`, `Math.log` and `Math.exp`. The model never looks inside
      them; it is given them as values. */
  datatype Transcendentals = Transcendentals(
    pow: (real, real) -> real,
    log: real -> real,
    exp: real -> real)

  /** The only facts about the transcendental functions the model relies on. */
  ghost predicate Anchored(math: Transcendentals)
  {
    && (forall l :: math.pow(1.0, l) == 1.0)
    && math.log(1.0) == 0.0
    && math.exp(0.0) == 1.0
  }

  /** The sort key of `(a, b) => a.ageInDays - b.ageInDays`. */
  function AgeKey(p: LmsPoint): int
  {
    p.ageInDays
  }

  ghost predicate AgesAscending(s: seq<LmsPoint>)
  {
    Sorting.SortedBy(s, AgeKey)
  }

  ghost predicate AgesStrictlyAscending(s: seq<LmsPoint>)
  {
    forall i, j :: 0 <= i < j < |s| ==> s[i].ageInDays < s[j].ageInDays
  }

  /** Every row has a positive median and coefficient of variation. */
  ghost predicate PositiveScales(s: seq<LmsPoint>)
  {
    forall i :: 0 <= i < |s| ==> s[i].M > 0.0 && s[i].S > 0.0
  }

  /** Rows `i` and `i + 1` bracket `age`. */
  predicate Brackets(s: seq<LmsPoint>, i: nat, age: int)
    requires i + 1 < |s|
  {
    s[i].ageInDays <= age <= s[i + 1].ageInDays
  }

  /** The first index `k >= i` whose pair `(k, k + 1)` brackets `age`, or -1. */
  function FirstBracketFrom(s: seq<LmsPoint>, age: int, i: nat): (k: int)
    ensures k == -1 || (i <= k && k + 1 < |s| && Brackets(s, k, age))
    ensures k == -1 ==> forall j :: i <= j && j + 1 < |s| ==> !Brackets(s, j, age)
    ensures k != -1 ==> forall j :: i <= j < k ==> !Brackets(s, j, age)
    decreases |s| - i
  {
    if i + 1 >= |s| then -1
    else if Brackets(s, i, age) then i
    else FirstBracketFrom(s, age, i + 1)
  }

  /** `lowerIndex` and `upperIndex` after the scan and the two edge cases. */
  function Bracket(s: seq<LmsPoint>, age: int): (r: (nat, nat))
    requires |s| > 0
    ensures r.0 <= r.1 < |s|
  {
    var k := FirstBracketFrom(s, age, 0);
    if age <= s[0].ageInDays then (0, 0)
    else if age >= s[|s| - 1].ageInDays then (|s| - 1, |s| - 1)
    else if k == -1 then (0, |s| - 1)
    else (k, k + 1)
  }

  /** A scan started at `j` stops at the first bracketing pair at or after `j`. */
  lemma {:induction false} FirstBracketIsFirstHit(s: seq<LmsPoint>, age: int, j: nat, i: nat)
    requires j <= i && i + 1 < |s| && Brackets(s, i, age)
    requires forall m :: j <= m < i ==> !Brackets(s, m, age)
    ensures FirstBracketFrom(s, age, j) == i
    decreases i - j
  {
    if j < i {
      assert !Brackets(s, j, age);
      FirstBracketIsFirstHit(s, age, j + 1, i);
    }
  }

  /** If no pair brackets `age` and the first row is at or below it, every
      later row is below it. */
  lemma {:induction false} NoBracketMeansBelow(s: seq<LmsPoint>, age: int, j: nat)
    requires 0 < j < |s| && s[0].ageInDays <= age
    requires forall i :: 0 <= i && i + 1 < |s| ==> !Brackets(s, i, age)
    ensures s[j].ageInDays < age
  {
    if j > 1 {
      NoBracketMeansBelow(s, age, j - 1);
    }
    assert !Brackets(s, j - 1, age);
  }

  /** On an ascending table the bracket is one row, or two adjacent rows
      with the age above the lower and at most the upper. So the ratio
      below never divides by zero. */
  lemma BracketOnAscending(s: seq<LmsPoint>, age: int)
    requires |s| > 0 && AgesAscending(s)
    ensures var (lo, hi) := Bracket(s, age);
      lo == hi || (hi == lo + 1 && s[lo].ageInDays < age <= s[hi].ageInDays)
  {
    var k := FirstBracketFrom(s, age, 0);
    if s[0].ageInDays < age < s[|s| - 1].ageInDays {
      if k == -1 {
        NoBracketMeansBelow(s, age, |s| - 1);
      } else if k > 0 {
        assert !Brackets(s, k - 1, age);
        assert AgeKey(s[k - 1]) <= AgeKey(s[k]);
      }
    }
  }

  datatype Lms = Lms(L: real, M: real, S: real)

  function RowLms(p: LmsPoint): Lms
  {
    Lms(p.L, p.M, p.S)
  }

  /** `lower + ratio * (upper - lower)`. */
  function Lerp(lower: real, upper: real, ratio: real): (r: real)
    requires 0.0 <= ratio <= 1.0
    ensures Min(lower, upper) <= r <= Max(lower, upper)
  {
    LerpBetween(lower, upper, ratio);
    lower + ratio * (upper - lower)
  }

  lemma LerpBetween(lower: real, upper: real, ratio: real)
    requires 0.0 <= ratio <= 1.0
    ensures Min(lower, upper) <= lower + ratio * (upper - lower) <= Max(lower, upper)
  {
    var step := ratio * (upper - lower);
    LerpRemainder(lower, upper, ratio);
    if lower <= upper {
      ProductNonNegative(ratio, upper - lower);
      ProductNonNegative(1.0 - ratio, upper - lower);
    } else {
      ProductNonNegative(ratio, lower - upper);
      ProductNonNegative(1.0 - ratio, lower - upper);
      assert step == -(ratio * (lower - upper));
      assert (1.0 - ratio) * (upper - lower) == -((1.0 - ratio) * (lower - upper));
    }
  }

  lemma ProductNonNegative(a: real, b: real)
    requires a >= 0.0 && b >= 0.0
    ensures a * b >= 0.0
  {
  }

  lemma LerpRemainder(lower: real, upper: real, ratio: real)
    ensures upper - (lower + ratio * (upper - lower)) == (1.0 - ratio) * (upper - lower)
  {
  }

  /** `(ageInDays - lower.ageInDays) / (upper.ageInDays - lower.ageInDays)`. */
  function Ratio(age: int, lowerAge: int, upperAge: int): (r: real)
    requires lowerAge < age <= upperAge
    ensures 0.0 < r <= 1.0
    ensures age < upperAge ==> r < 1.0
    ensures age == upperAge ==> r == 1.0
  {
    var num, den := (age - lowerAge) as real, (upperAge - lowerAge) as real;
    assert num / den * den == num;
    num / den
  }

  /** The L, M and S at `age`, interpolated as `calculatePercentile` does. */
  function Interpolate(s: seq<LmsPoint>, age: int): (p: Lms)
    requires |s| > 0 && AgesAscending(s)
    ensures PositiveScales(s) ==> p.M > 0.0 && p.S > 0.0
  {
    var (lo, hi) := Bracket(s, age);
    if lo == hi then RowLms(s[lo])
    else
      BracketOnAscending(s, age);
      var ratio := Ratio(age, s[lo].ageInDays, s[hi].ageInDays);
      Lms(Lerp(s[lo].L, s[hi].L, ratio), Lerp(s[lo].M, s[hi].M, ratio), Lerp(s[lo].S, s[hi].S, ratio))
  }

  /** At or below the first tabulated age the first row is used as it is. */
  lemma InterpolateClampLow(s: seq<LmsPoint>, age: int)
    requires |s| > 0 && AgesAscending(s) && age <= s[0].ageInDays
    ensures Interpolate(s, age) == RowLms(s[0])
  {
  }

  /** Above the first and at or above the last tabulated age the last row is
      used as it is. */
  lemma InterpolateClampHigh(s: seq<LmsPoint>, age: int)
    requires |s| > 0 && AgesAscending(s)
    requires s[0].ageInDays < age && s[|s| - 1].ageInDays <= age
    ensures Interpolate(s, age) == RowLms(s[|s| - 1])
  {
  }

  /** Strictly between two neighbouring rows, the ratio lies strictly between
      0 and 1 and each parameter lies between the two rows' values. */
  lemma InterpolateBetweenRows(s: seq<LmsPoint>, age: int, k: nat)
    requires AgesAscending(s) && k + 1 < |s|
    requires s[k].ageInDays < age < s[k + 1].ageInDays
    ensures Bracket(s, age) == (k, k + 1)
    ensures var ratio := Ratio(age, s[k].ageInDays, s[k + 1].ageInDays);
      && 0.0 < ratio < 1.0
      && Interpolate(s, age) == Lms(Lerp(s[k].L, s[k + 1].L, ratio),
                                    Lerp(s[k].M, s[k + 1].M, ratio),
                                    Lerp(s[k].S, s[k + 1].S, ratio))
    ensures var p := Interpolate(s, age);
      && Min(s[k].L, s[k + 1].L) <= p.L <= Max(s[k].L, s[k + 1].L)
      && Min(s[k].M, s[k + 1].M) <= p.M <= Max(s[k].M, s[k + 1].M)
      && Min(s[k].S, s[k + 1].S) <= p.S <= Max(s[k].S, s[k + 1].S)
  {
    var f := FirstBracketFrom(s, age, 0);
    forall j | 0 <= j < k ensures !Brackets(s, j, age) {
      assert AgeKey(s[j + 1]) <= AgeKey(s[k]);
    }
    assert Brackets(s, k, age);
    assert AgeKey(s[0]) <= AgeKey(s[k]) && AgeKey(s[k + 1]) <= AgeKey(s[|s| - 1]);
    assert f == k;
  }

  /** At a tabulated age of a table with distinct ages, the interpolated
      parameters are exactly that row's. */
  lemma InterpolateAtRow(s: seq<LmsPoint>, k: nat)
    requires k < |s| && AgesStrictlyAscending(s)
    ensures AgesAscending(s)
    ensures Interpolate(s, s[k].ageInDays) == RowLms(s[k])
  {
    var age := s[k].ageInDays;
    if 0 < k < |s| - 1 {
      var f := FirstBracketFrom(s, age, 0);
      forall j | 0 <= j < k - 1 ensures !Brackets(s, j, age) {
        assert s[j + 1].ageInDays < s[k].ageInDays;
      }
      assert Brackets(s, k - 1, age);
      assert s[0].ageInDays < age < s[|s| - 1].ageInDays;
      assert f == k - 1;
      assert Bracket(s, age) == (k - 1, k);
    } else if k > 0 {
      assert s[0].ageInDays < age;
    }
  }

  /** The LMS z-score `((value / M) ^ L - 1) / (L * S)`, or `ln(value / M) / S`
      when L is 0. */
  function ZScore(value: real, p: Lms, math: Transcendentals): (z: real)
    requires p.M > 0.0 && p.S > 0.0
    ensures p.L != 0.0 ==> (z == 0.0 <==> math.pow(value / p.M, p.L) == 1.0)
    ensures p.L == 0.0 ==> (z == 0.0 <==> math.log(value / p.M) == 0.0)
  {
    if p.L != 0.0 then (math.pow(value / p.M, p.L) - 1.0) / (p.L * p.S)
    else math.log(value / p.M) / p.S
  }

  /** A value equal to the median has z-score 0, whatever L is. */
  lemma ZScoreOfMedian(p: Lms, math: Transcendentals)
    requires p.M > 0.0 && p.S > 0.0 && Anchored(math)
    ensures ZScore(p.M, p, math) == 0.0
  {
    assert p.M / p.M == 1.0;
  }

  /** The `t` of `normalCDF`. */
  function CdfT(z: real): (t: real)
    ensures 0.0 < t <= 1.0
    ensures t == 1.0 <==> z == 0.0
  {
    var den := 1.0 + 0.2316419 * Abs(z);
    assert 1.0 / den * den == 1.0;
    1.0 / den
  }

  function TailPolynomial(t: real): real
  {
    0.3193815 + t * (-0.3565638 + t * (1.781478 + t * (-1.821256 + t * 1.330274)))
  }

  /** `d * t * (polynomial in t)`: the upper-tail probability of `|z|`. */
  function UpperTail(z: real, math: Transcendentals): real
  {
    var t := CdfT(z);
    0.3989423 * math.exp(-z * z / 2.0) * t * TailPolynomial(t)
  }

  lemma UpperTailEven(z: real, math: Transcendentals)
    ensures UpperTail(-z, math) == UpperTail(z, math)
  {
    assert Abs(-z) == Abs(z);
    assert -(-z) * -z / 2.0 == -z * z / 2.0;
  }

  /** `normalCDF`: the lower-tail probability, taken from the upper tail for
      positive z. */
  function NormalCdf(z: real, math: Transcendentals): (p: real)
    ensures z <= 0.0 ==> p == UpperTail(Abs(z), math)
    ensures z > 0.0 ==> p == 1.0 - UpperTail(Abs(z), math)
  {
    UpperTailEven(z, math);
    var prob := UpperTail(z, math);
    if z > 0.0 then 1.0 - prob else prob
  }

  /** The approximation is exactly symmetric away from 0. */
  lemma NormalCdfSymmetric(z: real, math: Transcendentals)
    requires z != 0.0
    ensures NormalCdf(-z, math) == 1.0 - NormalCdf(z, math)
  {
    UpperTailEven(z, math);
  }

  /** At z = 0 the polynomial gives 0.3989423 * 1.2533137, just under 1/2. */
  lemma NormalCdfAtZero(math: Transcendentals)
    requires math.exp(0.0) == 1.0
    ensures NormalCdf(0.0, math) == 0.3989423 * 1.2533137
    ensures 0.4999998 < NormalCdf(0.0, math) < 0.5
  {
    assert CdfT(0.0) == 1.0;
    assert -0.0 * 0.0 / 2.0 == 0.0;
    assert UpperTail(0.0, math) == 0.3989423 * 1.0 * 1.0 * TailPolynomial(1.0);
  }

  /** `Math.max(0.1, Math.min(99.9, Math.round(percentile * 10) / 10))`. */
  function ClampToTenth(percentile: real): (r: real)
    ensures 0.1 <= r <= 99.9
    ensures OnGrid(r, 10)
    ensures 0.1 <= percentile <= 99.9 ==> Abs(r - percentile) <= 0.05
  {
    var rounded := Round(percentile * 10.0) as real / 10.0;
    assert (rounded * 10.0).Floor == Round(percentile * 10.0);
    Max(0.1, Min(99.9, rounded))
  }

  lemma ClampToTenthMonotone(a: real, b: real)
    requires a <= b
    ensures ClampToTenth(a) <= ClampToTenth(b)
  {
    RoundMonotone(a * 10.0, b * 10.0);
  }

  /** The percentile `calculatePercentile` returns for a non-empty table, once
      the table is sorted. */
  function PercentileOf(value: real, age: int, s: seq<LmsPoint>, math: Transcendentals): (r: real)
    requires |s| > 0 && AgesAscending(s) && PositiveScales(s)
    ensures 0.1 <= r <= 99.9 && OnGrid(r, 10)
  {
    ClampToTenth(NormalCdf(ZScore(value, Interpolate(s, age), math), math) * 100.0)
  }

  /** A value at the interpolated median is at the 50th percentile. */
  lemma PercentileAtMedian(age: int, s: seq<LmsPoint>, math: Transcendentals)
    requires |s| > 0 && AgesAscending(s) && PositiveScales(s) && Anchored(math)
    ensures PercentileOf(Interpolate(s, age).M, age, s, math) == 50.0
  {
    var p := Interpolate(s, age);
    ZScoreOfMedian(p, math);
    NormalCdfAtZero(math);
    assert Round(NormalCdf(0.0, math) * 100.0 * 10.0) == 500;
  }

  /** Ages at or below the first tabulated age give the first age's percentile. */
  lemma PercentileClampLow(value: real, age: int, s: seq<LmsPoint>, math: Transcendentals)
    requires |s| > 0 && AgesAscending(s) && PositiveScales(s)
    requires age <= s[0].ageInDays
    ensures PercentileOf(value, age, s, math) == PercentileOf(value, s[0].ageInDays, s, math)
  {
    InterpolateClampLow(s, age);
    InterpolateClampLow(s, s[0].ageInDays);
  }

  /** Ages above the first and at or above the last tabulated age give the last
      age's percentile. */
  lemma PercentileClampHigh(value: real, age: int, s: seq<LmsPoint>, math: Transcendentals)
    requires |s| > 0 && AgesAscending(s) && PositiveScales(s)
    requires s[0].ageInDays < s[|s| - 1].ageInDays <= age
    ensures PercentileOf(value, age, s, math) == PercentileOf(value, s[|s| - 1].ageInDays, s, math)
  {
    InterpolateClampHigh(s, age);
    InterpolateClampHigh(s, s[|s| - 1].ageInDays);
  }

  lemma PermutationKeepsPositiveScales(a: seq<LmsPoint>, b: seq<LmsPoint>)
    requires multiset(a) == multiset(b) && PositiveScales(a)
    ensures PositiveScales(b)
  {
    forall i | 0 <= i < |b| ensures b[i].M > 0.0 && b[i].S > 0.0 {
      assert b[i] in multiset(a);
      var j :| 0 <= j < |a| && a[j] == b[i];
    }
  }

  /** `calculatePercentile`. It sorts the caller's array in place, then scans
      for the bracketing rows. An empty array makes the read of the first row
      throw, and the catch returns the median 50. `measurementType` and
      `gender` are accepted and not used, as in the source. */
  method CalculatePercentile(value: real, ageInDays: int, measurementType: MeasurementType,
                             gender: Sex, whoData: array<LmsPoint>, math: Transcendentals)
    returns (percentile: real)
    requires PositiveScales(whoData[..])
    modifies whoData
    ensures whoData[..] == Sorting.InsertionSort(old(whoData[..]), AgeKey)
    ensures AgesAscending(whoData[..]) && multiset(whoData[..]) == multiset(old(whoData[..]))
    ensures PositiveScales(whoData[..])
    ensures whoData.Length == 0 ==> percentile == 50.0
    ensures whoData.Length > 0 ==> percentile == PercentileOf(value, ageInDays, whoData[..], math)
    ensures 0.1 <= percentile <= 99.9 && OnGrid(percentile, 10)
  {
    Sorting.SortInPlace(whoData, AgeKey);
    Sorting.InsertionSortCorrect(old(whoData[..]), AgeKey);
    PermutationKeepsPositiveScales(old(whoData[..]), whoData[..]);
    if whoData.Length == 0 {
      return 50.0;
    }
    percentile := PercentileFromSorted(value, ageInDays, whoData, math);
  }

  /** The part of `calculatePercentile` after the sort: bracket, interpolate,
      z-score, normal CDF, round and clamp. */
  method PercentileFromSorted(value: real, ageInDays: int, whoData: array<LmsPoint>, math: Transcendentals)
    returns (percentile: real)
    requires whoData.Length > 0 && AgesAscending(whoData[..]) && PositiveScales(whoData[..])
    ensures percentile == PercentileOf(value, ageInDays, whoData[..], math)
  {
    var lowerIndex, upperIndex := FindBracket(whoData, ageInDays);
    ghost var rows := whoData[..];
    BracketOnAscending(rows, ageInDays);

    var lower := whoData[lowerIndex];
    var upper := whoData[upperIndex];
    var L, M, S;
    if lowerIndex == upperIndex {
      L, M, S := lower.L, lower.M, lower.S;
    } else {
      var ratio := Ratio(ageInDays, lower.ageInDays, upper.ageInDays);
      L := Lerp(lower.L, upper.L, ratio);
      M := Lerp(lower.M, upper.M, ratio);
      S := Lerp(lower.S, upper.S, ratio);
    }
    ghost var lms := Interpolate(rows, ageInDays);
    assert L == lms.L && M == lms.M && S == lms.S;

    var zScore := ZScore(value, Lms(L, M, S), math);
    percentile := ClampToTenth(NormalCdf(zScore, math) * 100.0);
    assert percentile == PercentileOf(value, ageInDays, rows, math);
  }

  /** The scan for the bracketing pair, then the two edge cases: at or below
      the first age both indices are the first row, at or above the last age
      both are the last row. */
  method FindBracket(whoData: array<LmsPoint>, ageInDays: int) returns (lowerIndex: nat, upperIndex: nat)
    requires whoData.Length > 0
    ensures (lowerIndex, upperIndex) == Bracket(whoData[..], ageInDays)
  {
    ghost var s := whoData[..];
    var n := whoData.Length;
    lowerIndex, upperIndex := 0, n - 1;
    var i := 0;
    while i < n - 1
      invariant 0 <= i <= n - 1
      invariant lowerIndex == 0 && upperIndex == n - 1
      invariant forall j :: 0 <= j < i ==> !Brackets(s, j, ageInDays)
    {
      if ageInDays >= whoData[i].ageInDays && ageInDays <= whoData[i + 1].ageInDays {
        lowerIndex, upperIndex := i, i + 1;
        FirstBracketIsFirstHit(s, ageInDays, 0, i);
        break;
      }
      i := i + 1;
    }
    ghost var k := FirstBracketFrom(s, ageInDays, 0);
    if lowerIndex == 0 && upperIndex == n - 1 {
      assert k == -1 || (k == 0 && n == 2);
    }
    if ageInDays <= whoData[0].ageInDays {
      lowerIndex, upperIndex := 0, 0;
    } else if ageInDays >= whoData[n - 1].ageInDays {
      lowerIndex, upperIndex := n - 1, n - 1;
    }
  }
}
