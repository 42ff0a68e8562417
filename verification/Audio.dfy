/** Linear resampling of mono 16-bit samples, with the positions and values as exact rationals. */
module Audio {
  // ----- arithmetic

  lemma {:induction false} DivMod(p: nat, q: nat)
    requires q > 0
    ensures p == (p / q) * q + p % q
  {
  }

  lemma {:induction false} Distribute(a: int, b: int, q: int)
    ensures (a + b) * q == a * q + b * q
  {
  }

  lemma {:induction false} Product(a: int, q: int)
    requires q > 0
    ensures a > 0 ==> a * q >= q
    ensures a < 0 ==> a * q <= 0 - q
  {
  }

  lemma {:induction false} ProductOrder(a: int, b: int, q: int)
    requires q > 0
    ensures a * q <= b * q <==> a <= b
    ensures a * q < b * q <==> a < b
  {
    Distribute(a, b - a, q);
    Product(b - a, q);
  }

  lemma {:induction false} Monotone(a: nat, b: nat, c: nat)
    requires a <= b
    ensures a * c <= b * c
  {
  }

  lemma {:induction false} Exact(a: nat, q: nat)
    requires q > 0
    ensures (a * q) / q == a && (a * q) % q == 0
  {
    DivMod(a * q, q);
    var d := a - (a * q) / q;
    Distribute((a * q) / q, d, q);
    Product(d, q);
  }

  // ----- the conversion

  const MIN_SAMPLE: int := -32768
  const MAX_SAMPLE: int := 32767

  /** Python's `round(p / q)`: to the nearest integer, ties to the even one. */
  function Round(p: nat, q: nat): (r: nat)
    requires q > 0
  {
    var floor, rest := p / q, p % q;
    if 2 * rest < q || (2 * rest == q && floor % 2 == 0) then floor else floor + 1
  }

  /** How many samples the output has. */
  function TargetCount(count: nat, fromRate: nat, toRate: nat): nat
    requires fromRate > 0
  {
    var n := Round(count * toRate, fromRate);
    if n < 1 then 1 else n
  }

  /** Conversion to an integer sample drops the fraction: towards zero. */
  function Truncate(p: int, q: nat): int
    requires q > 0
  {
    if p >= 0 then p / q else -((-p) / q)
  }

  /** The input position of output sample `i`, as a multiple of 1 / (target - 1): the positions are
      evenly spaced from the first input sample to the last. */
  function Position(count: nat, target: nat, i: nat): (p: nat)
    requires count > 0 && i < target
  {
    if target == 1 then 0 else i * (count - 1)
  }

  function Spacing(target: nat): (q: nat)
    requires target > 0
    ensures q > 0
  {
    if target == 1 then 1 else target - 1
  }

  /** An integer position lies on or between two input samples, and only the last is the last sample. */
  lemma {:induction false} PositionInRange(count: nat, target: nat, i: nat)
    requires count > 0 && i < target
    ensures var p, q := Position(count, target, i), Spacing(target);
            && p / q < count && (p % q != 0 ==> p / q + 1 < count)
            && (i == 0 ==> p == 0) && (i + 1 == target && target > 1 ==> p / q == count - 1 && p % q == 0)
  {
    var p, q := Position(count, target, i), Spacing(target);
    if target > 1 {
      ProductOrder(i, q, count - 1 + 1);
      assert p <= q * (count - 1) by { Monotone(i, q, count - 1); }
      DivMod(p, q);
      if p / q > count - 1 {
        Distribute(p / q - (count - 1), count - 1, q);
        Product(p / q - (count - 1), q);
      }
      if p / q == count - 1 {
        assert (p / q) * q == q * (count - 1);
      }
      if i + 1 == target {
        Exact(count - 1, q);
        assert p == (count - 1) * q;
      }
    }
  }

  /** The value on the straight line between the two input samples around the position. */
  function Interpolate(samples: seq<int>, target: nat, i: nat): int
    requires samples != [] && i < target
  {
    var p, q := Position(|samples|, target, i), Spacing(target);
    PositionInRange(|samples|, target, i);
    var k, rest := p / q, p % q;
    if rest == 0 then samples[k]
    else Truncate(samples[k] * q + rest * (samples[k + 1] - samples[k]), q)
  }

  function Resample(samples: seq<int>, fromRate: nat, toRate: nat): seq<int>
    requires fromRate > 0 && toRate > 0
  {
    if fromRate == toRate || samples == [] then samples
    else
      var target := TargetCount(|samples|, fromRate, toRate);
      seq(target, i requires 0 <= i < target => Interpolate(samples, target, i))
  }

  // ----- length

  /** Rounding is off by at most one half. */
  lemma {:induction false} RoundIsNearest(p: nat, q: nat)
    requires q > 0
    ensures 0 - q <= 2 * (Round(p, q) * q - p) <= q
  {
    DivMod(p, q);
    Distribute(p / q, 1, q);
  }

  /** An integer closer than one half is the one rounding gives. */
  lemma {:induction false} RoundIsUnique(p: nat, q: nat, n: nat)
    requires q > 0 && 0 - q < 2 * (n * q - p) < q
    ensures Round(p, q) == n
  {
    RoundIsNearest(p, q);
    var d := Round(p, q) - n;
    Distribute(n, d, q);
    Product(d, q);
  }

  /** The output length differs from `count * toRate / fromRate` by at most one half, unless that
      rounds to nothing and one sample is kept. */
  lemma {:induction false} LengthIsNearest(count: nat, fromRate: nat, toRate: nat)
    requires fromRate > 0
    ensures var n := TargetCount(count, fromRate, toRate);
            || 0 - fromRate <= 2 * (n * fromRate - count * toRate) <= fromRate
            || (n == 1 && 2 * (count * toRate) <= fromRate)
  {
    RoundIsNearest(count * toRate, fromRate);
  }

  /** A value halfway between two integers is rounded to the even one. */
  lemma {:induction false} TiesAreEven(p: nat, q: nat)
    requires q > 0
    ensures 2 * (Round(p, q) * q - p) == q || 2 * (p - Round(p, q) * q) == q ==> Round(p, q) % 2 == 0
  {
    DivMod(p, q);
    Distribute(p / q, 1, q);
  }

  /** Nothing to convert is left as it is; otherwise the number of samples is the rounded ratio, ties to the
      even number, and at least one. */
  lemma {:induction false} OutputLength(samples: seq<int>, fromRate: nat, toRate: nat)
    requires fromRate > 0 && toRate > 0
    ensures fromRate == toRate || samples == [] ==> Resample(samples, fromRate, toRate) == samples
    ensures fromRate != toRate && samples != [] ==>
              var n, exact := |Resample(samples, fromRate, toRate)|, |samples| * toRate;
              && n >= 1 && (n == 1 || (0 - fromRate <= 2 * (n * fromRate - exact) <= fromRate))
              && (n == 1 ==> 2 * (exact - fromRate) <= fromRate)
              && (2 * (n * fromRate - exact) in {0 - fromRate, fromRate} ==> n == 1 || n % 2 == 0)
  {
    if fromRate != toRate && samples != [] {
      LengthIsNearest(|samples|, fromRate, toRate);
      TiesAreEven(|samples| * toRate, fromRate);
    }
  }

  /** Resampling to a higher rate and back returns exactly the original number of samples. */
  lemma {:induction false} UpAndBackKeepsTheLength(samples: seq<int>, low: nat, high: nat)
    requires 0 < low <= high
    ensures |Resample(Resample(samples, low, high), high, low)| == |samples|
  {
    if low < high && samples != [] {
      var count := |samples|;
      var more := Round(count * high, low);
      RoundIsNearest(count * high, low);
      Monotone(low, high, count);
      Product(count, low);
      assert low * count == count * low && high * count == count * high;
      assert more == 0 ==> more * low == 0;
      RoundIsUnique(more * low, high, count);
    }
  }

  lemma {:induction false} QuotientIs(x: nat, q: nat, quotient: nat, rest: nat)
    requires rest < q && x == quotient * q + rest
    ensures x / q == quotient && x % q == rest
  {
    DivMod(x, q);
    var d := x / q - quotient;
    Distribute(quotient, d, q);
    Product(d, q);
  }

  /** A value `gap` away from `count * low` rounds back to `count` when the gap is less than half of
      `low`, or is exactly half of it and `count` is even. */
  lemma {:induction false} RoundsBackIff(count: nat, low: nat, x: nat, gap: nat)
    requires count > 0 && low > 0 && (x + gap == count * low || x == count * low + gap)
    ensures Round(x, low) == count <==> 2 * gap < low || (2 * gap == low && count % 2 == 0)
  {
    if 2 * gap < low {
      RoundIsUnique(x, low, count);
    } else if 2 * gap > low {
      RoundIsNearest(x, low);
    } else if x == count * low + gap {
      QuotientIs(x, low, count, gap);
    } else {
      Distribute(count, -1, low);
      QuotientIs(x, low, count - 1, gap);
    }
  }

  /** The samples left after going down to the lower rate, and what that is in the higher one. */
  lemma {:induction false} WayDown(count: nat, low: nat, high: nat)
    requires count > 0 && 0 < low < high
    ensures var total, m := count * low, Round(count * low, high);
            var r := total % high;
            && r < high && (m == 0 ==> r == total && 2 * r <= high)
            && (2 * r < high ==> m * high + r == total)
            && (2 * r > high ==> m * high == total + (high - r))
            && (2 * r == high ==> m * high + r == total || m * high == total + r)
  {
    var total := count * low;
    DivMod(total, high);
    Distribute(total / high, 1, high);
  }

  /** When the way down rounds to nothing, the one sample kept becomes more than there were. */
  lemma {:induction false} FewBecomeMany(count: nat, low: nat, high: nat)
    requires count > 0 && low > 0 && 2 * (count * low) <= high
    ensures Round(high, low) > count
  {
    RoundIsNearest(high, low);
    Product(count, low);
    ProductOrder(Round(high, low), count, low);
  }

  /** The way up from `m` samples that are worth `gap` more or less than they were. */
  lemma {:induction false} WayUp(count: nat, low: nat, high: nat, m: nat, gap: nat)
    requires count > 0 && 0 < low < high && m > 0
    requires m * high + gap == count * low || m * high == count * low + gap
    ensures TargetCount(m, low, high) == count <==> 2 * gap < low || (2 * gap == low && count % 2 == 0)
  {
    Product(m, high);
    RoundIsNearest(m * high, low);
    Product(Round(m * high, low), low);
    RoundsBackIff(count, low, m * high, gap);
  }

  /** The numbers behind the next law; `r` is what the way down leaves over. */
  lemma {:induction false} LengthKeptIff(count: nat, low: nat, high: nat, r: nat)
    requires count > 0 && 0 < low < high && r == (count * low) % high
    ensures TargetCount(TargetCount(count, high, low), low, high) == count
            <==> 2 * r < low || 2 * (high - r) < low
                 || ((2 * r == low || 2 * (high - r) == low) && count % 2 == 0)
  {
    var m := Round(count * low, high);
    WayDown(count, low, high);
    Product(count, low);
    if m == 0 {
      FewBecomeMany(count, low, high);
      assert TargetCount(1, low, high) == Round(high, low);
    } else if 2 * r < high || (2 * r == high && m * high + r == count * low) {
      WayUp(count, low, high, m, r);
    } else {
      WayUp(count, low, high, m, high - r);
    }
  }

  /** Going down first keeps the length exactly when the rounding on the way down is worth less than
      half a sample on the way up, or exactly half of one and the number of samples is even. */
  lemma {:induction false} DownAndBackKeepsTheLengthIff(samples: seq<int>, low: nat, high: nat)
    requires samples != [] && 0 < low < high
    ensures var r := (|samples| * low) % high;
            |Resample(Resample(samples, high, low), low, high)| == |samples|
            <==> 2 * r < low || 2 * (high - r) < low
                 || ((2 * r == low || 2 * (high - r) == low) && |samples| % 2 == 0)
  {
    LengthKeptIff(|samples|, low, high, (|samples| * low) % high);
    assert |Resample(samples, high, low)| == TargetCount(|samples|, high, low);
  }

  /** Going down first loses samples: four become one, and one becomes three. */
  lemma {:induction false} DownAndBackMayNot()
    ensures |Resample(Resample([1, 2, 3, 4], 3, 1), 1, 3)| == 3
  {
  }

  // ----- values

  lemma {:induction false} TruncateBetween(p: int, q: nat, lo: int, hi: int)
    requires q > 0 && lo * q <= p <= hi * q
    ensures lo <= Truncate(p, q) <= hi
  {
    var v := Truncate(p, q);
    if p >= 0 {
      DivMod(p, q);
      if v < lo {
        Distribute(v, lo - v, q);
        Product(lo - v, q);
        ProductOrder(v + 1, lo, q);
        Distribute(v, 1, q);
      }
      if v > hi {
        ProductOrder(hi, v, q);
      }
    } else {
      DivMod(-p, q);
      var u := (-p) / q;
      assert v * q == -(u * q);
      if v < lo {
        ProductOrder(v, lo, q);
      }
      if v > hi {
        ProductOrder(hi + 1, v, q);
        Distribute(hi, 1, q);
      }
    }
  }

  function Min(a: int, b: int): int { if a < b then a else b }

  function Max(a: int, b: int): int { if a < b then b else a }

  /** A weighted mean of two values lies between them. */
  lemma {:induction false} MeanBetween(a: int, b: int, rest: nat, q: nat)
    requires 0 < rest < q
    ensures Min(a, b) * q <= a * q + rest * (b - a) <= Max(a, b) * q
  {
    if a <= b {
      Monotone(rest, q, b - a);
      Monotone(0, rest, b - a);
      assert q * (b - a) == b * q - a * q;
    } else {
      Monotone(rest, q, a - b);
      Monotone(0, rest, a - b);
      assert q * (a - b) == a * q - b * q;
      assert rest * (b - a) == -(rest * (a - b));
    }
  }

  /** Every output sample lies between the two input samples around its position. */
  lemma {:induction false} OutputIsBetween(samples: seq<int>, target: nat, i: nat)
    requires samples != [] && i < target
    ensures var p, q := Position(|samples|, target, i), Spacing(target);
            var k := p / q;
            var v := Interpolate(samples, target, i);
            && k < |samples|
            && (p % q == 0 ==> v == samples[k])
            && (p % q != 0 ==> k + 1 < |samples|
                               && Min(samples[k], samples[k + 1]) <= v <= Max(samples[k], samples[k + 1]))
  {
    var p, q := Position(|samples|, target, i), Spacing(target);
    PositionInRange(|samples|, target, i);
    var k, rest := p / q, p % q;
    if rest != 0 {
      var a, b := samples[k], samples[k + 1];
      MeanBetween(a, b, rest, q);
      TruncateBetween(a * q + rest * (b - a), q, Min(a, b), Max(a, b));
    }
  }

  lemma {:induction false} TruncateExact(a: int, q: nat)
    requires q > 0
    ensures Truncate(a * q, q) == a
  {
    if a >= 0 {
      Exact(a, q);
    } else {
      Exact(-a, q);
      assert -(a * q) == (-a) * q;
      Product(a, q);
    }
  }

  lemma {:induction false} OnTheLine(a: int, b: int, k: nat, rest: nat, q: nat, p: nat)
    requires p == k * q + rest
    ensures (a + b * k) * q + rest * b == a * q + b * p
  {
    Distribute(a, b * k, q);
    assert (b * k) * q == b * (k * q);
    Distribute(k * q, rest, b);
  }

  /** Interpolation is linear: samples on a straight line give the same line at the new positions,
      with only the fraction dropped. */
  lemma {:induction false} LineStaysALine(samples: seq<int>, target: nat, i: nat, a: int, b: int)
    requires samples != [] && i < target
    requires forall j :: 0 <= j < |samples| ==> samples[j] == a + b * j
    ensures var p, q := Position(|samples|, target, i), Spacing(target);
            Interpolate(samples, target, i) == Truncate(a * q + b * p, q)
  {
    var p, q := Position(|samples|, target, i), Spacing(target);
    PositionInRange(|samples|, target, i);
    var k, rest := p / q, p % q;
    DivMod(p, q);
    OnTheLine(a, b, k, rest, q, p);
    if rest == 0 {
      TruncateExact(samples[k], q);
    } else {
      assert samples[k + 1] - samples[k] == b by { Distribute(k, 1, b); }
      assert samples[k] == a + b * k;
    }
  }

  lemma {:induction false} Weights(a: int, b: int, rest: int, q: int)
    ensures a * q + rest * (b - a) == a * (q - rest) + b * rest
  {
  }

  /** Dropping the fraction: the sign stays, and the magnitude is the whole part. */
  lemma {:induction false} TruncatesTowardsZero(p: int, q: nat)
    requires q > 0
    ensures var v := Truncate(p, q);
            if p >= 0 then 0 <= v && v * q <= p < v * q + q else v <= 0 && v * q - q < p <= v * q
  {
    if p >= 0 {
      DivMod(p, q);
    } else {
      DivMod(-p, q);
      assert Truncate(p, q) * q == -(((-p) / q) * q);
    }
  }

  /** The input sample `k` when there is no rest, and otherwise the mean of that and the next, weighted by
      nearness, fraction dropped. */
  ghost predicate IsMean(value: int, samples: seq<int>, k: int, rest: int, q: nat)
    requires q > 0
  {
    && 0 <= k < |samples|
    && (rest == 0 ==> value == samples[k])
    && (rest != 0 ==> k + 1 < |samples| && value == Truncate(samples[k] * (q - rest) + samples[k + 1] * rest, q))
  }

  /** A value read at `i * (count - 1) / (target - 1)`. */
  ghost predicate IsRead(value: int, samples: seq<int>, target: nat, i: nat) {
    if target <= 1 then samples != [] && value == samples[0]
    else
      var at, q := i * (|samples| - 1), target - 1;
      IsMean(value, samples, at / q, at % q, q)
  }

  lemma {:induction false} MeanIs(samples: seq<int>, k: nat, rest: nat, q: nat)
    requires q > 0 && k < |samples| && (rest != 0 ==> k + 1 < |samples|)
    ensures var value := if rest == 0 then samples[k]
                         else Truncate(samples[k] * q + rest * (samples[k + 1] - samples[k]), q);
            IsMean(value, samples, k, rest, q)
  {
    if rest != 0 {
      Weights(samples[k], samples[k + 1], rest, q);
    }
  }

  lemma {:induction false} InterpolationIs(samples: seq<int>, target: nat, i: nat)
    requires samples != [] && i < target
    ensures IsRead(Interpolate(samples, target, i), samples, target, i)
  {
    PositionInRange(|samples|, target, i);
    if target > 1 {
      var at, q := i * (|samples| - 1), target - 1;
      MeanIs(samples, at / q, at % q, q);
    }
  }

  /** Every output sample is read off the straight lines between the input samples, at evenly spaced places. */
  lemma {:induction false} OutputIs(samples: seq<int>, fromRate: nat, toRate: nat, i: nat)
    requires fromRate > 0 && toRate > 0 && fromRate != toRate && samples != []
    requires i < |Resample(samples, fromRate, toRate)|
    ensures var output := Resample(samples, fromRate, toRate);
            IsRead(output[i], samples, |output|, i)
  {
    InterpolationIs(samples, |Resample(samples, fromRate, toRate)|, i);
  }

  ghost predicate InRange(samples: seq<int>) {
    forall i :: 0 <= i < |samples| ==> MIN_SAMPLE <= samples[i] <= MAX_SAMPLE
  }

  lemma {:induction false} OutputInRange(samples: seq<int>, target: nat, i: nat)
    requires samples != [] && i < target && InRange(samples)
    ensures MIN_SAMPLE <= Interpolate(samples, target, i) <= MAX_SAMPLE
  {
    OutputIsBetween(samples, target, i);
  }

  lemma {:induction false} EndsAreKept(samples: seq<int>, target: nat)
    requires samples != [] && target > 0
    ensures Interpolate(samples, target, 0) == samples[0]
    ensures target > 1 ==> Interpolate(samples, target, target - 1) == samples[|samples| - 1]
  {
    PositionInRange(|samples|, target, 0);
    PositionInRange(|samples|, target, target - 1);
  }

  /** The conversion to 16 bits never overflows, and the first and last samples are kept. */
  lemma {:induction false} OutputFits(samples: seq<int>, fromRate: nat, toRate: nat)
    requires fromRate > 0 && toRate > 0 && InRange(samples)
    ensures InRange(Resample(samples, fromRate, toRate))
    ensures samples != [] ==> var out := Resample(samples, fromRate, toRate);
                              && out != [] && out[0] == samples[0]
                              && (|out| > 1 ==> out[|out| - 1] == samples[|samples| - 1])
  {
    if fromRate != toRate && samples != [] {
      var target := TargetCount(|samples|, fromRate, toRate);
      forall i | 0 <= i < target
        ensures MIN_SAMPLE <= Interpolate(samples, target, i) <= MAX_SAMPLE
      {
        OutputInRange(samples, target, i);
      }
      EndsAreKept(samples, target);
    }
  }
}
