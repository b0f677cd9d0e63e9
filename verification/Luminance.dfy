/** Gallery::get_avg_luminance: the average brightness of an image, estimated on
    a grid of samples. The decoded PNG is a two-dimensional array of GD pixel
    values indexed [x, y]; PHP's float arithmetic is replaced by exact reals. */
module Luminance {

  // ---------------------------------------------------------------------------
  // Pixels

  /** `($rgb >> 16) & 0xFF`. With a power-of-two divisor, Euclidean `/` is the
      arithmetic right shift and `% 0x100` the low-byte mask, for every integer. */
  function Red(rgb: int): (r: int)
    ensures 0 <= r <= 255
  {
    (rgb / 0x1_0000) % 0x100
  }

  /** `($rgb >> 8) & 0xFF`. */
  function Green(rgb: int): (g: int)
    ensures 0 <= g <= 255
  {
    (rgb / 0x100) % 0x100
  }

  /** `$rgb & 0xFF`. */
  function Blue(rgb: int): (b: int)
    ensures 0 <= b <= 255
  {
    rgb % 0x100
  }

  /** Six times a sample's luminance: `r + r + b + g + g + g`. */
  function LumNumerator(rgb: int): (n: int)
    ensures 0 <= n <= 1530
    ensures n == 1530 <==> Red(rgb) == 255 && Green(rgb) == 255 && Blue(rgb) == 255
    ensures n == 0 <==> Red(rgb) == 0 && Green(rgb) == 0 && Blue(rgb) == 0
  {
    2 * Red(rgb) + 3 * Green(rgb) + Blue(rgb)
  }

  /** Unpacking inverts GD's packing of a truecolor pixel (alpha in bits 24-30). */
  lemma ChannelsOfPacked(alpha: int, r: int, g: int, b: int)
    requires 0 <= alpha < 128 && 0 <= r < 256 && 0 <= g < 256 && 0 <= b < 256
    ensures var rgb := alpha * 0x100_0000 + r * 0x1_0000 + g * 0x100 + b;
      Red(rgb) == r && Green(rgb) == g && Blue(rgb) == b
  {
    var rgb := alpha * 0x100_0000 + r * 0x1_0000 + g * 0x100 + b;
    assert rgb / 0x1_0000 == alpha * 0x100 + r;
    assert rgb / 0x100 == alpha * 0x1_0000 + r * 0x100 + g;
  }

  // ---------------------------------------------------------------------------
  // The sampling grid

  /** `intval($size / $num_samples)`: the quotient truncated toward zero. */
  function Step(size: nat, numSamples: int): (s: int)
    requires numSamples != 0
    ensures s > 0 <==> numSamples > 0 && size >= numSamples
    ensures numSamples > 0 ==> s * numSamples <= size < (s + 1) * numSamples
  {
    if numSamples > 0 then size / numSamples else -(size / -numSamples)
  }

  /** Both `for` loops end: the outer one when it runs at all has a positive
      step, and so does the inner one when it runs at all. */
  predicate Terminates(width: nat, height: nat, xStep: int, yStep: int) {
    (width > 0 ==> xStep > 0) && (width > 0 && height > 0 ==> yStep > 0)
  }

  /** How many of start, start + step, start + 2 * step, ... lie below n. */
  function CountFrom(n: nat, start: nat, step: int): (c: nat)
    requires start < n ==> step > 0
    ensures c == 0 <==> start >= n
    decreases n - start
  {
    if start >= n then 0 else 1 + CountFrom(n, start + step, step)
  }

  /** A stride from `start` with a positive step takes ceil((n - start) / step)
      samples below n. */
  lemma {:induction false} CountFromClosedForm(n: nat, start: nat, step: int)
    requires step > 0 && start <= n
    ensures CountFrom(n, start, step) == (n - start + step - 1) / step
    decreases n - start
  {
    if start == n {
      DivBetween(step - 1, step, 0);
    } else if start + step >= n {
      DivBetween(n - start + step - 1, step, 1);
    } else {
      CountFromClosedForm(n, start + step, step);
      var m := n - start - 1;
      var q := m / step;
      assert q == (n - (start + step) + step - 1) / step;
      assert q * step <= m < (q + 1) * step;
      assert (q + 1) * step == q * step + step && (q + 2) * step == (q + 1) * step + step;
      DivBetween(m + step, step, q + 1);
    }
  }

  /** Each loop takes `$num_samples` samples in its direction only when that
      number divides the size; otherwise it takes more. */
  lemma SamplesPerDirection(size: nat, numSamples: int)
    requires numSamples != 0
    ensures var step := Step(size, numSamples);
      step > 0 ==>
        && CountFrom(size, 0, step) >= numSamples
        && (CountFrom(size, 0, step) == numSamples <==> size % numSamples == 0)
  {
    var step := Step(size, numSamples);
    if step > 0 {
      var n := numSamples;
      assert step == size / n;
      CountFromClosedForm(size, 0, step);
      var a := size + step - 1;
      var c := CountFrom(size, 0, step);
      assert c == a / step;
      assert a < (c + 1) * step;
      assert size == step * n + size % n;
      // at least n samples: n * step <= size <= a < (c + 1) * step
      MulCancelStrict(n, c + 1, step);
      if size % n == 0 {
        DivBetween(a, step, n);
      } else {
        // size >= n * step + 1, so a >= (n + 1) * step
        assert (n + 1) * step == n * step + step;
        MulCancelStrict(n + 1, c + 1, step);
      }
    }
  }

  /** A 19-pixel side with 10 samples asked for: the step is 1 and the loop
      takes 19 samples in that direction. */
  lemma NineteenPixelsTenSamples()
    ensures Step(19, 10) == 1 && CountFrom(19, 0, Step(19, 10)) == 19
  {
    CountFromClosedForm(19, 0, 1);
  }

  /** The quotient of `a` by `d` is the `q` whose multiples bracket `a`. */
  lemma DivBetween(a: int, d: int, q: int)
    requires d > 0 && q * d <= a < (q + 1) * d
    ensures a / d == q
  {
    var r := a / d;
    assert r * d <= a < r * d + d;
    if r > q {
      MulMonotone(q + 1, r, d);
      assert false;
    } else if r < q {
      MulMonotone(r + 1, q, d);
      assert false;
    }
  }

  lemma MulMonotone(a: int, b: int, d: int)
    requires a <= b && d >= 0
    ensures a * d <= b * d
  {
  }

  lemma MulCancelStrict(a: int, b: int, d: int)
    requires d > 0 && a * d < b * d
    ensures a < b
  {
    if a >= b {
      MulMonotone(b, a, d);
      assert false;
    }
  }

  /** Sum of the numerators sampled in column x, from row y on. */
  function ColumnSum(img: array2<int>, x: nat, y: nat, yStep: int): (s: int)
    requires x < img.Length0
    requires y < img.Length1 ==> yStep > 0
    reads img
    ensures 0 <= s <= 1530 * CountFrom(img.Length1, y, yStep)
    decreases img.Length1 - y
  {
    if y >= img.Length1 then 0 else LumNumerator(img[x, y]) + ColumnSum(img, x, y + yStep, yStep)
  }

  /** Sum of the numerators sampled in the columns from x on. */
  function GridSum(img: array2<int>, x: nat, xStep: int, yStep: int): (s: int)
    requires Terminates(img.Length0, img.Length1, xStep, yStep)
    reads img
    ensures 0 <= s <= 1530 * GridCount(img.Length0, img.Length1, x, xStep, yStep)
    decreases img.Length0 - x
  {
    if x >= img.Length0 then 0 else ColumnSum(img, x, 0, yStep) + GridSum(img, x + xStep, xStep, yStep)
  }

  /** Number of samples taken in the columns from x on. */
  function GridCount(width: nat, height: nat, x: nat, xStep: int, yStep: int): nat
    requires Terminates(width, height, xStep, yStep)
    decreases width - x
  {
    if x >= width then 0 else CountFrom(height, 0, yStep) + GridCount(width, height, x + xStep, xStep, yStep)
  }

  /** The grid has one sample per (column, row) pair of the two strides. */
  lemma {:induction false} GridCountIsProduct(width: nat, height: nat, x: nat, xStep: int, yStep: int)
    requires Terminates(width, height, xStep, yStep)
    ensures width > 0 ==>
      GridCount(width, height, x, xStep, yStep) == CountFrom(width, x, xStep) * CountFrom(height, 0, yStep)
    decreases width - x
  {
    if x < width {
      GridCountIsProduct(width, height, x + xStep, xStep, yStep);
    }
  }

  /** The number of samples the two loops take: one per column stride times one
      per row stride. */
  function SampleCount(width: nat, height: nat, xStep: int, yStep: int): nat
    requires Terminates(width, height, xStep, yStep)
  {
    if width == 0 then 0 else CountFrom(width, 0, xStep) * CountFrom(height, 0, yStep)
  }

  lemma SampleCountIsGridCount(width: nat, height: nat, xStep: int, yStep: int)
    requires Terminates(width, height, xStep, yStep)
    ensures SampleCount(width, height, xStep, yStep) == GridCount(width, height, 0, xStep, yStep)
  {
    GridCountIsProduct(width, height, 0, xStep, yStep);
  }

  // ---------------------------------------------------------------------------
  // The averages

  /** `$total_lum / $sample_no` when the counter started at 1: the sum of
      `count` luminances (given as six times their value) divided by `count + 1`. */
  function CounterAverage(sum: int, count: nat): (avg: real)
    requires 0 <= sum <= 1530 * count
    ensures 0.0 <= avg < 255.0
    ensures avg == (sum as real / 6.0) / (count + 1) as real
    ensures avg * (count + 1) as real == sum as real / 6.0
  {
    var total, d := sum as real / 6.0, (count + 1) as real;
    assert total <= 255.0 * count as real;
    QuotientBelow(total, d, 255.0);
    QuotientNonNegative(total, d);
    total / d
  }

  /** What get_avg_luminance returns, as written: the sum of the sampled
      luminances divided by the sample counter, which starts at 1 and so ends
      one above the number of samples. */
  function AsWrittenAverage(img: array2<int>, numSamples: int): (avg: real)
    requires numSamples != 0
    requires Terminates(img.Length0, img.Length1, Step(img.Length0, numSamples), Step(img.Length1, numSamples))
    reads img
    ensures 0.0 <= avg < 255.0
    ensures var xStep, yStep := Step(img.Length0, numSamples), Step(img.Length1, numSamples);
      avg == (GridSum(img, 0, xStep, yStep) as real / 6.0) / (SampleCount(img.Length0, img.Length1, xStep, yStep) + 1) as real
  {
    var xStep, yStep := Step(img.Length0, numSamples), Step(img.Length1, numSamples);
    SampleCountIsGridCount(img.Length0, img.Length1, xStep, yStep);
    CounterAverage(GridSum(img, 0, xStep, yStep), GridCount(img.Length0, img.Length1, 0, xStep, yStep))
  }

  /** The average get_avg_luminance evidently means to return: the sum of the
      sampled luminances divided by the number of samples. An image has at
      least one pixel, so at least one sample is taken. */
  function IntendedAverage(img: array2<int>, numSamples: int): (avg: real)
    requires numSamples != 0
    requires Terminates(img.Length0, img.Length1, Step(img.Length0, numSamples), Step(img.Length1, numSamples))
    requires img.Length0 > 0 && img.Length1 > 0
    reads img
    ensures 0.0 <= avg <= 255.0
    ensures var xStep, yStep := Step(img.Length0, numSamples), Step(img.Length1, numSamples);
      avg == (GridSum(img, 0, xStep, yStep) as real / 6.0) / SampleCount(img.Length0, img.Length1, xStep, yStep) as real
  {
    var xStep, yStep := Step(img.Length0, numSamples), Step(img.Length1, numSamples);
    SampleCountIsGridCount(img.Length0, img.Length1, xStep, yStep);
    var sum, count := GridSum(img, 0, xStep, yStep), GridCount(img.Length0, img.Length1, 0, xStep, yStep);
    var total, d := sum as real / 6.0, count as real;
    assert total <= 255.0 * d;
    QuotientAtMost(total, d, 255.0);
    QuotientNonNegative(total, d);
    total / d
  }

  /** In an image whose pixels all have the same luminance, every sampled sum is
      that luminance times the number of samples. */
  lemma {:induction false} UniformColumnSum(img: array2<int>, x: nat, y: nat, yStep: int, n: int)
    requires x < img.Length0
    requires y < img.Length1 ==> yStep > 0
    requires forall i, j :: 0 <= i < img.Length0 && 0 <= j < img.Length1 ==> LumNumerator(img[i, j]) == n
    ensures ColumnSum(img, x, y, yStep) == n * CountFrom(img.Length1, y, yStep)
    decreases img.Length1 - y
  {
    if y < img.Length1 {
      UniformColumnSum(img, x, y + yStep, yStep, n);
      var rest := CountFrom(img.Length1, y + yStep, yStep);
      MulDistributes(n, 1, rest);
    }
  }

  lemma {:induction false} UniformGridSum(img: array2<int>, x: nat, xStep: int, yStep: int, n: int)
    requires Terminates(img.Length0, img.Length1, xStep, yStep)
    requires forall i, j :: 0 <= i < img.Length0 && 0 <= j < img.Length1 ==> LumNumerator(img[i, j]) == n
    ensures GridSum(img, x, xStep, yStep) == n * GridCount(img.Length0, img.Length1, x, xStep, yStep)
    decreases img.Length0 - x
  {
    if x < img.Length0 {
      UniformColumnSum(img, x, 0, yStep, n);
      UniformGridSum(img, x + xStep, xStep, yStep, n);
      var column, rest := CountFrom(img.Length1, 0, yStep), GridCount(img.Length0, img.Length1, x + xStep, xStep, yStep);
      MulDistributes(n, column, rest);
    }
  }

  /** On an image of one uniform luminance the intended average is exactly that
      luminance, while the average as written is `samples / (samples + 1)` of it. */
  lemma UniformImageAverages(img: array2<int>, numSamples: int, n: int)
    requires numSamples != 0
    requires Terminates(img.Length0, img.Length1, Step(img.Length0, numSamples), Step(img.Length1, numSamples))
    requires img.Length0 > 0 && img.Length1 > 0
    requires forall i, j :: 0 <= i < img.Length0 && 0 <= j < img.Length1 ==> LumNumerator(img[i, j]) == n
    ensures IntendedAverage(img, numSamples) == n as real / 6.0
    ensures var c := SampleCount(img.Length0, img.Length1, Step(img.Length0, numSamples), Step(img.Length1, numSamples));
      AsWrittenAverage(img, numSamples) == (n * c) as real / (6 * (c + 1)) as real
  {
    var xStep, yStep := Step(img.Length0, numSamples), Step(img.Length1, numSamples);
    UniformGridSum(img, 0, xStep, yStep, n);
    SampleCountIsGridCount(img.Length0, img.Length1, xStep, yStep);
    var c := SampleCount(img.Length0, img.Length1, xStep, yStep);
    var sum := GridSum(img, 0, xStep, yStep);
    UniformQuotients(n, c, sum);
    var asWritten := AsWrittenAverage(img, numSamples);
    assert asWritten == (sum as real / 6.0) / (c + 1) as real;
  }

  lemma UniformQuotients(n: int, c: nat, sum: int)
    requires c > 0 && sum == n * c
    ensures (sum as real / 6.0) / c as real == n as real / 6.0
    ensures (sum as real / 6.0) / (c + 1) as real == (n * c) as real / (6 * (c + 1)) as real
  {
  }

  lemma MulDistributes(n: int, a: int, b: int)
    ensures n * (a + b) == n * a + n * b
  {
  }

  /** Unless every sample is black, the average as written is strictly below
      the intended one: the extra 1 in the divisor always lowers the result.
      When every sample is black both are 0. */
  lemma AsWrittenBelowIntended(img: array2<int>, numSamples: int)
    requires numSamples != 0
    requires Terminates(img.Length0, img.Length1, Step(img.Length0, numSamples), Step(img.Length1, numSamples))
    requires img.Length0 > 0 && img.Length1 > 0
    ensures var sum := GridSum(img, 0, Step(img.Length0, numSamples), Step(img.Length1, numSamples));
      && (sum > 0 ==> AsWrittenAverage(img, numSamples) < IntendedAverage(img, numSamples))
      && (sum == 0 ==> AsWrittenAverage(img, numSamples) == IntendedAverage(img, numSamples) == 0.0)
  {
    var xStep, yStep := Step(img.Length0, numSamples), Step(img.Length1, numSamples);
    SampleCountIsGridCount(img.Length0, img.Length1, xStep, yStep);
    var c := SampleCount(img.Length0, img.Length1, xStep, yStep);
    var sum := GridSum(img, 0, xStep, yStep);
    var total := sum as real / 6.0;
    assert AsWrittenAverage(img, numSamples) == total / (c + 1) as real;
    assert IntendedAverage(img, numSamples) == total / c as real;
    if sum > 0 {
      LargerDivisorSmallerQuotient(total, c as real, (c + 1) as real);
    } else if sum == 0 {
      assert total == 0.0;
    }
  }

  lemma LargerDivisorSmallerQuotient(a: real, d: real, e: real)
    requires a > 0.0 && 0.0 < d < e
    ensures a / e < a / d
  {
  }

  /** A single white pixel sampled once: the average as written is 127.5, half
      the pixel's luminance; the intended average is 255. */
  lemma WhitePixelCounterexample(img: array2<int>)
    requires img.Length0 == 1 && img.Length1 == 1 && img[0, 0] == 0xFF_FFFF
    ensures AsWrittenAverage(img, 1) == 127.5
    ensures IntendedAverage(img, 1) == 255.0
  {
  }

  lemma QuotientAtMost(a: real, d: real, b: real)
    requires d > 0.0 && a <= b * d
    ensures a / d <= b
  {
  }

  lemma QuotientNonNegative(a: real, d: real)
    requires a >= 0.0 && d > 0.0
    ensures a / d >= 0.0
  {
  }

  lemma QuotientBelow(a: real, d: real, b: real)
    requires d > 0.0 && a < b * d
    ensures a / d < b && (a / d) * d == a
  {
  }

  /** The outcome of a call: a value, PHP's DivisionByZeroError for zero
      samples, or a loop that never ends because a step is not positive. */
  datatype Sampling = Returns(value: real) | DivisionByZeroError | NeverReturns

  /** get_avg_luminance on a decoded image. */
  method GetAvgLuminance(img: array2<int>, numSamples: int) returns (out: Sampling)
    ensures out == DivisionByZeroError <==> numSamples == 0
    ensures out == NeverReturns <==>
      numSamples != 0 && !Terminates(img.Length0, img.Length1, Step(img.Length0, numSamples), Step(img.Length1, numSamples))
    ensures out.Returns? ==>
      && numSamples != 0
      && Terminates(img.Length0, img.Length1, Step(img.Length0, numSamples), Step(img.Length1, numSamples))
      && out.value == AsWrittenAverage(img, numSamples)
  {
    var width, height := img.Length0, img.Length1;
    if numSamples == 0 {
      return DivisionByZeroError;
    }
    var xStep := Step(width, numSamples);
    var yStep := Step(height, numSamples);
    if !Terminates(width, height, xStep, yStep) {
      return NeverReturns;
    }
    var totalLum := 0.0;
    var sampleNo := 1;
    var x := 0;
    while x < width
      invariant 0 <= x
      invariant totalLum == (GridSum(img, 0, xStep, yStep) - GridSum(img, x, xStep, yStep)) as real / 6.0
      invariant sampleNo == 1 + GridCount(width, height, 0, xStep, yStep) - GridCount(width, height, x, xStep, yStep)
      decreases width - x
    {
      var y := 0;
      while y < height
        invariant 0 <= y
        invariant totalLum == (GridSum(img, 0, xStep, yStep) - GridSum(img, x, xStep, yStep)
                               + ColumnSum(img, x, 0, yStep) - ColumnSum(img, x, y, yStep)) as real / 6.0
        invariant sampleNo == 1 + GridCount(width, height, 0, xStep, yStep) - GridCount(width, height, x, xStep, yStep)
                              + CountFrom(height, 0, yStep) - CountFrom(height, y, yStep)
        decreases height - y
      {
        var rgb := img[x, y];
        var r, g, b := Red(rgb), Green(rgb), Blue(rgb);
        var lum := (r + r + b + g + g + g) as real / 6.0;
        totalLum := totalLum + lum;
        sampleNo := sampleNo + 1;
        y := y + yStep;
      }
      x := x + xStep;
    }
    out := Returns(totalLum / sampleNo as real);
  }
}
