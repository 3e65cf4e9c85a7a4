/**
 * The loudness estimator of the recording loop (`calculateVolume`).
 *
 * Audio is 16-bit signed little-endian mono PCM held in a Java `byte[]`.
 * The estimator looks at every fourth sample only (a stride of 8 bytes),
 * rebuilds each inspected sample from its two bytes, and returns the sum of
 * their magnitudes divided by `length / 8.0`. The result is modelled as an
 * exact `real` rather than an IEEE double.
 */
module Volume {

  /** A Java `byte`: a signed 8-bit value. */
  type JByte = b: int | -128 <= b < 128

  /** The stride, in bytes, between two inspected samples: every fourth 2-byte sample. */
  const STRIDE: nat := 8

  /**
   * Java's narrowing cast `(short)`: keep the low 16 bits, read as two's
   * complement. A value already in the short range is kept as it is.
   */
  function ToShort(x: int): (r: int)
    ensures -32768 <= r < 32768
    ensures -32768 <= x < 32768 ==> r == x
  {
    if -32768 <= x < 32768 then x else (x + 32768) % 65536 - 32768
  }

  /** The cast keeps the value modulo 2^16. */
  lemma ToShortWraps(x: int)
    ensures (x - ToShort(x)) % 65536 == 0
  {
  }

  /** `b & 0xFF`: the byte read as unsigned. */
  function Unsigned(b: JByte): (r: int)
    ensures 0 <= r < 256
  {
    if b < 0 then b + 256 else b
  }

  /** `& 0xFF` keeps the low eight bits of the two's-complement byte. */
  lemma UnsignedIsLowByte(b: JByte)
    ensures Unsigned(b) % 256 == b % 256
  {
  }

  /**
   * `(short)((hi << 8) | (lo & 0xFF))`: `hi << 8` is the sign-extended high
   * byte with a zero low byte, so the `|` with the unsigned low byte is
   * their sum.
   */
  function Sample(lo: JByte, hi: JByte): (r: int)
    ensures -32768 <= r < 32768
  {
    ToShort(hi * 256 + Unsigned(lo))
  }

  /** `Math.abs` of a sample, taken on `int` so that -32768 does not overflow. */
  function Magnitude(lo: JByte, hi: JByte): (r: nat)
    ensures r <= 32768
  {
    var s := Sample(lo, hi);
    if s < 0 then -s else s
  }

  /** The little-endian byte pair (low byte, high byte) that stores a 16-bit sample. */
  function Encode(s: int): (pair: (JByte, JByte))
    requires -32768 <= s < 32768
  {
    var lo := s % 256;
    (if lo >= 128 then lo - 256 else lo, s / 256)
  }

  /** Rebuilding a sample from its stored bytes gives the sample back. */
  lemma SampleOfEncode(s: int)
    requires -32768 <= s < 32768
    ensures Sample(Encode(s).0, Encode(s).1) == s
  {
  }

  /** Every byte pair is the encoding of the sample it decodes to. */
  lemma EncodeOfSample(lo: JByte, hi: JByte)
    ensures Encode(Sample(lo, hi)) == (lo, hi)
  {
  }

  /**
   * The inspected offsets 0, 8, 16, ... below `length` read `a[i]` and
   * `a[i + 1]`; they all stay inside an array of `n` bytes exactly when
   * `length <= n` and, if the last inspected offset is `length - 1`, one
   * byte past `length` still exists.
   */
  predicate ReadsInBounds(n: int, length: int)
  {
    0 <= length <= n && (length % STRIDE == 1 ==> length < n)
  }

  /** Every inspected offset `i` has `i + 1` inside the array. */
  lemma InspectedPairInBounds(n: int, length: int, i: int)
    requires ReadsInBounds(n, length)
    requires 0 <= i < length && i % STRIDE == 0
    ensures i + 1 < n
  {
  }

  /** Sum of the magnitudes of the samples at offsets `i`, `i + STRIDE`, ... below `length`. */
  function StrideSum(a: seq<JByte>, i: nat, length: nat): nat
    requires ReadsInBounds(|a|, length) && i % STRIDE == 0
    decreases length - i
  {
    if i >= length then 0
    else
      InspectedPairInBounds(|a|, length, i);
      Magnitude(a[i], a[i + 1]) + StrideSum(a, i + STRIDE, length)
  }

  /** One step of the strided sum: the sample at `i` plus the rest from `i + STRIDE`. */
  lemma StrideSumStep(a: seq<JByte>, i: nat, length: nat)
    requires ReadsInBounds(|a|, length) && i % STRIDE == 0 && i < length
    ensures i + 1 < |a| && (i + STRIDE) % STRIDE == 0
    ensures StrideSum(a, i, length) == Magnitude(a[i], a[i + 1]) + StrideSum(a, i + STRIDE, length)
  {
    InspectedPairInBounds(|a|, length, i);
  }

  /** The number of samples inspected below `length`. */
  function Inspected(length: nat): nat
  {
    (length + STRIDE - 1) / STRIDE
  }

  /** `8 * sum / length`: the source's `sum / (length / 8.0)` in exact arithmetic. */
  function Ratio(sum: nat, length: nat): real
    requires 0 < length
  {
    ((8 * sum) as real) / (length as real)
  }

  /** The source's way of dividing, `sum / (length / 8.0)`, is the same number. */
  lemma JavaQuotient(sum: nat, length: nat)
    requires 0 < length
    ensures (sum as real) / ((length as real) / 8.0) == Ratio(sum, length)
  {
    var d := (length as real) / 8.0;
    var q := (sum as real) / d;
    assert q * d == sum as real;
    assert q * (length as real) == 8.0 * (sum as real);
  }

  /** `Ratio` is never negative, is 0 for a zero sum, and scaled back by `length` gives eight times `sum`. */
  lemma RatioFacts(sum: nat, length: nat)
    requires 0 < length
    ensures Ratio(sum, length) >= 0.0
    ensures Ratio(sum, length) * (length as real) == 8.0 * (sum as real)
    ensures sum == 0 ==> Ratio(sum, length) == 0.0
  {
  }

  /** For a window of whole strides, `Ratio` divides the sum by the number of strides. */
  lemma RatioAligned(sum: nat, length: nat)
    requires 0 < length && length % STRIDE == 0
    ensures Ratio(sum, length) == (sum as real) / ((length / STRIDE) as real)
  {
  }

  /** The volume of the first `length` bytes of `a`. */
  function Mav(a: seq<JByte>, length: nat): real
    requires 0 < length && ReadsInBounds(|a|, length)
  {
    Ratio(StrideSum(a, 0, length), length)
  }

  /** The volume is never negative. */
  lemma {:induction false} MavNonNegative(a: seq<JByte>, length: nat)
    requires 0 < length && ReadsInBounds(|a|, length)
    ensures Mav(a, length) >= 0.0
  {
    RatioFacts(StrideSum(a, 0, length), length);
  }

  /** No inspected sample contributes more than 32768. */
  lemma {:induction false} StrideSumBound(a: seq<JByte>, i: nat, length: nat)
    requires ReadsInBounds(|a|, length) && i % STRIDE == 0
    ensures i <= length ==> StrideSum(a, i, length) <= 32768 * Inspected(length - i)
    ensures i >= length ==> StrideSum(a, i, length) == 0
    decreases length - i
  {
    if i < length {
      StrideSumBound(a, i + STRIDE, length);
      if i + STRIDE <= length {
        assert Inspected(length - i) == Inspected(length - (i + STRIDE)) + 1;
      } else {
        assert Inspected(length - i) == 1;
      }
    }
  }

  /** A window of silence (all bytes zero) has volume 0. */
  lemma {:induction false} StrideSumOfSilence(a: seq<JByte>, i: nat, length: nat)
    requires ReadsInBounds(|a|, length) && i % STRIDE == 0
    requires forall k :: 0 <= k < |a| ==> a[k] == 0
    ensures StrideSum(a, i, length) == 0
    decreases length - i
  {
    if i < length {
      StrideSumOfSilence(a, i + STRIDE, length);
    }
  }

  lemma {:induction false} MavOfSilence(a: seq<JByte>, length: nat)
    requires 0 < length && ReadsInBounds(|a|, length)
    requires forall k :: 0 <= k < |a| ==> a[k] == 0
    ensures Mav(a, length) == 0.0
  {
    StrideSumOfSilence(a, 0, length);
    RatioFacts(0, length);
  }

  /**
   * When the window is a whole number of strides, the volume is the
   * arithmetic mean of the inspected magnitudes, and so at most 32768.
   */
  lemma {:induction false} MavIsMeanWhenAligned(a: seq<JByte>, length: nat)
    requires 0 < length && ReadsInBounds(|a|, length) && length % STRIDE == 0
    ensures Inspected(length) == length / STRIDE
    ensures Mav(a, length) == (StrideSum(a, 0, length) as real) / (Inspected(length) as real)
    ensures Mav(a, length) <= 32768.0
  {
    var sum := StrideSum(a, 0, length);
    StrideSumBound(a, 0, length);
    RatioAligned(sum, length);
    MeanBound(sum, Inspected(length));
  }

  /** A sum of `n` magnitudes, each at most 32768, has a mean of at most 32768. */
  lemma MeanBound(sum: nat, n: nat)
    requires 0 < n && sum <= 32768 * n
    ensures (sum as real) / (n as real) <= 32768.0
  {
  }

  /**
   * When the window is not a whole number of strides the source's divisor
   * `length / 8.0` is smaller than the number of inspected samples: a
   * two-byte window holding the sample 100 reads as volume 400.
   */
  lemma MavOfShortWindow()
    ensures Inspected(2) == 1
    ensures StrideSum([100, 0], 0, 2) == 100
    ensures Mav([100, 0], 2) == 400.0
  {
    assert StrideSum([100, 0], STRIDE, 2) == 0;
    assert Magnitude(100, 0) == 100;
    RatioFacts(100, 2);
  }

  /**
   * For a length that is not a whole number of strides, eight times the
   * number of inspected samples exceeds `length`, so the source's quotient
   * exceeds the mean of a positive sum.
   */
  lemma RatioExceedsMean(sum: nat, length: nat)
    requires 0 < length && length % STRIDE != 0 && 0 < sum
    ensures Ratio(sum, length) > (sum as real) / (Inspected(length) as real)
  {
    var n := Inspected(length);
    assert STRIDE * n > length;
    var s, l, m := sum as real, length as real, n as real;
    ScaleQuotient(s, m);
    SmallerDivisor(8.0 * s, l, 8.0 * m);
  }

  /** Scaling numerator and denominator by eight keeps a quotient. */
  lemma ScaleQuotient(s: real, m: real)
    requires m > 0.0
    ensures s / m == (8.0 * s) / (8.0 * m)
  {
  }

  /** A positive number divided by a smaller positive divisor gives a larger quotient. */
  lemma SmallerDivisor(a: real, p: real, q: real)
    requires a > 0.0 && 0.0 < p < q
    ensures a / p > a / q
  {
  }

  /**
   * For a window that is not a whole number of strides the volume is at
   * least the mean of the inspected magnitudes, and equal to it exactly when
   * their sum is 0: any other such window reads louder than its mean.
   */
  lemma {:induction false} MavExceedsMeanWhenUnaligned(a: seq<JByte>, length: nat)
    requires 0 < length && ReadsInBounds(|a|, length) && length % STRIDE != 0
    ensures Mav(a, length) >= (StrideSum(a, 0, length) as real) / (Inspected(length) as real)
    ensures Mav(a, length) == (StrideSum(a, 0, length) as real) / (Inspected(length) as real)
            <==> StrideSum(a, 0, length) == 0
  {
    RatioVersusMean(StrideSum(a, 0, length), length);
  }

  /** `MavExceedsMeanWhenUnaligned` for a given sum. */
  lemma RatioVersusMean(sum: nat, length: nat)
    requires 0 < length && length % STRIDE != 0
    ensures Ratio(sum, length) >= (sum as real) / (Inspected(length) as real)
    ensures Ratio(sum, length) == (sum as real) / (Inspected(length) as real) <==> sum == 0
  {
    if sum == 0 {
      RatioFacts(sum, length);
    } else {
      RatioExceedsMean(sum, length);
    }
  }

  /**
   * An unaligned window can read louder than any 16-bit sample: a two-byte
   * window holding -32768 reads as volume 131072.
   */
  lemma MavCanExceedShortRange()
    ensures Mav([0, -128], 2) == 131072.0 && Mav([0, -128], 2) > 32768.0
  {
    assert StrideSum([0, -128], STRIDE, 2) == 0;
    assert Sample(0, -128) == -32768;
    assert Magnitude(0, -128) == 32768;
    RatioFacts(32768, 2);
  }

  /**
   * The loop of `calculateVolume` over the device buffer: it sums the
   * magnitudes of the inspected samples and divides by `length / 8.0`.
   */
  method CalculateVolume(audioData: array<JByte>, length: int) returns (v: real)
    requires 0 < length && ReadsInBounds(audioData.Length, length)
    ensures v == Mav(audioData[..], length)
  {
    ghost var a := audioData[..];
    var sum: nat := 0;
    var i := 0;
    while i < length
      invariant 0 <= i && i % STRIDE == 0
      invariant i < length + STRIDE
      invariant sum + StrideSum(a, i, length) == StrideSum(a, 0, length)
      decreases length - i
    {
      StrideSumStep(a, i, length);
      var lo := Unsigned(audioData[i]);
      var hi := (audioData[i + 1] as int) * 256;
      var s := ToShort(hi + lo);
      assert (if s < 0 then -s else s) == Magnitude(a[i], a[i + 1]);
      sum := sum + (if s < 0 then -s else s);
      i := i + STRIDE;
    }
    assert sum == StrideSum(a, 0, length);
    v := (sum as real) / ((length as real) / 8.0);
    JavaQuotient(sum, length);
  }
}
