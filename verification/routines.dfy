/** The two small routines of win32_main.cpp written in a weakest-precondition style: `narrowMult`, whose
    argument range keeps `i * 7` inside 32-bit `int`, and `fillReverse`, which fills an array from the top
    down. */
module Routines {
  import opened CTypes

  /** C's `/`: the quotient of the magnitudes, negated when the signs differ, so it is truncated toward zero. */
  function CDiv(a: int, b: int): int
    requires b != 0
  {
    var m := Magnitude(a) / Magnitude(b);
    if (a < 0) == (b < 0) then m else -m
  }

  /** C's `/` truncates: the remainder left by the quotient is smaller than the divisor and takes the sign of
      the dividend. */
  lemma CDivTruncates(a: int, b: int)
    requires b != 0
    ensures a >= 0 ==> 0 <= a - CDiv(a, b) * b < Magnitude(b)
    ensures a < 0 ==> -Magnitude(b) < a - CDiv(a, b) * b <= 0
  {
    var m := Magnitude(a) / Magnitude(b);
    var r := Magnitude(a) % Magnitude(b);
    assert Magnitude(a) == m * Magnitude(b) + r && 0 <= r < Magnitude(b);
    if b < 0 {
      assert (-m) * b == m * Magnitude(b);
      assert m * b == -(m * Magnitude(b));
    }
  }

  /** `narrowMult(i)`: `(i * 7) / 7` under the asserted range, in which the product does not overflow and the
      division undoes it. */
  function NarrowMult(i: int): (r: int)
    requires CDiv(IntMin, 7) <= i <= CDiv(IntMax, 7)
    ensures IsInt32(i * 7)
    ensures r == i
  {
    CDiv(i * 7, 7)
  }

  /** The two bounds are the 32-bit quotients `INT_MIN / 7` and `INT_MAX / 7`. */
  lemma NarrowMultBounds()
    ensures CDiv(IntMin, 7) == -306783378 && CDiv(IntMax, 7) == 306783378
  {
  }

  /** The range is the widest that works: one step beyond either bound the product overflows. */
  lemma NarrowMultRangeIsTight(i: int)
    requires i == CDiv(IntMin, 7) - 1 || i == CDiv(IntMax, 7) + 1
    ensures !IsInt32(i * 7)
  {
    NarrowMultBounds();
  }

  /** Dafny's Euclidean `/` rounds `INT_MIN / 7` down rather than toward zero; with that lower bound the
      range would admit an argument whose product overflows. */
  lemma EuclideanBoundAdmitsOverflow(i: int)
    requires i == IntMin / 7
    ensures i == CDiv(IntMin, 7) - 1 && !IsInt32(i * 7)
  {
    NarrowMultBounds();
  }

  /** `fillReverse(arr, size)`: for i from size down to 1, `arr[i - 1] = i`. Afterwards the first size
      elements are 1, 2, ..., size, so they ascend strictly, and nothing past them is touched. */
  method FillReverse(arr: seq<nat>, size: nat) returns (filled: seq<nat>)
    requires size <= |arr| && size < SizeModulus
    ensures |filled| == |arr|
    ensures forall k | 0 <= k < size :: filled[k] == k + 1
    ensures forall k | size <= k < |arr| :: filled[k] == arr[k]
    ensures forall j, k | 0 <= j < k < size :: filled[j] < filled[k]
  {
    filled := arr;
    var i := size;
    while i != 0
      invariant 0 <= i <= size && |filled| == |arr|
      invariant forall k | i <= k < size :: filled[k] == k + 1
      invariant forall k | 0 <= k < i || size <= k < |arr| :: filled[k] == arr[k]
    {
      filled := filled[i - 1 := i];
      i := i - 1;
    }
  }
}
