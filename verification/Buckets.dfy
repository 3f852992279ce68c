/** The log-linear bucket layout of worker/regulator_agent/histogram.py. */
module Buckets {
  import opened Wrappers

  const SUB_BITS: nat := 6
  const SUB: nat := 64

  function Pow2(n: nat): (r: nat)
    ensures r > 0
  {
    if n == 0 then 1 else 2 * Pow2(n - 1)
  }

  /** Python's int.bit_length. */
  function BitLength(v: nat): nat {
    if v == 0 then 0 else 1 + BitLength(v / 2)
  }

  lemma {:induction false} BitLengthBounds(v: nat)
    requires v > 0
    ensures BitLength(v) > 0
    ensures Pow2(BitLength(v) - 1) <= v < Pow2(BitLength(v))
  {
    if v > 1 {
      BitLengthBounds(v / 2);
    }
  }

  lemma {:induction false} Pow2Split(m: nat, n: nat)
    ensures Pow2(m + n) == Pow2(m) * Pow2(n)
  {
    if m > 0 {
      Pow2Split(m - 1, n);
      calc {
        Pow2(m + n);
        2 * (Pow2(m - 1) * Pow2(n));
        (2 * Pow2(m - 1)) * Pow2(n);
      }
    }
  }

  /** The exponent above the linear region; the source's right shift is a division by Pow2. */
  function Shift(v: nat): (s: nat)
    requires v >= SUB
    ensures SUB * Pow2(s) <= v < 2 * SUB * Pow2(s)
  {
    BitLengthBounds(v);
    ExponentAtLeastSix(v);
    var s := BitLength(v) - 1 - SUB_BITS;
    Pow2Split(SUB_BITS, s);
    Pow2Six();
    s
  }

  lemma Pow2Six()
    ensures Pow2(6) == 64
  {
    assert Pow2(3) == 8;
    Pow2Split(3, 3);
  }

  lemma ExponentAtLeastSix(v: nat)
    requires v >= SUB
    ensures BitLength(v) >= SUB_BITS + 1
  {
    BitLengthBounds(v);
    Pow2Six();
    if BitLength(v) <= SUB_BITS {
      Pow2Monotone(BitLength(v), SUB_BITS);
    }
  }

  lemma {:induction false} Pow2Monotone(m: nat, n: nat)
    requires m <= n
    ensures Pow2(m) <= Pow2(n)
  {
    if m < n {
      Pow2Monotone(m, n - 1);
    }
  }

  function IndexOf(v: nat): nat {
    if v < SUB then v
    else
      var shift := Shift(v);
      var mantissa := v / Pow2(shift);
      MantissaRange(v, Pow2(shift));
      SUB + shift * SUB + (mantissa - SUB)
  }

  lemma MantissaRange(v: nat, p: nat)
    requires p > 0 && SUB * p <= v < 2 * SUB * p
    ensures SUB <= v / p < 2 * SUB
    ensures (v / p) * p <= v < (v / p) * p + p
  {
    var q := v / p;
    assert v == q * p + v % p;
    if q < SUB {
      MulMono(q + 1, SUB, p);
    }
    if q >= 2 * SUB {
      MulMono(2 * SUB, q, p);
    }
  }

  lemma MulMono(a: nat, b: nat, c: nat)
    requires a <= b
    ensures a * c <= b * c
  {
    assert b * c == a * c + (b - a) * c;
  }

  /** bucket_index: refuses a negative value, otherwise the bucket that holds it. */
  function BucketIndex(value: int): (r: Result<nat, string>)
    ensures r.Ok? <==> value >= 0
    ensures r.Ok? ==> LowerBound(r.value) <= value < LowerBound(r.value) + Width(r.value)
  {
    if value < 0 then Err("a latency cannot be negative") else IndexCovers(value); Ok(IndexOf(value))
  }

  function LowerBound(index: nat): nat {
    if index < SUB then index
    else
      var offset := index - SUB;
      (SUB + offset % SUB) * Pow2(offset / SUB)
  }

  function Width(index: nat): (w: nat)
    ensures w > 0
  {
    if index < SUB then 1 else Pow2((index - SUB) / SUB)
  }

  function Midpoint(index: nat): real {
    LowerBound(index) as real + (Width(index) - 1) as real / 2.0
  }

  /** The buckets are laid end to end: each one stops where the next begins. */
  lemma BucketsTile(index: nat)
    ensures LowerBound(index) + Width(index) == LowerBound(index + 1)
  {
    if index >= SUB {
      var offset := index - SUB;
      var q, r := offset / SUB, offset % SUB;
      if r + 1 < SUB {
        assert (offset + 1) / SUB == q && (offset + 1) % SUB == r + 1;
        var p := Pow2(q);
        assert (SUB + r) * p + p == (SUB + r + 1) * p;
      } else {
        assert (offset + 1) / SUB == q + 1 && (offset + 1) % SUB == 0;
        var p := Pow2(q);
        assert Pow2(q + 1) == 2 * p;
        assert (SUB + r) * p + p == SUB * (2 * p);
      }
    } else if index + 1 == SUB {
      assert Pow2(0) == 1;
    }
  }

  lemma {:induction false} LowerBoundsIncrease(i: nat, j: nat)
    requires i < j
    ensures LowerBound(i) + Width(i) <= LowerBound(j)
    decreases j
  {
    if i + 1 == j {
      BucketsTile(i);
    } else {
      LowerBoundsIncrease(i, j - 1);
      BucketsTile(j - 1);
    }
  }

  /** Every value lies in the bucket it is assigned to. */
  lemma IndexCovers(v: nat)
    ensures LowerBound(IndexOf(v)) <= v < LowerBound(IndexOf(v)) + Width(IndexOf(v))
  {
    if v >= SUB {
      var s := Shift(v);
      var p := Pow2(s);
      MantissaRange(v, p);
      var offset := s * SUB + (v / p - SUB);
      assert offset / SUB == s && offset % SUB == v / p - SUB;
    }
  }

  /** The layout is a partition: a bucket holds exactly the values between its bounds. */
  lemma IndexIffInBucket(v: nat, index: nat)
    ensures IndexOf(v) == index <==> LowerBound(index) <= v < LowerBound(index) + Width(index)
  {
    IndexCovers(v);
    var k := IndexOf(v);
    if k < index {
      LowerBoundsIncrease(k, index);
    } else if index < k {
      LowerBoundsIncrease(index, k);
    }
  }

  /** bucket_index undoes bucket_lower_bound. */
  lemma IndexOfLowerBound(index: nat)
    ensures IndexOf(LowerBound(index)) == index
  {
    IndexIffInBucket(LowerBound(index), index);
  }

  lemma IndexMonotone(u: nat, v: nat)
    requires u <= v
    ensures IndexOf(u) <= IndexOf(v)
  {
    IndexCovers(u);
    IndexCovers(v);
    if IndexOf(v) < IndexOf(u) {
      LowerBoundsIncrease(IndexOf(v), IndexOf(u));
    }
  }

  /** The documented precision: one bucket spans at most 1/64 of any value in it. */
  lemma RelativeWidth(v: nat)
    ensures v < SUB ==> Width(IndexOf(v)) == 1
    ensures v >= SUB ==> SUB * Width(IndexOf(v)) <= v
  {
    if v >= SUB {
      var s := Shift(v);
      MantissaRange(v, Pow2(s));
      var offset := s * SUB + (v / Pow2(s) - SUB);
      assert offset / SUB == s;
    }
  }

  lemma MidpointMonotone(i: nat, j: nat)
    requires i <= j
    ensures Midpoint(i) <= Midpoint(j)
  {
    if i < j {
      LowerBoundsIncrease(i, j);
    }
  }

  /** Reporting the midpoint halves the error: within 1/128 of the recorded value. */
  lemma MidpointError(v: nat)
    ensures var e := Midpoint(IndexOf(v)) - v as real;
            -(v as real) / 128.0 <= e <= v as real / 128.0
  {
    IndexCovers(v);
    RelativeWidth(v);
  }
}
