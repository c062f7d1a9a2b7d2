/** Overflow-checked addition and multiplication (include/preemption_fabric/util/checked.hpp), for every
    integer type T given by its numeric limits. */
module Checked {
  import opened Words

  /** Numeric limits of a C++ integer type: unsigned, or two's complement signed. */
  datatype Limits = Limits(min: int, max: int) {
    predicate Valid() {
      max > 0 && (min == 0 || min == -max - 1)
    }
    predicate Holds(x: int) {
      min <= x <= max
    }
    /** What the literal -1 compares equal to: itself, or the largest value once converted to an unsigned T.
        Narrow unsigned types are promoted to int instead, so both readings are possible there. */
    predicate MinusOne(k: int) {
      k == -1 || (min == 0 && k == max)
    }
  }

  /** C++ integer division truncates toward zero. */
  function TruncDiv(a: int, b: int): int
    requires b != 0
  {
    if a >= 0 then
      (if b > 0 then a / b else -(a / -b))
    else
      (if b > 0 then -(-a / b) else -a / -b)
  }

  function CheckedAdd(t: Limits, a: int, b: int): (r: Option<int>)
    requires t.Valid() && t.Holds(a) && t.Holds(b)
    ensures r == if t.Holds(a + b) then Some(a + b) else None
  {
    if b > 0 && a > t.max - b then None
    else if b < 0 && a < t.min - b then None
    else Some(a + b)
  }

  /** The bounds tests, with the literal -1 compared as k. */
  function CheckedMul(t: Limits, k: int, a: int, b: int): (r: Option<int>)
    requires t.Valid() && t.Holds(a) && t.Holds(b) && t.MinusOne(k)
  {
    if a == 0 || b == 0 then Some(0)
    else if a == k && b == t.min then None
    else if b == k && a == t.min then None
    else if a > 0 then
      if b > 0 then (if a > TruncDiv(t.max, b) then None else Some(a * b))
      else (if b < TruncDiv(t.min, a) then None else Some(a * b))
    else
      if b > 0 then (if a < TruncDiv(t.min, b) then None else Some(a * b))
      else (if b < TruncDiv(t.max, a) then None else Some(a * b))
  }

  lemma ProductExceeds(x: nat, y: nat, m: nat)
    requires y > 0
    ensures x > m / y <==> x * y > m
  {
    var q, s := m / y, m % y;
    assert m == y * q + s;
    if x > q {
      assert x * y >= (q + 1) * y;
      assert (q + 1) * y == y * q + y;
    } else {
      assert x * y <= q * y;
    }
  }

  lemma MixedSigns(t: Limits, x: int, y: int)
    requires t.Valid() && t.Holds(x) && t.Holds(y) && x < 0 < y
    ensures x < TruncDiv(t.min, y) <==> x * y < t.min
    ensures x * y <= 0
  {
    ProductExceeds(-x, y, -t.min);
    assert -x * y == -(x * y);
  }

  lemma BothNegative(t: Limits, a: int, b: int)
    requires t.Valid() && t.Holds(a) && t.Holds(b) && a < 0 && b < 0
    ensures b < TruncDiv(t.max, a) <==> a * b > t.max
    ensures a * b >= 0
  {
    ProductExceeds(-b, -a, t.max);
    assert -b * -a == a * b;
  }

  /** Exact when the product fits T, nothing otherwise, on every signed and unsigned type. */
  lemma CheckedMulExact(t: Limits, k: int, a: int, b: int)
    requires t.Valid() && t.Holds(a) && t.Holds(b) && t.MinusOne(k)
    ensures CheckedMul(t, k, a, b) == if t.Holds(a * b) then Some(a * b) else None
  {
    if a > 0 && b > 0 {
      ProductExceeds(a, b, t.max);
      assert a * b >= 0;
    } else if a > 0 && b < 0 {
      hide TruncDiv;
      MixedSigns(t, b, a);
      assert b * a == a * b;
    } else if a < 0 && b > 0 {
      hide TruncDiv;
      MixedSigns(t, a, b);
    } else if a < 0 && b < 0 {
      hide TruncDiv;
      BothNegative(t, a, b);
    }
  }
}
