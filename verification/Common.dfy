/** Small definitions shared by the other modules. */
module Common {

  datatype Option<+T> = None | Some(value: T)

  /** Smallest multiple of `alignment` that is not below `value`. */
  function RoundUp(value: nat, alignment: nat): nat
    requires 0 < alignment
  {
    if value % alignment == 0 then value else value + (alignment - value % alignment)
  }

  lemma RoundUpFacts(value: nat, alignment: nat)
    requires 0 < alignment
    ensures RoundUp(value, alignment) % alignment == 0
    ensures value <= RoundUp(value, alignment) < value + alignment
    ensures 0 < value ==> alignment <= RoundUp(value, alignment)
  {
    if value % alignment != 0 {
      DivisionIs(RoundUp(value, alignment), alignment, value / alignment + 1, 0);
    } else if 0 < value && value < alignment {
      DivisionIs(value, alignment, 0, value);
    }
  }

  /** Quotient and remainder are the only way to write x. */
  lemma DivisionIs(x: int, d: nat, q: int, r: int)
    requires 0 < d && x == q * d + r && 0 <= r < d
    ensures x / d == q && x % d == r
  {
    var p, m := x / d, x % d;
    assert x == p * d + m && 0 <= m < d;
    if p < q { Between(p, q, d); }
    if q < p { Between(q, p, d); }
  }

  lemma Between(p: int, q: int, d: nat)
    requires p < q
    ensures p * d + d <= q * d
  {
    assert 0 <= (q - p - 1) * d;
    assert (q - p - 1) * d == q * d - p * d - d;
  }

  /** Different multiples of d are at least d apart. */
  lemma {:induction false} MultiplesApart(x: nat, y: nat, d: nat)
    requires 0 < d && x % d == 0 && y % d == 0 && x < y
    ensures x + d <= y
  {
    assert x == x / d * d && y == y / d * d;
    if y / d < x / d { Between(y / d, x / d, d); }
    Between(x / d, y / d, d);
  }

  lemma AddMultiples(x: nat, y: nat, d: nat)
    requires 0 < d && x % d == 0 && y % d == 0
    ensures (x + y) % d == 0
  {
    assert x == x / d * d && y == y / d * d;
    assert x + y == (x / d + y / d) * d;
    DivisionIs(x + y, d, x / d + y / d, 0);
  }

  predicate IsPowerOfTwo(n: nat) {
    n == 1 || (n != 0 && n % 2 == 0 && IsPowerOfTwo(n / 2))
  }
}
