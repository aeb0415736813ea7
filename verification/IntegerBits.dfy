/** Python's unbounded integers under `<<`, `>>`, `|` and `&`: two's complement, any sign. */
module IntegerBits {

  function Pow2(k: nat): (p: nat)
    ensures p > 0
  {
    if k == 0 then 1 else 2 * Pow2(k - 1)
  }

  function Abs(x: int): nat {
    if x < 0 then -x else x
  }

  function Shl(x: int, k: nat): int {
    x * Pow2(k)
  }

  // Dafny's `/` floors when the divisor is positive, as Python's `>>` does.
  function Shr(x: int, k: nat): int {
    x / Pow2(k)
  }

  /** Bit by bit, lowest bit first; -1 is the all-ones integer. */
  function Or(a: int, b: int): int
    decreases Abs(a) + Abs(b)
  {
    if -1 <= a <= 0 && -1 <= b <= 0 then
      if a == -1 || b == -1 then -1 else 0
    else
      2 * Or(a / 2, b / 2) + (if a % 2 == 1 || b % 2 == 1 then 1 else 0)
  }

  function And(a: int, b: int): int
    decreases Abs(a) + Abs(b)
  {
    if -1 <= a <= 0 && -1 <= b <= 0 then
      if a == -1 && b == -1 then -1 else 0
    else
      2 * And(a / 2, b / 2) + (if a % 2 == 1 && b % 2 == 1 then 1 else 0)
  }

  lemma {:induction false} OrZero(x: int)
    ensures Or(x, 0) == x
    decreases Abs(x)
  {
    if !(-1 <= x <= 0) {
      OrZero(x / 2);
    }
  }

  lemma {:induction false} AndZero(x: int)
    ensures And(x, 0) == 0
    decreases Abs(x)
  {
    if !(-1 <= x <= 0) {
      AndZero(x / 2);
    }
  }

  lemma Doubled(x: int, k: nat)
    requires k > 0
    ensures x * Pow2(k) == 2 * (x * Pow2(k - 1))
    ensures x * Pow2(k) / 2 == x * Pow2(k - 1)
    ensures x * Pow2(k) % 2 == 0
  {
    var h := x * Pow2(k - 1);
    assert x * Pow2(k) == 2 * h;
  }

  /** `|` of a shifted value and one that fits below the shift adds them, whatever the sign above. */
  lemma {:induction false} OrOfDisjointAdds(x: int, k: nat, low: int)
    requires 0 <= low < Pow2(k)
    ensures Or(Shl(x, k), low) == Shl(x, k) + low
    decreases k
  {
    if k == 0 {
      OrZero(x);
    } else {
      Doubled(x, k);
      OrOfDisjointAdds(x, k - 1, low / 2);
      if low == 0 {
        OrZero(Shl(x, k));
      }
    }
  }

  lemma ModHalves(x: int, q: nat)
    requires q > 0
    ensures x % (2 * q) == 2 * ((x / 2) % q) + x % 2
  {
    var h := x / 2;
    var d := h / q;
    assert h == q * d + h % q;
    assert x == (2 * q) * d + (2 * (h % q) + x % 2) by {
      assert x == 2 * h + x % 2;
    }
    DivModUnique(x, 2 * q, d, 2 * (h % q) + x % 2);
  }

  lemma DivModUnique(x: int, m: nat, d: int, r: int)
    requires m > 0 && x == m * d + r && 0 <= r < m
    ensures x / m == d && x % m == r
  {
    var d', r' := x / m, x % m;
    var gap, back := d - d', d' - d;
    assert m * gap == m * d - m * d';
    assert m * back == m * d' - m * d;
    if gap >= 1 {
      MultipleAtLeast(m, gap);
    } else if back >= 1 {
      MultipleAtLeast(m, back);
    }
  }

  lemma {:induction false} MultipleAtLeast(m: nat, times: int)
    requires times >= 1
    ensures m * times >= m
    decreases times
  {
    if times > 1 {
      MultipleAtLeast(m, times - 1);
      assert m * times == m * (times - 1) + m;
    }
  }

  /** `& (2^k - 1)` is the remainder modulo 2^k, for negative values too. */
  lemma {:induction false} AndMaskIsMod(x: int, k: nat)
    ensures And(x, Pow2(k) - 1) == x % Pow2(k)
    decreases k
  {
    if k == 0 {
      AndZero(x);
    } else {
      var mask := Pow2(k) - 1;
      assert mask / 2 == Pow2(k - 1) - 1 && mask % 2 == 1;
      AndMaskIsMod(x / 2, k - 1);
      ModHalves(x, Pow2(k - 1));
      assert mask > 0;
    }
  }
}
