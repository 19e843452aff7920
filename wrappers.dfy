/** Small helper datatypes shared by the puzzle models. */
module Wrappers {

  /** The conventional optional value; `None` stands for Rust's `None` and for a panic path. */
  datatype Option<+T> = None | Some(value: T)

  function Max(a: int, b: int): (r: int)
    ensures r >= a && r >= b && (r == a || r == b)
  {
    if a >= b then a else b
  }

  function Min(a: int, b: int): (r: int)
    ensures r <= a && r <= b && (r == a || r == b)
  {
    if a <= b then a else b
  }

  function Abs(x: int): (r: nat)
    ensures r == x || r == -x
  {
    if x >= 0 then x else -x
  }

  /** Rust's `i32::abs_diff`. */
  function AbsDiff(a: int, b: int): (r: nat)
    ensures r == a - b || r == b - a
  {
    if a >= b then a - b else b - a
  }

  /** Rust's `signum`. */
  function Sign(x: int): (r: int)
    ensures -1 <= r <= 1
    ensures (r > 0 <==> x > 0) && (r < 0 <==> x < 0)
  {
    if x > 0 then 1 else if x < 0 then -1 else 0
  }

  /** Rust's `/` on signed integers: truncation toward zero. */
  function TDiv(a: int, b: int): int
    requires b != 0
  {
    if a >= 0 && b > 0 then a / b
    else if a >= 0 then -(a / -b)
    else if b > 0 then -((-a) / b)
    else (-a) / (-b)
  }

  /**
   * Rust's `%` on signed integers, the remainder of truncating division:
   * the remainder of the magnitudes, with the sign of the dividend.
   */
  function TRem(a: int, b: int): (r: int)
    requires b != 0
    ensures Abs(r) < Abs(b) && (r == 0 || (r > 0 <==> a > 0))
  {
    if a >= 0 then Abs(a) % Abs(b) else -(Abs(a) % Abs(b))
  }

  /** Truncating division undoes multiplication. */
  lemma TDivMul(a: int, b: int)
    requires b != 0
    ensures TDiv(a * b, b) == a
  {
    var x := a * b;
    if b > 0 && a >= 0 {
      MulSigns(a, b);
      DivExact(a, b);
      assert TDiv(x, b) == x / b;
    } else if b > 0 {
      MulSigns(-a, b);
      DivExact(-a, b);
      assert TDiv(x, b) == -((-a * b) / b);
    } else if a > 0 {
      MulSigns(a, -b);
      DivExact(a, -b);
      assert TDiv(x, b) == (a * -b) / -b;
    } else if a == 0 {
      assert x == 0;
      assert TDiv(x, b) == -(0 / -b);
    } else {
      MulSigns(-a, -b);
      DivExact(-a, -b);
      assert TDiv(x, b) == -((-a * -b) / -b);
    }
  }

  /** How negating the factors moves the sign of a product. */
  lemma MulSigns(p: int, m: int)
    requires p >= 0 && m > 0
    ensures p * m >= 0
    ensures -(p * m) == (-p) * m && -(p * m) == p * (-m) && p * m == (-p) * (-m)
  {
  }

  /** Euclidean division undoes multiplication by a positive number. */
  lemma DivExact(q: int, m: int)
    requires m > 0
    ensures (q * m) / m == q
  {
    ModUnique(q * m, m, q, 0);
    var d := (q * m) / m;
    assert m * d == m * q;
    assert m * (d - q) == 0;
  }

  lemma AtLeastOnce(x: nat, y: nat)
    requires y >= 1
    ensures x * y >= x
  {
    assert x * y == x + x * (y - 1);
  }

  lemma AbsMul(x: int, y: int)
    ensures Abs(x * y) == Abs(x) * Abs(y)
  {
    if x < 0 && y < 0 {
      assert x * y == (-x) * (-y);
    } else if x < 0 {
      assert -(x * y) == (-x) * y;
    } else if y < 0 {
      assert -(x * y) == x * (-y);
    }
  }

  /** Euclidean remainder is determined by any decomposition `a == q * m + r` with `0 <= r < m`. */
  lemma ModUnique(a: int, m: int, q: int, r: int)
    requires m > 0 && 0 <= r < m && a == q * m + r
    ensures a % m == r
  {
    var k := q - a / m;
    assert k * m == a % m - r;
  }

  /** Adding a multiple of `m` does not change the remainder. */
  lemma ModAddMultiple(q: int, m: int, r: int)
    requires m > 0
    ensures (q * m + r) % m == r % m
  {
    ModUnique(q * m + r, m, q + r / m, r % m);
  }

  /** Reducing a summand first keeps the remainder. */
  lemma AddReduces(a: int, m: int, x: int)
    requires m > 0
    ensures (a + x) % m == (a % m + x) % m
  {
    var q, r := a / m, a % m;
    assert a + x == q * m + (r + x);
    ModAddMultiple(q, m, r + x);
  }

  /** Reducing a factor first keeps the remainder. */
  lemma MulReduces(a: int, m: int, x: int)
    requires m > 0
    ensures (a * x) % m == ((a % m) * x) % m
  {
    var q, r := a / m, a % m;
    calc {
      a * x;
      (q * m + r) * x;
      (q * x) * m + r * x;
    }
    ModAddMultiple(q * x, m, r * x);
  }
}
