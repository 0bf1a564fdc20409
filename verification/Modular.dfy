/** Division and remainder for moduli that are not constants. */
module Modular {

  lemma MulAtLeast(k: int, n: int)
    requires k >= 1 && n >= 0
    ensures k * n >= n
  {
    assert k * n == n + (k - 1) * n;
    MulNonNegative(k - 1, n);
  }

  lemma MulNonNegative(a: int, b: int)
    requires a >= 0 && b >= 0
    ensures a * b >= 0
  {}

  lemma MulMonotone(a: int, b: int, c: int)
    requires a <= b && c >= 0
    ensures a * c <= b * c
  {
    assert b * c - a * c == (b - a) * c;
    MulNonNegative(b - a, c);
  }

  lemma DivMod(x: int, n: int)
    requires n > 0
    ensures x == x / n * n + x % n && 0 <= x % n < n
  {}

  // The remainder is the one number in range that differs by a multiple.
  lemma RemainderIs(x: int, n: int, q: int, r: int)
    requires 0 <= r < n && x == q * n + r
    ensures x % n == r && x / n == q
  {
    var q', r' := x / n, x % n;
    assert x == q' * n + r';
    assert (q - q') * n == r' - r;
    if q > q' {
      MulAtLeast(q - q', n);
    } else if q < q' {
      assert (q' - q) * n == r - r';
      MulAtLeast(q' - q, n);
    }
  }

  lemma Divided(x: nat, n: nat) returns (q: nat, r: nat)
    requires n > 0
    ensures x == q * n + r && r < n && x % n == r
  {
    q, r := x / n, x % n;
  }

  lemma AddRemainder(x: int, y: int, n: int)
    requires n > 0
    ensures (x + y) % n == (x % n + y) % n
  {
    var z := x % n + y;
    DivMod(x, n);
    DivMod(z, n);
    assert x / n * n + z / n * n == (x / n + z / n) * n;
    RemainderIs(x + y, n, x / n + z / n, z % n);
  }

  // Numbers less than a modulus apart have different remainders.
  lemma RemaindersDiffer(x: int, y: int, n: int)
    requires n > 0 && x < y < x + n
    ensures x % n != y % n
  {
    if x % n == y % n {
      assert (y / n - x / n) * n == y - x;
      if y / n - x / n >= 1 {
        MulAtLeast(y / n - x / n, n);
      } else {
        MulNonNegative(x / n - y / n, n);
        assert false;
      }
    }
  }

  // Two numbers less than a modulus apart lie on the same lap or on neighbouring ones.
  lemma LapsApart(n: int, q: int, r: int, q': int, r': int)
    requires 0 <= r < n && 0 <= r' < n && 0 <= (q' * n + r') - (q * n + r) < n
    ensures q' == if r' >= r then q else q + 1
    ensures (q' * n + r') - (q * n + r) == if r' >= r then r' - r else r' + n - r
  {
    assert q' * n - q * n == (q' - q) * n;
    if q' < q {
      assert (q - q') * n == -((q' - q) * n);
      MulAtLeast(q - q', n);
    } else if q' > q + 1 {
      assert (q' - q) * n == n + (q' - q - 1) * n;
      MulAtLeast(q' - q - 1, n);
    }
  }

  // Reducing by a multiple of the modulus first changes nothing.
  lemma RemainderOfRemainder(x: int, n: int)
    requires n > 0
    ensures x % (2 * n) % n == x % n
  {
    var q, r := x / (2 * n), x % (2 * n);
    assert x == q * (2 * n) + r;
    var q', r' := r / n, r % n;
    assert r == q' * n + r';
    assert q * (2 * n) == 2 * q * n;
    assert x == (2 * q + q') * n + r';
    RemainderIs(x, n, 2 * q + q', r');
  }

  lemma SameOrder(a: int, b: int, n: int)
    requires n > 0
    ensures a * n > b * n <==> a > b
  {
    if a > b {
      MulAtLeast(a - b, n);
      assert a * n - b * n == (a - b) * n;
    } else {
      MulMonotone(a, b, n);
    }
  }

  lemma SumFits(a: int, b: int, c: int, n: int)
    requires n > 0
    ensures a * n + b * n > c * n <==> a + b > c
  {
    assert (a + b) * n == a * n + b * n;
    SameOrder(a + b, c, n);
  }

  lemma FitsBehind(a: int, b: int, c: int, d: int, n: nat)
    requires a + b <= c + d
    ensures a * n + b * n <= c * n + d * n
  {
    MulMonotone(a + b, c + d, n);
  }
}
