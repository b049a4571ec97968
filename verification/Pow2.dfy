/** Powers of two, and how division and remainder by them compose.
    Every prefix, mask and shift of the tunnel is stated with these. */
module Pow2s {

  function Pow2(k: nat): (r: nat)
    ensures r > 0
  {
    if k == 0 then 1 else 2 * Pow2(k - 1)
  }

  lemma {:induction false} Pow2Add(a: nat, b: nat)
    ensures Pow2(a + b) == Pow2(a) * Pow2(b)
  {
    if b == 0 {
    } else {
      Pow2Add(a, b - 1);
      assert Pow2(a + b) == 2 * Pow2(a + (b - 1));
      assert Pow2(b) == 2 * Pow2(b - 1);
      MulSwap(Pow2(a), Pow2(b - 1));
    }
  }

  lemma MulSwap(x: int, y: int)
    ensures 2 * (x * y) == x * (2 * y)
  {
  }

  lemma Pow2Values()
    ensures Pow2(0) == 1 && Pow2(1) == 2 && Pow2(8) == 0x100 && Pow2(16) == 0x1_0000 && Pow2(32) == 0x1_0000_0000
    ensures Pow2(64) == 0x1_0000_0000_0000_0000
  {
    Pow2Double(1, 2); Pow2Double(2, 4); Pow2Double(4, 16); Pow2Double(8, 0x100);
    Pow2Double(16, 0x1_0000); Pow2Double(32, 0x1_0000_0000);
  }

  lemma Pow2Double(k: nat, v: nat)
    requires Pow2(k) == v
    ensures Pow2(k + k) == v * v
  {
    Pow2Add(k, k);
  }

  lemma {:induction false} Pow2Mono(a: nat, b: nat)
    requires a <= b
    ensures Pow2(a) <= Pow2(b)
  {
    if a < b { Pow2Mono(a, b - 1); }
  }

  /** The only quotient and remainder: the workhorse for every proof about `/` and `%`. */
  lemma DivModUnique(x: int, m: int, q: int, r: int)
    requires m > 0 && x == q * m + r && 0 <= r < m
    ensures x / m == q && x % m == r
  {
    var q', r' := x / m, x % m;
    assert x == q' * m + r' && 0 <= r' < m;
    SubMul(q, q', m);
    if q > q' {
      MulLower(q - q', m);
    } else if q < q' {
      MulLower(q' - q, m);
    }
  }

  lemma SubMul(a: int, b: int, m: int)
    ensures (a - b) * m == a * m - b * m
    ensures (b - a) * m == b * m - a * m
  {
  }

  /** Splitting off the remainder of a natural number. */
  lemma DivModNat(n: nat, m: nat)
    requires m > 0
    ensures n == n / m * m + n % m && 0 <= n / m * m <= n && 0 <= n / m && 0 <= n % m < m
  {
    assert n == n / m * m + n % m;
    if n / m < 0 { MulLower(-(n / m), m); SubMul(0, n / m, m); }
    MulMono(0, n / m, m);
  }

  lemma MulLower(k: int, m: int)
    requires k >= 1 && m > 0
    ensures k * m >= m
  {
    assert k * m == (k - 1) * m + m;
  }

  /** Dividing by 2^(a+b) is dividing by 2^a and then by 2^b. */
  lemma DivPow2Add(n: nat, a: nat, b: nat)
    ensures n / Pow2(a + b) == n / Pow2(a) / Pow2(b)
    ensures n % Pow2(a + b) == n / Pow2(a) % Pow2(b) * Pow2(a) + n % Pow2(a)
  {
    Pow2Add(a, b);
    DivMul(n, Pow2(a), Pow2(b));
  }

  lemma DivMul(n: nat, a: nat, b: nat)
    requires a > 0 && b > 0
    ensures 0 < a * b
    ensures n / (a * b) == n / a / b
    ensures n % (a * b) == n / a % b * a + n % a
  {
    DivModNat(n, a);
    var q, r := n / a, n % a;
    DivModNat(q, b);
    var q2, r2 := q / b, q % b;
    Distribute(q2, b, r2, a);
    RemBound(r2, b, r, a);
    DivModUnique(n, a * b, q2, r2 * a + r);
  }

  lemma Distribute(q: int, b: int, r: int, a: int)
    ensures (q * b + r) * a == q * (a * b) + r * a
  {
  }

  lemma RemBound(r2: int, b: int, r: int, a: int)
    requires 0 <= r2 < b && 0 <= r < a
    ensures 0 <= r2 * a + r < a * b
  {
    assert r2 * a <= (b - 1) * a by { MulMono(r2, b - 1, a); }
    assert (b - 1) * a == a * b - a;
    assert 0 <= r2 * a by { MulMono(0, r2, a); }
  }

  lemma MulMono(x: int, y: int, a: int)
    requires x <= y && a >= 0
    ensures x * a <= y * a
  {
  }
}
