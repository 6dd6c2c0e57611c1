/** The waits between retransmissions (section 5.8 of RFC 2661): durations are 64-bit. */
module RetryTimeouts {

  const INT64_LIMIT := 0x8000_0000_0000_0000
  const INT64_RANGE := 0x1_0000_0000_0000_0000

  function Pow2(n: nat): (p: int)
    ensures p >= 1
  {
    if n == 0 then 1 else 2 * Pow2(n - 1)
  }

  /** The value a 64-bit signed integer takes for x. */
  function Int64(x: int): int {
    (x + INT64_LIMIT) % INT64_RANGE - INT64_LIMIT
  }

  predicate Fits64(x: int) {
    -INT64_LIMIT <= x < INT64_LIMIT
  }

  /** How long the timer armed by the transmission after n retries runs. */
  function ScaleRetryTimeout(retryTimeout: int, n: nat): int {
    Int64(retryTimeout * Int64(Pow2(n)))
  }

  /** The waits of the first n transmissions together. */
  function Waited(retryTimeout: int, n: nat): int {
    if n == 0 then 0 else Waited(retryTimeout, n - 1) + ScaleRetryTimeout(retryTimeout, n - 1)
  }

  lemma {:induction false} Int64Shift(x: int, r: int)
    ensures Int64(x + r * INT64_RANGE) == Int64(x)
  {
    ModShift(x + INT64_LIMIT, r, INT64_RANGE);
    assert x + r * INT64_RANGE + INT64_LIMIT == x + INT64_LIMIT + r * INT64_RANGE;
  }

  lemma {:induction false} ModShift(x: int, r: int, m: int)
    requires m > 0
    ensures (x + r * m) % m == x % m
  {
    var q := x / m;
    assert x + r * m == x % m + (q + r) * m;
    UniqueResidue(x % m, q + r, m);
  }

  lemma {:induction false} UniqueResidue(d: int, q: int, m: int)
    requires 0 <= d < m
    ensures (d + q * m) % m == d
  {
    var y := d + q * m;
    assert y == y / m * m + y % m;
    NoSmallMultiple(q - y / m, m, y % m - d);
  }

  lemma {:induction false} NoSmallMultiple(k: int, m: int, d: int)
    requires m > 0 && k * m == d && -m < d < m
    ensures d == 0
  {
    LargeMultiple(k, m);
  }

  lemma {:induction false} LargeMultiple(k: int, m: int)
    requires m > 0
    ensures k >= 1 ==> k * m >= m
    ensures k <= -1 ==> k * m <= -m
  {
  }

  lemma {:induction false} Int64Residue(x: int) returns (q: int)
    ensures Int64(x) == x - q * INT64_RANGE
    ensures Int64(x) == x <==> Fits64(x)
    ensures x >= 0 ==> Int64(x) <= x
    ensures x <= 0 ==> Int64(x) >= x
  {
    q := (x + INT64_LIMIT) / INT64_RANGE;
  }

  /** The scaled timeout doubles with each retry exactly as long as it fits the clock's type. */
  lemma {:induction false} ScaleExactIff(retryTimeout: int, n: nat)
    ensures ScaleRetryTimeout(retryTimeout, n) == retryTimeout * Pow2(n) <==> Fits64(retryTimeout * Pow2(n))
    ensures retryTimeout >= 0 ==> ScaleRetryTimeout(retryTimeout, n) <= retryTimeout * Pow2(n)
    ensures retryTimeout <= 0 ==> ScaleRetryTimeout(retryTimeout, n) >= retryTimeout * Pow2(n)
  {
    var p := Pow2(n);
    var q := Int64Residue(p);
    var x := retryTimeout * p;
    Product(retryTimeout, p, q);
    var _ := Int64Residue(x);
    hide Pow2, Int64, Fits64;
    Int64Shift(x, -(retryTimeout * q));
    assert ScaleRetryTimeout(retryTimeout, n) == Int64(x + -(retryTimeout * q) * INT64_RANGE);
  }

  lemma {:induction false} Product(a: int, p: int, q: int)
    requires p >= 0
    ensures a * (p - q * INT64_RANGE) == a * p + -(a * q) * INT64_RANGE
    ensures a >= 0 ==> a * p >= 0
    ensures a <= 0 ==> a * p <= 0
  {
  }

  /** The n-th firing comes at retryTimeout * (2^n - 1) exactly when the last wait fits the
      clock's type; otherwise it comes too early. */
  lemma {:induction false} WaitedExact(retryTimeout: int, n: nat)
    ensures Waited(retryTimeout, n) == retryTimeout * (Pow2(n) - 1)
            <==> n == 0 || Fits64(retryTimeout * Pow2(n - 1))
    ensures retryTimeout >= 0 ==> Waited(retryTimeout, n) <= retryTimeout * (Pow2(n) - 1)
    ensures retryTimeout <= 0 ==> Waited(retryTimeout, n) >= retryTimeout * (Pow2(n) - 1)
  {
    if n > 0 {
      WaitedExact(retryTimeout, n - 1);
      ScaleExactIff(retryTimeout, n - 1);
      Doubling(retryTimeout, Pow2(n - 1));
      if n > 1 {
        Doubling(retryTimeout, Pow2(n - 2));
      }
      hide ScaleRetryTimeout;
    }
  }

  lemma {:induction false} Doubling(a: int, p: int)
    requires p >= 0
    ensures a * (2 * p - 1) == a * (p - 1) + a * p
    ensures a * (2 * p) == 2 * (a * p)
    ensures a >= 0 ==> a * p >= 0
    ensures a <= 0 ==> a * p <= 0
  {
  }

  /** It can fail to fit: with a second to start with, the timer of the 34th retry is armed
      with a negative duration. */
  lemma {:induction false} TimeoutOverflows()
    ensures ScaleRetryTimeout(1_000_000_000, 34) < 0
  {
    hide Pow2;
    PowTwo();
    PowAdds(2, 2);
    PowAdds(4, 4);
    PowAdds(8, 8);
    PowAdds(16, 16);
    PowAdds(32, 2);
  }

  lemma {:induction false} PowTwo()
    ensures Pow2(2) == 4
  {
  }

  lemma {:induction false} PowAdds(a: nat, b: nat)
    ensures Pow2(a + b) == Pow2(a) * Pow2(b)
  {
    if a > 0 {
      PowAdds(a - 1, b);
    }
  }
}
