/** Just enough number theory to show that the woker prime-product keys are
    unique: a product of rank primes determines the multiset of ranks. */
module PrimeFactors {

  predicate IsPrime(p: nat) {
    p >= 2 && forall d :: 2 <= d < p ==> p % d != 0
  }

  /** Euclid's lemma in the form used by the descent: if a prime p divides
      a * b with 0 < a < p then p divides b. */
  lemma {:induction false} Euclid(p: nat, a: nat, b: nat, m: nat)
    requires IsPrime(p) && 0 < a < p && a * b == p * m
    ensures b % p == 0
    decreases a
  {
    if a == 1 {
      ModOfMultiple(p, m);
    } else {
      var q, r := p / a, p % a;
      assert r != 0;
      assert p == q * a + r;
      var m' := b - q * m;
      calc {
        r * b;
        (p - q * a) * b;
        p * b - q * (a * b);
        p * b - q * (p * m);
        { assert q * (p * m) == p * (q * m); }
        p * b - p * (q * m);
        p * m';
      }
      NonNegativeFactor(p, m');
      Euclid(p, r, b, m');
    }
  }

  /** Euclidean division is unique. */
  lemma DivModUnique(x: int, p: nat, q: int, r: int)
    requires p > 0 && 0 <= r < p && x == p * q + r
    ensures x / p == q && x % p == r
  {
    var q', r' := x / p, x % p;
    assert p * (q - q') == r' - r;
    SmallMultiple(p, q - q');
  }

  lemma SmallMultiple(p: nat, k: int)
    requires p > 0 && -(p as int) < p * k < p
    ensures k == 0
  {
    if k >= 1 {
      assert p * k == p * (k - 1) + p;
      NonNegativeProduct(p, k - 1);
    } else if k <= -1 {
      assert p * k == p * (k + 1) - p;
      assert p * (k + 1) == -(p * -(k + 1));
      NonNegativeProduct(p, -(k + 1));
    }
  }

  lemma NonNegativeProduct(p: nat, k: nat)
    ensures p * k >= 0
  {
  }

  lemma NonNegativeFactor(p: nat, k: int)
    requires p > 0 && p * k >= 0
    ensures k >= 0
  {
    if k < 0 {
      assert p * k == -(p * -k);
      NonNegativeProduct(p, -k);
    }
  }

  lemma ModOfMultiple(p: nat, m: int)
    requires p > 0
    ensures (p * m) % p == 0 && (p * m) / p == m
  {
    DivModUnique(p * m, p, m, 0);
  }

  lemma MulAssoc(a: int, b: int, c: int)
    ensures a * (b * c) == (a * b) * c
  {
  }

  lemma MulSwap(a: int, b: int, c: int)
    ensures a * (b * c) == b * (a * c)
  {
  }

  /** A prime dividing a product divides one of the factors. */
  lemma PrimeDividesFactor(p: nat, x: nat, y: nat)
    requires IsPrime(p) && (x * y) % p == 0
    ensures x % p == 0 || y % p == 0
  {
    var a := x % p;
    if a != 0 {
      var k := x / p;
      var m := (x * y) / p;
      assert x * y == p * m;
      calc {
        a * y;
        (x - p * k) * y;
        x * y - p * (k * y);
        p * m - p * (k * y);
        p * (m - k * y);
      }
      NonNegativeProduct(a, y);
      NonNegativeFactor(p, m - k * y);
      Euclid(p, a, y, m - k * y);
    }
  }

  /** A prime dividing another prime is that prime. */
  lemma PrimeDividesPrime(p: nat, q: nat)
    requires IsPrime(p) && IsPrime(q) && q % p == 0
    ensures p == q
  {
    ModOfSmaller(q, p);
  }

  lemma ModOfSmaller(x: nat, p: nat)
    ensures x < p ==> x % p == x
  {
    if x < p {
      DivModUnique(x, p, 0, x);
    }
  }
}
