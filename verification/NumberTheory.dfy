/** Divisibility, congruences, greatest common divisors and Fermat's little theorem:
    the arithmetic that the blind-evaluate-unblind protocol rests on. */
module NumberTheory {

  // ---------------------------------------------------------------- divisibility

  ghost predicate IsMultiple(k: int, n: int, a: int) {
    a == k * n
  }

  ghost predicate Divides(n: int, a: int) {
    exists k :: IsMultiple(k, n, a)
  }

  lemma DividesIntro(k: int, n: int, a: int)
    requires a == k * n
    ensures Divides(n, a)
  {
    assert IsMultiple(k, n, a);
  }

  lemma DividesElim(n: int, a: int) returns (k: int)
    requires Divides(n, a)
    ensures a == k * n
  {
    k :| IsMultiple(k, n, a);
  }

  /** A divisor of both terms divides every integer combination of them. */
  lemma DividesCombination(n: int, a: int, b: int, x: int, y: int)
    requires Divides(n, a) && Divides(n, b)
    ensures Divides(n, a * x + b * y)
  {
    var i := DividesElim(n, a);
    var j := DividesElim(n, b);
    assert (i * n) * x + (j * n) * y == (i * x + j * y) * n;
    DividesIntro(i * x + j * y, n, a * x + b * y);
  }

  lemma DividesBound(n: int, a: int)
    requires Divides(n, a) && 0 < n && -n < a < n
    ensures a == 0
  {
  }

  lemma Regroup(a: int, b: int, x: int, y: int)
    ensures (a * b) * (x * y) == (a * x) * (b * y)
  {
  }

  // ---------------------------------------------------------------- congruence

  /** a and b agree modulo n. */
  ghost predicate Cong(a: int, b: int, n: int) {
    Divides(n, a - b)
  }

  lemma CongRefl(a: int, n: int)
    ensures Cong(a, a, n)
  {
    DividesIntro(0, n, a - a);
  }

  lemma CongSym(a: int, b: int, n: int)
    requires Cong(a, b, n)
    ensures Cong(b, a, n)
  {
    var k := DividesElim(n, a - b);
    DividesIntro(-k, n, b - a);
  }

  lemma CongTrans(a: int, b: int, c: int, n: int)
    requires Cong(a, b, n) && Cong(b, c, n)
    ensures Cong(a, c, n)
  {
    DividesCombination(n, a - b, b - c, 1, 1);
  }

  lemma CongMul(a: int, b: int, c: int, d: int, n: int)
    requires Cong(a, b, n) && Cong(c, d, n)
    ensures Cong(a * c, b * d, n)
  {
    DividesCombination(n, a - b, c - d, c, b);
    assert (a - b) * c + (c - d) * b == a * c - b * d;
  }

  lemma CongMod(a: int, n: int)
    requires 0 < n
    ensures Cong(a % n, a, n) && Cong(a, a % n, n)
  {
    assert a == (a / n) * n + a % n;
    DividesIntro(a / n, n, a - a % n);
    CongSym(a, a % n, n);
  }

  /** Residues in canonical range are congruent only when equal. */
  lemma CongUnique(a: int, b: int, n: int)
    requires 0 <= a < n && 0 <= b < n && Cong(a, b, n)
    ensures a == b
  {
  }

  lemma CongIffModEq(a: int, b: int, n: int)
    requires 0 < n
    ensures Cong(a, b, n) <==> a % n == b % n
  {
    CongMod(a, n);
    CongMod(b, n);
    if Cong(a, b, n) {
      CongTrans(a % n, a, b, n);
      CongTrans(a % n, b, b % n, n);
      CongUnique(a % n, b % n, n);
    } else if a % n == b % n {
      CongTrans(a, a % n, b, n);
      assert false;
    }
  }

  // ---------------------------------------------------------------- powers

  function Pow(b: int, e: nat): int {
    if e == 0 then 1 else b * Pow(b, e - 1)
  }

  lemma {:induction false} PowPositive(b: int, e: nat)
    requires 0 < b
    ensures 0 < Pow(b, e)
  {
    if e > 0 {
      PowPositive(b, e - 1);
    }
  }

  lemma {:induction false} PowAdd(b: int, e: nat, f: nat)
    ensures Pow(b, e + f) == Pow(b, e) * Pow(b, f)
  {
    if e > 0 {
      PowAdd(b, e - 1, f);
      assert b * (Pow(b, e - 1) * Pow(b, f)) == (b * Pow(b, e - 1)) * Pow(b, f);
    }
  }

  lemma {:induction false} PowOfProduct(a: int, b: int, e: nat)
    ensures Pow(a * b, e) == Pow(a, e) * Pow(b, e)
  {
    if e > 0 {
      PowOfProduct(a, b, e - 1);
      Regroup(a, b, Pow(a, e - 1), Pow(b, e - 1));
    }
  }

  lemma {:induction false} PowOfPow(b: int, e: nat, f: nat)
    ensures Pow(Pow(b, e), f) == Pow(b, e * f)
  {
    if f == 0 {
      assert e * f == 0;
    } else {
      PowOfPow(b, e, f - 1);
      assert e * f == e + e * (f - 1);
      PowAdd(b, e, e * (f - 1));
    }
  }

  lemma {:induction false} PowOfOne(e: nat)
    ensures Pow(1, e) == 1
  {
    if e > 0 {
      PowOfOne(e - 1);
    }
  }

  lemma {:induction false} CongPow(a: int, b: int, e: nat, n: int)
    requires Cong(a, b, n)
    ensures Cong(Pow(a, e), Pow(b, e), n)
  {
    if e == 0 {
      CongRefl(1, n);
    } else {
      CongPow(a, b, e - 1, n);
      CongMul(a, b, Pow(a, e - 1), Pow(b, e - 1), n);
    }
  }

  // ---------------------------------------------------------------- gcd and Bezout

  function Gcd(a: nat, b: nat): nat
    decreases b
  {
    if b == 0 then a else Gcd(b, a % b)
  }

  /** Euclid's algorithm returns a common divisor that every common divisor divides. */
  lemma {:induction false} GcdIsGreatestCommonDivisor(a: nat, b: nat, c: int)
    ensures Divides(Gcd(a, b), a) && Divides(Gcd(a, b), b)
    ensures Divides(c, a) && Divides(c, b) ==> Divides(c, Gcd(a, b))
    decreases b
  {
    if b == 0 {
      DividesIntro(1, a, a);
      DividesIntro(0, a, 0);
    } else {
      var q, r, g := a / b, a % b, Gcd(a, b);
      assert a == b * q + r * 1;
      GcdIsGreatestCommonDivisor(b, r, c);
      DividesCombination(g, b, r, q, 1);
      if Divides(c, a) && Divides(c, b) {
        DividesCombination(c, a, b, 1, -q);
        assert a * 1 + b * (-q) == r;
      }
    }
  }

  /** Coefficients x, y with a*x + b*y == Gcd(a, b). */
  function Bezout(a: nat, b: nat): (r: (int, int))
    ensures a * r.0 + b * r.1 == Gcd(a, b)
    decreases b
  {
    if b == 0 then (1, 0)
    else
      var t := Bezout(b, a % b);
      BezoutStep(a, b, a / b, a % b, t.0, t.1);
      (t.1, t.0 - (a / b) * t.1)
  }

  lemma BezoutStep(a: int, b: int, q: int, m: int, x: int, y: int)
    requires a == b * q + m
    ensures a * y + b * (x - q * y) == b * x + m * y
  {
  }

  lemma BezoutCoefficients(a: nat, b: nat) returns (x: int, y: int)
    ensures a * x + b * y == Gcd(a, b)
  {
    var t := Bezout(a, b);
    x, y := t.0, t.1;
  }

  /** a has a multiplicative inverse modulo n. */
  predicate Coprime(a: nat, n: nat) {
    Gcd(a, n) == 1
  }

  lemma CoprimeFromCombination(a: nat, n: nat, x: int, y: int)
    requires a * x + n * y == 1
    ensures Coprime(a, n)
  {
    var g := Gcd(a, n);
    GcdIsGreatestCommonDivisor(a, n, 1);
    DividesCombination(g, a, n, x, y);
    if g >= 2 {
      DividesBound(g, 1);
    }
  }

  /** A number with some multiple congruent to 1 modulo n is coprime to n. */
  lemma InvertibleIsCoprime(a: nat, b: int, n: nat)
    requires Cong(a * b, 1, n)
    ensures Coprime(a, n)
  {
    var k := DividesElim(n, a * b - 1);
    assert a * b + n * (-k) == 1;
    CoprimeFromCombination(a, n, b, -k);
  }

  lemma PredecessorCoprime(n: nat)
    requires 1 <= n
    ensures Coprime(n - 1, n)
  {
    CoprimeFromCombination(n - 1, n, -1, 1);
  }

  lemma Distribute(a: int, x: int, n: int, y: int, b: int)
    ensures (a * b) * x + n * (y * b) == (a * x + n * y) * b
  {
  }

  /** A factor coprime to the modulus can be cancelled. */
  lemma CoprimeCancel(a: nat, b: int, n: nat)
    requires Coprime(a, n) && Divides(n, a * b)
    ensures Divides(n, b)
  {
    var x, y := BezoutCoefficients(a, n);
    DividesIntro(1, n, n);
    DividesCombination(n, a * b, n, x, y * b);
    Distribute(a, x, n, y, b);
  }

  /** The result of pow(a, -1, n). */
  function ModInverse(a: nat, n: nat): (r: nat)
    requires 1 < n && Coprime(a, n)
    ensures r < n && Cong(a * r, 1, n)
  {
    var t := Bezout(a, n);
    InverseOfResidue(a, t.0, t.1, n);
    t.0 % n
  }

  lemma InverseOfResidue(a: nat, x: int, y: int, n: nat)
    requires 1 < n && a * x + n * y == 1
    ensures Cong(a * (x % n), 1, n)
  {
    CongMod(x, n);
    CongRefl(a, n);
    CongMul(a, a, x % n, x, n);
    DividesIntro(-y, n, a * x - 1);
    CongTrans(a * (x % n), a * x, 1, n);
  }

  // ---------------------------------------------------------------- primes

  ghost predicate IsPrime(p: nat) {
    2 <= p && forall d: nat :: Divides(d, p) ==> d == 1 || d == p
  }

  lemma CoprimeToPrime(a: nat, p: nat)
    requires IsPrime(p) && !Divides(p, a)
    ensures Coprime(a, p)
  {
    GcdIsGreatestCommonDivisor(a, p, 1);
  }

  /** Two distinct primes that divide z divide it together. */
  lemma DistinctPrimesDivide(p: nat, q: nat, z: int)
    requires IsPrime(p) && IsPrime(q) && p != q && Divides(p, z) && Divides(q, z)
    ensures Divides(p * q, z)
  {
    assert !Divides(p, q);
    CoprimeToPrime(q, p);
    var k := DividesElim(q, z);
    assert z == q * k;
    CoprimeCancel(q, k, p);
    var j := DividesElim(p, k);
    assert (j * p) * q == j * (p * q);
    DividesIntro(j, p * q, z);
  }

  // ---------------------------------------------------------------- Fermat's little theorem

  /** Product of a finite set of integers. */
  ghost function Product(s: set<nat>): int {
    if s == {} then 1
    else
      var x :| x in s;
      x * Product(s - {x})
  }

  lemma Exchange(x: int, y: int, r: int)
    ensures x * (y * r) == y * (x * r)
  {
  }

  lemma {:induction false} ProductRemove(s: set<nat>, y: nat)
    requires y in s
    ensures Product(s) == y * Product(s - {y})
    decreases s
  {
    var x :| x in s && Product(s) == x * Product(s - {x});
    if x != y {
      ProductRemove(s - {x}, y);
      ProductRemove(s - {y}, x);
      assert s - {x} - {y} == s - {y} - {x};
      Exchange(x, y, Product(s - {x} - {y}));
    }
  }

  /** The residues of a*x for x in s. */
  ghost function Scaled(a: nat, s: set<nat>, p: nat): set<nat>
    requires 0 < p
  {
    set x | x in s :: Scale(a, x, p)
  }

  ghost function Scale(a: nat, x: nat, p: nat): nat
    requires 0 < p
  {
    (a * x) % p
  }

  /** The residues 1 .. p-1. */
  ghost function Units(p: nat): set<nat> {
    set x: nat | x < p && IsPositive(x)
  }

  predicate IsPositive(x: nat) {
    0 < x
  }

  lemma ScaleInjective(a: nat, x: nat, y: nat, p: nat)
    requires 0 < p && Coprime(a, p) && x < p && y < p && Scale(a, x, p) == Scale(a, y, p)
    ensures x == y
  {
    CongIffModEq(a * x, a * y, p);
    assert a * x - a * y == a * (x - y);
    CoprimeCancel(a, x - y, p);
    CongUnique(x, y, p);
  }

  lemma ScaledInsert(a: nat, s: set<nat>, x: nat, p: nat)
    requires 0 < p && Coprime(a, p) && x in s && forall y :: y in s ==> y < p
    ensures Scale(a, x, p) !in Scaled(a, s - {x}, p)
    ensures Scaled(a, s, p) - {Scale(a, x, p)} == Scaled(a, s - {x}, p)
    ensures Scale(a, x, p) in Scaled(a, s, p)
  {
    forall y | y in s - {x}
      ensures Scale(a, y, p) != Scale(a, x, p)
    {
      if Scale(a, y, p) == Scale(a, x, p) {
        ScaleInjective(a, x, y, p);
      }
    }
    assert Scaled(a, s, p) == Scaled(a, s - {x}, p) + {Scale(a, x, p)};
  }

  lemma ScaledStep(a: int, x: int, fx: int, u: int, v: int, w: int, p: int)
    requires Cong(fx, a * x, p) && Cong(w, u * v, p)
    ensures Cong(fx * w, (a * u) * (x * v), p)
  {
    CongMul(fx, a * x, w, u * v, p);
    Regroup(a, x, u, v);
  }

  /** Scaling a set of residues multiplies its product by a once per element. */
  lemma {:induction false} ScaledProduct(a: nat, s: set<nat>, p: nat)
    requires 0 < p && Coprime(a, p) && forall x :: x in s ==> x < p
    ensures |Scaled(a, s, p)| == |s|
    ensures Cong(Product(Scaled(a, s, p)), Pow(a, |s|) * Product(s), p)
    decreases s
  {
    if s == {} {
      assert Scaled(a, s, p) == {};
      CongRefl(1, p);
    } else {
      var x :| x in s && Product(s) == x * Product(s - {x});
      ScaledProduct(a, s - {x}, p);
      ScaledInsert(a, s, x, p);
      ProductRemove(Scaled(a, s, p), Scale(a, x, p));
      CongMod(a * x, p);
      ScaledStep(a, x, Scale(a, x, p), Pow(a, |s - {x}|), Product(s - {x}), Product(Scaled(a, s - {x}, p)), p);
    }
  }

  lemma {:induction false} UnitsSize(p: nat)
    requires 1 <= p
    ensures |Units(p)| == p - 1
  {
    if p > 1 {
      UnitsSize(p - 1);
      assert Units(p) == Units(p - 1) + {p - 1};
    }
  }

  lemma SubsetOfEqualSize(s: set<nat>, t: set<nat>)
    requires s <= t && |s| == |t|
    ensures s == t
  {
    assert t == s + (t - s);
    assert |t| == |s| + |t - s|;
  }

  /** Multiplication by a unit permutes the units of a prime modulus. */
  lemma ScaledUnits(a: nat, p: nat)
    requires IsPrime(p) && Coprime(a, p)
    ensures Scaled(a, Units(p), p) == Units(p)
  {
    ScaledProduct(a, Units(p), p);
    forall x | x in Units(p)
      ensures Scale(a, x, p) in Units(p)
    {
      if Scale(a, x, p) == 0 {
        CongIffModEq(a * x, 0, p);
        CoprimeCancel(a, x, p);
        DividesBound(p, x);
        assert false;
      }
    }
    SubsetOfEqualSize(Scaled(a, Units(p), p), Units(p));
  }

  lemma {:induction false} ProductNotDivisible(s: set<nat>, p: nat)
    requires IsPrime(p) && s <= Units(p)
    ensures !Divides(p, Product(s))
    decreases s
  {
    if s == {} {
      if Divides(p, 1) {
        DividesBound(p, 1);
      }
    } else {
      var x :| x in s && Product(s) == x * Product(s - {x});
      ProductNotDivisible(s - {x}, p);
      if Divides(p, Product(s)) {
        if Divides(p, x) {
          DividesBound(p, x);
        } else {
          CoprimeToPrime(x, p);
          CoprimeCancel(x, Product(s - {x}), p);
        }
      }
    }
  }

  lemma {:induction false} ProductNonNegative(s: set<nat>)
    ensures 0 <= Product(s)
    decreases s
  {
    if s != {} {
      var x :| x in s && Product(s) == x * Product(s - {x});
      ProductNonNegative(s - {x});
    }
  }

  /** Fermat's little theorem. */
  lemma Fermat(a: nat, p: nat)
    requires IsPrime(p) && !Divides(p, a)
    ensures Cong(Pow(a, p - 1), 1, p)
  {
    CoprimeToPrime(a, p);
    var w := Product(Units(p));
    ScaledProduct(a, Units(p), p);
    ScaledUnits(a, p);
    UnitsSize(p);
    assert Cong(w, Pow(a, p - 1) * w, p);
    ProductNotDivisible(Units(p), p);
    ProductNonNegative(Units(p));
    CoprimeToPrime(w, p);
    assert w * (1 - Pow(a, p - 1)) == w - Pow(a, p - 1) * w;
    CoprimeCancel(w, 1 - Pow(a, p - 1), p);
    CongSym(1, Pow(a, p - 1), p);
  }

  // ---------------------------------------------------------------- exponent arithmetic

  /** Least common multiple. */
  function Lcm(a: nat, b: nat): nat
    requires 0 < a && 0 < b
  {
    GcdPositive(a, b);
    a * b / Gcd(a, b)
  }

  lemma {:induction false} GcdPositive(a: nat, b: nat)
    requires 0 < a || 0 < b
    ensures 0 < Gcd(a, b)
    decreases b
  {
    if b != 0 {
      GcdPositive(b, a % b);
    }
  }

  lemma QuotientExact(x: int, g: int)
    requires 0 < g
    ensures x * g / g == x
  {
    var q, r := x * g / g, x * g % g;
    assert x * g == q * g + r;
    assert (x - q) * g == r;
    DividesIntro(x - q, g, r);
    DividesBound(g, r);
  }

  lemma LcmIsCommonMultiple(a: nat, b: nat)
    requires 0 < a && 0 < b
    ensures Divides(a, Lcm(a, b)) && Divides(b, Lcm(a, b))
  {
    var g := Gcd(a, b);
    GcdPositive(a, b);
    GcdIsGreatestCommonDivisor(a, b, 1);
    var i := DividesElim(g, a);
    var j := DividesElim(g, b);
    assert a * b == (a * j) * g;
    QuotientExact(a * j, g);
    DividesIntro(j, a, Lcm(a, b));
    assert a * b == (b * i) * g;
    QuotientExact(b * i, g);
    DividesIntro(i, b, Lcm(a, b));
  }

  /** ... and every common multiple is a multiple of it. */
  lemma LcmIsLeast(a: nat, b: nat, m: int)
    requires 0 < a && 0 < b && Divides(a, m) && Divides(b, m)
    ensures Divides(Lcm(a, b), m)
  {
    var g, l := Gcd(a, b), Lcm(a, b);
    GcdPositive(a, b);
    GcdIsGreatestCommonDivisor(a, b, 1);
    var j := DividesElim(g, b);
    assert a * b == (a * j) * g;
    QuotientExact(a * j, g);
    var x, y := BezoutCoefficients(a, b);
    var u := DividesElim(a, m);
    var v := DividesElim(b, m);
    CommonMultiple(a, b, g, l, x, y, u, v, m);
    DividesIntro(v * x + u * y, l, m);
  }

  lemma CommonMultiple(a: int, b: int, g: int, l: int, x: int, y: int, u: int, v: int, m: int)
    requires 0 < g && a * b == l * g && a * x + b * y == g && m == u * a && m == v * b
    ensures m == (v * x + u * y) * l
  {
    var k := v * x + u * y;
    assert m * g == (v * b) * (a * x) + (u * a) * (b * y) by {
      assert m * (a * x + b * y) == m * (a * x) + m * (b * y);
    }
    assert (v * b) * (a * x) == (v * x) * (a * b);
    assert (u * a) * (b * y) == (u * y) * (a * b);
    assert m * g == k * (a * b) == (k * l) * g;
    QuotientExact(m, g);
    QuotientExact(k * l, g);
  }

  lemma NonNegativeFactor(k: int, n: int)
    requires 0 < n && 0 <= k * n
    ensures 0 <= k
  {
  }

  /** An exponent that is 1 modulo p-1 acts as the identity modulo the prime p. */
  lemma PowIdentityModPrime(x: nat, m: nat, p: nat)
    requires IsPrime(p) && 1 <= m && Divides(p - 1, m - 1)
    ensures Cong(Pow(x, m), x, p)
  {
    if Divides(p, x) {
      var k := DividesElim(p, x);
      var y := Pow(x, m - 1);
      assert x * y - x == (k * p) * (y - 1) == (k * (y - 1)) * p;
      DividesIntro(k * (y - 1), p, Pow(x, m) - x);
    } else {
      var k := DividesElim(p - 1, m - 1);
      NonNegativeFactor(k, p - 1);
      Fermat(x, p);
      CongPow(Pow(x, p - 1), 1, k, p);
      PowOfOne(k);
      assert k * (p - 1) == (p - 1) * k;
      PowOfPow(x, p - 1, k);
      CongRefl(x, p);
      CongMul(x, x, Pow(x, m - 1), 1, p);
    }
  }
}
