/** Arithmetic modulo a prime, up to Fermat's little theorem. */
module Numbers {

  ghost predicate Prime(p: int) {
    p > 1 && forall d | 1 < d < p :: p % d != 0
  }

  function Pow(b: int, e: nat): int {
    if e == 0 then 1 else b * Pow(b, e - 1)
  }

  // ----- congruence -----

  predicate Cong(p: int, a: int, b: int)
    requires p > 0
  {
    (a - b) % p == 0
  }

  lemma ModUnique(x: int, p: int, q: int, r: int)
    requires p > 0 && 0 <= r < p && x == p * q + r
    ensures x / p == q && x % p == r
  {
    var d := x / p - q;
    assert p * d == r - x % p;
    assert d >= 1 ==> p * d >= p;
    assert d <= -1 ==> p * d <= -p;
  }

  lemma Multiple(p: int, k: int)
    requires p > 0
    ensures (p * k) % p == 0
  {
    ModUnique(p * k, p, k, 0);
  }

  /** A congruence with its quotient. */
  lemma CongBy(p: int, a: int, b: int, k: int)
    requires p > 0 && a - b == p * k
    ensures Cong(p, a, b)
  {
    Multiple(p, k);
  }

  lemma CongQuotient(p: int, a: int, b: int) returns (k: int)
    requires p > 0 && Cong(p, a, b)
    ensures a == b + p * k
  {
    k := (a - b) / p;
  }

  lemma CongMod(p: int, a: int)
    requires p > 0
    ensures Cong(p, a % p, a)
  {
    CongBy(p, a % p, a, -(a / p));
  }

  lemma CongSym(p: int, a: int, b: int)
    requires p > 0 && Cong(p, a, b)
    ensures Cong(p, b, a)
  {
    var k := CongQuotient(p, a, b);
    CongBy(p, b, a, -k);
  }

  lemma CongTrans(p: int, a: int, b: int, c: int)
    requires p > 0 && Cong(p, a, b) && Cong(p, b, c)
    ensures Cong(p, a, c)
  {
    var k := CongQuotient(p, a, b);
    var l := CongQuotient(p, b, c);
    CongBy(p, a, c, k + l);
  }

  lemma CongMul(p: int, a: int, b: int, c: int, d: int)
    requires p > 0 && Cong(p, a, b) && Cong(p, c, d)
    ensures Cong(p, a * c, b * d)
  {
    var k := CongQuotient(p, a, b);
    var l := CongQuotient(p, c, d);
    calc {
      a * c - b * d;
      (b + p * k) * (d + p * l) - b * d;
      b * (p * l) + (p * k) * d + (p * k) * (p * l);
      p * (b * l + k * d + k * p * l);
    }
    CongBy(p, a * c, b * d, b * l + k * d + k * p * l);
  }

  /** Congruent residues are equal. */
  lemma CongEqual(p: int, a: int, b: int)
    requires p > 0 && 0 <= a < p && 0 <= b < p && Cong(p, a, b)
    ensures a == b
  {
    var k := CongQuotient(p, a, b);
    assert k >= 1 ==> p * k >= p;
    assert k <= -1 ==> p * k <= -p;
  }

  lemma CongModEqual(p: int, a: int, b: int)
    requires p > 0
    ensures Cong(p, a, b) <==> a % p == b % p
  {
    CongMod(p, a);
    CongMod(p, b);
    if Cong(p, a, b) {
      CongTrans(p, a % p, a, b);
      CongSym(p, b % p, b);
      CongTrans(p, a % p, b, b % p);
      CongEqual(p, a % p, b % p);
    } else if a % p == b % p {
      CongSym(p, a % p, a);
      CongTrans(p, a, a % p, b);
    }
  }

  // ----- powers -----

  lemma {:induction false} PowAdd(b: int, m: nat, n: nat)
    ensures Pow(b, m + n) == Pow(b, m) * Pow(b, n)
  {
    if m == 0 {
    } else {
      PowAdd(b, m - 1, n);
      MulAssoc(b, Pow(b, m - 1), Pow(b, n));
    }
  }

  lemma MulAssoc(a: int, b: int, c: int)
    ensures (a * b) * c == a * (b * c)
  {
  }

  lemma {:induction false} PowMul(a: int, b: int, n: nat)
    ensures Pow(a * b, n) == Pow(a, n) * Pow(b, n)
  {
    if n == 0 {
    } else {
      PowMul(a, b, n - 1);
      var x, y := Pow(a, n - 1), Pow(b, n - 1);
      calc {
        (a * b) * (x * y);
        { MulAssoc(a, b, x * y); MulAssoc(b, x, y); }
        a * ((b * x) * y);
        { MulAssoc(x, b, y); }
        a * (x * (b * y));
        { MulAssoc(a, x, b * y); }
        (a * x) * (b * y);
      }
    }
  }

  lemma {:induction false} PowCong(p: int, a: int, b: int, n: nat)
    requires p > 0 && Cong(p, a, b)
    ensures Cong(p, Pow(a, n), Pow(b, n))
  {
    if n == 0 {
    } else {
      PowCong(p, a, b, n - 1);
      CongMul(p, a, b, Pow(a, n - 1), Pow(b, n - 1));
    }
  }

  // ----- Euclid's lemma -----

  /** The least positive multiplier that makes b a multiple of p divides every such multiplier. */
  lemma LeastDivides(p: int, b: int, d: int, k: int)
    requires p > 0 && d > 0 && (d * b) % p == 0 && (k * b) % p == 0
    requires forall e | 0 < e < d :: (e * b) % p != 0
    ensures k % d == 0
  {
    var q, r := k / d, k % d;
    var i, j := (k * b) / p, (d * b) / p;
    assert k == d * q + r && k * b == p * i && d * b == p * j;
    calc {
      r * b;
      (k - d * q) * b;
      k * b - q * (d * b);
      p * i - q * (p * j);
      p * (i - q * j);
    }
    Multiple(p, i - q * j);
  }

  lemma Least(p: int, b: int, n: nat) returns (d: int)
    requires p > 0 && n > 0 && (n * b) % p == 0
    ensures 0 < d <= n && (d * b) % p == 0 && forall e | 0 < e < d :: (e * b) % p != 0
  {
    d := 1;
    while (d * b) % p != 0
      invariant 0 < d <= n
      invariant forall e | 0 < e < d :: (e * b) % p != 0
      decreases n - d
    {
      d := d + 1;
    }
  }

  /** A prime that divides a product divides a factor. */
  lemma Euclid(p: int, a: int, b: int)
    requires Prime(p) && (a * b) % p == 0
    ensures a % p == 0 || b % p == 0
  {
    Multiple(p, b);
    var d := Least(p, b, p);
    LeastDivides(p, b, d, p);
    LeastDivides(p, b, d, a);
    if d == 1 {
      assert (d * b) % p == b % p;
    } else {
      assert d == p;
    }
  }

  lemma ProductZero(p: int, a: int, b: int)
    requires Prime(p) && 0 <= a < p && 0 <= b < p
    ensures (a * b) % p == 0 <==> a == 0 || b == 0
  {
    ModUnique(a, p, 0, a);
    ModUnique(b, p, 0, b);
    if (a * b) % p == 0 { Euclid(p, a, b); }
  }

  // ----- products over sets -----

  ghost function Any<T>(s: set<T>): (x: T)
    requires s != {}
    ensures x in s
  {
    var x :| x in s; x
  }

  ghost function Prod(s: set<int>): int {
    if s == {} then 1 else Any(s) * Prod(s - {Any(s)})
  }

  lemma {:induction false} ProdRemove(s: set<int>, x: int)
    requires x in s
    ensures Prod(s) == x * Prod(s - {x})
    decreases |s|
  {
    var y := Any(s);
    if y != x {
      ProdRemove(s - {y}, x);
      ProdRemove(s - {x}, y);
      assert s - {y} - {x} == s - {x} - {y};
      Swap(x, y, Prod(s - {x} - {y}));
    }
  }

  lemma Swap(x: int, y: int, r: int)
    ensures x * (y * r) == y * (x * r)
  {
  }

  function Fact(n: nat): int {
    if n == 0 then 1 else n * Fact(n - 1)
  }

  function UpTo(n: nat): (s: set<int>)
    ensures forall i :: i in s <==> 1 <= i <= n
  {
    if n == 0 then {} else UpTo(n - 1) + {n}
  }

  lemma UpToLess(n: nat)
    requires n > 0
    ensures UpTo(n) - {n} == UpTo(n - 1) && n in UpTo(n)
  {
  }

  lemma {:induction false} UpToSize(n: nat)
    ensures |UpTo(n)| == n
  {
    if n == 0 {
    } else {
      UpToSize(n - 1);
    }
  }

  lemma {:induction false} UpToProd(n: nat)
    ensures Prod(UpTo(n)) == Fact(n)
  {
    if n == 0 {
    } else {
      UpToProd(n - 1);
      UpToLess(n);
      ProdRemove(UpTo(n), n);
    }
  }

  /** The residues of a, 2a, ..., na. */
  ghost function Residues(p: int, a: int, n: nat): set<int>
    requires p > 0
  {
    if n == 0 then {} else Residues(p, a, n - 1) + {(a * n) % p}
  }

  lemma {:induction false} ResidueIn(p: int, a: int, n: nat, x: int) returns (i: nat)
    requires p > 0 && x in Residues(p, a, n)
    ensures 1 <= i <= n && x == (a * i) % p
  {
    if x == (a * n) % p { i := n; } else { i := ResidueIn(p, a, n - 1, x); }
  }

  /** Multiplying by a permutes the non-zero residues. */
  lemma {:induction false} ResiduesDistinct(p: int, a: int, n: nat)
    requires Prime(p) && a % p != 0 && n < p
    ensures |Residues(p, a, n)| == n && Residues(p, a, n) <= UpTo(p - 1)
  {
    if n == 0 {
    } else {
      ResiduesDistinct(p, a, n - 1);
      var x := (a * n) % p;
      ModUnique(n, p, 0, n);
      if x == 0 { Euclid(p, a, n); }
      NewResidue(p, a, n);
    }
  }

  lemma DifferentResidues(p: int, a: int, i: int, n: int)
    requires Prime(p) && a % p != 0 && 0 < i < n < p
    ensures (a * n) % p != (a * i) % p
  {
    CongModEqual(p, a * n, a * i);
    assert a * n - a * i == a * (n - i);
    ModUnique(n - i, p, 0, n - i);
    if (a * (n - i)) % p == 0 { Euclid(p, a, n - i); }
  }

  lemma NewResidue(p: int, a: int, n: nat)
    requires Prime(p) && a % p != 0 && 0 < n < p
    ensures (a * n) % p !in Residues(p, a, n - 1)
  {
    if (a * n) % p in Residues(p, a, n - 1) {
      var i := ResidueIn(p, a, n - 1, (a * n) % p);
      DifferentResidues(p, a, i, n);
    }
  }

  lemma {:induction false} ResiduesProduct(p: int, a: int, n: nat)
    requires Prime(p) && a % p != 0 && n < p
    ensures Cong(p, Prod(Residues(p, a, n)), Pow(a, n) * Fact(n))
  {
    if n == 0 {
      CongBy(p, 1, 1, 0);
    } else {
      ResiduesProduct(p, a, n - 1);
      var x, rest := (a * n) % p, Residues(p, a, n - 1);
      ResiduesDistinct(p, a, n);
      ResiduesDistinct(p, a, n - 1);
      assert x !in rest && Residues(p, a, n) - {x} == rest;
      ProdRemove(Residues(p, a, n), x);
      CongMod(p, a * n);
      CongMul(p, x, a * n, Prod(rest), Pow(a, n - 1) * Fact(n - 1));
      Regroup(a, n, Pow(a, n - 1), Fact(n - 1));
    }
  }

  lemma Regroup(a: int, n: int, x: int, f: int)
    ensures (a * n) * (x * f) == (a * x) * (n * f)
  {
    calc {
      (a * n) * (x * f);
      a * (n * (x * f));
      a * (x * (n * f));
      (a * x) * (n * f);
    }
  }

  lemma {:induction false} FactNotMultiple(p: int, n: nat)
    requires Prime(p) && n < p
    ensures Fact(n) % p != 0
  {
    if n == 0 {
      ModUnique(1, p, 0, 1);
    } else {
      FactNotMultiple(p, n - 1);
      ModUnique(n, p, 0, n);
      if (n * Fact(n - 1)) % p == 0 { Euclid(p, n, Fact(n - 1)); }
    }
  }

  lemma SubsetEqual(a: set<int>, b: set<int>)
    requires a <= b && |a| == |b|
    ensures a == b
  {
    assert b == (b - a) + a;
    assert |b| == |b - a| + |a|;
    assert b - a == {};
  }

  /** Fermat's little theorem. */
  lemma Fermat(p: int, a: int)
    requires Prime(p) && a % p != 0
    ensures Cong(p, Pow(a, p - 1), 1)
  {
    var f, x := Fact(p - 1), Pow(a, p - 1);
    ResiduesDistinct(p, a, p - 1);
    UpToSize(p - 1);
    UpToProd(p - 1);
    SubsetEqual(Residues(p, a, p - 1), UpTo(p - 1));
    ResiduesProduct(p, a, p - 1);
    CongSym(p, f, x * f);
    FactNotMultiple(p, p - 1);
    assert x * f - f == (x - 1) * f;
    Euclid(p, x - 1, f);
  }
}
