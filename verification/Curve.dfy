/** Points of y^2 = x^3 - 3x + B modulo a prime p with p % 4 == 3, as P-256 has. */
module Curve {
  import opened Text
  import opened Numbers

  ghost predicate CurvePrime(p: int) {
    Prime(p) && p % 4 == 3
  }

  function Cubic(b: int, x: int): int {
    x * x * x - 3 * x + b
  }

  predicate IsRoot(p: int, y: int, v: int)
    requires p > 0
  {
    Cong(p, y * y, v)
  }

  ghost predicate IsSquare(p: int, v: int)
    requires p > 0
  {
    exists y :: IsRoot(p, y, v)
  }

  /** The right-hand side reduced after every operation, as the big-integer code does it. */
  function ReducedCubic(p: int, b: int, x: int): int
    requires p > 0
  {
    var x3 := (x * x % p) * x % p;
    var threeX := x * 3 % p;
    ((x3 - threeX) % p + b) % p
  }

  /** The y-coordinate for x, from a power of the right-hand side. */
  function WeierstrassY(p: int, b: int, x: int): Option<int>
    requires p > 0
  {
    var rhs := ReducedCubic(p, b, x);
    if rhs == 0 then Some(0) else
    var y := Pow(rhs, (p + 1) / 4) % p;
    if y * y % p == rhs then Some(y) else None
  }

  lemma CongAdd(p: int, a: int, a': int, b: int, b': int)
    requires p > 0 && Cong(p, a, a') && Cong(p, b, b')
    ensures Cong(p, a + b, a' + b') && Cong(p, a - b, a' - b')
  {
    var k := CongQuotient(p, a, a');
    var l := CongQuotient(p, b, b');
    CongBy(p, a + b, a' + b', k + l);
    CongBy(p, a - b, a' - b', k - l);
  }

  lemma CongSelf(p: int, a: int)
    requires p > 0
    ensures Cong(p, a, a)
  {
    CongBy(p, a, a, 0);
  }

  /** Reducing on the way does not change the residue. */
  lemma ReducedCubicIs(p: int, b: int, x: int)
    requires p > 0
    ensures 0 <= ReducedCubic(p, b, x) < p && Cong(p, ReducedCubic(p, b, x), Cubic(b, x))
  {
    var x2 := x * x % p;
    var x3, threeX := x2 * x % p, x * 3 % p;
    var d := (x3 - threeX) % p;
    CongMod(p, x * x);
    CongSelf(p, x);
    CongMul(p, x2, x * x, x, x);
    CongMod(p, x2 * x);
    CongTrans(p, x3, x2 * x, x * x * x);
    CongMod(p, x * 3);
    CongAdd(p, x3, x * x * x, threeX, x * 3);
    CongMod(p, x3 - threeX);
    CongTrans(p, d, x3 - threeX, x * x * x - x * 3);
    CongSelf(p, b);
    CongAdd(p, d, x * x * x - x * 3, b, b);
    CongMod(p, d + b);
    CongTrans(p, (d + b) % p, d + b, Cubic(b, x));
  }

  /** Raising a square to the power (p + 1) / 4 gives a root of it. */
  lemma RootOfSquare(p: int, v: int, z: int)
    requires CurvePrime(p) && v % p != 0 && IsRoot(p, z, v)
    ensures IsRoot(p, Pow(v, (p + 1) / 4), v)
  {
    var k := (p + 1) / 4;
    assert p + 1 == k + k + k + k;
    NotMultiple(p, v, z);
    // v^(2k) = z^(4k) = z^(p-1) * z^2 = z^2 = v
    CongSym(p, z * z, v);
    PowCong(p, v, z * z, k + k);
    PowMul(z, z, k + k);
    PowAdd(z, k + k, k + k);
    assert Pow(z * z, k + k) == Pow(z, p + 1);
    PowAdd(v, k, k);
    FermatTwice(p, z);
    CongTrans(p, Pow(v, k + k), Pow(z, p + 1), z * z);
    CongTrans(p, Pow(v, k + k), z * z, v);
  }

  lemma FermatTwice(p: int, z: int)
    requires Prime(p) && z % p != 0
    ensures Cong(p, Pow(z, p + 1), z * z)
  {
    PowAdd(z, p - 1, 2);
    assert Pow(z, 2) == z * z by { assert Pow(z, 1) == z; }
    Fermat(p, z);
    CongSelf(p, z * z);
    CongMul(p, Pow(z, p - 1), 1, z * z, z * z);
  }

  lemma NotMultiple(p: int, v: int, z: int)
    requires p > 0 && v % p != 0 && IsRoot(p, z, v)
    ensures z % p != 0
  {
    if z % p == 0 {
      var q := z / p;
      assert z * z == p * (q * z) by { assert z == p * q; MulAssoc(p, q, z); }
      Multiple(p, q * z);
      CongModEqual(p, z * z, v);
    }
  }

  lemma RootMod(p: int, y: int, v: int)
    requires p > 0
    ensures IsRoot(p, y % p, v) <==> IsRoot(p, y, v)
  {
    CongMod(p, y);
    CongMul(p, y % p, y, y % p, y);
    CongModEqual(p, (y % p) * (y % p), y * y);
    CongModEqual(p, (y % p) * (y % p), v);
    CongModEqual(p, y * y, v);
  }

  lemma RootCong(p: int, y: int, v: int, w: int)
    requires p > 0 && Cong(p, v, w)
    ensures IsRoot(p, y, v) <==> IsRoot(p, y, w)
  {
    CongModEqual(p, v, w);
    CongModEqual(p, y * y, v);
    CongModEqual(p, y * y, w);
  }

  /** A value is returned exactly when the right-hand side is a square, and it is a root in [0, p). */
  lemma WeierstrassYExact(p: int, b: int, x: int)
    requires CurvePrime(p)
    ensures WeierstrassY(p, b, x).Some? <==> IsSquare(p, Cubic(b, x))
    ensures WeierstrassY(p, b, x).Some? ==>
            0 <= WeierstrassY(p, b, x).value < p && IsRoot(p, WeierstrassY(p, b, x).value, Cubic(b, x))
  {
    var rhs, r := ReducedCubic(p, b, x), WeierstrassY(p, b, x);
    ReducedCubicIs(p, b, x);
    if r.Some? {
      FoundRoot(p, b, x);
      assert IsRoot(p, r.value, Cubic(b, x));
    } else if IsSquare(p, Cubic(b, x)) {
      var z :| IsRoot(p, z, Cubic(b, x));
      RootCong(p, z, rhs, Cubic(b, x));
      PowerFinds(p, rhs, z);
    }
  }

  lemma FoundRoot(p: int, b: int, x: int)
    requires p > 0 && WeierstrassY(p, b, x).Some?
    ensures 0 <= WeierstrassY(p, b, x).value < p && IsRoot(p, WeierstrassY(p, b, x).value, Cubic(b, x))
  {
    var rhs, y := ReducedCubic(p, b, x), WeierstrassY(p, b, x).value;
    ReducedCubicIs(p, b, x);
    ModUnique(rhs, p, 0, rhs);
    CongModEqual(p, y * y, rhs);
    RootCong(p, y, rhs, Cubic(b, x));
  }

  lemma PowerFinds(p: int, rhs: int, z: int)
    requires CurvePrime(p) && 0 < rhs < p && IsRoot(p, z, rhs)
    ensures var y := Pow(rhs, (p + 1) / 4) % p; y * y % p == rhs
  {
    var w := Pow(rhs, (p + 1) / 4);
    ModUnique(rhs, p, 0, rhs);
    RootOfSquare(p, rhs, z);
    RootMod(p, w, rhs);
    CongModEqual(p, (w % p) * (w % p), rhs);
  }

  // ----- hash and increment -----

  const COUNTERS := 0x1_0000_0000_0000_0000   // the counter is a 64-bit integer

  predicate OnCurve(p: int, b: int, x: int, y: int)
    requires p > 0
  {
    0 <= x < p && 0 <= y < p && IsRoot(p, y, Cubic(b, x))
  }

  /** The counter's candidate gives a point. */
  ghost predicate Usable(p: int, b: int, digest: nat -> nat, counter: nat)
    requires p > 0
  {
    digest(counter) % p != 0 && IsSquare(p, Cubic(b, digest(counter) % p))
  }

  ghost predicate First(p: int, b: int, digest: nat -> nat, n: nat)
    requires p > 0
  {
    Usable(p, b, digest, n) && forall m | 0 <= m < n :: !Usable(p, b, digest, m)
  }

  /** `digest` is the hash of the seed's hash and a counter.  The point comes from the
      first usable counter, is on the curve and has x != 0.  The membership test after the
      root was found never turns a counter down. */
  method HashToCurve(p: int, b: int, digest: nat -> nat, ghost some: nat) returns (x: int, y: int, n: nat)
    requires CurvePrime(p) && some < COUNTERS && Usable(p, b, digest, some)
    ensures n < COUNTERS && First(p, b, digest, n) && x == digest(n) % p
    ensures x != 0 && OnCurve(p, b, x, y)
  {
    n := 0;
    while true
      invariant n <= some && forall m | 0 <= m < n :: !Usable(p, b, digest, m)
      decreases some - n
    {
      x := digest(n) % p;
      if x != 0 {
        var found := WeierstrassY(p, b, x);
        WeierstrassYExact(p, b, x);
        if found.Some? && OnCurve(p, b, x, found.value) {
          y := found.value;
          return;
        }
      }
      n := n + 1;
    }
  }

  /** `derive` is the password hash with a counter; the scalar is the first non-zero residue. */
  method PasswordToScalar(order: pos, derive: nat -> nat, ghost some: nat) returns (s: int, n: nat)
    requires some < COUNTERS && derive(some) % order != 0
    ensures n < COUNTERS && 1 <= s < order && s == derive(n) % order
    ensures forall m | 0 <= m < n :: derive(m) % order == 0
  {
    n := 0;
    while true
      invariant n <= some && forall m | 0 <= m < n :: derive(m) % order == 0
      decreases some - n
    {
      s := derive(n) % order;
      if s != 0 { return; }
      n := n + 1;
    }
  }
}
