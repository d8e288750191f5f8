/** Sums over the threads of a system, one weight per program counter. */
module Tally {

  function Total<T>(w: T -> int, ts: seq<T>): int {
    if ts == [] then 0 else Total(w, ts[..|ts| - 1]) + w(ts[|ts| - 1])
  }

  lemma {:induction false} TotalUpdate<T>(w: T -> int, ts: seq<T>, i: nat, x: T)
    requires i < |ts|
    ensures Total(w, ts[i := x]) == Total(w, ts) - w(ts[i]) + w(x)
  {
    var n := |ts| - 1;
    if i == n {
      assert ts[i := x][..n] == ts[..n];
    } else {
      assert ts[i := x][..n] == ts[..n][i := x];
      TotalUpdate(w, ts[..n], i, x);
    }
  }

  lemma {:induction false} TotalSame<T>(w: T -> int, n: nat, x: T)
    requires w(x) == 0
    ensures Total(w, seq(n, _ => x)) == 0
  {
    if n == 0 {
    } else {
      assert seq(n, _ => x)[..n - 1] == seq(n - 1, _ => x);
      TotalSame(w, n - 1, x);
    }
  }

  lemma {:induction false} TotalAtMost<T(!new)>(v: T -> int, w: T -> int, ts: seq<T>)
    requires forall x :: v(x) <= w(x)
    ensures Total(v, ts) <= Total(w, ts)
  {
    if ts == [] {
    } else {
      TotalAtMost(v, w, ts[..|ts| - 1]);
    }
  }

  lemma {:induction false} TotalNonNegative<T(!new)>(w: T -> int, ts: seq<T>)
    requires forall x :: w(x) >= 0
    ensures Total(w, ts) >= 0
  {
    if ts == [] {
    } else {
      TotalNonNegative(w, ts[..|ts| - 1]);
    }
  }

  /** A part of the sum. */
  lemma {:induction false} TotalCovers<T(!new)>(w: T -> int, ts: seq<T>, i: nat)
    requires i < |ts| && forall x :: w(x) >= 0
    ensures w(ts[i]) <= Total(w, ts)
  {
    var n := |ts| - 1;
    if i == n {
      TotalNonNegative(w, ts[..n]);
    } else {
      TotalCovers(w, ts[..n], i);
    }
  }

  // ----- weights of zero and one -----

  ghost predicate ZeroOne<T(!new)>(w: T -> int) {
    forall x :: w(x) == 0 || w(x) == 1
  }

  /** The positions counted. */
  function Counted<T>(w: T -> int, ts: seq<T>): set<nat> {
    set i | 0 <= i < |ts| && w(ts[i]) == 1
  }

  lemma {:induction false} TotalCounted<T(!new)>(w: T -> int, ts: seq<T>)
    requires ZeroOne(w)
    ensures Total(w, ts) == |Counted(w, ts)|
  {
    if ts == [] {
      assert Counted(w, ts) == {};
    } else {
      TotalCounted(w, ts[..|ts| - 1]);
      CountedNext(w, ts);
    }
  }

  lemma CountedNext<T(!new)>(w: T -> int, ts: seq<T>)
    requires ZeroOne(w) && ts != []
    ensures var n := |ts| - 1; |Counted(w, ts)| == |Counted(w, ts[..n])| + w(ts[n])
  {
    var n := |ts| - 1;
    if w(ts[n]) == 1 {
      assert Counted(w, ts) == Counted(w, ts[..n]) + {n};
    } else {
      assert Counted(w, ts) == Counted(w, ts[..n]);
    }
  }

  function Below(n: nat): (s: set<nat>)
    ensures |s| == n && forall i: nat :: i in s <==> i < n
  {
    if n == 0 then {} else Below(n - 1) + {n - 1}
  }

  /** A set that maps injectively into another is no larger. */
  lemma {:induction false} Injected(a: set<nat>, b: set<nat>, f: nat -> nat)
    requires forall x | x in a :: f(x) in b
    requires forall x, y | x in a && y in a && x != y :: f(x) != f(y)
    ensures |a| <= |b|
    decreases |a|
  {
    if a == {} {
    } else {
      var x :| x in a;
      Injected(a - {x}, b - {f(x)}, f);
      assert |a| == |a - {x}| + 1 && |b| == |b - {f(x)}| + 1;
    }
  }

  /** If only the first n are counted, the sum is at most n. */
  lemma CountedBelow<T(!new)>(w: T -> int, ts: seq<T>, n: nat)
    requires ZeroOne(w) && forall i | 0 <= i < |ts| && w(ts[i]) == 1 :: i < n
    ensures Total(w, ts) <= n
  {
    TotalCounted(w, ts);
    Injected(Counted(w, ts), Below(n), i => i);
  }
}
