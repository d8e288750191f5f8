/** The bounds on the pre-cookie store are exact: runs that reach them.  Challenges are
    stored and counted up to one below the cap, and then one more per worker is stored
    before any of them is counted. */
module RelayRaceCaps {
  import opened Text
  import opened RelaySpec
  import opened RelayIndex
  import opened RelayRaces
  import opened RelayRaceBounds
  import opened RelayRaceRuns

  /** The i-th pair to be challenged. */
  type Supply = nat -> Key

  ghost predicate AllDiffer(key: Supply, n: nat) {
    forall i: nat, j: nat | i < j < n :: key(i) != key(j)
  }

  function Firsts(key: Supply, n: nat): set<Key> {
    set i: nat | i < n :: key(i)
  }

  lemma FirstsNext(key: Supply, n: nat)
    requires AllDiffer(key, n + 1)
    ensures key(n) !in Firsts(key, n) && Firsts(key, n + 1) == Firsts(key, n) + {key(n)}
  {
  }

  lemma {:induction false} FirstsSize(key: Supply, n: nat)
    requires AllDiffer(key, n)
    ensures |Firsts(key, n)| == n
  {
    if n == 0 {
    } else {
      FirstsSize(key, n - 1);
      FirstsNext(key, n - 1);
    }
  }

  /** n challenges are counted, and j more are stored by as many workers. */
  ghost predicate Crowded(c: Caps, s: Sys, key: Supply, n: nat, j: nat) {
    && |s.pcs| == c.workers + 1 && j <= c.workers && s.store.Keys == Firsts(key, n + j) && s.total == n
    && (forall ip :: CountOf(s.counts, ip) == |OfIp(c, Firsts(key, n), ip)|)
    && (forall t | 0 <= t < |s.pcs| :: s.pcs[t] == if t < j then AddCount(KeyOf(c, key(n + t))) else Idle)
  }

  /** The i-th pair's key is within its cap when n are counted. */
  predicate Free(c: Caps, key: Supply, n: nat, i: nat) {
    |OfIp(c, Firsts(key, n), KeyOf(c, key(i)))| < c.maxPendingPerIP
  }

  lemma CanAskNext(c: Caps, s: Sys, key: Supply, n: nat, j: nat)
    requires Crowded(c, s, key, n, j) && j < c.workers && AllDiffer(key, n + j + 1)
    requires Free(c, key, n, n + j) && n < c.maxPendingGlobal
    ensures CanAsk(c, s, j, key(n + j))
  {
    FirstsNext(key, n + j);
  }

  lemma AskedNext(c: Caps, s: Sys, key: Supply, n: nat, j: nat)
    requires Crowded(c, s, key, n, j) && j < c.workers && AllDiffer(key, n + j + 1)
    ensures var k := key(n + j);
      Crowded(c, Doing(s.(store := s.store[k := s.next], next := s.next + 1), j, AddCount(KeyOf(c, k))), key, n, j + 1)
  {
    FirstsNext(key, n + j);
  }

  /** One more worker stores and stops before it counts. */
  lemma AskNext(c: Caps, turns: seq<Turn>, key: Supply, n: nat, j: nat) returns (turns': seq<Turn>)
    requires Crowded(c, Exec(c, turns), key, n, j) && j < c.workers && AllDiffer(key, n + j + 1)
    requires Free(c, key, n, n + j) && n < c.maxPendingGlobal
    ensures Crowded(c, Exec(c, turns'), key, n, j + 1)
  {
    CanAskNext(c, Exec(c, turns), key, n, j);
    AskedNext(c, Exec(c, turns), key, n, j);
    turns' := StoreOne(c, turns, j, key(n + j));
  }

  lemma CountedNext(c: Caps, s: Sys, key: Supply, n: nat)
    requires Crowded(c, s, key, n, 1) && AllDiffer(key, n + 1)
    ensures var ip := KeyOf(c, key(n));
      Crowded(c, Doing(s.(counts := Adjust(s.counts, ip, 1), total := s.total + 1), 0, Idle), key, n + 1, 0)
  {
    FirstsNext(key, n);
    var s' := s.(counts := Adjust(s.counts, KeyOf(c, key(n)), 1));
    forall ip ensures CountOf(s'.counts, ip) == |OfIp(c, Firsts(key, n + 1), ip)| {
      OfAdd(IpOf(c), Firsts(key, n), key(n), ip);
      assert CountOf(s.counts, ip) == |OfIp(c, Firsts(key, n), ip)|;
    }
  }

  /** The first worker alone stores and counts. */
  lemma FillNext(c: Caps, turns: seq<Turn>, key: Supply, n: nat) returns (turns': seq<Turn>)
    requires Crowded(c, Exec(c, turns), key, n, 0) && AllDiffer(key, n + 1)
    requires Free(c, key, n, n) && n < c.maxPendingGlobal
    ensures Crowded(c, Exec(c, turns'), key, n + 1, 0)
  {
    turns' := AskNext(c, turns, key, n, 0);
    CountedNext(c, Exec(c, turns'), key, n);
    turns' := CountOne(c, turns', 0, KeyOf(c, key(n)), key(n));
  }

  lemma NoneAsked(c: Caps, key: Supply)
    ensures Crowded(c, Init(c), key, 0, 0)
  {
    assert Firsts(key, 0) == {};
    forall ip ensures CountOf(Init(c).counts, ip) == |OfIp(c, Firsts(key, 0), ip)| { EmptyOf(c, ip); }
  }

  lemma {:induction false} Fill(c: Caps, key: Supply, n: nat) returns (turns: seq<Turn>)
    requires AllDiffer(key, n) && n <= c.maxPendingGlobal && forall i: nat | i < n :: Free(c, key, i, i)
    ensures Crowded(c, Exec(c, turns), key, n, 0)
  {
    if n == 0 {
      turns := [];
      NoneAsked(c, key);
    } else {
      turns := Fill(c, key, n - 1);
      turns := FillNext(c, turns, key, n - 1);
    }
  }

  lemma {:induction false} Crowd(c: Caps, key: Supply, n: nat, j: nat) returns (turns: seq<Turn>)
    requires AllDiffer(key, n + j) && n < c.maxPendingGlobal && j <= c.workers
    requires (forall i: nat | i < n :: Free(c, key, i, i)) && forall i: nat | n <= i < n + j :: Free(c, key, n, i)
    ensures Crowded(c, Exec(c, turns), key, n, j)
  {
    if j == 0 {
      turns := Fill(c, key, n);
    } else {
      turns := Crowd(c, key, n, j - 1);
      turns := AskNext(c, turns, key, n, j - 1);
    }
  }

  // ----- the whole store -----

  /** As many pairs as the run needs, all of different keys. */
  ghost predicate ManyKeys(c: Caps, key: Supply) {
    forall i: nat, j: nat | i < j < c.maxPendingGlobal + c.workers :: KeyOf(c, key(i)) != KeyOf(c, key(j))
  }

  lemma OtherKeyFree(c: Caps, key: Supply, n: nat, i: nat)
    requires ManyKeys(c, key) && n <= i < c.maxPendingGlobal + c.workers
    ensures Free(c, key, n, i)
  {
    assert OfIp(c, Firsts(key, n), KeyOf(c, key(i))) == {};
  }

  lemma KeysFree(c: Caps, key: Supply, n: nat)
    requires ManyKeys(c, key) && n < c.maxPendingGlobal
    ensures AllDiffer(key, n + c.workers) && (forall i: nat | i < n :: Free(c, key, i, i))
    ensures forall i: nat | n <= i < n + c.workers :: Free(c, key, n, i)
  {
    forall i: nat, j: nat | i < j < n + c.workers ensures key(i) != key(j) {
      assert KeyOf(c, key(i)) != KeyOf(c, key(j));
    }
    forall i: nat | i < n ensures Free(c, key, i, i) { OtherKeyFree(c, key, i, i); }
    forall i: nat | n <= i < n + c.workers ensures Free(c, key, n, i) { OtherKeyFree(c, key, n, i); }
  }

  /** Some interleaving stores as many challenges as the bound says. */
  lemma StoreReached(c: Caps, key: Supply) returns (turns: seq<Turn>)
    requires ManyKeys(c, key)
    ensures |Exec(c, turns).store| == c.maxPendingGlobal + c.workers - 1
  {
    var n := c.maxPendingGlobal - 1;
    KeysFree(c, key, n);
    turns := Crowd(c, key, n, c.workers);
    CrowdedSize(c, Exec(c, turns), key, n, c.workers);
  }

  lemma CrowdedSize(c: Caps, s: Sys, key: Supply, n: nat, j: nat)
    requires Crowded(c, s, key, n, j) && AllDiffer(key, n + j)
    ensures |s.store| == n + j
  {
    FirstsSize(key, n + j);
    assert |s.store| == |s.store.Keys|;
  }

  ghost predicate StoreWithin(c: Caps) {
    forall turns: seq<Turn> :: |Exec(c, turns).store| <= c.maxPendingGlobal
  }

  /** The store stays within maxPendingGlobal on every interleaving if and only if there is
      one worker. */
  lemma StoreWithinExactly(c: Caps, key: Supply)
    requires ManyKeys(c, key)
    ensures StoreWithin(c) <==> c.workers == 1
  {
    if c.workers == 1 {
      forall turns: seq<Turn> ensures |Exec(c, turns).store| <= c.maxPendingGlobal {
        StoreBounded(c, turns, KeyOf(c, key(0)));
      }
    } else {
      var turns := StoreReached(c, key);
      assert |Exec(c, turns).store| > c.maxPendingGlobal;
    }
  }

  // ----- one key -----

  /** As many pairs of one key as the run needs. */
  ghost predicate ManyPairs(c: Caps, key: Supply, ip: Ip) {
    AllDiffer(key, MostOfKey(c)) && forall i: nat | i < MostOfKey(c) :: KeyOf(c, key(i)) == ip
  }

  lemma AllOfKey(c: Caps, key: Supply, ip: Ip, n: nat)
    requires ManyPairs(c, key, ip) && n <= MostOfKey(c)
    ensures OfIp(c, Firsts(key, n), ip) == Firsts(key, n) && |Firsts(key, n)| == n
  {
    FirstsSize(key, n);
  }

  /** Some interleaving stores as many challenges of one key as the bound says. */
  lemma KeyReached(c: Caps, key: Supply, ip: Ip) returns (turns: seq<Turn>)
    requires ManyPairs(c, key, ip)
    ensures Stored(c, Exec(c, turns), ip) == MostOfKey(c)
  {
    var n := MostOfKey(c) - c.workers;
    forall i: nat | i < n ensures Free(c, key, i, i) { AllOfKey(c, key, ip, i); }
    forall i: nat | n <= i < n + c.workers ensures Free(c, key, n, i) { AllOfKey(c, key, ip, n); }
    turns := Crowd(c, key, n, c.workers);
    AllOfKey(c, key, ip, n + c.workers);
  }

  ghost predicate KeyWithin(c: Caps, ip: Ip) {
    forall turns: seq<Turn> :: Stored(c, Exec(c, turns), ip) <= c.maxPendingPerIP
  }

  /** A key's challenges stay within maxPendingPerIP on every interleaving if and only if
      there is one worker or the store cannot hold more than that. */
  lemma KeyWithinExactly(c: Caps, key: Supply, ip: Ip)
    requires ManyPairs(c, key, ip)
    ensures KeyWithin(c, ip) <==> c.workers == 1 || c.maxPendingGlobal + c.workers - 1 <= c.maxPendingPerIP
  {
    if MostOfKey(c) <= c.maxPendingPerIP {
      forall turns: seq<Turn> ensures Stored(c, Exec(c, turns), ip) <= c.maxPendingPerIP {
        StoreBounded(c, turns, ip);
      }
    } else {
      var turns := KeyReached(c, key, ip);
      assert Stored(c, Exec(c, turns), ip) > c.maxPendingPerIP;
    }
  }
}
