/** The bounds on the races of the pre-cookie store are exact: runs that reach them. */
module RelayRaceRuns {
  import opened Text
  import opened RelaySpec
  import opened RelayIndex
  import opened RelayRaces
  import opened RelayRaceBounds

  // ----- one thread at a time -----

  /** The state with thread t at pc. */
  function Doing(s: Sys, t: Tid, pc: Pc): Sys
    requires t < |s.pcs|
  {
    s.(pcs := s.pcs[t := pc])
  }

  /** What a step at pc leaves behind, besides the program counter. */
  ghost function Effect(c: Caps, s: Sys, pc: Pc, ch: Choice): Sys {
    Sys(NextStore(c, s, pc, ch), if pc.Put? then s.next + 1 else s.next, NextCounts(c, s, pc, ch), NextTotal(s, pc),
        if pc.Join? then s.admits[pc.id := AdmitsOf(s, pc.id) + 1] else s.admits, s.pcs)
  }

  /** No other thread holds a store shard. */
  ghost predicate Calm(s: Sys, t: Tid) {
    t < |s.pcs| && forall u | 0 <= u < |s.pcs| && u != t :: !s.pcs[u].Put?
  }

  lemma MoveAt(c: Caps, s: Sys, t: Tid, pc: Pc, ch: Choice)
    requires t < |s.pcs|
    ensures Move(c, Doing(s, t, pc), t, ch) == Doing(Effect(c, s, pc, ch), t, NextPc(c, s, t, pc, ch))
  {
    var pc' := NextPc(c, s, t, pc, ch);
    assert s.pcs[t := pc][t := pc'] == s.pcs[t := pc'];
  }

  lemma Advance(c: Caps, turns: seq<Turn>, s: Sys, t: Tid, pc: Pc, ch: Choice) returns (turns': seq<Turn>)
    requires Calm(s, t) && Exec(c, turns) == Doing(s, t, pc)
    ensures Exec(c, turns') == Doing(Effect(c, s, pc, ch), t, NextPc(c, s, t, pc, ch))
  {
    turns' := turns + [Turn(t, ch)];
    assert turns'[..|turns|] == turns;
    MoveAt(c, s, t, pc, ch);
  }

  function Asking(k: Key): Choice { Choice(Ask(k), Right, {}, k) }
  function Answering(k: Key): Choice { Choice(Answer(k), Right, {}, k) }
  function Cleaning(gone: set<Key>, k: Key): Choice { Choice(Clean, Right, gone, k) }

  /** An idle thread is where it is. */
  lemma Here(s: Sys, t: Tid)
    requires t < |s.pcs|
    ensures Doing(s, t, s.pcs[t]) == s
  {
    assert s.pcs[t := s.pcs[t]] == s.pcs;
  }

  // ----- asking and answering -----

  ghost predicate CanAsk(c: Caps, s: Sys, w: Tid, k: Key) {
    && Calm(s, w) && w < c.workers && s.pcs[w] == Idle && k !in s.store
    && CountOf(s.counts, KeyOf(c, k)) < c.maxPendingPerIP && s.total < c.maxPendingGlobal
  }

  /** The challenge is stored and not yet counted. */
  lemma StoreOne(c: Caps, turns: seq<Turn>, w: Tid, k: Key) returns (turns': seq<Turn>)
    requires CanAsk(c, Exec(c, turns), w, k)
    ensures var s := Exec(c, turns);
      Exec(c, turns') == Doing(s.(store := s.store[k := s.next], next := s.next + 1), w, AddCount(KeyOf(c, k)))
  {
    var s := Exec(c, turns);
    Here(s, w);
    turns' := Advance(c, turns, s, w, Idle, Asking(k));
    turns' := Advance(c, turns', s, w, CheckIp(k), Asking(k));
    turns' := PutOne(c, turns', s, w, k);
  }

  lemma PutOne(c: Caps, turns: seq<Turn>, s: Sys, w: Tid, k: Key) returns (turns': seq<Turn>)
    requires Calm(s, w) && k !in s.store && s.total < c.maxPendingGlobal && Exec(c, turns) == Doing(s, w, Budget(k))
    ensures Exec(c, turns') == Doing(s.(store := s.store[k := s.next], next := s.next + 1), w, AddCount(KeyOf(c, k)))
  {
    turns' := Advance(c, turns, s, w, Budget(k), Asking(k));
    turns' := Advance(c, turns', s, w, Put(k, false), Asking(k));
  }

  lemma CountOne(c: Caps, turns: seq<Turn>, w: Tid, ip: Ip, k: Key) returns (turns': seq<Turn>)
    requires var s := Exec(c, turns); Calm(s, w) && s.pcs[w] == AddCount(ip)
    ensures var s := Exec(c, turns);
      Exec(c, turns') == Doing(s.(counts := Adjust(s.counts, ip, 1), total := s.total + 1), w, Idle)
  {
    var s := Exec(c, turns);
    Here(s, w);
    turns' := Advance(c, turns, s, w, AddCount(ip), Asking(k));
    turns' := TotalOne(c, turns', s.(counts := Adjust(s.counts, ip, 1)), w, k);
  }

  lemma TotalOne(c: Caps, turns: seq<Turn>, s: Sys, w: Tid, k: Key) returns (turns': seq<Turn>)
    requires Calm(s, w) && Exec(c, turns) == Doing(s, w, AddTotal)
    ensures Exec(c, turns') == Doing(s.(total := s.total + 1), w, Idle)
  {
    turns' := Advance(c, turns, s, w, AddTotal, Asking(k));
  }

  lemma LookOne(c: Caps, turns: seq<Turn>, w: Tid, k: Key) returns (turns': seq<Turn>)
    requires var s := Exec(c, turns); Calm(s, w) && w < c.workers && s.pcs[w] == Idle && k in s.store
    ensures var s := Exec(c, turns); Exec(c, turns') == Doing(s, w, Found(k, s.store[k]))
  {
    var s := Exec(c, turns);
    Here(s, w);
    turns' := Advance(c, turns, s, w, Idle, Answering(k));
    turns' := Advance(c, turns', s, w, Lookup(k), Answering(k));
  }

  function Admitted(s: Sys, id: Id): Sys {
    s.(admits := s.admits[id := AdmitsOf(s, id) + 1])
  }

  lemma NothingRemoved<K, V>(m: map<K, V>, keys: set<K>)
    requires m.Keys !! keys
    ensures m - keys == m
  {
  }

  lemma JoinOne(c: Caps, turns: seq<Turn>, s: Sys, w: Tid, k: Key, id: Id) returns (turns': seq<Turn>)
    requires Calm(s, w) && Exec(c, turns) == Doing(s, w, Join(id))
    ensures Exec(c, turns') == Doing(Admitted(s, id), w, Idle)
  {
    turns' := Advance(c, turns, s, w, Join(id), Answering(k));
  }

  /** The worker that still finds the challenge takes it out of the store. */
  lemma RemoveFirst(c: Caps, turns: seq<Turn>, w: Tid, k: Key, id: Id) returns (turns': seq<Turn>)
    requires var s := Exec(c, turns); Calm(s, w) && s.pcs[w] == Found(k, id) && k in s.store
    ensures var s := Exec(c, turns);
      Exec(c, turns') == Doing(s.(store := s.store - {k}), w, SubCount(KeyOf(c, k), Some(id)))
  {
    var s := Exec(c, turns);
    Here(s, w);
    turns' := Advance(c, turns, s, w, Found(k, id), Answering(k));
    turns' := Advance(c, turns', s, w, Remove(k, id, false), Answering(k));
  }

  /** ... and out of the counts, and admits. */
  lemma AdmitFirst(c: Caps, turns: seq<Turn>, s: Sys, w: Tid, k: Key, id: Id) returns (turns': seq<Turn>)
    requires Calm(s, w) && Exec(c, turns) == Doing(s, w, SubCount(KeyOf(c, k), Some(id)))
    ensures var s' := s.(counts := Adjust(s.counts, KeyOf(c, k), -1), total := s.total - 1);
      Exec(c, turns') == Doing(Admitted(s', id), w, Idle)
  {
    turns' := Advance(c, turns, s, w, SubCount(KeyOf(c, k), Some(id)), Answering(k));
    var s1 := s.(counts := Adjust(s.counts, KeyOf(c, k), -1));
    turns' := Advance(c, turns', s1, w, SubTotal(Some(id)), Answering(k));
    turns' := JoinOne(c, turns', s1.(total := s.total - 1), w, k, id);
  }

  /** The others admit all the same. */
  lemma AdmitLater(c: Caps, turns: seq<Turn>, w: Tid, k: Key, id: Id) returns (turns': seq<Turn>)
    requires var s := Exec(c, turns); Calm(s, w) && s.pcs[w] == Found(k, id) && k !in s.store
    ensures Exec(c, turns') == Doing(Admitted(Exec(c, turns), id), w, Idle)
  {
    var s := Exec(c, turns);
    Here(s, w);
    NothingRemoved(s.store, {k});
    turns' := Advance(c, turns, s, w, Found(k, id), Answering(k));
    turns' := Advance(c, turns', s, w, Remove(k, id, false), Answering(k));
    turns' := JoinOne(c, turns', s, w, k, id);
  }

  // ----- one challenge admits once per worker -----

  /** Workers below n are at pc, the others and the sweeper are idle. */
  ghost predicate Front(c: Caps, s: Sys, pc: Pc, n: nat) {
    |s.pcs| == c.workers + 1 && n <= c.workers && forall t | 0 <= t < |s.pcs| :: s.pcs[t] == if t < n then pc else Idle
  }

  /** Workers below n are done, the others are still at pc. */
  ghost predicate Back(c: Caps, s: Sys, pc: Pc, n: nat) {
    && |s.pcs| == c.workers + 1 && n <= c.workers
    && forall t | 0 <= t < |s.pcs| :: s.pcs[t] == if n <= t < c.workers then pc else Idle
  }

  lemma FrontGrows(c: Caps, s: Sys, pc: Pc, n: nat)
    requires Front(c, s, pc, n) && n < c.workers && !pc.Put?
    ensures Calm(s, n) && s.pcs[n] == Idle && Front(c, Doing(s, n, pc), pc, n + 1)
  {
  }

  lemma BackShrinks(c: Caps, s: Sys, pc: Pc, n: nat)
    requires Back(c, s, pc, n) && n < c.workers && !pc.Put?
    ensures Calm(s, n) && s.pcs[n] == pc && Back(c, Doing(s, n, Idle), pc, n + 1)
  {
  }

  /** Workers below n have found challenge 0 under k. */
  ghost predicate Looking(c: Caps, s: Sys, k: Key, n: nat) {
    Front(c, s, Found(k, 0), n) && k in s.store && s.store[k] == 0 && s.admits == map[]
  }

  lemma AskAlone(c: Caps, k: Key) returns (turns: seq<Turn>)
    ensures Looking(c, Exec(c, turns), k, 0)
  {
    turns := StoreOne(c, [], 0, k);
    turns := CountOne(c, turns, 0, KeyOf(c, k), k);
  }

  lemma {:induction false} LookAll(c: Caps, k: Key, n: nat) returns (turns: seq<Turn>)
    requires n <= c.workers
    ensures Looking(c, Exec(c, turns), k, n)
  {
    if n == 0 {
      turns := AskAlone(c, k);
    } else {
      turns := LookAll(c, k, n - 1);
      FrontGrows(c, Exec(c, turns), Found(k, 0), n - 1);
      turns := LookOne(c, turns, n - 1, k);
    }
  }

  /** Workers below n have admitted on challenge 0, the others are about to. */
  ghost predicate Admitting(c: Caps, s: Sys, k: Key, n: nat) {
    Back(c, s, Found(k, 0), n) && (k in s.store <==> n == 0) && AdmitsOf(s, 0) == n
  }

  lemma {:induction false} AdmitAll(c: Caps, k: Key, n: nat) returns (turns: seq<Turn>)
    requires n <= c.workers
    ensures Admitting(c, Exec(c, turns), k, n)
  {
    if n == 0 {
      turns := LookAll(c, k, c.workers);
    } else {
      turns := AdmitAll(c, k, n - 1);
      BackShrinks(c, Exec(c, turns), Found(k, 0), n - 1);
      if n == 1 {
        var s := Exec(c, turns);
        turns := RemoveFirst(c, turns, 0, k, 0);
        turns := AdmitFirst(c, turns, s.(store := s.store - {k}), 0, k, 0);
      } else {
        turns := AdmitLater(c, turns, n - 1, k, 0);
      }
    }
  }

  /** Some interleaving admits every worker's packet on the same challenge. */
  lemma AdmissionsReached(c: Caps, k: Key) returns (turns: seq<Turn>)
    ensures AllIdle(Exec(c, turns)) && AdmitsOf(Exec(c, turns), 0) == c.workers
  {
    turns := AdmitAll(c, k, c.workers);
  }

  ghost predicate AdmitsOnce(c: Caps) {
    forall turns: seq<Turn>, id: Id :: AdmitsOf(Exec(c, turns), id) <= 1
  }

  /** So a challenge admits at most once under every interleaving exactly when there is one worker. */
  lemma OnceExactly(c: Caps, k: Key)
    ensures AdmitsOnce(c) <==> c.workers == 1
  {
    if c.workers == 1 {
      forall turns: seq<Turn>, id: Id ensures AdmitsOf(Exec(c, turns), id) <= 1 { AdmissionsBounded(c, turns, id); }
    } else {
      var turns := AdmissionsReached(c, k);
      assert AdmitsOf(Exec(c, turns), 0) > 1;
    }
  }

  // ----- a sweep between an insertion and its count -----

  /** Different addresses of one key, for each worker one. */
  ghost predicate OneKey(c: Caps, ip: Ip, src: nat -> Addr) {
    && (forall i | 0 <= i < c.workers :: c.ipKey(src(i)) == ip)
    && (forall i, j | 0 <= i < j < c.workers :: src(i) != src(j))
  }

  function Pairs(room: Room, src: nat -> Addr, n: nat): set<Key> {
    set i | 0 <= i < n :: Key(room, src(i))
  }

  /** n challenges are stored and none is counted. */
  ghost predicate Storing(c: Caps, s: Sys, room: Room, ip: Ip, src: nat -> Addr, n: nat) {
    Front(c, s, AddCount(ip), n) && s.store.Keys == Pairs(room, src, n) && s.counts == map[] && s.total == 0
  }

  lemma PairsNext(room: Room, src: nat -> Addr, n: nat)
    requires forall i | 0 <= i < n :: src(i) != src(n)
    ensures Key(room, src(n)) !in Pairs(room, src, n)
      && Pairs(room, src, n + 1) == Pairs(room, src, n) + {Key(room, src(n))}
  {
  }

  /** The next worker can store its challenge, and stops before it counts it. */
  lemma StoreNext(c: Caps, s: Sys, room: Room, ip: Ip, src: nat -> Addr, n: nat)
    requires OneKey(c, ip, src) && n < c.workers && Storing(c, s, room, ip, src, n)
    ensures var k := Key(room, src(n));
      var s' := s.(store := s.store[k := s.next], next := s.next + 1);
      CanAsk(c, s, n, k) && Storing(c, Doing(s', n, AddCount(KeyOf(c, k))), room, ip, src, n + 1)
  {
    FrontGrows(c, s, AddCount(ip), n);
    PairsNext(room, src, n);
  }

  lemma StoreStep(c: Caps, turns: seq<Turn>, room: Room, ip: Ip, src: nat -> Addr, n: nat) returns (turns': seq<Turn>)
    requires OneKey(c, ip, src) && n < c.workers && Storing(c, Exec(c, turns), room, ip, src, n)
    ensures Storing(c, Exec(c, turns'), room, ip, src, n + 1)
  {
    StoreNext(c, Exec(c, turns), room, ip, src, n);
    turns' := StoreOne(c, turns, n, Key(room, src(n)));
  }

  lemma NoneStored(c: Caps, room: Room, ip: Ip, src: nat -> Addr)
    ensures Storing(c, Exec(c, []), room, ip, src, 0)
  {
    assert Pairs(room, src, 0) == {};
  }

  lemma {:induction false} StoreAll(c: Caps, room: Room, ip: Ip, src: nat -> Addr, n: nat) returns (turns: seq<Turn>)
    requires OneKey(c, ip, src) && n <= c.workers
    ensures Storing(c, Exec(c, turns), room, ip, src, n)
  {
    if n == 0 {
      turns := [];
      NoneStored(c, room, ip, src);
    } else {
      turns := StoreAll(c, room, ip, src, n - 1);
      turns := StoreStep(c, turns, room, ip, src, n - 1);
    }
  }

  lemma SweepIdle(c: Caps, s: Sys, i: nat, ch: Choice)
    requires ch.gone == {}
    ensures Effect(c, s, Sweep(i), ch) == s && Effect(c, s, Return(i, {}), ch) == s
    ensures NextPc(c, s, c.workers, Sweep(i), ch) == if i < c.shards then Return(i, {}) else Idle
  {
    assert Swept(c, s, i, ch) == {};
    NothingRemoved(s.store, {});
  }

  /** A shard without expired challenges. */
  lemma SweepNone(c: Caps, turns: seq<Turn>, s: Sys, i: nat, k: Key) returns (turns': seq<Turn>)
    requires Calm(s, c.workers) && i < c.shards && Exec(c, turns) == Doing(s, c.workers, Sweep(i))
    ensures Exec(c, turns') == Doing(s, c.workers, Sweep(i + 1))
  {
    var ch := Cleaning({}, k);
    SweepIdle(c, s, i, ch);
    turns' := Advance(c, turns, s, c.workers, Sweep(i), ch);
    turns' := Advance(c, turns', s, c.workers, Return(i, {}), ch);
  }

  lemma {:induction false} SweepOver(c: Caps, turns: seq<Turn>, s: Sys, i: nat, j: nat, k: Key)
    returns (turns': seq<Turn>)
    requires Calm(s, c.workers) && i <= j <= c.shards && Exec(c, turns) == Doing(s, c.workers, Sweep(i))
    ensures Exec(c, turns') == Doing(s, c.workers, Sweep(j))
    decreases j - i
  {
    if i == j {
      turns' := turns;
    } else {
      turns' := SweepNone(c, turns, s, i, k);
      turns' := SweepOver(c, turns', s, i + 1, j, k);
    }
  }

  /** The whole store expires, in one shard and under one key. */
  lemma SweepShard(c: Caps, turns: seq<Turn>, s: Sys, i: nat, k: Key) returns (turns': seq<Turn>)
    requires Calm(s, c.workers) && i < c.shards && Exec(c, turns) == Doing(s, c.workers, Sweep(i))
    requires forall q | q in s.store :: StoreShard(c, q) == i
    ensures Exec(c, turns') == Doing(s.(store := map[]), c.workers, Return(i, s.store.Keys))
  {
    var ch := Cleaning(s.store.Keys, k);
    assert Swept(c, s, i, ch) == s.store.Keys;
    assert s.store - s.store.Keys == map[];
    turns' := Advance(c, turns, s, c.workers, Sweep(i), ch);
  }

  lemma WholeBatch(c: Caps, gone: set<Key>, ip: Ip, ch: Choice)
    requires gone != {} && forall q | q in gone :: KeyOf(c, q) == ip
    ensures KeyOf(c, Pick(gone, ch.key)) == ip && Batch(c, gone, ch) == gone
  {
  }

  /** The counts hold nothing yet, so the decrement is clamped and only the total remembers it. */
  lemma ReturnAll(c: Caps, turns: seq<Turn>, s: Sys, i: nat, gone: set<Key>, ip: Ip, k: Key) returns (turns': seq<Turn>)
    requires Calm(s, c.workers) && Exec(c, turns) == Doing(s, c.workers, Return(i, gone))
    requires gone != {} && (forall q | q in gone :: KeyOf(c, q) == ip) && s.counts == map[]
    ensures Exec(c, turns') == Doing(s.(total := s.total - |gone|), c.workers, Return(i, {}))
  {
    var ch := Cleaning({}, k);
    WholeBatch(c, gone, ip, ch);
    assert gone - gone == {} && Adjust(s.counts, ip, -|gone|) == map[];
    turns' := Advance(c, turns, s, c.workers, Return(i, gone), ch);
    turns' := Advance(c, turns', s, c.workers, ReturnTotal(i, {}, |gone|), ch);
  }

  /** From n stored challenges to none, with every worker still about to count its own. */
  lemma SweepAll(c: Caps, turns: seq<Turn>, room: Room, ip: Ip, src: nat -> Addr) returns (turns': seq<Turn>)
    requires OneKey(c, ip, src) && Storing(c, Exec(c, turns), room, ip, src, c.workers)
    ensures var s := Exec(c, turns);
      Exec(c, turns') == s.(store := map[], total := -|s.store|)
  {
    var s, h, k := Exec(c, turns), c.hash(room) % c.shards, Key(room, src(0));
    StoredTogether(c, s, room, ip, src);
    turns' := Begin(c, turns, k);
    turns' := SweepOver(c, turns', s, 0, h, k);
    turns' := SweepShard(c, turns', s, h, k);
    turns' := ReturnAll(c, turns', s.(store := map[]), h, s.store.Keys, ip, k);
    turns' := Finish(c, turns', s.(store := map[], total := -|s.store|), h, k);
    Here(s, c.workers);
  }

  lemma StoredTogether(c: Caps, s: Sys, room: Room, ip: Ip, src: nat -> Addr)
    requires OneKey(c, ip, src) && Storing(c, s, room, ip, src, c.workers)
    ensures Calm(s, c.workers) && s.pcs[c.workers] == Idle && s.store.Keys != {}
    ensures forall q | q in s.store :: StoreShard(c, q) == c.hash(room) % c.shards && KeyOf(c, q) == ip
  {
    assert Key(room, src(0)) in s.store;
  }

  lemma Begin(c: Caps, turns: seq<Turn>, k: Key) returns (turns': seq<Turn>)
    requires Calm(Exec(c, turns), c.workers) && Exec(c, turns).pcs[c.workers] == Idle
    ensures Exec(c, turns') == Doing(Exec(c, turns), c.workers, Sweep(0))
  {
    var s := Exec(c, turns);
    Here(s, c.workers);
    turns' := Advance(c, turns, s, c.workers, Idle, Cleaning({}, k));
  }

  lemma Finish(c: Caps, turns: seq<Turn>, s: Sys, h: nat, k: Key) returns (turns': seq<Turn>)
    requires Calm(s, c.workers) && h < c.shards && Exec(c, turns) == Doing(s, c.workers, Return(h, {}))
    ensures Exec(c, turns') == Doing(s, c.workers, Idle)
  {
    var ch := Cleaning({}, k);
    turns' := Advance(c, turns, s, c.workers, Return(h, {}), ch);
    turns' := SweepOver(c, turns', s, h + 1, c.shards, k);
    SweepIdle(c, s, c.shards, ch);
    turns' := Advance(c, turns', s, c.workers, Sweep(c.shards), ch);
  }

  /** n workers have counted challenges that are no longer there. */
  ghost predicate Counting(c: Caps, s: Sys, ip: Ip, n: nat) {
    Back(c, s, AddCount(ip), n) && s.store == map[] && CountOf(s.counts, ip) == n && s.total == n - c.workers
  }

  lemma {:induction false} CountAll(c: Caps, room: Room, ip: Ip, src: nat -> Addr, n: nat) returns (turns: seq<Turn>)
    requires OneKey(c, ip, src) && n <= c.workers
    ensures Counting(c, Exec(c, turns), ip, n)
  {
    if n == 0 {
      turns := StoreAll(c, room, ip, src, c.workers);
      AllDifferent(c, room, ip, src, c.workers);
      turns := SweepAll(c, turns, room, ip, src);
    } else {
      turns := CountAll(c, room, ip, src, n - 1);
      BackShrinks(c, Exec(c, turns), AddCount(ip), n - 1);
      turns := CountOne(c, turns, n - 1, ip, Key(room, src(0)));
    }
  }

  lemma {:induction false} AllDifferent(c: Caps, room: Room, ip: Ip, src: nat -> Addr, n: nat)
    requires OneKey(c, ip, src) && n <= c.workers
    ensures |Pairs(room, src, n)| == n
  {
    if n == 0 {
    } else {
      AllDifferent(c, room, ip, src, n - 1);
      assert Pairs(room, src, n) == Pairs(room, src, n - 1) + {Key(room, src(n - 1))};
    }
  }

  /** Some interleaving leaves a key's count at the number of workers over an empty store,
      although the total is right. */
  lemma CountsReached(c: Caps, room: Room, ip: Ip, src: nat -> Addr) returns (turns: seq<Turn>)
    requires OneKey(c, ip, src)
    ensures var s := Exec(c, turns);
      AllIdle(s) && s.store == map[] && CountOf(s.counts, ip) == c.workers && s.total == 0
  {
    turns := CountAll(c, room, ip, src, c.workers);
  }
}
