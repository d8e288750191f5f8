/** The bounds on a key's rooms and on the in-room challenges are exact: runs that reach
    them.  First the table is filled as far as it goes; then workers visit the rooms, and in
    the end several of them have passed the check before any of them counts. */
module RelayCrowds {
  import opened Text
  import opened RelaySpec
  import opened RelayLocks
  import opened RelaySafety
  import opened RelayShared
  import opened RelayBounds
  import opened RelayOvershoot
  import opened RelayVisits

  /** Besides the rooms and keys for a full table there are keys for a full room. */
  ghost predicate Plenty(c: Limits, name: nat -> Named, addr: nat -> Addr) {
    && (forall i: nat, j: nat | i < j < c.maxRooms + c.workers :: name(i) != name(j))
    && (forall i: nat, j: nat | i < j < c.maxRooms + c.workers + c.maxPendingPerRoom ::
          c.ipKey(addr(i)) != c.ipKey(addr(j)))
  }

  function Guest(c: Limits, addr: nat -> Addr, i: nat): Addr {
    addr(c.maxRooms + c.workers + i)
  }

  // ----- the rooms -----

  predicate LeadsTo(v: View, plan: Plan, i: nat)
    requires plan(i).Complete?
  {
    RoomAt(plan, i) in v.table && v.table[RoomAt(plan, i)] == i
  }

  /** The table has just the first n rooms of the plan. */
  ghost predicate Hall(v: View, plan: Plan, n: nat)
    requires Creations(plan)
  {
    && |v.entries| == n
    && (forall i: nat | i < n :: LeadsTo(v, plan, i))
    && (forall r | r in v.table :: exists i: nat :: i < n && r == RoomAt(plan, i))
  }

  lemma HallSame(v: View, v': View, plan: Plan, n: nat)
    requires Creations(plan) && Hall(v, plan, n) && v'.table == v.table && |v'.entries| == |v.entries|
    ensures Hall(v', plan, n)
  {
    forall i: nat | i < n ensures LeadsTo(v', plan, i) { assert LeadsTo(v, plan, i); }
  }

  ghost predicate Still(c: Limits, v: View) {
    |v.pcs| == c.workers + 2 && forall t | 0 <= t < |v.pcs| :: v.pcs[t] == Idle
  }

  /** A full table, each room with its first client, and nobody at work. */
  ghost predicate Opened(c: Limits, v: View, plan: Plan, addr: nat -> Addr) {
    && PlanFor(c, plan, addr) && Hall(v, plan, MostRooms(c)) && Still(c, v)
    && forall i: nat | i < |v.entries| :: v.entries[i] == Content({addr(i)}, {})
  }

  lemma Open(c: Limits, name: nat -> Named, addr: nat -> Addr) returns (plan: Plan, turns: seq<Turn>)
    requires Plenty(c, name, addr)
    ensures Opened(c, ViewOf(Exec(c, turns)), plan, addr)
  {
    SomeShard(c);
    plan := SomePlan(c, name, addr);
    turns := LeaveAll(c, plan, Parallel(c), Parallel(c));
    BuiltHall(c, Exec(c, turns), plan, addr);
  }

  lemma BuiltHall(c: Limits, s: Sys, plan: Plan, addr: nat -> Addr)
    requires PlanFor(c, plan, addr) && Leaving(c, s, plan, Parallel(c), Parallel(c)) && Parallel(c) >= 1
    ensures Opened(c, ViewOf(s), plan, addr)
  {
    var v, n := ViewOf(s), MostRooms(c);
    forall i: nat | i < n ensures LeadsTo(v, plan, i) && v.entries[i] == Content({addr(i)}, {}) {
      assert RoomBuilt(s, plan, i);
    }
  }

  // ----- one key -----

  /** A room nobody of the key is in. */
  predicate Spare(x: Content, a: Addr) {
    x.chal == {} && x.clients <= {a}
  }

  /** Workers lo to hi - 1 have passed the key's check, each for its own room from k on; the
      rooms before theirs are joined. */
  predicate QueueRoom(x: Content, a: Addr, b: Addr, i: nat, joined: nat, passed: nat) {
    if i < joined then x == Content({b}, {}) else if i < passed then x == NOTHING else Spare(x, a)
  }

  function Passed(plan: Plan, b: Addr, i: nat): Pc
    requires plan(i).Complete?
  {
    Own(Admit(RoomAt(plan, i), b), i, AddClient(false))
  }

  ghost predicate Queue(c: Limits, v: View, plan: Plan, addr: nat -> Addr, b: Addr, k: nat, lo: nat, hi: nat)
    requires Creations(plan)
  {
    && Hall(v, plan, |v.entries|) && |v.pcs| == c.workers + 2 && lo <= hi <= c.workers && k + hi <= |v.entries|
    && (forall i: nat | i < |v.entries| :: QueueRoom(v.entries[i], addr(i), b, i, k + lo, k + hi))
    && (forall t | 0 <= t < |v.pcs| :: v.pcs[t] == if lo <= t < hi then Passed(plan, b, k + t) else Idle)
  }

  /** None of the first n addresses has the key of b, and the rooms differ. */
  ghost predicate Stranger(c: Limits, plan: Plan, addr: nat -> Addr, b: Addr, n: nat)
    requires Creations(plan)
  {
    && (forall i: nat | i < n :: c.ipKey(addr(i)) != c.ipKey(b))
    && (forall i: nat, j: nat | i < j < n :: RoomAt(plan, i) != RoomAt(plan, j))
  }

  function RoomsBelow(plan: Plan, k: nat): set<Room>
    requires forall i: nat | i < k :: plan(i).Complete?
  {
    set i: nat | i < k :: RoomAt(plan, i)
  }

  lemma RoomsBelowNext(plan: Plan, k: nat)
    requires Creations(plan) && forall i: nat | i < k :: RoomAt(plan, i) != RoomAt(plan, k)
    ensures RoomAt(plan, k) !in RoomsBelow(plan, k)
    ensures RoomsBelow(plan, k + 1) == RoomsBelow(plan, k) + {RoomAt(plan, k)}
  {
  }

  lemma {:induction false} RoomsBelowSize(plan: Plan, k: nat)
    requires Creations(plan) && forall i: nat, j: nat | i < j < k :: RoomAt(plan, i) != RoomAt(plan, j)
    ensures |RoomsBelow(plan, k)| == k
  {
    if k == 0 {
    } else {
      RoomsBelowSize(plan, k - 1);
      RoomsBelowNext(plan, k - 1);
    }
  }

  lemma KeyInRoom(c: Limits, x: Content, a: Addr, b: Addr, i: nat, joined: nat, passed: nat)
    requires QueueRoom(x, a, b, i, joined, passed) && c.ipKey(a) != c.ipKey(b)
    ensures HasKey(c, x.clients, c.ipKey(b)) <==> i < joined
  {
    assert i < joined ==> b in x.clients;
  }

  /** The key is in just the joined rooms. */
  lemma QueueKeys(c: Limits, v: View, plan: Plan, addr: nat -> Addr, b: Addr, k: nat, lo: nat, hi: nat)
    requires Creations(plan) && Queue(c, v, plan, addr, b, k, lo, hi) && Stranger(c, plan, addr, b, |v.entries|)
    ensures |KeyRooms(c, v, c.ipKey(b))| == k + lo
  {
    var n := |v.entries|;
    forall i: nat | i < n ensures RoomAt(plan, i) in KeyRooms(c, v, c.ipKey(b)) <==> i < k + lo {
      assert LeadsTo(v, plan, i);
      KeyInRoom(c, v.entries[i], addr(i), b, i, k + lo, k + hi);
    }
    forall r | r in KeyRooms(c, v, c.ipKey(b)) ensures r in RoomsBelow(plan, k + lo) {
      var i: nat :| i < n && r == RoomAt(plan, i);
    }
    assert KeyRooms(c, v, c.ipKey(b)) == RoomsBelow(plan, k + lo);
    RoomsBelowSize(plan, k + lo);
  }

  lemma {:induction false} NoChallenges(entries: seq<Content>)
    requires forall i | 0 <= i < |entries| :: entries[i].chal == {}
    ensures ChalSum(entries) == 0
  {
    if entries == [] {
    } else {
      NoChallenges(entries[..|entries| - 1]);
    }
  }

  lemma QueueClear(c: Limits, v: View, plan: Plan, addr: nat -> Addr, b: Addr, k: nat, j: nat)
    requires Creations(plan) && Queue(c, v, plan, addr, b, k, 0, j) && j < c.workers
    ensures Clear(c, v, j, k + j) && v.pcs[j] == Idle && Doing(v, j, Idle) == v
  {
    assert v.pcs[j := Idle] == v.pcs;
  }

  /** The room is spare, the worker can get there and the key may enter it. */
  ghost predicate CanPass(c: Limits, v: View, w: Tid, r: Named, e: Id, a: Addr, b: Addr) {
    && Clear(c, v, w, e) && w < c.workers && Leads(v, Initial(r, b), e) && Spare(v.entries[e], a)
    && ChalSum(v.entries) == 0 && c.ipKey(a) != c.ipKey(b) && |KeyRooms(c, v, c.ipKey(b))| < c.maxRoomsPerIP
  }

  lemma QueueCanPass(c: Limits, v: View, plan: Plan, addr: nat -> Addr, b: Addr, k: nat, j: nat)
    requires Creations(plan) && Queue(c, v, plan, addr, b, k, 0, j) && Stranger(c, plan, addr, b, |v.entries|)
    requires j < c.workers && k + j < |v.entries| && k < c.maxRoomsPerIP
    ensures CanPass(c, v, j, RoomAt(plan, k + j), k + j, addr(k + j), b) && Doing(v, j, Idle) == v
  {
    QueueClear(c, v, plan, addr, b, k, j);
    QueueKeys(c, v, plan, addr, b, k, 0, j);
    QueueSpare(c, v, plan, addr, b, k, j);
  }

  lemma QueueSpare(c: Limits, v: View, plan: Plan, addr: nat -> Addr, b: Addr, k: nat, j: nat)
    requires Creations(plan) && Queue(c, v, plan, addr, b, k, 0, j) && k + j < |v.entries|
    ensures ChalSum(v.entries) == 0 && LeadsTo(v, plan, k + j) && Spare(v.entries[k + j], addr(k + j))
  {
    forall i | 0 <= i < |v.entries| ensures v.entries[i].chal == {} {
      assert QueueRoom(v.entries[i], addr(i), b, i, k, k + j);
    }
    NoChallenges(v.entries);
    assert QueueRoom(v.entries[k + j], addr(k + j), b, k + j, k, k + j);
  }

  /** A worker challenges b in a spare room and answers for it, up to the listing. */
  lemma PassOne(c: Limits, turns: seq<Turn>, v: View, w: Tid, r: Named, e: Id, a: Addr, b: Addr)
    returns (turns': seq<Turn>)
    requires CanPass(c, v, w, r, e, a, b)
    requires ViewOf(Exec(c, turns)) == Doing(v, w, Idle)
    ensures ViewOf(Exec(c, turns')) == Doing(With(v, e, NOTHING), w, Own(Admit(r, b), e, AddClient(false)))
  {
    var x, op, v1, v2 := v.entries[e], Initial(r, b), With(v, e, NOTHING), With(v, e, Content({}, {b}));
    assert Without(x, a) == NOTHING && Holding(NOTHING, b) == Content({}, {b});
    turns' := Knock(c, turns, v, w, r, e, a, b);
    turns' := AddOne(c, turns', v1, w, op, e);
    WithWith(v, e, NOTHING, Content({}, {b}));
    EmptiedKeys(c, v, e, a, b, v2);
    turns' := Pass(c, turns', v2, w, r, e, b);
    WithWith(v, e, Content({}, {b}), NOTHING);
  }

  lemma EmptiedKeys(c: Limits, v: View, e: Id, a: Addr, b: Addr, v': View)
    requires e < |v.entries| && Spare(v.entries[e], a) && c.ipKey(a) != c.ipKey(b) && v' == With(v, e, Content({}, {b}))
    ensures KeyRooms(c, v', c.ipKey(b)) == KeyRooms(c, v, c.ipKey(b))
  {
  }

  /** One more worker passes the check. */
  lemma PassNext(c: Limits, turns: seq<Turn>, plan: Plan, addr: nat -> Addr, b: Addr, k: nat, j: nat)
    returns (turns': seq<Turn>)
    requires Creations(plan) && Queue(c, ViewOf(Exec(c, turns)), plan, addr, b, k, 0, j)
    requires j < c.workers && k + j < |Exec(c, turns).entries| && k < c.maxRoomsPerIP
    requires Stranger(c, plan, addr, b, |Exec(c, turns).entries|)
    ensures Queue(c, ViewOf(Exec(c, turns')), plan, addr, b, k, 0, j + 1)
    ensures |Exec(c, turns').entries| == |Exec(c, turns).entries|
  {
    var v, e := ViewOf(Exec(c, turns)), k + j;
    QueueCanPass(c, v, plan, addr, b, k, j);
    turns' := PassOne(c, turns, v, j, RoomAt(plan, e), e, addr(e), b);
    assert ViewOf(Exec(c, turns')) == Doing(With(v, e, NOTHING), j, Passed(plan, b, e));
    PassedQueue(c, v, plan, addr, b, k, j);
  }

  lemma PassedQueue(c: Limits, v: View, plan: Plan, addr: nat -> Addr, b: Addr, k: nat, j: nat)
    requires Creations(plan) && Queue(c, v, plan, addr, b, k, 0, j) && j < c.workers && k + j < |v.entries|
    ensures Queue(c, Doing(With(v, k + j, NOTHING), j, Passed(plan, b, k + j)), plan, addr, b, k, 0, j + 1)
  {
    var v' := Doing(With(v, k + j, NOTHING), j, Passed(plan, b, k + j));
    HallSame(v, v', plan, |v.entries|);
    forall i: nat | i < |v.entries| ensures QueueRoom(v'.entries[i], addr(i), b, i, k, k + j + 1) {
      assert QueueRoom(v.entries[i], addr(i), b, i, k, k + j);
    }
  }

  /** One more worker lists its room and leaves. */
  lemma EnterNext(c: Limits, turns: seq<Turn>, plan: Plan, addr: nat -> Addr, b: Addr, k: nat, lo: nat, hi: nat)
    returns (turns': seq<Turn>)
    requires Creations(plan) && Queue(c, ViewOf(Exec(c, turns)), plan, addr, b, k, lo, hi) && lo < hi
    ensures Queue(c, ViewOf(Exec(c, turns')), plan, addr, b, k, lo + 1, hi)
    ensures |Exec(c, turns').entries| == |Exec(c, turns).entries|
  {
    var v, e := ViewOf(Exec(c, turns)), k + lo;
    assert QueueRoom(v.entries[e], addr(e), b, e, k + lo, k + hi);
    assert v.pcs[lo := Passed(plan, b, e)] == v.pcs;
    turns' := ComeIn(c, turns, v, lo, Admit(RoomAt(plan, e), b), e);
    EnteredQueue(c, v, plan, addr, b, k, lo, hi);
  }

  lemma EnteredQueue(c: Limits, v: View, plan: Plan, addr: nat -> Addr, b: Addr, k: nat, lo: nat, hi: nat)
    requires Creations(plan) && Queue(c, v, plan, addr, b, k, lo, hi) && lo < hi
    ensures Queue(c, Doing(With(v, k + lo, Content({b}, {})), lo, Idle), plan, addr, b, k, lo + 1, hi)
  {
    var v' := Doing(With(v, k + lo, Content({b}, {})), lo, Idle);
    HallSame(v, v', plan, |v.entries|);
    forall i: nat | i < |v.entries| ensures QueueRoom(v'.entries[i], addr(i), b, i, k + lo + 1, k + hi) {
      assert QueueRoom(v.entries[i], addr(i), b, i, k + lo, k + hi);
    }
  }

  /** One worker after the other, the key joins the first k rooms. */
  lemma {:induction false} JoinSome(c: Limits, turns: seq<Turn>, plan: Plan, addr: nat -> Addr, b: Addr, k: nat)
    returns (turns': seq<Turn>)
    requires Opened(c, ViewOf(Exec(c, turns)), plan, addr) && Stranger(c, plan, addr, b, |Exec(c, turns).entries|)
    requires k <= c.maxRoomsPerIP && k <= |Exec(c, turns).entries|
    ensures Queue(c, ViewOf(Exec(c, turns')), plan, addr, b, k, 0, 0)
    ensures |Exec(c, turns').entries| == |Exec(c, turns).entries|
  {
    if k == 0 {
      turns' := turns;
      OpenedQueue(c, ViewOf(Exec(c, turns)), plan, addr, b);
    } else {
      turns' := JoinSome(c, turns, plan, addr, b, k - 1);
      turns' := JoinNext(c, turns', plan, addr, b, k - 1);
    }
  }

  lemma OpenedQueue(c: Limits, v: View, plan: Plan, addr: nat -> Addr, b: Addr)
    requires Opened(c, v, plan, addr)
    ensures Queue(c, v, plan, addr, b, 0, 0, 0)
  {
    forall i: nat | i < |v.entries| ensures QueueRoom(v.entries[i], addr(i), b, i, 0, 0) {
      assert v.entries[i] == Content({addr(i)}, {});
    }
  }

  lemma JoinNext(c: Limits, turns: seq<Turn>, plan: Plan, addr: nat -> Addr, b: Addr, k: nat)
    returns (turns': seq<Turn>)
    requires Creations(plan) && Queue(c, ViewOf(Exec(c, turns)), plan, addr, b, k, 0, 0)
    requires k < |Exec(c, turns).entries| && k < c.maxRoomsPerIP
    requires Stranger(c, plan, addr, b, |Exec(c, turns).entries|)
    ensures Queue(c, ViewOf(Exec(c, turns')), plan, addr, b, k + 1, 0, 0)
    ensures |Exec(c, turns').entries| == |Exec(c, turns).entries|
  {
    turns' := PassNext(c, turns, plan, addr, b, k, 0);
    turns' := EnterNext(c, turns', plan, addr, b, k, 0, 1);
    Shift(c, ViewOf(Exec(c, turns')), plan, addr, b, k);
  }

  lemma Shift(c: Limits, v: View, plan: Plan, addr: nat -> Addr, b: Addr, k: nat)
    requires Creations(plan) && Queue(c, v, plan, addr, b, k, 1, 1)
    ensures Queue(c, v, plan, addr, b, k + 1, 0, 0)
  {
  }

  lemma {:induction false} PassSome(c: Limits, turns: seq<Turn>, plan: Plan, addr: nat -> Addr, b: Addr, k: nat, j: nat)
    returns (turns': seq<Turn>)
    requires Opened(c, ViewOf(Exec(c, turns)), plan, addr) && Stranger(c, plan, addr, b, |Exec(c, turns).entries|)
    requires k < c.maxRoomsPerIP && k + j <= |Exec(c, turns).entries| && j <= c.workers
    ensures Queue(c, ViewOf(Exec(c, turns')), plan, addr, b, k, 0, j)
    ensures |Exec(c, turns').entries| == |Exec(c, turns).entries|
  {
    if j == 0 {
      turns' := JoinSome(c, turns, plan, addr, b, k);
    } else {
      turns' := PassSome(c, turns, plan, addr, b, k, j - 1);
      turns' := PassNext(c, turns', plan, addr, b, k, j - 1);
    }
  }

  lemma {:induction false} EnterSome(c: Limits, turns: seq<Turn>, plan: Plan, addr: nat -> Addr, b: Addr, k: nat,
                                     lo: nat, hi: nat)
    returns (turns': seq<Turn>)
    requires Opened(c, ViewOf(Exec(c, turns)), plan, addr) && Stranger(c, plan, addr, b, |Exec(c, turns).entries|)
    requires k < c.maxRoomsPerIP && k + hi <= |Exec(c, turns).entries| && lo <= hi <= c.workers
    ensures Queue(c, ViewOf(Exec(c, turns')), plan, addr, b, k, lo, hi)
    ensures |Exec(c, turns').entries| == |Exec(c, turns).entries|
  {
    if lo == 0 {
      turns' := PassSome(c, turns, plan, addr, b, k, hi);
    } else {
      turns' := EnterSome(c, turns, plan, addr, b, k, lo - 1, hi);
      turns' := EnterNext(c, turns', plan, addr, b, k, lo - 1, hi);
    }
  }

  lemma PlentyStranger(c: Limits, name: nat -> Named, addr: nat -> Addr, plan: Plan)
    requires Plenty(c, name, addr) && PlanFor(c, plan, addr)
    ensures Stranger(c, plan, addr, Guest(c, addr, 0), MostRooms(c))
  {
  }

  /** Some interleaving lists a key in as many rooms as the bound says. */
  lemma KeyRoomsReached(c: Limits, name: nat -> Named, addr: nat -> Addr) returns (turns: seq<Turn>)
    requires Plenty(c, name, addr)
    ensures |KeyPairs(Exec(c, turns).index, c.ipKey(Guest(c, addr, 0)))| == MostKeyRooms(c)
  {
    var b := Guest(c, addr, 0);
    SomeShard(c);
    var plan, open := Open(c, name, addr);
    PlentyStranger(c, name, addr, plan);
    var k := Min(c.maxRoomsPerIP - 1, MostRooms(c));
    var m := Min(c.workers, MostRooms(c) - k);
    turns := EnterSome(c, open, plan, addr, b, k, m, m);
    QueueKeys(c, ViewOf(Exec(c, turns)), plan, addr, b, k, m, m);
    ListedAre(c, turns, c.ipKey(b));
  }

  ghost predicate KeysWithin(c: Limits) {
    forall turns: seq<Turn>, ip: Ip :: |KeyPairs(Exec(c, turns).index, ip)| <= c.maxRoomsPerIP
  }

  /** A key stays within maxRoomsPerIP on every interleaving if and only if there is one
      worker or there cannot be more rooms than that. */
  lemma KeysWithinExactly(c: Limits, name: nat -> Named, addr: nat -> Addr)
    requires Plenty(c, name, addr)
    ensures KeysWithin(c) <==> c.workers == 1 || MostRooms(c) <= c.maxRoomsPerIP
  {
    if MostKeyRooms(c) <= c.maxRoomsPerIP {
      forall turns: seq<Turn>, ip: Ip ensures |KeyPairs(Exec(c, turns).index, ip)| <= c.maxRoomsPerIP {
        KeysAndChallengesBounded(c, turns, ip);
      }
    } else {
      var turns := KeyRoomsReached(c, name, addr);
      assert |KeyPairs(Exec(c, turns).index, c.ipKey(Guest(c, addr, 0)))| > c.maxRoomsPerIP;
    }
  }
}
