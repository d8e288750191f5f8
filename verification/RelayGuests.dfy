/** The bound on the in-room challenges is exact: a run that reaches it.  Challenges are left
    in the rooms up to one below the cap, and then one more per worker at once. */
module RelayGuests {
  import opened Text
  import opened RelaySpec
  import opened RelayLocks
  import opened RelaySafety
  import opened RelayShared
  import opened RelayBounds
  import opened RelayOvershoot
  import opened RelayVisits
  import opened RelayCrowds

  /** The first k guests. */
  function Guests(c: Limits, addr: nat -> Addr, k: nat): set<Addr> {
    set i: nat | i < k :: Guest(c, addr, i)
  }

  lemma GuestsNext(c: Limits, name: nat -> Named, addr: nat -> Addr, k: nat)
    requires Plenty(c, name, addr) && k < c.maxPendingPerRoom
    ensures Guest(c, addr, k) !in Guests(c, addr, k)
    ensures Guests(c, addr, k + 1) == Guests(c, addr, k) + {Guest(c, addr, k)}
  {
  }

  /** A room that holds challenges to the first guests. */
  predicate GuestRoom(c: Limits, x: Content, addr: nat -> Addr, a: Addr) {
    x.chal == Guests(c, addr, |x.chal|) && x.clients <= {a}
  }

  function Next(c: Limits, x: Content, addr: nat -> Addr): Addr {
    Guest(c, addr, |x.chal|)
  }

  /** The worker has found space for the next guest of its room. */
  function Passed(c: Limits, plan: Plan, x: Content, addr: nat -> Addr, i: nat): Pc
    requires plan(i).Complete?
  {
    Own(Initial(RoomAt(plan, i), Next(c, x, addr)), i, AddPend)
  }

  /** Workers lo to hi - 1 have, each in the room of its own number. */
  ghost predicate Party(c: Limits, v: View, plan: Plan, addr: nat -> Addr, lo: nat, hi: nat)
    requires Creations(plan)
  {
    && Hall(v, plan, |v.entries|) && |v.pcs| == c.workers + 2 && lo <= hi <= c.workers && hi <= |v.entries|
    && (forall i: nat | i < |v.entries| :: GuestRoom(c, v.entries[i], addr, addr(i)))
    && (forall t | 0 <= t < |v.pcs| ::
          v.pcs[t] == if lo <= t < hi then Passed(c, plan, v.entries[t], addr, t) else Idle)
  }

  lemma PartyWith(c: Limits, v: View, plan: Plan, addr: nat -> Addr, lo: nat, hi: nat, e: Id, x: Content)
    requires Creations(plan) && Party(c, v, plan, addr, lo, hi) && e < |v.entries| && GuestRoom(c, x, addr, addr(e))
    requires lo <= e < hi ==> |x.chal| == |v.entries[e].chal|
    ensures Party(c, With(v, e, x), plan, addr, lo, hi)
  {
    var v' := With(v, e, x);
    HallSame(v, v', plan, |v.entries|);
    forall i: nat | i < |v'.entries| ensures GuestRoom(c, v'.entries[i], addr, addr(i)) {
      assert GuestRoom(c, v.entries[i], addr, addr(i));
    }
  }

  /** The room has space for its next guest, and so has the relay. */
  ghost predicate Welcome(c: Limits, v: View, e: Id) {
    e < |v.entries| && |v.entries[e].chal| < c.maxPendingPerRoom && ChalSum(v.entries) < c.maxInRoomPending
  }

  /** The room once its first client is gone. */
  function Cleared(v: View, e: Id, addr: nat -> Addr): Content
    requires e < |v.entries|
  {
    Without(v.entries[e], addr(e))
  }

  lemma NextFits(c: Limits, name: nat -> Named, addr: nat -> Addr, v: View, e: Id)
    requires Plenty(c, name, addr) && Welcome(c, v, e) && GuestRoom(c, v.entries[e], addr, addr(e))
    ensures HasSpace(c, v, e, addr(e), Next(c, v.entries[e], addr))
    ensures GuestRoom(c, Cleared(v, e, addr), addr, addr(e)) && |Cleared(v, e, addr).chal| == |v.entries[e].chal|
  {
    var x := v.entries[e];
    GuestsNext(c, name, addr, |x.chal|);
    assert Without(x, addr(e)).clients == {};
  }

  lemma PartyClear(c: Limits, v: View, plan: Plan, addr: nat -> Addr, lo: nat, hi: nat, w: Tid, e: Id)
    requires Creations(plan) && Party(c, v, plan, addr, lo, hi) && w < c.workers && (w < lo || hi <= w)
    requires e < |v.entries| && (e < lo || hi <= e)
    ensures Clear(c, v, w, e) && Doing(v, w, Idle) == v && LeadsTo(v, plan, e)
  {
    assert v.pcs[w := Idle] == v.pcs;
  }

  /** Worker w finds space in room e. */
  lemma FindSpace(c: Limits, turns: seq<Turn>, name: nat -> Named, addr: nat -> Addr, plan: Plan, lo: nat, hi: nat,
                  w: Tid, e: Id)
    returns (turns': seq<Turn>)
    requires Plenty(c, name, addr) && Creations(plan) && Party(c, ViewOf(Exec(c, turns)), plan, addr, lo, hi)
    requires w < c.workers && (w < lo || hi <= w) && (e < lo || hi <= e) && Welcome(c, ViewOf(Exec(c, turns)), e)
    ensures var v := ViewOf(Exec(c, turns));
      ViewOf(Exec(c, turns')) == Doing(With(v, e, Cleared(v, e, addr)), w, Passed(c, plan, v.entries[e], addr, e))
  {
    var v := ViewOf(Exec(c, turns));
    assert GuestRoom(c, v.entries[e], addr, addr(e));
    NextFits(c, name, addr, v, e);
    PartyClear(c, v, plan, addr, lo, hi, w, e);
    turns' := Knock(c, turns, v, w, RoomAt(plan, e), e, addr(e), Next(c, v.entries[e], addr));
  }

  /** The room with its next guest. */
  function Joined(c: Limits, x: Content, addr: nat -> Addr): Content {
    Holding(x, Next(c, x, addr))
  }

  lemma JoinedRoom(c: Limits, name: nat -> Named, addr: nat -> Addr, x: Content, a: Addr)
    requires Plenty(c, name, addr) && GuestRoom(c, x, addr, a) && |x.chal| < c.maxPendingPerRoom
    ensures GuestRoom(c, Joined(c, x, addr), addr, a) && |Joined(c, x, addr).chal| == |x.chal| + 1
  {
    GuestsNext(c, name, addr, |x.chal|);
  }

  // ----- filling the rooms -----

  /** The first m rooms keep one place free. */
  function Cap(c: Limits, m: nat, i: nat): int {
    c.maxPendingPerRoom - if i < m then 1 else 0
  }

  ghost predicate Seated(c: Limits, entries: seq<Content>, m: nat, n: nat) {
    ChalSum(entries) == n && forall i: nat | i < |entries| :: |entries[i].chal| <= Cap(c, m, i)
  }

  /** If all rooms are at their caps, there are this many. */
  lemma {:induction false} AllTaken(c: Limits, entries: seq<Content>, m: nat)
    requires forall i: nat | i < |entries| :: |entries[i].chal| >= Cap(c, m, i)
    ensures ChalSum(entries) >= |entries| * c.maxPendingPerRoom - Min(m, |entries|)
  {
    if entries == [] {
    } else {
      var k := |entries| - 1;
      AllTaken(c, entries[..k], m);
      OneMoreTimes(k, c.maxPendingPerRoom);
      assert |entries[k].chal| >= Cap(c, m, k);
    }
  }

  lemma SomePlace(c: Limits, entries: seq<Content>, m: nat) returns (e: nat)
    requires ChalSum(entries) < |entries| * c.maxPendingPerRoom - m && m <= |entries|
    ensures e < |entries| && |entries[e].chal| < Cap(c, m, e)
  {
    if i: nat :| i < |entries| && |entries[i].chal| < Cap(c, m, i) {
      e := i;
    } else {
      AllTaken(c, entries, m);
    }
  }

  /** One more guest, by the first worker alone. */
  lemma SeatOne(c: Limits, turns: seq<Turn>, name: nat -> Named, addr: nat -> Addr, plan: Plan, e: Id)
    returns (turns': seq<Turn>)
    requires Plenty(c, name, addr) && Creations(plan) && Party(c, ViewOf(Exec(c, turns)), plan, addr, 0, 0)
    requires Welcome(c, ViewOf(Exec(c, turns)), e)
    ensures Party(c, ViewOf(Exec(c, turns')), plan, addr, 0, 0)
    ensures var s := Exec(c, turns);
      Exec(c, turns').entries == s.entries[e := Joined(c, Cleared(ViewOf(s), e, addr), addr)]
  {
    var v := ViewOf(Exec(c, turns));
    var x := Cleared(v, e, addr);
    assert GuestRoom(c, v.entries[e], addr, addr(e));
    NextFits(c, name, addr, v, e);
    turns' := FindSpace(c, turns, name, addr, plan, 0, 0, 0, e);
    turns' := AddOne(c, turns', With(v, e, x), 0, Initial(RoomAt(plan, e), Next(c, x, addr)), e);
    WithWith(v, e, x, Joined(c, x, addr));
    JoinedRoom(c, name, addr, x, addr(e));
    PartyWith(c, v, plan, addr, 0, 0, e, Joined(c, x, addr));
    PartyClear(c, With(v, e, Joined(c, x, addr)), plan, addr, 0, 0, 0, e);
  }

  lemma SeatedNext(c: Limits, v: View, addr: nat -> Addr, m: nat, n: nat, e: Id, y: Content)
    requires Seated(c, v.entries, m, n) && e < |v.entries| && |v.entries[e].chal| < Cap(c, m, e)
    requires |y.chal| == |v.entries[e].chal| + 1
    ensures Seated(c, v.entries[e := y], m, n + 1)
  {
    ChalUpdate(v.entries, e, y);
  }

  ghost predicate Fits(c: Limits, n: nat, m: nat, rooms: nat) {
    n <= rooms * c.maxPendingPerRoom - m && m <= rooms && n <= c.maxInRoomPending
  }

  lemma {:induction false} SeatSome(c: Limits, turns: seq<Turn>, name: nat -> Named, addr: nat -> Addr, plan: Plan,
                                    m: nat, n: nat)
    returns (turns': seq<Turn>)
    requires Plenty(c, name, addr) && Opened(c, ViewOf(Exec(c, turns)), plan, addr)
    requires Fits(c, n, m, |Exec(c, turns).entries|)
    ensures Party(c, ViewOf(Exec(c, turns')), plan, addr, 0, 0) && Seated(c, Exec(c, turns').entries, m, n)
    ensures |Exec(c, turns').entries| == |Exec(c, turns).entries|
  {
    if n == 0 {
      turns' := turns;
      OpenedParty(c, ViewOf(Exec(c, turns)), plan, addr, m);
    } else {
      turns' := SeatSome(c, turns, name, addr, plan, m, n - 1);
      turns' := SeatNext(c, turns', name, addr, plan, m, n - 1);
    }
  }

  lemma OpenedParty(c: Limits, v: View, plan: Plan, addr: nat -> Addr, m: nat)
    requires Opened(c, v, plan, addr)
    ensures Party(c, v, plan, addr, 0, 0) && Seated(c, v.entries, m, 0)
  {
    assert Guests(c, addr, 0) == {};
    NoChallenges(v.entries);
  }

  lemma SeatNext(c: Limits, turns: seq<Turn>, name: nat -> Named, addr: nat -> Addr, plan: Plan, m: nat, n: nat)
    returns (turns': seq<Turn>)
    requires Plenty(c, name, addr) && Creations(plan) && Party(c, ViewOf(Exec(c, turns)), plan, addr, 0, 0)
    requires Seated(c, Exec(c, turns).entries, m, n) && Fits(c, n + 1, m, |Exec(c, turns).entries|)
    ensures Party(c, ViewOf(Exec(c, turns')), plan, addr, 0, 0) && Seated(c, Exec(c, turns').entries, m, n + 1)
    ensures |Exec(c, turns').entries| == |Exec(c, turns).entries|
  {
    var v := ViewOf(Exec(c, turns));
    var e := SomePlace(c, v.entries, m);
    assert GuestRoom(c, v.entries[e], addr, addr(e));
    NextFits(c, name, addr, v, e);
    JoinedRoom(c, name, addr, Cleared(v, e, addr), addr(e));
    turns' := SeatOne(c, turns, name, addr, plan, e);
    SeatedNext(c, v, addr, m, n, e, Joined(c, Cleared(v, e, addr), addr));
  }

  // ----- one more per worker -----

  /** The first m rooms, from lo on, still have a free place. */
  ghost predicate Places(c: Limits, entries: seq<Content>, lo: nat, m: nat, n: nat) {
    && m <= |entries| && ChalSum(entries) == n
    && forall i: nat | lo <= i < m :: |entries[i].chal| < c.maxPendingPerRoom
  }

  lemma FindNext(c: Limits, turns: seq<Turn>, name: nat -> Named, addr: nat -> Addr, plan: Plan, j: nat, m: nat, n: nat)
    returns (turns': seq<Turn>)
    requires Plenty(c, name, addr) && Creations(plan) && Party(c, ViewOf(Exec(c, turns)), plan, addr, 0, j)
    requires Places(c, Exec(c, turns).entries, 0, m, n) && j < m <= c.workers && n < c.maxInRoomPending
    ensures Party(c, ViewOf(Exec(c, turns')), plan, addr, 0, j + 1) && Places(c, Exec(c, turns').entries, 0, m, n)
    ensures |Exec(c, turns').entries| == |Exec(c, turns).entries|
  {
    var v := ViewOf(Exec(c, turns));
    assert GuestRoom(c, v.entries[j], addr, addr(j));
    NextFits(c, name, addr, v, j);
    turns' := FindSpace(c, turns, name, addr, plan, 0, j, j, j);
    PartyFound(c, v, plan, addr, j, Cleared(v, j, addr));
    SameSum(v.entries, j, Cleared(v, j, addr));
  }

  lemma PartyFound(c: Limits, v: View, plan: Plan, addr: nat -> Addr, j: nat, y: Content)
    requires Creations(plan) && Party(c, v, plan, addr, 0, j) && j < c.workers && j < |v.entries|
    requires GuestRoom(c, y, addr, addr(j)) && |y.chal| == |v.entries[j].chal|
    ensures Party(c, Doing(With(v, j, y), j, Passed(c, plan, v.entries[j], addr, j)), plan, addr, 0, j + 1)
  {
    PartyWith(c, v, plan, addr, 0, j, j, y);
    var v1 := With(v, j, y);
    HallSame(v1, Doing(v1, j, Passed(c, plan, v.entries[j], addr, j)), plan, |v.entries|);
  }

  lemma {:induction false} FindSome(c: Limits, turns: seq<Turn>, name: nat -> Named, addr: nat -> Addr, plan: Plan,
                                    j: nat, m: nat, n: nat)
    returns (turns': seq<Turn>)
    requires Plenty(c, name, addr) && Creations(plan) && Party(c, ViewOf(Exec(c, turns)), plan, addr, 0, 0)
    requires Places(c, Exec(c, turns).entries, 0, m, n) && j <= m <= c.workers && n < c.maxInRoomPending
    ensures Party(c, ViewOf(Exec(c, turns')), plan, addr, 0, j) && Places(c, Exec(c, turns').entries, 0, m, n)
  {
    if j == 0 {
      turns' := turns;
    } else {
      turns' := FindSome(c, turns, name, addr, plan, j - 1, m, n);
      turns' := FindNext(c, turns', name, addr, plan, j - 1, m, n);
    }
  }

  lemma AddNext(c: Limits, turns: seq<Turn>, name: nat -> Named, addr: nat -> Addr, plan: Plan, lo: nat, m: nat, n: nat)
    returns (turns': seq<Turn>)
    requires Plenty(c, name, addr) && Creations(plan) && Party(c, ViewOf(Exec(c, turns)), plan, addr, lo, m)
    requires Places(c, Exec(c, turns).entries, lo, m, n) && lo < m
    ensures Party(c, ViewOf(Exec(c, turns')), plan, addr, lo + 1, m)
    ensures Places(c, Exec(c, turns').entries, lo + 1, m, n + 1)
  {
    var v := ViewOf(Exec(c, turns));
    var x := v.entries[lo];
    assert GuestRoom(c, x, addr, addr(lo));
    assert v.pcs[lo := Passed(c, plan, x, addr, lo)] == v.pcs;
    turns' := AddOne(c, turns, v, lo, Initial(RoomAt(plan, lo), Next(c, x, addr)), lo);
    JoinedRoom(c, name, addr, x, addr(lo));
    PlacesNext(c, v.entries, lo, m, n, Joined(c, x, addr));
    PartyLeft(c, v, plan, addr, lo, m, Joined(c, x, addr));
  }

  lemma PlacesNext(c: Limits, entries: seq<Content>, lo: nat, m: nat, n: nat, y: Content)
    requires Places(c, entries, lo, m, n) && lo < m && |y.chal| == |entries[lo].chal| + 1
    ensures Places(c, entries[lo := y], lo + 1, m, n + 1)
  {
    ChalUpdate(entries, lo, y);
  }

  lemma PartyLeft(c: Limits, v: View, plan: Plan, addr: nat -> Addr, lo: nat, m: nat, y: Content)
    requires Creations(plan) && Party(c, v, plan, addr, lo, m) && lo < m && GuestRoom(c, y, addr, addr(lo))
    ensures Party(c, Doing(With(v, lo, y), lo, Idle), plan, addr, lo + 1, m)
  {
    var v' := Doing(With(v, lo, y), lo, Idle);
    HallSame(v, v', plan, |v.entries|);
    forall i: nat | i < |v'.entries| ensures GuestRoom(c, v'.entries[i], addr, addr(i)) {
      assert GuestRoom(c, v.entries[i], addr, addr(i));
    }
  }

  lemma {:induction false} AddSome(c: Limits, turns: seq<Turn>, name: nat -> Named, addr: nat -> Addr, plan: Plan,
                                   lo: nat, m: nat, n: nat)
    returns (turns': seq<Turn>)
    requires Plenty(c, name, addr) && Creations(plan) && Party(c, ViewOf(Exec(c, turns)), plan, addr, 0, m)
    requires Places(c, Exec(c, turns).entries, 0, m, n) && lo <= m
    ensures Party(c, ViewOf(Exec(c, turns')), plan, addr, lo, m) && Places(c, Exec(c, turns').entries, lo, m, n + lo)
  {
    if lo == 0 {
      turns' := turns;
    } else {
      turns' := AddSome(c, turns, name, addr, plan, lo - 1, m, n);
      turns' := AddNext(c, turns', name, addr, plan, lo - 1, m, n + lo - 1);
    }
  }

  /** n challenges one after the other and m at once. */
  lemma Crowd(c: Limits, name: nat -> Named, addr: nat -> Addr, m: nat, n: nat) returns (turns: seq<Turn>)
    requires Plenty(c, name, addr) && MostRooms(c) >= 0 && Fits(c, n, m, MostRooms(c)) && m <= c.workers
    requires m > 0 ==> n < c.maxInRoomPending
    ensures ChalSum(Exec(c, turns).entries) == n + m
  {
    var plan, open := Open(c, name, addr);
    turns := SeatSome(c, open, name, addr, plan, m, n);
    if m > 0 {
      turns := FindSome(c, turns, name, addr, plan, m, m, n);
      turns := AddSome(c, turns, name, addr, plan, m, m, n);
    }
  }

  /** Some interleaving leaves as many challenges in the rooms as the bound says. */
  lemma ChallengesReached(c: Limits, name: nat -> Named, addr: nat -> Addr) returns (turns: seq<Turn>)
    requires Plenty(c, name, addr)
    ensures ChalSum(Exec(c, turns).entries) == MostChallenges(c)
  {
    SomeShard(c);
    var places := MostRooms(c) * c.maxPendingPerRoom;
    Scaled(1, MostRooms(c), c.maxPendingPerRoom);
    if places < c.maxInRoomPending {
      turns := Crowd(c, name, addr, 0, places);
    } else {
      var n := c.maxInRoomPending - 1;
      turns := Crowd(c, name, addr, Min(Owners(c), places - n), n);
    }
  }

  ghost predicate ChallengesWithin(c: Limits) {
    forall turns :: ChalSum(Exec(c, turns).entries) <= c.maxInRoomPending
  }

  /** The challenges stay within maxInRoomPending on every interleaving if and only if there
      is one worker, or one room at most, or the rooms cannot hold more. */
  lemma ChallengesWithinExactly(c: Limits, name: nat -> Named, addr: nat -> Addr)
    requires Plenty(c, name, addr)
    ensures ChallengesWithin(c) <==>
      c.workers == 1 || MostRooms(c) == 1 || MostRooms(c) * c.maxPendingPerRoom <= c.maxInRoomPending
  {
    SomeShard(c);
    if MostChallenges(c) <= c.maxInRoomPending {
      forall turns ensures ChalSum(Exec(c, turns).entries) <= c.maxInRoomPending {
        KeysAndChallengesBounded(c, turns, c.ipKey(addr(0)));
      }
    } else {
      var turns := ChallengesReached(c, name, addr);
      assert ChalSum(Exec(c, turns).entries) > c.maxInRoomPending;
    }
  }
}
