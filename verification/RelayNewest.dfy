/** When the cookie that admits is the newest one issued to that room and address. */
module RelayNewest {
  import opened Text
  import opened RelaySpec
  import opened RelayProvenance

  // ----- what a step leaves alone -----

  /** A challenge of q young enough to survive a sweep, in a room no eviction takes. */
  ghost predicate Safe(c: Config, rooms: RoomMap, q: Key, now: Time) {
    && PendAt(rooms, q).Some? && !Expired(now, PendAt(rooms, q).value.createdAt, PENDING_REG_TTL)
    && !Dead(c, rooms[q.room], now)
  }

  lemma EvictKeeps(c: Config, rooms: RoomMap, which: set<Room>, now: Time, q: Key)
    requires Safe(c, rooms, q, now)
    ensures PendAt(Evict(c, rooms, which, now), q) == PendAt(rooms, q)
    ensures Safe(c, Evict(c, rooms, which, now), q, now)
  {
    assert Tidy(c, Tidy(c, rooms[q.room], now), now).clients == Tidy(c, rooms[q.room], now).clients;
  }

  lemma SweepKeeps(c: Config, rooms: RoomMap, room: Room, now: Time, q: Key)
    requires Safe(c, rooms, q, now) && room in rooms
    ensures PendAt(rooms[room := Sweep(c, rooms[room], now)], q) == PendAt(rooms, q)
  {
  }

  lemma JoinKeeps(c: Config, rooms: RoomMap, room: Room, src: Addr, now: Time, q: Key)
    requires Safe(c, rooms, q, now) && room in rooms
    ensures PendAt(Join(c, rooms, room, src, now).0, q) == PendAt(rooms, q)
  {
    SweepKeeps(c, rooms, room, now, q);
  }

  lemma CreateKeeps(c: Config, rooms: RoomMap, room: Room, src: Addr, now: Time, q: Key)
    requires Safe(c, rooms, q, now) && room !in rooms
    ensures PendAt(Create(c, rooms, room, src, now).0, q) == PendAt(rooms, q)
  {
    EvictKeeps(c, rooms, ShardRooms(c, rooms, Shard(c, room)), now, q);
  }

  lemma EnterKeeps(c: Config, rooms: RoomMap, room: Room, src: Addr, now: Time, q: Key)
    requires Safe(c, rooms, q, now)
    ensures PendAt(Enter(c, rooms, room, src, now).0, q) == PendAt(rooms, q)
  {
    EvictKeeps(c, rooms, rooms.Keys, now, q);
    var rooms1 := if |rooms| >= c.maxRooms then Evict(c, rooms, rooms.Keys, now) else rooms;
    if room in rooms1 { JoinKeeps(c, rooms1, room, src, now, q); } else { CreateKeeps(c, rooms1, room, src, now, q); }
  }

  lemma AdmitKeeps(c: Config, rooms: RoomMap, room: Room, cookie: Bytes, src: Addr, now: Time, q: Key)
    requires Safe(c, rooms, q, now) && room in rooms && q != Key(room, src)
    ensures PendAt(Admit(c, rooms, room, cookie, src, now).0, q) == PendAt(rooms, q)
  {
    SweepKeeps(c, rooms, room, now, q);
  }

  lemma RevisitKeeps(c: Config, rooms: RoomMap, stored: nat, room: Room, src: Addr, now: Time,
      rnd: Option<Bytes>, q: Key)
    requires Safe(c, rooms, q, now) && room in rooms
    ensures var r := Revisit(c, rooms, stored, room, src, now, rnd);
      PendAt(r.0, q) == PendAt(rooms, q) || (q == Key(room, src) && r.1.Challenged?)
  {
    SweepKeeps(c, rooms, room, now, q);
  }

  /** While the store also holds a challenge of q, a safe in-room one stays. */
  ghost predicate StaysSafe(c: Config, step: Machine, s: State, i: Input, q: Key) {
    Safe(c, s.rooms, q, i.now) && q in s.store ==>
      PendAt(step(s, i).0.rooms, q) == PendAt(s.rooms, q) || Issues(step, s, i, q, false)
  }

  ghost predicate KeepsSafe(c: Config, step: Machine) {
    forall s, i, q :: StaysSafe(c, step, s, i, q)
  }

  lemma RegKeeps(c: Config, s: State, i: Input, q: Key)
    requires Safe(c, s.rooms, q, i.now) && q in s.store && i.ev.Reg?
    ensures PendAt(Step(c, s, i).0.rooms, q) == PendAt(s.rooms, q) || Issues(StepOf(c), s, i, q, false)
  {
    var Reg(room, cookie, src, rnd) := i.ev;
    if cookie == "" && room in s.rooms {
      RevisitKeeps(c, s.rooms, |StoreOf(c, s.store, c.ipKey(src))|, room, src, i.now, rnd, q);
    } else if GoodCookie(cookie) {
      if Key(room, src) in s.store {
        EnterKeeps(c, s.rooms, room, src, i.now, q);
      } else if room in s.rooms {
        AdmitKeeps(c, s.rooms, room, CookieBytes(cookie), src, i.now, q);
      }
    }
  }

  lemma RelayKeeps(c: Config)
    ensures KeepsSafe(c, StepOf(c))
  {
    forall s, i, q ensures StaysSafe(c, StepOf(c), s, i, q) {
      if Safe(c, s.rooms, q, i.now) && q in s.store {
        if i.ev.Reg? { RegKeeps(c, s, i, q); }
        else if i.ev.CleanRooms? { EvictKeeps(c, s.rooms, s.rooms.Keys, i.now, q); }
      }
    }
  }

  // ----- is the echoed cookie the newest one? -----

  /** Nothing challenged q between k and j. */
  ghost predicate Newest(step: Machine, ins: seq<Input>, k: nat, j: nat, q: Key)
    requires k < j <= |ins|
  {
    forall m, b: bool | k < m < j :: !IssuesAt(step, ins, m, q, b)
  }

  lemma RoomNewest(step: Machine, ins: seq<Input>, j: nat, q: Key) returns (k: nat)
    requires Lawful(step) && j < |ins| && AdmitsAt(step, ins, j, q, false)
    ensures k < j && AdmittedOn(step, ins, k, j, q, false) && Newest(step, ins, k, j, q)
  {
    k := AdmissionOrigin(step, ins, j, q, false);
    forall m, b: bool | k < m < j ensures !IssuesAt(step, ins, m, q, b) {
      assert q.room in Before(step, ins, m).rooms;
    }
  }

  /** Between k and j the room always had a client or a recent join, so no eviction takes it. */
  ghost predicate RoomHolds(c: Config, step: Machine, ins: seq<Input>, k: nat, j: nat, room: Room)
    requires k < j <= |ins|
  {
    forall m | k < m < j && room in Before(step, ins, m).rooms ::
      !Dead(c, Before(step, ins, m).rooms[room], ins[m].now)
  }

  /** A store challenge that is live at j was in the store all the way from its issue. */
  lemma {:induction false} StoredSince(step: Machine, ins: seq<Input>, k: nat, m: nat, j: nat, q: Key)
    requires Lawful(step) && k < m <= j <= |ins| && q in Before(step, ins, j).store
    requires Live(step, ins, k, j, q, true)
    ensures q in Before(step, ins, m).store
    decreases j - m
  {
    if m == j {
    } else {
      StoredSince(step, ins, k, m + 1, j, q);
      assert !IssuesAt(step, ins, m, q, true);
      BeforeNext(step, ins, m);
      assert StepFrom(step, Before(step, ins, m), ins[m], q);
    }
  }

  /** Nothing here can expire a challenge of q made at t0 or later, evict its room or spend it. */
  ghost predicate Calm(c: Config, s: State, now: Time, t0: Time, q: Key) {
    && q in s.store
    && t0 <= now <= t0 + PENDING_REG_TTL
    && (q.room in s.rooms ==> !Dead(c, s.rooms[q.room], now))
  }

  predicate PendingFrom(rooms: RoomMap, q: Key, t0: Time) {
    PendAt(rooms, q).Some? && t0 <= PendAt(rooms, q).value.createdAt
  }

  lemma CalmStep(c: Config, step: Machine, s: State, i: Input, q: Key, t0: Time)
    requires Lawful(step) && KeepsSafe(c, step) && Calm(c, s, i.now, t0, q)
    requires PendingFrom(s.rooms, q, t0) || Issues(step, s, i, q, false)
    ensures PendingFrom(step(s, i).0.rooms, q, t0)
  {
    assert StepFrom(step, s, i, q) && StaysSafe(c, step, s, i, q);
  }

  ghost predicate CalmAt(c: Config, step: Machine, ins: seq<Input>, n: nat, t0: Time, q: Key)
    requires n < |ins|
  {
    Calm(c, Before(step, ins, n), ins[n].now, t0, q)
  }

  lemma {:induction false} PendingSince(c: Config, step: Machine, ins: seq<Input>, t0: Time, m: nat, i: nat, q: Key)
    requires Lawful(step) && KeepsSafe(c, step) && m < i <= |ins| && IssuesAt(step, ins, m, q, false)
    requires forall n | m <= n < i :: CalmAt(c, step, ins, n, t0, q)
    ensures PendingFrom(Before(step, ins, i).rooms, q, t0)
  {
    BeforeNext(step, ins, i - 1);
    if i - 1 > m { PendingSince(c, step, ins, t0, m, i - 1, q); }
    assert CalmAt(c, step, ins, i - 1, t0, q);
    CalmStep(c, step, Before(step, ins, i - 1), ins[i - 1], q, t0);
  }

  /** An in-room challenge issued after the store one is still there at j. */
  lemma StillPending(c: Config, step: Machine, ins: seq<Input>, k: nat, m: nat, j: nat, q: Key)
    requires Lawful(step) && KeepsSafe(c, step) && ClockOk(ins) && k < m < j < |ins|
    requires RoomHolds(c, step, ins, k, j, q.room) && AdmittedOn(step, ins, k, j, q, true)
    requires IssuesAt(step, ins, m, q, false)
    ensures PendAt(Before(step, ins, j).rooms, q).Some?
  {
    forall n | m <= n < j ensures CalmAt(c, step, ins, n, ins[k].now, q) {
      StoredSince(step, ins, k, n, j, q);
    }
    PendingSince(c, step, ins, ins[k].now, m, j, q);
  }

  lemma StoreNewest(c: Config, step: Machine, ins: seq<Input>, k: nat, j: nat, q: Key)
    requires Lawful(step) && KeepsSafe(c, step) && ClockOk(ins)
    requires k < j < |ins| && AdmittedOn(step, ins, k, j, q, true)
    ensures PendAt(Before(step, ins, j).rooms, q).Some? ==> !Newest(step, ins, k, j, q)
    ensures RoomHolds(c, step, ins, k, j, q.room) ==>
            (Newest(step, ins, k, j, q) <==> PendAt(Before(step, ins, j).rooms, q).None?)
  {
    if PendAt(Before(step, ins, j).rooms, q).Some? {
      var m := PendOrigin(step, ins, j, q);
      assert q.room !in Before(step, ins, k).rooms;
      assert k < m && IssuesAt(step, ins, m, q, false);
    } else if RoomHolds(c, step, ins, k, j, q.room) {
      forall m, b: bool | k < m < j ensures !IssuesAt(step, ins, m, q, b) {
        if IssuesAt(step, ins, m, q, false) { StillPending(c, step, ins, k, m, j, q); }
      }
    }
  }

  // ----- how old a room can be -----

  /** The room, if there is one, was joined at t0 or later. */
  predicate JoinedSince(rooms: RoomMap, room: Room, t0: Time) {
    room in rooms ==> t0 <= rooms[room].t
  }

  ghost predicate AgeLaw(step: Machine, s: State, i: Input, room: Room, t0: Time) {
    t0 <= i.now && JoinedSince(s.rooms, room, t0) ==> JoinedSince(step(s, i).0.rooms, room, t0)
  }

  ghost predicate Ages(step: Machine) {
    forall s, i, room, t0: Time :: AgeLaw(step, s, i, room, t0)
  }

  lemma EnterAge(c: Config, rooms: RoomMap, room: Room, src: Addr, now: Time, r: Room, t0: Time)
    requires t0 <= now && JoinedSince(rooms, r, t0)
    ensures JoinedSince(Enter(c, rooms, room, src, now).0, r, t0)
  {
    var rooms1 := if |rooms| >= c.maxRooms then Evict(c, rooms, rooms.Keys, now) else rooms;
    assert JoinedSince(rooms1, r, t0);
    if room !in rooms1 { CreateAge(c, rooms1, room, src, now, r, t0); }
  }

  lemma CreateAge(c: Config, rooms: RoomMap, room: Room, src: Addr, now: Time, r: Room, t0: Time)
    requires t0 <= now && JoinedSince(rooms, r, t0) && room !in rooms
    ensures JoinedSince(Create(c, rooms, room, src, now).0, r, t0)
  {
  }

  lemma AdmitAge(c: Config, rooms: RoomMap, room: Room, cookie: Bytes, src: Addr, now: Time, r: Room, t0: Time)
    requires t0 <= now && JoinedSince(rooms, r, t0) && room in rooms
    ensures JoinedSince(Admit(c, rooms, room, cookie, src, now).0, r, t0)
  {
  }

  lemma RevisitAge(c: Config, rooms: RoomMap, stored: nat, room: Room, src: Addr, now: Time, rnd: Option<Bytes>,
      r: Room, t0: Time)
    requires JoinedSince(rooms, r, t0) && room in rooms
    ensures JoinedSince(Revisit(c, rooms, stored, room, src, now, rnd).0, r, t0)
  {
  }

  lemma RegAge(c: Config, s: State, i: Input, r: Room, t0: Time)
    requires i.ev.Reg? && t0 <= i.now && JoinedSince(s.rooms, r, t0)
    ensures JoinedSince(Step(c, s, i).0.rooms, r, t0)
  {
    var Reg(room, cookie, src, rnd) := i.ev;
    if cookie == "" {
      if room in s.rooms { RevisitAge(c, s.rooms, |StoreOf(c, s.store, c.ipKey(src))|, room, src, i.now, rnd, r, t0); }
    } else if GoodCookie(cookie) {
      if Key(room, src) in s.store {
        EnterAge(c, s.rooms, room, src, i.now, r, t0);
      } else if room in s.rooms {
        AdmitAge(c, s.rooms, room, CookieBytes(cookie), src, i.now, r, t0);
      }
    }
  }

  lemma RelayAges(c: Config)
    ensures Ages(StepOf(c))
  {
    forall s, i, room, t0: Time ensures AgeLaw(StepOf(c), s, i, room, t0) {
      if i.ev.Reg? && t0 <= i.now && JoinedSince(s.rooms, room, t0) { RegAge(c, s, i, room, t0); }
    }
  }

  /** A room that was missing when k arrived has only been joined since. */
  lemma {:induction false} JoinedAfter(step: Machine, ins: seq<Input>, k: nat, m: nat, room: Room)
    requires Ages(step) && ClockOk(ins) && k <= m < |ins| && room !in Before(step, ins, k).rooms
    ensures JoinedSince(Before(step, ins, m).rooms, room, ins[k].now)
  {
    if m == k {
    } else {
      JoinedAfter(step, ins, k, m - 1, room);
      BeforeNext(step, ins, m - 1);
      assert AgeLaw(step, Before(step, ins, m - 1), ins[m - 1], room, ins[k].now);
    }
  }

  /** If rooms outlive challenges, none is evicted while a challenge from before it lives. */
  lemma RoomOutlives(c: Config, step: Machine, ins: seq<Input>, k: nat, j: nat, q: Key)
    requires c.regTTL >= PENDING_REG_TTL && Ages(step) && ClockOk(ins)
    requires k < j < |ins| && AdmittedOn(step, ins, k, j, q, true)
    ensures RoomHolds(c, step, ins, k, j, q.room)
  {
    forall m | k < m < j && q.room in Before(step, ins, m).rooms
      ensures !Dead(c, Before(step, ins, m).rooms[q.room], ins[m].now)
    {
      JoinedAfter(step, ins, k, m, q.room);
      assert ins[m].now <= ins[j].now;
    }
  }

  // ----- the relay -----

  /** An admission on the room's own challenge always echoes the newest cookie. */
  lemma RoomAdmissionNewest(c: Config, ins: seq<Input>, j: nat, q: Key) returns (k: nat)
    requires j < |ins| && AdmitsAt(StepOf(c), ins, j, q, false)
    ensures k < j && AdmittedOn(StepOf(c), ins, k, j, q, false) && Newest(StepOf(c), ins, k, j, q)
  {
    RelayLawful(c);
    k := RoomNewest(StepOf(c), ins, j, q);
  }

  /** A challenge in the room shows that the echoed store cookie is not the newest. */
  lemma LaterChallengeSeen(c: Config, ins: seq<Input>, k: nat, j: nat, q: Key)
    requires ClockOk(ins) && k < j < |ins| && AdmittedOn(StepOf(c), ins, k, j, q, true)
    ensures PendAt(Before(StepOf(c), ins, j).rooms, q).Some? ==> !Newest(StepOf(c), ins, k, j, q)
  {
    RelayLawful(c);
    RelayKeeps(c);
    StoreNewest(c, StepOf(c), ins, k, j, q);
  }

  /** If rooms outlive challenges, an admission from the store echoes the newest cookie if
      and only if the room holds no challenge for the same address. */
  lemma StoreAdmissionNewest(c: Config, ins: seq<Input>, k: nat, j: nat, q: Key)
    requires c.regTTL >= PENDING_REG_TTL && ClockOk(ins)
    requires k < j < |ins| && AdmittedOn(StepOf(c), ins, k, j, q, true)
    ensures Newest(StepOf(c), ins, k, j, q) <==> PendAt(Before(StepOf(c), ins, j).rooms, q).None?
  {
    RelayLawful(c);
    RelayKeeps(c);
    RelayAges(c);
    RoomOutlives(c, StepOf(c), ins, k, j, q);
    StoreNewest(c, StepOf(c), ins, k, j, q);
  }
}
