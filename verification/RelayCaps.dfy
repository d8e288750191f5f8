/** Every limit of the relay holds in every state any run reaches. */
module RelayCaps {
  import opened Text
  import opened RelaySpec

  ghost predicate EntryCaps(c: Config, e: Entry) {
    && |e.clients| <= c.maxClientsHard
    && |e.pending| <= c.maxPendingPerRoom
    && (forall ip :: |PendingOf(c, e.pending, ip)| <= c.maxPendingPerIP)
  }

  ghost predicate IpCaps(c: Config, rooms: RoomMap) {
    forall ip :: |IpRooms(c, rooms, ip)| <= c.maxRoomsPerIP
  }

  ghost predicate RoomsCaps(c: Config, rooms: RoomMap) {
    && |rooms| <= c.maxRooms
    && |InRoom(rooms)| <= c.maxInRoomPending
    && IpCaps(c, rooms)
    && (forall r | r in rooms :: EntryCaps(c, rooms[r]))
  }

  ghost predicate StoreCaps(c: Config, store: StoreMap) {
    && |store| <= c.maxPendingGlobal
    && (forall ip :: |StoreOf(c, store, ip)| <= c.maxPendingPerIP)
  }

  ghost predicate CapsOk(c: Config, s: State) {
    RoomsCaps(c, s.rooms) && StoreCaps(c, s.store)
  }

  // ----- sets -----

  lemma SubsetSize<T>(a: set<T>, b: set<T>)
    requires a <= b
    ensures |a| <= |b|
  {
    assert b == a + (b - a);
  }

  // ----- shrinking -----

  /** The entry kept at most its clients and challenges. */
  ghost predicate Within(e: Entry, e': Entry) {
    e'.clients.Keys <= e.clients.Keys && e'.pending.Keys <= e.pending.Keys
  }

  ghost predicate Shrunk(rooms: RoomMap, rooms': RoomMap) {
    rooms'.Keys <= rooms.Keys && forall r | r in rooms' :: Within(rooms[r], rooms'[r])
  }

  lemma WithinCaps(c: Config, e: Entry, e': Entry)
    requires EntryCaps(c, e) && Within(e, e')
    ensures EntryCaps(c, e')
  {
    SubsetSize(e'.clients.Keys, e.clients.Keys);
    SubsetSize(e'.pending.Keys, e.pending.Keys);
    forall ip ensures |PendingOf(c, e'.pending, ip)| <= c.maxPendingPerIP {
      assert |PendingOf(c, e.pending, ip)| <= c.maxPendingPerIP;
      SubsetSize(PendingOf(c, e'.pending, ip), PendingOf(c, e.pending, ip));
    }
  }

  lemma ShrunkIp(c: Config, rooms: RoomMap, rooms': RoomMap, ip: Ip)
    requires Shrunk(rooms, rooms')
    ensures IpRooms(c, rooms', ip) <= IpRooms(c, rooms, ip)
  {
    forall r | r in IpRooms(c, rooms', ip) ensures r in IpRooms(c, rooms, ip) {
      var a :| a in rooms'[r].clients && c.ipKey(a) == ip;
      assert Within(rooms[r], rooms'[r]) && a in rooms[r].clients.Keys;
    }
  }

  lemma ShrunkCaps(c: Config, rooms: RoomMap, rooms': RoomMap)
    requires RoomsCaps(c, rooms) && Shrunk(rooms, rooms')
    ensures RoomsCaps(c, rooms')
  {
    SubsetSize(rooms'.Keys, rooms.Keys);
    assert InRoom(rooms') <= InRoom(rooms) by {
      forall k | k in InRoom(rooms') ensures k in InRoom(rooms) {
        assert Within(rooms[k.room], rooms'[k.room]) && k.src in rooms[k.room].pending.Keys;
      }
    }
    SubsetSize(InRoom(rooms'), InRoom(rooms));
    forall ip ensures |IpRooms(c, rooms', ip)| <= c.maxRoomsPerIP {
      ShrunkIp(c, rooms, rooms', ip);
      assert |IpRooms(c, rooms, ip)| <= c.maxRoomsPerIP;
      SubsetSize(IpRooms(c, rooms', ip), IpRooms(c, rooms, ip));
    }
    forall r | r in rooms' ensures EntryCaps(c, rooms'[r]) {
      WithinCaps(c, rooms[r], rooms'[r]);
    }
  }

  lemma EvictCaps(c: Config, rooms: RoomMap, which: set<Room>, now: Time)
    requires RoomsCaps(c, rooms)
    ensures RoomsCaps(c, Evict(c, rooms, which, now))
  {
    ShrunkCaps(c, rooms, Evict(c, rooms, which, now));
  }

  lemma PutWithinCaps(c: Config, rooms: RoomMap, room: Room, e: Entry)
    requires RoomsCaps(c, rooms) && room in rooms && Within(rooms[room], e)
    ensures RoomsCaps(c, rooms[room := e])
  {
    ShrunkCaps(c, rooms, rooms[room := e]);
  }

  // ----- growing -----

  /** One more client, in a room and for a key that still had space. */
  lemma PutClientCaps(c: Config, rooms: RoomMap, room: Room, e: Entry, a: Addr)
    requires RoomsCaps(c, rooms) && room in rooms
    requires e.clients.Keys == rooms[room].clients.Keys + {a} && e.pending.Keys <= rooms[room].pending.Keys
    requires a in rooms[room].clients || |rooms[room].clients| < c.maxClientsHard
    requires HasIp(c, rooms[room], c.ipKey(a)) || |IpRooms(c, rooms, c.ipKey(a))| < c.maxRoomsPerIP
    ensures RoomsCaps(c, rooms[room := e])
  {
    var e1 := e.(clients := rooms[room].clients);
    PutWithinCaps(c, rooms, room, e1);
    AddedSize(rooms[room].clients.Keys, e.clients.Keys, a);
    var r1, r2 := rooms[room := e1], rooms[room := e];
    assert InRoom(r2) == InRoom(r1) && r2.Keys == r1.Keys;
    assert EntryCaps(c, r1[room]);
    forall ip ensures |IpRooms(c, r2, ip)| <= c.maxRoomsPerIP {
      ClientIpRooms(c, rooms, room, e, a, ip);
      assert |IpRooms(c, rooms, ip)| <= c.maxRoomsPerIP;
    }
    forall r | r in r2 ensures EntryCaps(c, r2[r]) {
      assert r != room ==> r2[r] == r1[r] && EntryCaps(c, r1[r]);
    }
  }

  lemma AddedSize<T>(old_: set<T>, new_: set<T>, x: T)
    requires new_ == old_ + {x}
    ensures |new_| == |old_| + (if x in old_ then 0 else 1)
  {
    if x in old_ { assert new_ == old_; }
  }

  lemma ClientIpRooms(c: Config, rooms: RoomMap, room: Room, e: Entry, a: Addr, ip: Ip)
    requires e.clients.Keys == (if room in rooms then rooms[room].clients.Keys else {}) + {a}
    ensures IpRooms(c, rooms[room := e], ip) == IpRooms(c, rooms, ip) + (if ip == c.ipKey(a) then {room} else {})
    ensures room in rooms && HasIp(c, rooms[room], c.ipKey(a)) ==>
      IpRooms(c, rooms[room := e], ip) == IpRooms(c, rooms, ip)
  {
    assert a in e.clients;
    assert forall b :: b in e.clients <==> b == a || (room in rooms && b in rooms[room].clients);
    assert HasIp(c, e, ip) <==> (room in rooms && HasIp(c, rooms[room], ip)) || ip == c.ipKey(a);
  }

  lemma IpCapsAfter(c: Config, rooms: RoomMap, room: Room, e: Entry, a: Addr)
    requires IpCaps(c, rooms)
    requires e.clients.Keys == (if room in rooms then rooms[room].clients.Keys else {}) + {a}
    requires |IpRooms(c, rooms, c.ipKey(a))| < c.maxRoomsPerIP
    ensures IpCaps(c, rooms[room := e])
  {
    var r2 := rooms[room := e];
    forall ip ensures |IpRooms(c, r2, ip)| <= c.maxRoomsPerIP {
      ClientIpRooms(c, rooms, room, e, a, ip);
      assert |IpRooms(c, rooms, ip)| <= c.maxRoomsPerIP;
    }
  }

  lemma FreshEntryCaps(c: Config, e: Entry, a: Addr)
    requires e.clients.Keys == {a} && e.pending == map[]
    ensures EntryCaps(c, e)
  {
    assert |e.clients| == |e.clients.Keys| == 1;
    forall ip ensures |PendingOf(c, e.pending, ip)| <= c.maxPendingPerIP {
      assert PendingOf(c, e.pending, ip) == {};
    }
  }

  lemma PutInRoom(rooms: RoomMap, room: Room, e: Entry)
    requires room !in rooms && e.pending == map[]
    ensures |InRoom(rooms[room := e])| == |InRoom(rooms)| && |rooms[room := e]| == |rooms| + 1
  {
    assert InRoom(rooms[room := e]) == InRoom(rooms);
    assert rooms[room := e].Keys == rooms.Keys + {room};
  }

  lemma NewRoomCaps(c: Config, rooms: RoomMap, room: Room, e: Entry, a: Addr)
    requires RoomsCaps(c, rooms) && room !in rooms && e.clients.Keys == {a} && e.pending == map[]
    requires |rooms| < c.maxRooms && |IpRooms(c, rooms, c.ipKey(a))| < c.maxRoomsPerIP
    ensures RoomsCaps(c, rooms[room := e])
  {
    PutInRoom(rooms, room, e);
    IpCapsAfter(c, rooms, room, e, a);
    FreshEntryCaps(c, e, a);
  }

  lemma PendingEntryCaps(c: Config, e: Entry, a: Addr, p: Challenge)
    requires EntryCaps(c, e) && a !in e.pending
    requires |PendingOf(c, e.pending, c.ipKey(a))| < c.maxPendingPerIP && |e.pending| < c.maxPendingPerRoom
    ensures EntryCaps(c, e.(pending := e.pending[a := p]))
  {
    var pending := e.pending[a := p];
    assert pending.Keys == e.pending.Keys + {a};
    forall ip ensures |PendingOf(c, pending, ip)| <= c.maxPendingPerIP {
      PendingOfPut(c, e.pending, a, p, ip);
      assert |PendingOf(c, e.pending, ip)| <= c.maxPendingPerIP;
    }
  }

  lemma PendingOfPut(c: Config, pending: map<Addr, Challenge>, a: Addr, p: Challenge, ip: Ip)
    requires a !in pending
    ensures |PendingOf(c, pending[a := p], ip)| == |PendingOf(c, pending, ip)| + (if ip == c.ipKey(a) then 1 else 0)
  {
    var pending' := pending[a := p];
    if ip == c.ipKey(a) {
      assert PendingOf(c, pending', ip) == PendingOf(c, pending, ip) + {a};
    } else {
      assert PendingOf(c, pending', ip) == PendingOf(c, pending, ip);
    }
  }

  lemma SameClientsIp(c: Config, rooms: RoomMap, room: Room, e: Entry)
    requires IpCaps(c, rooms) && room in rooms && e.clients == rooms[room].clients
    ensures IpCaps(c, rooms[room := e])
  {
    var r2 := rooms[room := e];
    forall ip ensures |IpRooms(c, r2, ip)| <= c.maxRoomsPerIP {
      assert IpRooms(c, r2, ip) == IpRooms(c, rooms, ip);
      assert |IpRooms(c, rooms, ip)| <= c.maxRoomsPerIP;
    }
  }

  lemma PendingInRoom(rooms: RoomMap, room: Room, e: Entry, a: Addr)
    requires room in rooms && a !in rooms[room].pending && e.pending.Keys == rooms[room].pending.Keys + {a}
    ensures |InRoom(rooms[room := e])| == |InRoom(rooms)| + 1
    ensures |rooms[room := e]| == |rooms|
  {
    assert InRoom(rooms[room := e]) == InRoom(rooms) + {Key(room, a)};
    assert rooms[room := e].Keys == rooms.Keys;
  }

  /** One more challenge in a room, within the per-key, per-room and relay-wide limits. */
  lemma PutPendingCaps(c: Config, rooms: RoomMap, room: Room, a: Addr, p: Challenge)
    requires RoomsCaps(c, rooms) && room in rooms && a !in rooms[room].pending
    requires |PendingOf(c, rooms[room].pending, c.ipKey(a))| < c.maxPendingPerIP
    requires |rooms[room].pending| < c.maxPendingPerRoom && |InRoom(rooms)| < c.maxInRoomPending
    ensures RoomsCaps(c, rooms[room := rooms[room].(pending := rooms[room].pending[a := p])])
  {
    var e := rooms[room].(pending := rooms[room].pending[a := p]);
    PendingEntryCaps(c, rooms[room], a, p);
    SameClientsIp(c, rooms, room, e);
    PendingInRoom(rooms, room, e, a);
  }

  // ----- the store -----

  lemma StoreShrunk(c: Config, store: StoreMap, store': StoreMap)
    requires StoreCaps(c, store) && store'.Keys <= store.Keys
    ensures StoreCaps(c, store')
  {
    SubsetSize(store'.Keys, store.Keys);
    forall ip ensures |StoreOf(c, store', ip)| <= c.maxPendingPerIP {
      assert |StoreOf(c, store, ip)| <= c.maxPendingPerIP;
      SubsetSize(StoreOf(c, store', ip), StoreOf(c, store, ip));
    }
  }

  lemma StorePut(c: Config, store: StoreMap, k: Key, p: Challenge)
    requires StoreCaps(c, store) && |StoreOf(c, store, c.ipKey(k.src))| < c.maxPendingPerIP
    requires k in store || |store| < c.maxPendingGlobal
    ensures StoreCaps(c, store[k := p])
  {
    var store' := store[k := p];
    assert store'.Keys == store.Keys + {k};
    forall ip ensures |StoreOf(c, store', ip)| <= c.maxPendingPerIP {
      assert |StoreOf(c, store, ip)| <= c.maxPendingPerIP;
      assert StoreOf(c, store', ip) == StoreOf(c, store, ip) + (if ip == c.ipKey(k.src) then {k} else {});
    }
  }

  lemma StoreCapsKept(c: Config, ipRooms: nat, store: StoreMap, k: Key, now: Time, rnd: Option<Bytes>)
    requires StoreCaps(c, store)
    ensures StoreCaps(c, ChallengeStore(c, ipRooms, store, k, now, rnd).0)
  {
    if ChallengeStore(c, ipRooms, store, k, now, rnd).1.Challenged? {
      StorePut(c, store, k, Challenge(rnd.value, now));
    }
  }

  // ----- the steps -----

  lemma SweepCaps(c: Config, rooms: RoomMap, room: Room, now: Time)
    requires RoomsCaps(c, rooms) && room in rooms
    ensures RoomsCaps(c, rooms[room := Sweep(c, rooms[room], now)])
  {
    PutWithinCaps(c, rooms, room, Sweep(c, rooms[room], now));
  }

  lemma JoinCaps(c: Config, rooms: RoomMap, room: Room, src: Addr, now: Time)
    requires RoomsCaps(c, rooms) && room in rooms
    ensures RoomsCaps(c, JoinSwept(c, rooms, room, src, now).0)
  {
    var r := JoinSwept(c, rooms, room, src, now);
    if r.1.Registered? { PutClientCaps(c, rooms, room, AddClient(rooms[room], src, now), src); }
  }

  lemma AdmitCaps(c: Config, rooms: RoomMap, room: Room, src: Addr, now: Time)
    requires RoomsCaps(c, rooms) && room in rooms
    ensures RoomsCaps(c, AdmitSwept(c, rooms, room, src, now).0)
  {
    var e := rooms[room];
    if AdmitSwept(c, rooms, room, src, now).1.Registered? {
      PutClientCaps(c, rooms, room, AddClient(e.(pending := e.pending - {src}), src, now), src);
    }
  }

  lemma CreateCaps(c: Config, rooms: RoomMap, room: Room, src: Addr, now: Time)
    requires RoomsCaps(c, rooms) && room !in rooms
    ensures RoomsCaps(c, Create(c, rooms, room, src, now).0)
  {
    var sh := ShardRooms(c, rooms, Shard(c, room));
    EvictCaps(c, rooms, sh, now);
    var r1 := if |rooms| >= c.maxRooms then Evict(c, rooms, sh, now) else rooms;
    if CreateNow(c, r1, room, src, now).1.Registered? {
      NewRoomCaps(c, r1, room, Entry(map[src := NewClient(now)], map[], now, 0), src);
    }
  }

  lemma EnterCaps(c: Config, rooms: RoomMap, room: Room, src: Addr, now: Time)
    requires RoomsCaps(c, rooms)
    ensures RoomsCaps(c, Enter(c, rooms, room, src, now).0)
  {
    EvictCaps(c, rooms, rooms.Keys, now);
    var r1 := if |rooms| >= c.maxRooms then Evict(c, rooms, rooms.Keys, now) else rooms;
    if room in r1 {
      SweepCaps(c, r1, room, now);
      JoinCaps(c, r1[room := Sweep(c, r1[room], now)], room, src, now);
    } else {
      CreateCaps(c, r1, room, src, now);
    }
  }

  lemma RevisitCaps(c: Config, rooms: RoomMap, stored: nat, room: Room, src: Addr, now: Time, rnd: Option<Bytes>)
    requires RoomsCaps(c, rooms) && room in rooms
    ensures RoomsCaps(c, RevisitSwept(c, rooms, stored, room, src, now, rnd).0)
  {
    var r := RevisitSwept(c, rooms, stored, room, src, now, rnd);
    var e := rooms[room];
    if r.1.Registered? {
      PutWithinCaps(c, rooms, room, e.(clients := e.clients[src := e.clients[src].(lastSeen := now)]));
    } else if r.1.Challenged? && src in e.pending {
      PutWithinCaps(c, rooms, room, e.(pending := e.pending[src := e.pending[src].(createdAt := now)]));
    } else if r.1.Challenged? {
      PutPendingCaps(c, rooms, room, src, Challenge(rnd.value, now));
    }
  }

  lemma AdmitAnyCaps(c: Config, rooms: RoomMap, room: Room, cookie: Bytes, src: Addr, now: Time)
    requires RoomsCaps(c, rooms) && room in rooms
    ensures RoomsCaps(c, Admit(c, rooms, room, cookie, src, now).0)
  {
    var e := rooms[room];
    PutWithinCaps(c, rooms, room, e.(pending := e.pending - {src}));
    SweepCaps(c, rooms, room, now);
    AdmitCaps(c, rooms[room := Sweep(c, e, now)], room, src, now);
  }

  lemma CookieCaps(c: Config, s: State, room: Room, cookie: Bytes, src: Addr, now: Time, rnd: Option<Bytes>)
    requires CapsOk(c, s)
    ensures CapsOk(c, WithCookie(c, s, room, cookie, src, now, rnd).0)
  {
    var k := Key(room, src);
    if k in s.store {
      StoreShrunk(c, s.store, s.store - {k});
      EnterCaps(c, s.rooms, room, src, now);
    } else if room in s.rooms {
      AdmitAnyCaps(c, s.rooms, room, cookie, src, now);
    } else {
      StoreCapsKept(c, |IpRooms(c, s.rooms, c.ipKey(src))|, s.store, k, now, rnd);
    }
  }

  lemma InitialCaps(c: Config, s: State, room: Room, src: Addr, now: Time, rnd: Option<Bytes>)
    requires CapsOk(c, s)
    ensures CapsOk(c, WithoutCookie(c, s, room, src, now, rnd).0)
  {
    if room in s.rooms {
      SweepCaps(c, s.rooms, room, now);
      RevisitCaps(c, s.rooms[room := Sweep(c, s.rooms[room], now)], |StoreOf(c, s.store, c.ipKey(src))|, room, src,
        now, rnd);
    } else {
      StoreCapsKept(c, |IpRooms(c, s.rooms, c.ipKey(src))|, s.store, Key(room, src), now, rnd);
    }
  }

  lemma RegCaps(c: Config, s: State, room: Room, cookie: string, src: Addr, now: Time, rnd: Option<Bytes>)
    requires CapsOk(c, s)
    ensures CapsOk(c, RegAllowed(c, s, room, cookie, src, now, rnd).0)
  {
    if cookie == "" {
      InitialCaps(c, s, room, src, now, rnd);
    } else if GoodCookie(cookie) {
      CookieCaps(c, s, room, CookieBytes(cookie), src, now, rnd);
    }
  }

  lemma MsgCaps(c: Config, rooms: RoomMap, room: Room, src: Addr, now: Time)
    requires RoomsCaps(c, rooms)
    ensures RoomsCaps(c, MsgRooms(c, rooms, room, src, now).0)
  {
    if room in rooms && src in rooms[room].clients {
      var e := rooms[room];
      var l := MsgLimit(c, e.clients[src].limiter, now).0;
      PutWithinCaps(c, rooms, room, e.(clients := e.clients[src := e.clients[src].(limiter := l)]));
    }
  }

  lemma StepCaps(c: Config, s: State, i: Input)
    requires CapsOk(c, s)
    ensures CapsOk(c, Step(c, s, i).0)
  {
    match i.ev
    case Reg(room, cookie, src, rnd) =>
      RegCaps(c, s.(reg := RegLimit(c, s.reg, c.ipKey(src), i.now).0), room, cookie, src, i.now, rnd);
    case Msg(room, src) =>
      MsgCaps(c, s.rooms, room, src, i.now);
    case CleanRooms =>
      EvictCaps(c, s.rooms, s.rooms.Keys, i.now);
      StoreShrunk(c, s.store, RoomTick(c, s, i.now).store);
    case CleanRates =>
  }

  /** With one packet per step, no run breaks any cap. */
  lemma {:induction false} RunCaps(c: Config, ins: seq<Input>)
    ensures CapsOk(c, Run(c, ins))
  {
    if ins == [] {
      assert InRoom(map[]) == {};
      assert forall ip :: IpRooms(c, map[], ip) == {} && StoreOf(c, map[], ip) == {};
    } else {
      RunCaps(c, ins[..|ins| - 1]);
      StepCaps(c, Run(c, ins[..|ins| - 1]), ins[|ins| - 1]);
    }
  }
}
