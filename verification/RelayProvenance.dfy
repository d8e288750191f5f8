/** Where admitted clients come from.  For every run: who is in a room got there by
    echoing, from the same address, a cookie issued to that room and address at most
    PENDING_REG_TTL earlier; a challenge admits at most once; messages go exactly to
    the other admitted addresses of the sender's room. */
module RelayProvenance {
  import opened Text
  import opened RelaySpec

  // ----- one step seen from one room and address -----

  function PendAt(rooms: RoomMap, q: Key): Option<Challenge> {
    if q.room in rooms && q.src in rooms[q.room].pending then Some(rooms[q.room].pending[q.src]) else None
  }

  predicate ClientAt(rooms: RoomMap, q: Key) {
    q.room in rooms && q.src in rooms[q.room].clients
  }

  predicate RegOf(i: Input, q: Key) {
    i.ev.Reg? && i.ev.room == q.room && i.ev.src == q.src
  }

  /** The step answers q with a challenge.  A challenge is kept in the store exactly
      when the room does not exist at that moment. */
  predicate Issues(step: Machine, s: State, i: Input, q: Key, inStore: bool) {
    RegOf(i, q) && step(s, i).1.Challenged? && inStore == (q.room !in s.rooms)
  }

  /** The step admits q on a cookie, taken from the store or from the room. */
  predicate Admits(step: Machine, s: State, i: Input, q: Key, inStore: bool) {
    RegOf(i, q) && GoodCookie(i.ev.cookie) && step(s, i).1 == Registered(q.src) && inStore == (q in s.store)
  }

  /** No challenge of q appears or changes, and q is a new client only if `admitted`. */
  predicate Moves(rooms: RoomMap, rooms': RoomMap, q: Key, admitted: bool) {
    && (PendAt(rooms', q).Some? ==> PendAt(rooms', q) == PendAt(rooms, q))
    && (ClientAt(rooms', q) ==> ClientAt(rooms, q) || admitted)
  }

  lemma SweepMoves(c: Config, rooms: RoomMap, room: Room, now: Time, q: Key)
    requires room in rooms
    ensures Moves(rooms, rooms[room := Sweep(c, rooms[room], now)], q, false)
  {
  }

  lemma EvictMoves(c: Config, rooms: RoomMap, which: set<Room>, now: Time, q: Key)
    ensures Moves(rooms, Evict(c, rooms, which, now), q, false)
  {
  }

  lemma CreateMoves(c: Config, rooms: RoomMap, room: Room, src: Addr, now: Time, q: Key)
    requires room !in rooms
    ensures Moves(rooms, Create(c, rooms, room, src, now).0, q,
                  q == Key(room, src) && Create(c, rooms, room, src, now).1.Registered?)
  {
    EvictMoves(c, rooms, ShardRooms(c, rooms, Shard(c, room)), now, q);
  }

  lemma JoinMoves(c: Config, rooms: RoomMap, room: Room, src: Addr, now: Time, q: Key)
    requires room in rooms
    ensures Moves(rooms, Join(c, rooms, room, src, now).0, q,
                  q == Key(room, src) && Join(c, rooms, room, src, now).1.Registered?)
  {
    SweepMoves(c, rooms, room, now, q);
  }

  lemma EnterMoves(c: Config, rooms: RoomMap, room: Room, src: Addr, now: Time, q: Key)
    ensures Moves(rooms, Enter(c, rooms, room, src, now).0, q,
                  q == Key(room, src) && Enter(c, rooms, room, src, now).1.Registered?)
    ensures var reply := Enter(c, rooms, room, src, now).1;
      !reply.Challenged? && (reply.Registered? ==> reply == Registered(src))
  {
    EvictMoves(c, rooms, rooms.Keys, now, q);
    var rooms1 := if |rooms| >= c.maxRooms then Evict(c, rooms, rooms.Keys, now) else rooms;
    if room in rooms1 {
      JoinMoves(c, rooms1, room, src, now, q);
    } else {
      CreateMoves(c, rooms1, room, src, now, q);
    }
  }

  lemma AdmitMoves(c: Config, rooms: RoomMap, room: Room, cookie: Bytes, src: Addr, now: Time, q: Key)
    requires room in rooms
    ensures var r := Admit(c, rooms, room, cookie, src, now);
      && !r.1.Challenged? && (r.1.Registered? ==> r.1 == Registered(src))
      && Moves(rooms, r.0, q, q == Key(room, src) && r.1.Registered?)
      && (r.1.Registered? ==> PendAt(r.0, Key(room, src)).None?)
  {
    SweepMoves(c, rooms, room, now, q);
  }

  lemma RevisitMoves(c: Config, rooms: RoomMap, stored: nat, room: Room, src: Addr, now: Time,
      rnd: Option<Bytes>, q: Key)
    requires room in rooms
    ensures var r := Revisit(c, rooms, stored, room, src, now, rnd);
      if q == Key(room, src) && r.1.Challenged? then
        PendAt(r.0, q) == Some(Challenge(r.1.cookie, now)) && (ClientAt(r.0, q) ==> ClientAt(rooms, q))
      else Moves(rooms, r.0, q, false)
  {
    SweepMoves(c, rooms, room, now, q);
  }

  lemma MsgMoves(c: Config, rooms: RoomMap, room: Room, src: Addr, now: Time, q: Key)
    ensures Moves(rooms, MsgRooms(c, rooms, room, src, now).0, q, false)
  {
  }

  // ----- what one step does to the challenges and clients of q -----

  /** A store challenge after a step was issued by it, or was there and did not admit. */
  ghost predicate StoreFrom(step: Machine, s: State, i: Input, q: Key) {
    var (s', reply) := step(s, i);
    if Issues(step, s, i, q, true) then q in s'.store && s'.store[q] == Challenge(reply.cookie, i.now)
    else q in s'.store ==> q in s.store && s'.store[q] == s.store[q] && !Admits(step, s, i, q, true)
  }

  /** The same for the room's own challenge; its room was already there. */
  ghost predicate PendFrom(step: Machine, s: State, i: Input, q: Key) {
    var (s', reply) := step(s, i);
    if Issues(step, s, i, q, false) then PendAt(s'.rooms, q) == Some(Challenge(reply.cookie, i.now))
    else PendAt(s'.rooms, q).Some? ==> PendAt(s'.rooms, q) == PendAt(s.rooms, q) && !Admits(step, s, i, q, false)
  }

  ghost predicate ClientFrom(step: Machine, s: State, i: Input, q: Key) {
    ClientAt(step(s, i).0.rooms, q) ==> ClientAt(s.rooms, q) || Admits(step, s, i, q, q in s.store)
  }

  /** An admission finds an unexpired challenge with its cookie in the container it names. */
  ghost predicate AdmitNeeds(step: Machine, s: State, i: Input, q: Key) {
    && (Admits(step, s, i, q, true) ==> q in s.store && Echoed(i, s.store[q]))
    && (Admits(step, s, i, q, false) ==> PendAt(s.rooms, q).Some? && Echoed(i, PendAt(s.rooms, q).value))
  }

  predicate Echoed(i: Input, ch: Challenge)
    requires i.ev.Reg? && GoodCookie(i.ev.cookie)
  {
    CookieBytes(i.ev.cookie) == ch.cookie && !Expired(i.now, ch.createdAt, PENDING_REG_TTL)
  }

  ghost predicate AnswersSender(step: Machine, s: State, i: Input) {
    step(s, i).1.Challenged? ==> i.ev.Reg? && step(s, i).1.to == i.ev.src
  }

  ghost predicate StepFrom(step: Machine, s: State, i: Input, q: Key) {
    StoreFrom(step, s, i, q) && PendFrom(step, s, i, q) && ClientFrom(step, s, i, q)
    && AdmitNeeds(step, s, i, q) && AnswersSender(step, s, i)
  }

  // The four ways a REG is answered, and that each is as above for any step function.

  function RegKey(i: Input): Key
    requires i.ev.Reg?
  {
    Key(i.ev.room, i.ev.src)
  }

  /** The store holds the pair and decides. */
  predicate StoreDecides(s: State, i: Input, s': State, reply: Reply, q: Key)
    requires i.ev.Reg? && GoodCookie(i.ev.cookie) && RegKey(i) in s.store
  {
    && !reply.Challenged? && Moves(s.rooms, s'.rooms, q, q == RegKey(i) && reply == Registered(q.src))
    && (s'.store == s.store - {RegKey(i)} || (s'.store == s.store && !reply.Registered?))
    && (reply.Registered? ==> Echoed(i, s.store[RegKey(i)]))
  }

  lemma StoreDecided(c: Config, s: State, i: Input, q: Key)
    requires i.ev.Reg? && GoodCookie(i.ev.cookie) && RegKey(i) in s.store
    ensures StoreDecides(s, i, Step(c, s, i).0, Step(c, s, i).1, q)
  {
    var Reg(room, cookie, src, rnd) := i.ev;
    var (reg, limited) := RegLimit(c, s.reg, c.ipKey(src), i.now);
    if limited {
      assert Step(c, s, i) == (s.(reg := reg), Drop(RateLimited));
    } else {
      StoreDecidedAllowed(c, s.(reg := reg), i, q);
    }
  }

  lemma StoreDecidedAllowed(c: Config, s: State, i: Input, q: Key)
    requires i.ev.Reg? && GoodCookie(i.ev.cookie) && RegKey(i) in s.store
    ensures var Reg(room, cookie, src, rnd) := i.ev;
      var r := WithCookie(c, s, room, CookieBytes(cookie), src, i.now, rnd);
      StoreDecides(s, i, r.0, r.1, q)
  {
    EnterMoves(c, s.rooms, i.ev.room, i.ev.src, i.now, q);
  }

  lemma StoreDecidesFrom(step: Machine, s: State, i: Input, q: Key)
    requires i.ev.Reg? && GoodCookie(i.ev.cookie) && RegKey(i) in s.store
    requires StoreDecides(s, i, step(s, i).0, step(s, i).1, q)
    ensures StepFrom(step, s, i, q)
  {
  }

  /** The room holds its own challenges and decides. */
  predicate RoomDecides(s: State, i: Input, s': State, reply: Reply, q: Key)
    requires i.ev.Reg? && GoodCookie(i.ev.cookie)
  {
    && !reply.Challenged? && Moves(s.rooms, s'.rooms, q, q == RegKey(i) && reply == Registered(q.src))
    && s'.store == s.store
    && (reply.Registered? ==>
          && PendAt(s.rooms, RegKey(i)).Some? && Echoed(i, PendAt(s.rooms, RegKey(i)).value)
          && PendAt(s'.rooms, RegKey(i)).None?)
  }

  lemma RoomDecided(c: Config, s: State, i: Input, q: Key)
    requires i.ev.Reg? && GoodCookie(i.ev.cookie) && RegKey(i) !in s.store && i.ev.room in s.rooms
    ensures RoomDecides(s, i, Step(c, s, i).0, Step(c, s, i).1, q)
  {
    AdmitMoves(c, s.rooms, i.ev.room, CookieBytes(i.ev.cookie), i.ev.src, i.now, q);
  }

  lemma RoomDecidesFrom(step: Machine, s: State, i: Input, q: Key)
    requires i.ev.Reg? && GoodCookie(i.ev.cookie) && RegKey(i) !in s.store
      && RoomDecides(s, i, step(s, i).0, step(s, i).1, q)
    ensures StepFrom(step, s, i, q)
  {
  }

  /** The room is missing; at most a challenge is stored. */
  predicate StoreIssues(s: State, i: Input, s': State, reply: Reply)
    requires i.ev.Reg?
  {
    && s'.rooms == s.rooms && !reply.Registered?
    && if reply.Challenged? then reply.to == i.ev.src
      && s'.store == s.store[RegKey(i) := Challenge(reply.cookie, i.now)]
       else s'.store == s.store
  }

  lemma StoreIssued(c: Config, s: State, i: Input)
    requires i.ev.Reg? && i.ev.room !in s.rooms
    requires i.ev.cookie == "" || (GoodCookie(i.ev.cookie) && RegKey(i) !in s.store)
    ensures StoreIssues(s, i, Step(c, s, i).0, Step(c, s, i).1)
  {
  }

  lemma StoreIssuesFrom(step: Machine, s: State, i: Input, q: Key)
    requires i.ev.Reg? && i.ev.room !in s.rooms && StoreIssues(s, i, step(s, i).0, step(s, i).1)
    ensures StepFrom(step, s, i, q)
  {
  }

  /** A REG without cookie in an existing room. */
  predicate RoomIssues(s: State, i: Input, s': State, reply: Reply, q: Key)
    requires i.ev.Reg?
  {
    && s'.store == s.store && (reply.Challenged? ==> reply.to == i.ev.src)
    && if q == RegKey(i) && reply.Challenged? then
         PendAt(s'.rooms, q) == Some(Challenge(reply.cookie, i.now)) && (ClientAt(s'.rooms, q) ==> ClientAt(s.rooms, q))
       else Moves(s.rooms, s'.rooms, q, false)
  }

  lemma RoomIssued(c: Config, s: State, i: Input, q: Key)
    requires i.ev.Reg? && i.ev.cookie == "" && i.ev.room in s.rooms
    ensures RoomIssues(s, i, Step(c, s, i).0, Step(c, s, i).1, q)
  {
    var Reg(room, cookie, src, rnd) := i.ev;
    RevisitMoves(c, s.rooms, |StoreOf(c, s.store, c.ipKey(src))|, room, src, i.now, rnd, q);
  }

  lemma RoomIssuesFrom(step: Machine, s: State, i: Input, q: Key)
    requires i.ev.Reg? && i.ev.cookie == "" && i.ev.room in s.rooms && RoomIssues(s, i, step(s, i).0, step(s, i).1, q)
    ensures StepFrom(step, s, i, q)
  {
  }

  /** A REG without cookie, or with a cookie of 16 bytes in hex. */
  lemma RegFrom(c: Config, s: State, i: Input, q: Key)
    requires i.ev.Reg? && (i.ev.cookie == "" || GoodCookie(i.ev.cookie))
    ensures StepFrom(StepOf(c), s, i, q)
  {
    var step := StepOf(c);
    assert step(s, i) == Step(c, s, i);
    if GoodCookie(i.ev.cookie) && RegKey(i) in s.store {
      StoreDecided(c, s, i, q);
      StoreDecidesFrom(step, s, i, q);
    } else if i.ev.room !in s.rooms {
      StoreIssued(c, s, i);
      StoreIssuesFrom(step, s, i, q);
    } else if i.ev.cookie == "" {
      RoomIssued(c, s, i, q);
      RoomIssuesFrom(step, s, i, q);
    } else {
      RoomDecided(c, s, i, q);
      RoomDecidesFrom(step, s, i, q);
    }
  }

  lemma StepOrigin(c: Config, s: State, i: Input, q: Key)
    ensures StepFrom(StepOf(c), s, i, q)
  {
    match i.ev
    case Reg(_, cookie, _, _) => if cookie == "" || GoodCookie(cookie) { RegFrom(c, s, i, q); }
    case Msg(room, src) => MsgMoves(c, s.rooms, room, src, i.now, q);
    case CleanRooms => EvictMoves(c, s.rooms, s.rooms.Keys, i.now, q);
    case CleanRates =>
  }

  lemma RelayLawful(c: Config)
    ensures Lawful(StepOf(c))
  {
    forall s, i, q ensures StepFrom(StepOf(c), s, i, q) {
      StepOrigin(c, s, i, q);
    }
  }

  // ----- runs of any step function that keeps the laws above -----

  ghost predicate Lawful(step: Machine) {
    forall s, i, q :: StepFrom(step, s, i, q)
  }

  /** The state in which input i of a run arrives. */
  function Before(step: Machine, ins: seq<Input>, i: nat): State
    requires i <= |ins|
  {
    Play(step, ins[..i])
  }

  function ReplyAt(step: Machine, ins: seq<Input>, k: nat): Reply
    requires k < |ins|
  {
    step(Before(step, ins, k), ins[k]).1
  }

  lemma BeforeNext(step: Machine, ins: seq<Input>, i: nat)
    requires i < |ins|
    ensures Before(step, ins, i + 1) == step(Before(step, ins, i), ins[i]).0
  {
    assert ins[..i + 1][..i] == ins[..i];
  }

  predicate IssuesAt(step: Machine, ins: seq<Input>, k: nat, q: Key, inStore: bool)
    requires k < |ins|
  {
    Issues(step, Before(step, ins, k), ins[k], q, inStore)
  }

  predicate AdmitsAt(step: Machine, ins: seq<Input>, j: nat, q: Key, inStore: bool)
    requires j < |ins|
  {
    Admits(step, Before(step, ins, j), ins[j], q, inStore)
  }

  /** Input k is the last before i that issued q a challenge in this container, and
      nothing admitted q from this container since. */
  ghost predicate Live(step: Machine, ins: seq<Input>, k: nat, i: nat, q: Key, inStore: bool)
    requires k < i <= |ins|
  {
    && IssuesAt(step, ins, k, q, inStore)
    && (forall m | k < m < i :: !IssuesAt(step, ins, m, q, inStore) && !AdmitsAt(step, ins, m, q, inStore))
  }

  predicate IssuedAs(step: Machine, ins: seq<Input>, k: nat, q: Key, ch: Challenge)
    requires k < |ins|
  {
    ReplyAt(step, ins, k) == Challenged(q.src, ch.cookie) && ins[k].now == ch.createdAt
  }

  /** Every challenge in the store is the live one. */
  lemma {:induction false} StoreOrigin(step: Machine, ins: seq<Input>, i: nat, q: Key) returns (k: nat)
    requires Lawful(step) && i <= |ins| && q in Before(step, ins, i).store
    ensures k < i && Live(step, ins, k, i, q, true) && IssuedAs(step, ins, k, q, Before(step, ins, i).store[q])
  {
    BeforeNext(step, ins, i - 1);
    assert StepFrom(step, Before(step, ins, i - 1), ins[i - 1], q);
    if IssuesAt(step, ins, i - 1, q, true) { k := i - 1; } else { k := StoreOrigin(step, ins, i - 1, q); }
  }

  /** Every challenge in a room is the live one, and the room has existed ever since. */
  lemma {:induction false} PendOrigin(step: Machine, ins: seq<Input>, i: nat, q: Key) returns (k: nat)
    requires Lawful(step) && i <= |ins| && PendAt(Before(step, ins, i).rooms, q).Some?
    ensures k < i && Live(step, ins, k, i, q, false)
    ensures IssuedAs(step, ins, k, q, PendAt(Before(step, ins, i).rooms, q).value)
    ensures forall m | k <= m <= i :: q.room in Before(step, ins, m).rooms
  {
    BeforeNext(step, ins, i - 1);
    assert StepFrom(step, Before(step, ins, i - 1), ins[i - 1], q);
    if IssuesAt(step, ins, i - 1, q, false) { k := i - 1; } else { k := PendOrigin(step, ins, i - 1, q); }
  }

  /** Input j admits q on the cookie of the live challenge k, which is not too old. */
  ghost predicate AdmittedOn(step: Machine, ins: seq<Input>, k: nat, j: nat, q: Key, inStore: bool)
    requires k < j < |ins|
  {
    && AdmitsAt(step, ins, j, q, inStore)
    && Live(step, ins, k, j, q, inStore)
    && ReplyAt(step, ins, k) == Challenged(q.src, CookieBytes(ins[j].ev.cookie))
    && ins[j].now - ins[k].now <= PENDING_REG_TTL
  }

  /** Every admission is by a packet that echoes the live challenge of its container. */
  lemma AdmissionOrigin(step: Machine, ins: seq<Input>, j: nat, q: Key, inStore: bool) returns (k: nat)
    requires Lawful(step) && j < |ins| && AdmitsAt(step, ins, j, q, inStore)
    ensures k < j && AdmittedOn(step, ins, k, j, q, inStore)
    ensures !inStore ==> forall m | k <= m <= j :: q.room in Before(step, ins, m).rooms
  {
    assert StepFrom(step, Before(step, ins, j), ins[j], q);
    if inStore { k := StoreOrigin(step, ins, j, q); } else { k := PendOrigin(step, ins, j, q); }
  }

  /** q was admitted by input j on challenge k and has been a client up to i. */
  ghost predicate Stays(step: Machine, ins: seq<Input>, k: nat, j: nat, i: nat, q: Key, inStore: bool)
    requires k < j < i <= |ins|
  {
    AdmittedOn(step, ins, k, j, q, inStore) && forall m | j < m <= i :: ClientAt(Before(step, ins, m).rooms, q)
  }

  lemma {:induction false} ClientOrigin(step: Machine, ins: seq<Input>, i: nat, q: Key) returns (k: nat, j: nat,
          inStore: bool)
    requires Lawful(step) && i <= |ins| && ClientAt(Before(step, ins, i).rooms, q)
    ensures k < j < i && Stays(step, ins, k, j, i, q, inStore)
  {
    BeforeNext(step, ins, i - 1);
    assert StepFrom(step, Before(step, ins, i - 1), ins[i - 1], q);
    if ClientAt(Before(step, ins, i - 1).rooms, q) {
      k, j, inStore := ClientOrigin(step, ins, i - 1, q);
    } else {
      j, inStore := i - 1, q in Before(step, ins, i - 1).store;
      k := AdmissionOrigin(step, ins, j, q, inStore);
    }
  }

  /** One challenge admits at most once: two admissions never rest on the same one. */
  lemma AdmitsOnce(step: Machine, ins: seq<Input>, k: nat, j1: nat, j2: nat, q1: Key, q2: Key, b1: bool, b2: bool)
    requires k < j1 < |ins| && k < j2 < |ins|
    requires AdmittedOn(step, ins, k, j1, q1, b1) && AdmittedOn(step, ins, k, j2, q2, b2)
    ensures j1 == j2 && q1 == q2 && b1 == b2
  {
    assert IssuesAt(step, ins, k, q1, b1) && IssuesAt(step, ins, k, q2, b2);
  }

  /** The clock never goes back. */
  ghost predicate ClockOk(ins: seq<Input>) {
    forall m, n | 0 <= m <= n < |ins| :: ins[m].now <= ins[n].now
  }

  // ----- the relay -----

  /** In every reachable state each client of a room was admitted, on a cookie issued to
      that room and address, by the packet that began its present stay. */
  lemma AdmittedClients(c: Config, ins: seq<Input>, q: Key) returns (k: nat, j: nat, inStore: bool)
    requires ClientAt(Run(c, ins).rooms, q)
    ensures k < j < |ins| && Stays(StepOf(c), ins, k, j, |ins|, q, inStore)
  {
    RelayLawful(c);
    assert ins[..|ins|] == ins;
    k, j, inStore := ClientOrigin(StepOf(c), ins, |ins|, q);
  }

  /** Every admission echoes a live challenge, and no challenge admits twice. */
  lemma Admissions(c: Config, ins: seq<Input>, j: nat, q: Key, inStore: bool) returns (k: nat)
    requires j < |ins| && AdmitsAt(StepOf(c), ins, j, q, inStore)
    ensures k < j && AdmittedOn(StepOf(c), ins, k, j, q, inStore)
    ensures forall j', q', b | k < j' < |ins| && AdmittedOn(StepOf(c), ins, k, j', q', b) :: j' == j
  {
    RelayLawful(c);
    k := AdmissionOrigin(StepOf(c), ins, j, q, inStore);
    forall j', q', b | k < j' < |ins| && AdmittedOn(StepOf(c), ins, k, j', q', b) ensures j' == j {
      AdmitsOnce(StepOf(c), ins, k, j, j', q, q', inStore, b);
    }
  }

  /** A message that is passed on goes to exactly those other addresses whose own
      admission to the room is still standing, and the sender's is too. */
  lemma RelayedTo(c: Config, ins: seq<Input>, i: nat, room: Room, src: Addr, a: Addr)
    requires i < |ins| && ins[i].ev == Msg(room, src) && ReplyAt(StepOf(c), ins, i).Relayed?
    ensures a in ReplyAt(StepOf(c), ins, i).targets <==> a != src && Standing(StepOf(c), ins, i, Key(room, a))
    ensures Standing(StepOf(c), ins, i, Key(room, src))
  {
    RelayLawful(c);
    StandingClient(StepOf(c), ins, i, Key(room, a));
    StandingClient(StepOf(c), ins, i, Key(room, src));
  }

  ghost predicate Standing(step: Machine, ins: seq<Input>, i: nat, q: Key)
    requires i <= |ins|
  {
    exists k: nat, j: nat, b | k < j < i :: Stays(step, ins, k, j, i, q, b)
  }

  lemma StandingClient(step: Machine, ins: seq<Input>, i: nat, q: Key)
    requires Lawful(step) && i <= |ins|
    ensures Standing(step, ins, i, q) <==> ClientAt(Before(step, ins, i).rooms, q)
  {
    if ClientAt(Before(step, ins, i).rooms, q) {
      var k, j, b := ClientOrigin(step, ins, i, q);
      assert Stays(step, ins, k, j, i, q, b);
    }
  }
}
