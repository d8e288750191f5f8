/** A run in which the relay admits a client on a cookie that is not the newest it
    issued: the store is consulted before the room's own challenges. */
module RelayStale {
  import opened Text
  import opened RelaySpec
  import opened RelayCaps
  import opened RelayProvenance
  import opened RelayNewest

  const A := Addr("a")
  const B := Addr("b")
  const R := Room("r")
  const QA := Key(R, A)
  const QB := Key(R, B)

  const NET := Ip("net")                  // both addresses share a key

  type Cookie = b: Bytes | |b| == PENDING_COOKIE_BYTES witness seq(PENDING_COOKIE_BYTES, _ => 0)

  /** a's first cookie, b's cookie and a's second cookie. */
  datatype Cookies = Cookies(first: Cookie, other: Cookie, second: Cookie)

  const SECOND := 1_000_000_000

  const BASE := Config(10_000, 10, 10, 10, SECOND, 60 * SECOND, 20, 4, 50, 65_536, 65_536, 256,
                       (a: Addr) => NET, (r: Room) => 0, (ip: Ip) => 0)

  /** The default limits, with any time to live for rooms and clients. */
  function C(ttl: pos): Config {
    BASE.(regTTL := ttl)
  }

  /** a and b are challenged for a new room, b creates it, a asks again and is challenged in the room. */
  function Ask1(k: Cookies): Input { At(0, Reg(R, "", A, Some(k.first))) }
  function Ask2(k: Cookies): Input { At(0, Reg(R, "", B, Some(k.other))) }
  function Ask3(k: Cookies): Input { At(0, Reg(R, HexEncode(k.other), B, None)) }
  function Ask4(k: Cookies): Input { At(0, Reg(R, "", A, Some(k.second))) }

  function Echo(k: Cookies): Event {
    Reg(R, HexEncode(k.first), A, None)
  }

  /** Then a echoes its first cookie ... */
  function Direct(k: Cookies): seq<Input> {
    [Ask1(k), Ask2(k), Ask3(k), Ask4(k), At(0, Echo(k))]
  }

  /** ... or does so after a tick that found the room dead. */
  function Evicting(k: Cookies, ttl: pos): seq<Input> {
    [Ask1(k), Ask2(k), Ask3(k), Ask4(k), At(ttl + 1, CleanRooms), At(ttl + 1, Echo(k))]
  }

  function Window(n: nat): map<Ip, RegWindow> {
    map[NET := RegWindow(n, 0)]
  }

  function After(n: nat, rooms: RoomMap, store: StoreMap): State {
    State(rooms, store, Window(n))
  }

  const ROOM := Entry(map[B := NewClient(0)], map[], 0, 0)
  const SWEPT := ROOM.(nextPendingSweep := PENDING_REG_TTL)

  function Asked(k: Cookies): Entry { SWEPT.(pending := map[A := Challenge(k.second, 0)]) }
  function Store1(k: Cookies): StoreMap { map[QA := Challenge(k.first, 0)] }
  function Store2(k: Cookies): StoreMap { map[QA := Challenge(k.first, 0), QB := Challenge(k.other, 0)] }

  lemma Limit(ttl: pos, n: nat, s: State, i: Input)
    requires n < 10 && i.now == 0 && i.ev.Reg? && s.reg == if n == 0 then map[] else Window(n)
    ensures Step(C(ttl), s, i) ==
      RegAllowed(C(ttl), s.(reg := Window(n + 1)), i.ev.room, i.ev.cookie, i.ev.src, 0, i.ev.rnd)
  {
    ShardSize(ttl, s.reg);
    assert s.reg[NET := RegWindow(n + 1, 0)] == Window(n + 1);
  }

  lemma ShardSize(ttl: pos, reg: map<Ip, RegWindow>)
    ensures |set k | k in reg && C(ttl).ipHash(k) % NUM_SHARDS == C(ttl).ipHash(NET) % NUM_SHARDS| <= |reg|
  {
    var shard := set k | k in reg && C(ttl).ipHash(k) % NUM_SHARDS == C(ttl).ipHash(NET) % NUM_SHARDS;
    SubsetSize(shard, reg.Keys);
  }

  lemma Step1(ttl: pos, k: Cookies)
    ensures Step(C(ttl), INIT, Ask1(k)) == (After(1, map[], Store1(k)), Challenged(A, k.first))
  {
    Limit(ttl, 0, INIT, Ask1(k));
    assert IpRooms(C(ttl), map[], NET) == {} && StoreOf(C(ttl), map[], NET) == {};
  }

  lemma Step2(ttl: pos, k: Cookies)
    ensures Step(C(ttl), After(1, map[], Store1(k)), Ask2(k)) == (After(2, map[], Store2(k)), Challenged(B, k.other))
  {
    Limit(ttl, 1, After(1, map[], Store1(k)), Ask2(k));
    assert IpRooms(C(ttl), map[], NET) == {} && StoreOf(C(ttl), Store1(k), NET) == {QA};
    assert |Store1(k)| == |Store1(k).Keys| == |{QA}|;
    assert Store1(k)[QB := Challenge(k.other, 0)] == Store2(k);
  }

  lemma Step3(ttl: pos, k: Cookies)
    ensures Step(C(ttl), After(2, map[], Store2(k)), Ask3(k)) == (After(3, map[R := ROOM], Store1(k)), Registered(B))
  {
    Limit(ttl, 2, After(2, map[], Store2(k)), Ask3(k));
    HexRoundTrip(k.other);
    assert IpRooms(C(ttl), map[], NET) == {};
    assert Store2(k) - {QB} == Store1(k);
  }

  lemma SweepRoom(ttl: pos)
    ensures Sweep(C(ttl), ROOM, 0) == SWEPT
  {
    assert ExpireClients(C(ttl), ROOM, 0).clients == ROOM.clients;
    assert ExpirePending(ROOM, 0).pending == map[];
  }

  lemma Step4(ttl: pos, k: Cookies)
    ensures Step(C(ttl), After(3, map[R := ROOM], Store1(k)), Ask4(k)) ==
      (After(4, map[R := Asked(k)], Store1(k)), Challenged(A, k.second))
  {
    Limit(ttl, 3, After(3, map[R := ROOM], Store1(k)), Ask4(k));
    SweepRoom(ttl);
    assert StoreOf(C(ttl), Store1(k), NET) == {QA};
    AskedIn(ttl, k, 1);
    assert (map[R := ROOM])[R := SWEPT] == map[R := SWEPT];
  }

  lemma AskedIn(ttl: pos, k: Cookies, stored: nat)
    requires stored == 1
    ensures RevisitSwept(C(ttl), map[R := SWEPT], stored, R, A, 0, Some(k.second)) ==
      (map[R := Asked(k)], Challenged(A, k.second))
  {
    assert InRoom(map[R := SWEPT]) == {};
    assert PrefixClients(C(ttl), SWEPT, NET) == {B} && PendingOf(C(ttl), map[], NET) == {};
    assert |SWEPT.clients| == |SWEPT.clients.Keys| == |{B}|;
    var rooms: RoomMap := map[R := SWEPT];
    assert rooms[R := Asked(k)] == map[R := Asked(k)];
  }

  lemma Step5(ttl: pos, k: Cookies)
    ensures Step(C(ttl), After(4, map[R := Asked(k)], Store1(k)), At(0, Echo(k))).1 == Registered(A)
  {
    Limit(ttl, 4, After(4, map[R := Asked(k)], Store1(k)), At(0, Echo(k)));
    HexRoundTrip(k.first);
    Joined(ttl, k);
  }

  lemma Joined(ttl: pos, k: Cookies)
    ensures Enter(C(ttl), map[R := Asked(k)], R, A, 0).1 == Registered(A)
  {
    var rooms: RoomMap := map[R := Asked(k)];
    assert |rooms| == |rooms.Keys| == |{R}|;
    var e := Sweep(C(ttl), Asked(k), 0);
    assert e.clients == ROOM.clients && |e.clients| == |e.clients.Keys| == |{B}|;
    assert PrefixClients(C(ttl), e, NET) == {B};
    assert HasIp(C(ttl), e, NET) by { assert B in e.clients; }
  }

  /** The states a run of at least four inputs goes through. */
  lemma Played(step: Machine, ins: seq<Input>, s1: State, s2: State, s3: State, s4: State)
    requires |ins| >= 4
    requires step(INIT, ins[0]).0 == s1 && step(s1, ins[1]).0 == s2 && step(s2, ins[2]).0 == s3
      && step(s3, ins[3]).0 == s4
    ensures Before(step, ins, 3) == s3 && Before(step, ins, 4) == s4
  {
    assert ins[..0] == [];
    BeforeNext(step, ins, 0);
    BeforeNext(step, ins, 1);
    BeforeNext(step, ins, 2);
    BeforeNext(step, ins, 3);
  }

  ghost predicate Opens(k: Cookies, ins: seq<Input>) {
    |ins| >= 4 && ins[0] == Ask1(k) && ins[1] == Ask2(k) && ins[2] == Ask3(k) && ins[3] == Ask4(k)
  }

  /** The room with b in it, before and after a asked. */
  function Open(k: Cookies): State { After(3, map[R := ROOM], Store1(k)) }
  function Waiting(k: Cookies): State { After(4, map[R := Asked(k)], Store1(k)) }

  lemma Replay(ttl: pos, k: Cookies, ins: seq<Input>)
    requires Opens(k, ins)
    ensures Before(StepOf(C(ttl)), ins, 3) == Open(k) && Before(StepOf(C(ttl)), ins, 4) == Waiting(k)
  {
    Step1(ttl, k);
    Step2(ttl, k);
    Step3(ttl, k);
    Step4(ttl, k);
    Played(StepOf(C(ttl)), ins, After(1, map[], Store1(k)), After(2, map[], Store2(k)), Open(k), Waiting(k));
  }

  lemma Asks(ttl: pos, k: Cookies, ins: seq<Input>)
    requires Opens(k, ins)
    ensures IssuesAt(StepOf(C(ttl)), ins, 3, QA, false)
  {
    Replay(ttl, k, ins);
    Step4(ttl, k);
  }

  lemma EchoAdmits(step: Machine, k: Cookies, s: State, now: Time)
    requires QA in s.store && step(s, At(now, Echo(k))).1 == Registered(A)
    ensures Admits(step, s, At(now, Echo(k)), QA, true)
  {
    HexRoundTrip(k.first);
  }

  /** Admitted from the store after the opening, with no other REG by a in between, a must
      have echoed its first challenge, which is not its newest. */
  lemma FirstChallenge(step: Machine, c: Cookies, ins: seq<Input>, j: nat)
    requires Lawful(step) && Opens(c, ins) && j < |ins| && (j == 4 || (j == 5 && !ins[4].ev.Reg?))
    requires AdmitsAt(step, ins, j, QA, true) && IssuesAt(step, ins, 3, QA, false)
    ensures AdmittedOn(step, ins, 0, j, QA, true) && !Newest(step, ins, 0, j, QA)
  {
    var k := AdmissionOrigin(step, ins, j, QA, true);
    assert IssuesAt(step, ins, k, QA, true);
    assert k == 0;
  }

  /** Time stands still for n inputs and then at t. */
  lemma TwoTimes(ins: seq<Input>, n: nat, t: Time)
    requires forall i | 0 <= i < |ins| :: ins[i].now == if i < n then 0 else t
    ensures ClockOk(ins)
  {
  }

  lemma ClockAtOnce(k: Cookies)
    ensures ClockOk(Direct(k))
  {
    TwoTimes(Direct(k), 5, 0);
  }

  lemma AtOnce(step: Machine, k: Cookies)
    requires Lawful(step) && Before(step, Direct(k), 4) == Waiting(k) && IssuesAt(step, Direct(k), 3, QA, false)
    requires step(Waiting(k), At(0, Echo(k))).1 == Registered(A)
    ensures AdmittedOn(step, Direct(k), 0, 4, QA, true) && !Newest(step, Direct(k), 0, 4, QA)
  {
    EchoAdmits(step, k, Waiting(k), 0);
    FirstChallenge(step, k, Direct(k), 4);
  }

  /** The last packet admits a on its first challenge although it was given another one
      later, whatever the time to live. */
  lemma OldCookieAdmits(ttl: pos, k: Cookies)
    ensures ClockOk(Direct(k)) && AdmittedOn(StepOf(C(ttl)), Direct(k), 0, 4, QA, true)
      && !Newest(StepOf(C(ttl)), Direct(k), 0, 4, QA)
  {
    ClockAtOnce(k);
    RelayLawful(C(ttl));
    Replay(ttl, k, Direct(k));
    Asks(ttl, k, Direct(k));
    Step5(ttl, k);
    AtOnce(StepOf(C(ttl)), k);
  }

  // ----- rooms that do not outlive challenges -----

  function Gone(k: Cookies): State { After(4, map[], Store1(k)) }

  lemma Step5Evict(ttl: pos, k: Cookies)
    requires ttl < PENDING_REG_TTL
    ensures Step(C(ttl), Waiting(k), At(ttl + 1, CleanRooms)).0 == Gone(k)
  {
    assert Tidy(C(ttl), Asked(k), ttl + 1).clients == map[];
    var rooms: RoomMap := map[R := Asked(k)];
    assert Evict(C(ttl), rooms, rooms.Keys, ttl + 1) == map[];
    assert RoomTick(C(ttl), After(4, rooms, Store1(k)), ttl + 1).store == Store1(k);
  }

  lemma NotLimited(ttl: pos, s: State, i: Input)
    requires s.reg == Window(4) && i.ev.Reg?
    ensures exists reg ::
      Step(C(ttl), s, i) == RegAllowed(C(ttl), s.(reg := reg), i.ev.room, i.ev.cookie, i.ev.src, i.now, i.ev.rnd)
  {
    var (reg, limited) := RegLimit(C(ttl), s.reg, NET, i.now);
    assert !limited;
  }

  lemma Step6(ttl: pos, k: Cookies)
    requires ttl < PENDING_REG_TTL
    ensures Step(C(ttl), Gone(k), At(ttl + 1, Echo(k))).1 == Registered(A)
  {
    HexRoundTrip(k.first);
    NotLimited(ttl, Gone(k), At(ttl + 1, Echo(k)));
    Created(ttl, ttl + 1);
  }

  lemma Created(ttl: pos, now: Time)
    ensures Enter(C(ttl), map[], R, A, now).1 == Registered(A)
  {
    assert IpRooms(C(ttl), map[], NET) == {};
  }

  lemma ClockEvicting(ttl: pos, k: Cookies)
    ensures ClockOk(Evicting(k, ttl))
  {
    TwoTimes(Evicting(k, ttl), 4, ttl + 1);
  }

  lemma AfterEviction(step: Machine, k: Cookies, ins: seq<Input>, now: Time)
    requires Lawful(step) && Opens(k, ins) && |ins| == 6 && ins[4] == At(now, CleanRooms) && ins[5] == At(now, Echo(k))
    requires Before(step, ins, 4) == Waiting(k) && IssuesAt(step, ins, 3, QA, false)
    requires step(Waiting(k), ins[4]).0 == Gone(k) && step(Gone(k), ins[5]).1 == Registered(A)
    ensures AdmittedOn(step, ins, 0, 5, QA, true) && !Newest(step, ins, 0, 5, QA)
    ensures PendAt(Before(step, ins, 5).rooms, QA).None?
  {
    BeforeNext(step, ins, 4);
    EchoAdmits(step, k, Gone(k), now);
    FirstChallenge(step, k, ins, 5);
  }

  /** The room was evicted in between, so nothing shows that a had a newer cookie. */
  lemma EvictedRoomHides(ttl: pos, k: Cookies)
    requires ttl < PENDING_REG_TTL
    ensures ClockOk(Evicting(k, ttl)) && AdmittedOn(StepOf(C(ttl)), Evicting(k, ttl), 0, 5, QA, true)
    ensures !Newest(StepOf(C(ttl)), Evicting(k, ttl), 0, 5, QA)
    ensures PendAt(Before(StepOf(C(ttl)), Evicting(k, ttl), 5).rooms, QA).None?
  {
    ClockEvicting(ttl, k);
    RelayLawful(C(ttl));
    Replay(ttl, k, Evicting(k, ttl));
    Asks(ttl, k, Evicting(k, ttl));
    Step5Evict(ttl, k);
    Step6(ttl, k);
    AfterEviction(StepOf(C(ttl)), k, Evicting(k, ttl), ttl + 1);
  }

  /** If input j admits q from the store, it echoes the newest cookie exactly if the room
      then holds no challenge for the address. */
  ghost predicate TellsAt(step: Machine, ins: seq<Input>, k: nat, j: nat, q: Key) {
    ClockOk(ins) && k < j < |ins| && AdmittedOn(step, ins, k, j, q, true) ==>
      (Newest(step, ins, k, j, q) <==> PendAt(Before(step, ins, j).rooms, q).None?)
  }

  ghost predicate RoomTells(step: Machine) {
    forall ins, k: nat, j: nat, q :: TellsAt(step, ins, k, j, q)
  }

  /** With the default limits that is so on every run if and only if rooms outlive challenges. */
  lemma RoomTellsExactly(ttl: pos)
    ensures RoomTells(StepOf(C(ttl))) <==> ttl >= PENDING_REG_TTL
  {
    var step := StepOf(C(ttl));
    if ttl < PENDING_REG_TTL {
      var zeros: Cookie := seq(PENDING_COOKIE_BYTES, _ => 0);
      var k := Cookies(zeros, zeros, zeros);
      EvictedRoomHides(ttl, k);
      assert !TellsAt(step, Evicting(k, ttl), 0, 5, QA);
    } else {
      forall ins, k: nat, j: nat, q ensures TellsAt(step, ins, k, j, q) {
        if ClockOk(ins) && k < j < |ins| && AdmittedOn(step, ins, k, j, q, true) {
          StoreAdmissionNewest(C(ttl), ins, k, j, q);
        }
      }
    }
  }
}
