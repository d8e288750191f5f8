/** The relay as its base tables only: rooms with admitted clients and in-room
    challenges, and the pre-cookie store.  Every cap is decided by scanning those
    tables.  The counters and indexes the real relay keeps for speed do not occur
    here; `RelayServer` keeps them and refines this module. */
module RelaySpec {
  import opened Text

  datatype Room = Room(name: string)
  datatype Addr = Addr(text: string)      // a source address as text
  datatype Ip = Ip(key: string)           // what `ipKey` collapses an address to
  type Time = nat         // nanoseconds; 0 is the zero time

  const PENDING_REG_TTL: nat := 5_000_000_000
  const PENDING_COOKIE_BYTES: nat := 16
  const NUM_SHARDS: nat := 16
  const MAX_REG_SHARD_ENTRIES: nat := 100_000

  /** Limits (all positive, as the environment reader guarantees) and the two
      functions the model leaves arbitrary: address collapsing and hashing. */
  datatype Config = Config(
    maxRooms: pos, maxRoomsPerIP: pos, maxMsgRate: pos, maxRegRate: pos,
    rateWindow: pos, regTTL: pos, maxClientsHard: pos, maxClientsPerPrefix: pos,
    maxPendingPerIP: pos, maxPendingGlobal: pos, maxInRoomPending: pos, maxPendingPerRoom: pos,
    ipKey: Addr -> Ip, roomHash: Room -> nat, ipHash: Ip -> nat)

  function Shard(c: Config, r: Room): (i: nat)
    ensures i < NUM_SHARDS
  {
    c.roomHash(r) % NUM_SHARDS
  }

  // ----- tables -----

  /** A registration waiting for its cookie is known by room and source. */
  datatype Key = Key(room: Room, src: Addr)

  datatype Challenge = Challenge(cookie: Bytes, createdAt: Time)

  datatype Limiter = Limiter(msgCount: nat, windowStart: Time)

  datatype Client = Client(lastSeen: Time, limiter: Limiter)

  datatype Entry = Entry(clients: map<Addr, Client>, pending: map<Addr, Challenge>,
                         t: Time, nextPendingSweep: Time)

  datatype RegWindow = RegWindow(sent: nat, start: Time)

  datatype State = State(rooms: map<Room, Entry>, store: map<Key, Challenge>,
                         reg: map<Ip, RegWindow>)

  const INIT := State(map[], map[], map[])

  // ----- scans -----

  predicate HasIp(c: Config, e: Entry, ip: Ip) {
    exists a | a in e.clients :: c.ipKey(a) == ip
  }

  /** The rooms holding an admitted client with this key. */
  function IpRooms(c: Config, rooms: map<Room, Entry>, ip: Ip): set<Room> {
    set r | r in rooms && HasIp(c, rooms[r], ip)
  }

  function StoreOf(c: Config, store: map<Key, Challenge>, ip: Ip): set<Key> {
    set k | k in store && c.ipKey(k.src) == ip
  }

  function PendingOf(c: Config, pending: map<Addr, Challenge>, ip: Ip): set<Addr> {
    set a | a in pending && c.ipKey(a) == ip
  }

  function PrefixClients(c: Config, e: Entry, ip: Ip): set<Addr> {
    set a | a in e.clients && c.ipKey(a) == ip
  }

  /** Every in-room challenge of every room. */
  function InRoom(rooms: map<Room, Entry>): set<Key> {
    set r, a | r in rooms && a in rooms[r].pending :: Key(r, a)
  }

  // ----- expiry -----

  predicate Expired(now: Time, since: Time, ttl: nat) {
    now - since > ttl
  }

  function ExpireClients(c: Config, e: Entry, now: Time): Entry {
    e.(clients := map a | a in e.clients && !Expired(now, e.clients[a].lastSeen, c.regTTL) :: e.clients[a])
  }

  function ExpirePending(e: Entry, now: Time): Entry {
    e.(pending := map a | a in e.pending && !Expired(now, e.pending[a].createdAt, PENDING_REG_TTL) :: e.pending[a],
       nextPendingSweep := now + PENDING_REG_TTL)
  }

  /** The bookkeeping each REG does on its room; pending expiry is throttled. */
  function Sweep(c: Config, e: Entry, now: Time): Entry {
    var e1 := ExpireClients(c, e, now);
    if now < e1.nextPendingSweep then e1 else ExpirePending(e1, now)
  }

  function Tidy(c: Config, e: Entry, now: Time): Entry {
    ExpirePending(ExpireClients(c, e, now), now)
  }

  /** A room goes when no client is left and it has not been joined for a while. */
  predicate Dead(c: Config, e: Entry, now: Time) {
    Tidy(c, e, now).clients == map[] && Expired(now, e.t, c.regTTL)
  }

  /** Tidies the rooms in `which` and drops the dead ones among them. */
  function Evict(c: Config, rooms: map<Room, Entry>, which: set<Room>, now: Time): map<Room, Entry> {
    map r | r in rooms && !(r in which && Dead(c, rooms[r], now)) ::
      if r in which then Tidy(c, rooms[r], now) else rooms[r]
  }

  function ShardRooms(c: Config, rooms: map<Room, Entry>, sh: nat): set<Room> {
    set r | r in rooms && Shard(c, r) == sh
  }

  // ----- replies -----

  datatype Reason =
    | RateLimited | BadCookie | StoreMismatch | StoreExpired | MaxRooms | RoomsPerIp
    | HardCap | PrefixCap | PendingPerIp | StoreFull | RoomMismatch | RoomExpired | RoomPendingFull
    | UnknownRoom | NotRegistered | MsgRate

  datatype Reply =
    | Drop(reason: Reason)
    | Silent                                    // no randomness available
    | Registered(to: Addr)                      // REGD <room> OK <addr>
    | Challenged(to: Addr, cookie: Bytes)       // REGD <room> <cookie>
    | Relayed(targets: set<Addr>)               // MSGD <phase> <body> to each target
    | Tick

  // ----- REG -----

  /** The per-key registration window.  A first packet of a window always passes. */
  function RegLimit(c: Config, reg: map<Ip, RegWindow>, ip: Ip, now: Time): (map<Ip, RegWindow>, bool) {
    if ip !in reg then
      if |set k | k in reg && c.ipHash(k) % NUM_SHARDS == c.ipHash(ip) % NUM_SHARDS| >= MAX_REG_SHARD_ENTRIES
      then (reg, true)
      else (reg[ip := RegWindow(1, now)], false)
    else if now - reg[ip].start > c.rateWindow then (reg[ip := RegWindow(1, now)], false)
    else if reg[ip].sent >= c.maxRegRate then (reg, true)
    else (reg[ip := RegWindow(reg[ip].sent + 1, reg[ip].start)], false)
  }

  function NewClient(now: Time): Client {
    Client(now, Limiter(0, now))
  }

  type RoomMap = map<Room, Entry>

  type StoreMap = map<Key, Challenge>

  /** A challenge for a room that does not exist goes to the store; `ipRooms` is how many rooms the key is in. */
  function ChallengeStore(c: Config, ipRooms: nat, store: StoreMap, k: Key, now: Time,
          rnd: Option<Bytes>): (StoreMap, Reply) {
    if ipRooms >= c.maxRoomsPerIP then (store, Drop(RoomsPerIp))
    else if |StoreOf(c, store, c.ipKey(k.src))| >= c.maxPendingPerIP then (store, Drop(PendingPerIp))
    else if rnd.None? then (store, Silent)
    else if k !in store && |store| >= c.maxPendingGlobal then (store, Drop(StoreFull))
    else (store[k := Challenge(rnd.value, now)], Challenged(k.src, rnd.value))
  }

  /** A valid store cookie: the room is created, or joined if another client created it first. */
  function Enter(c: Config, rooms: RoomMap, room: Room, src: Addr, now: Time): (RoomMap, Reply) {
    var rooms1 := if |rooms| >= c.maxRooms then Evict(c, rooms, rooms.Keys, now) else rooms;
    if room in rooms1 then Join(c, rooms1, room, src, now) else Create(c, rooms1, room, src, now)
  }

  function Create(c: Config, rooms: RoomMap, room: Room, src: Addr, now: Time): (RoomMap, Reply) {
    CreateNow(c, if |rooms| >= c.maxRooms then Evict(c, rooms, ShardRooms(c, rooms, Shard(c, room)), now) else rooms,
              room, src, now)
  }

  function CreateNow(c: Config, rooms: RoomMap, room: Room, src: Addr, now: Time): (RoomMap, Reply) {
    var reply := CreateReply(c, |rooms|, |IpRooms(c, rooms, c.ipKey(src))|, src);
    (if reply.Registered? then rooms[room := Entry(map[src := NewClient(now)], map[], now, 0)] else rooms, reply)
  }

  function CreateReply(c: Config, count: nat, ipRooms: nat, src: Addr): Reply {
    if count >= c.maxRooms then Drop(MaxRooms)
    else if ipRooms >= c.maxRoomsPerIP then Drop(RoomsPerIp)
    else Registered(src)
  }

  function Join(c: Config, rooms: RoomMap, room: Room, src: Addr, now: Time): (RoomMap, Reply)
    requires room in rooms
  {
    JoinSwept(c, rooms[room := Sweep(c, rooms[room], now)], room, src, now)
  }

  function JoinSwept(c: Config, rooms: RoomMap, room: Room, src: Addr, now: Time): (RoomMap, Reply)
    requires room in rooms
  {
    var e, reply := rooms[room], JoinReply(c, rooms[room], |IpRooms(c, rooms, c.ipKey(src))|, src);
    (if reply.Registered? then rooms[room := AddClient(e, src, now)] else rooms, reply)
  }

  function JoinReply(c: Config, e: Entry, ipRooms: nat, src: Addr): Reply {
    var ip := c.ipKey(src);
    if |e.clients| >= c.maxClientsHard && src !in e.clients then Drop(HardCap)
    else if src !in e.clients && |PrefixClients(c, e, ip)| >= c.maxClientsPerPrefix then Drop(PrefixCap)
    else if !HasIp(c, e, ip) && ipRooms >= c.maxRoomsPerIP then Drop(RoomsPerIp)
    else Registered(src)
  }

  function AddClient(e: Entry, src: Addr, now: Time): Entry {
    e.(clients := e.clients[src := NewClient(now)], t := now)
  }

  /** Cookie not in the store: it must match the room's own challenge. */
  function Admit(c: Config, rooms: RoomMap, room: Room, cookie: Bytes, src: Addr, now: Time): (RoomMap, Reply)
    requires room in rooms
  {
    var e := rooms[room];
    if src !in e.pending || e.pending[src].cookie != cookie then (rooms, Drop(RoomMismatch))
    else if Expired(now, e.pending[src].createdAt, PENDING_REG_TTL) then
      (rooms[room := e.(pending := e.pending - {src})], Drop(RoomExpired))
    else AdmitSwept(c, rooms[room := Sweep(c, e, now)], room, src, now)
  }

  function AdmitSwept(c: Config, rooms: RoomMap, room: Room, src: Addr, now: Time): (RoomMap, Reply)
    requires room in rooms
  {
    var e, reply := rooms[room], AdmitReply(c, rooms[room], |IpRooms(c, rooms, c.ipKey(src))|, src);
    (if reply.Registered? then rooms[room := AddClient(e.(pending := e.pending - {src}), src, now)] else rooms, reply)
  }

  function AdmitReply(c: Config, e: Entry, ipRooms: nat, src: Addr): Reply {
    if |e.clients| >= c.maxClientsHard && src !in e.clients then Drop(HardCap)
    else if src !in e.clients && !HasIp(c, e, c.ipKey(src)) && ipRooms >= c.maxRoomsPerIP then Drop(RoomsPerIp)
    else Registered(src)
  }

  /** A REG without a cookie for an existing room; `stored` is how many challenges the store holds for the key. */
  function Revisit(c: Config, rooms: RoomMap, stored: nat, room: Room, src: Addr, now: Time,
          rnd: Option<Bytes>): (RoomMap, Reply)
    requires room in rooms
  {
    RevisitSwept(c, rooms[room := Sweep(c, rooms[room], now)], stored, room, src, now, rnd)
  }

  function AddInRoom(c: Config, rooms: RoomMap, room: Room, src: Addr, ch: Challenge): (RoomMap, Reply)
    requires room in rooms
  {
    var e := rooms[room];
    if |e.pending| >= c.maxPendingPerRoom || |InRoom(rooms)| >= c.maxInRoomPending then (rooms, Drop(RoomPendingFull))
    else (rooms[room := e.(pending := e.pending[src := ch])], Challenged(src, ch.cookie))
  }

  /** A fresh in-room challenge, within the per-key, per-room and relay-wide limits. */
  function IssueInRoom(c: Config, rooms: RoomMap, stored: nat, room: Room, src: Addr, now: Time,
          rnd: Option<Bytes>): (RoomMap, Reply)
    requires room in rooms
  {
    var e := rooms[room];
    if stored + |PendingOf(c, e.pending, c.ipKey(src))| >= c.maxPendingPerIP then (rooms, Drop(PendingPerIp))
    else if rnd.None? then (rooms, Silent)
    else AddInRoom(c, rooms, room, src, Challenge(rnd.value, now))
  }

  function RevisitSwept(c: Config, rooms: RoomMap, stored: nat, room: Room, src: Addr, now: Time,
          rnd: Option<Bytes>): (RoomMap, Reply)
    requires room in rooms
  {
    var e, ip := rooms[room], c.ipKey(src);
    if |e.clients| >= c.maxClientsHard && src !in e.clients then (rooms, Drop(HardCap))
    else if src in e.clients then
      (rooms[room := e.(clients := e.clients[src := e.clients[src].(lastSeen := now)])], Registered(src))
    else if |PrefixClients(c, e, ip)| >= c.maxClientsPerPrefix then (rooms, Drop(PrefixCap))
    else if src in e.pending then
      (rooms[room := e.(pending := e.pending[src := e.pending[src].(createdAt := now)])],
       Challenged(src, e.pending[src].cookie))
    else IssueInRoom(c, rooms, stored, room, src, now, rnd)
  }

  predicate GoodCookie(cookie: string) {
    IsHex(cookie) && |cookie| == 2 * PENDING_COOKIE_BYTES
  }

  function CookieBytes(cookie: string): Bytes
    requires GoodCookie(cookie)
  {
    HexDecode(cookie).value
  }

  function WithRooms(s: State, r: (RoomMap, Reply)): (State, Reply) {
    (s.(rooms := r.0), r.1)
  }

  function WithStore(s: State, r: (StoreMap, Reply)): (State, Reply) {
    (s.(store := r.0), r.1)
  }

  /** One REG packet: `cookie` is the text after the room name, empty if there is none. */
  function RegStep(c: Config, s: State, room: Room, cookie: string, src: Addr, now: Time,
          rnd: Option<Bytes>): (State, Reply) {
    var (reg, limited) := RegLimit(c, s.reg, c.ipKey(src), now);
    var s0 := s.(reg := reg);
    if limited then (s0, Drop(RateLimited)) else RegAllowed(c, s0, room, cookie, src, now, rnd)
  }

  function RegAllowed(c: Config, s: State, room: Room, cookie: string, src: Addr, now: Time,
          rnd: Option<Bytes>): (State, Reply) {
    if cookie == "" then WithoutCookie(c, s, room, src, now, rnd)
    else if !GoodCookie(cookie) then (s, Drop(BadCookie))
    else WithCookie(c, s, room, CookieBytes(cookie), src, now, rnd)
  }

  function WithoutCookie(c: Config, s: State, room: Room, src: Addr, now: Time, rnd: Option<Bytes>): (State, Reply) {
    if room in s.rooms then WithRooms(s, Revisit(c, s.rooms, |StoreOf(c, s.store, c.ipKey(src))|, room, src, now, rnd))
    else WithStore(s, ChallengeStore(c, |IpRooms(c, s.rooms, c.ipKey(src))|, s.store, Key(room, src), now, rnd))
  }

  /** The store is consulted first, and an entry there decides alone. */
  function WithCookie(c: Config, s: State, room: Room, cookie: Bytes, src: Addr, now: Time,
          rnd: Option<Bytes>): (State, Reply) {
    var k := Key(room, src);
    if k in s.store then
      if s.store[k].cookie != cookie then (s, Drop(StoreMismatch)) else
      var s1 := s.(store := s.store - {k});
      if Expired(now, s.store[k].createdAt, PENDING_REG_TTL) then (s1, Drop(StoreExpired))
      else WithRooms(s1, Enter(c, s.rooms, room, src, now))
    else if room in s.rooms then WithRooms(s, Admit(c, s.rooms, room, cookie, src, now))
    else WithStore(s, ChallengeStore(c, |IpRooms(c, s.rooms, c.ipKey(src))|, s.store, k, now, rnd))
  }

  // ----- MSG -----

  /** The per-client message window; the flag says whether the message is refused. */
  function MsgLimit(c: Config, l: Limiter, now: Time): (Limiter, bool) {
    var l1 := if now - l.windowStart > c.rateWindow then Limiter(0, now) else l;
    if l1.msgCount >= c.maxMsgRate then (l1, true) else (l1.(msgCount := l1.msgCount + 1), false)
  }

  function MsgRooms(c: Config, rooms: RoomMap, room: Room, src: Addr, now: Time): (RoomMap, Reply) {
    if room !in rooms then (rooms, Drop(UnknownRoom))
    else if src !in rooms[room].clients then (rooms, Drop(NotRegistered))
    else
      var e := rooms[room];
      var (l, limited) := MsgLimit(c, e.clients[src].limiter, now);
      var rooms1 := rooms[room := e.(clients := e.clients[src := e.clients[src].(limiter := l)])];
      if limited then (rooms1, Drop(MsgRate)) else (rooms1, Relayed(e.clients.Keys - {src}))
  }

  function MsgStep(c: Config, s: State, room: Room, src: Addr, now: Time): (State, Reply) {
    WithRooms(s, MsgRooms(c, s.rooms, room, src, now))
  }

  // ----- ticks -----

  function RoomTick(c: Config, s: State, now: Time): State {
    s.(rooms := Evict(c, s.rooms, s.rooms.Keys, now),
       store := map k | k in s.store && !Expired(now, s.store[k].createdAt, PENDING_REG_TTL) :: s.store[k])
  }

  function RateTick(c: Config, s: State, now: Time): State {
    s.(reg := map ip | ip in s.reg && !Expired(now, s.reg[ip].start, 2 * c.rateWindow) :: s.reg[ip])
  }

  // ----- runs -----

  datatype Event =
    | Reg(room: Room, cookie: string, src: Addr, rnd: Option<Bytes>)
    | Msg(room: Room, src: Addr)
    | CleanRooms
    | CleanRates

  datatype Input = At(now: Time, ev: Event)

  function Step(c: Config, s: State, i: Input): (State, Reply) {
    match i.ev
    case Reg(room, cookie, src, rnd) => RegStep(c, s, room, cookie, src, i.now, rnd)
    case Msg(room, src) => MsgStep(c, s, room, src, i.now)
    case CleanRooms => (RoomTick(c, s, i.now), Tick)
    case CleanRates => (RateTick(c, s, i.now), Tick)
  }

  /** Runs are defined for any step function, so that facts about runs can rest on
      laws of single steps alone. */
  type Machine = (State, Input) -> (State, Reply)

  function StepOf(c: Config): Machine {
    (s, i) => Step(c, s, i)
  }

  function Play(step: Machine, ins: seq<Input>): State {
    if ins == [] then INIT else step(Play(step, ins[..|ins| - 1]), ins[|ins| - 1]).0
  }

  function Run(c: Config, ins: seq<Input>): State {
    Play(StepOf(c), ins)
  }

  lemma RunNext(c: Config, ins: seq<Input>, k: nat)
    requires k < |ins|
    ensures Run(c, ins[..k + 1]) == Step(c, Run(c, ins[..k]), ins[k]).0
  {
    assert ins[..k + 1][..k] == ins[..k];
  }
}
