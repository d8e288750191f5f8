/** The relay's locking protocol, interleaved.  Worker threads handle packets, one thread
    runs the cleanup tick and one prints statistics; each has a program counter and every
    access to something shared is a step of its own.  What only the owner of an entry sees
    is done together with the shared access next to it.  Each shard of the room table has a
    read-write lock, and each room entry has a mutex.  What the clock, the cookies and the
    per-key limits of the pre-cookie store decide is left to a choice. */
module RelayLocks {
  import opened Text
  import opened RelaySpec
  import Wire

  type Tid = nat
  type Id = nat       // identity of an entry object

  /** A room whose name the relay accepts; packets for others are dropped before any lock. */
  type Named = r: Room | Wire.ValidRoomName(r.name) witness Room("x")

  /** What a thread is doing. */
  datatype Op =
    | Complete(room: Named, addr: Addr)    // REG whose cookie was found in the store
    | Initial(room: Named, addr: Addr)     // REG without a cookie
    | Admit(room: Named, addr: Addr)       // REG with a cookie for an existing room
    | Message(room: Named, addr: Addr)
    | Cleanup                             // the tick
    | Stats                               // the statistics printer

  /** What follows once a shard has been swept. */
  datatype After = Recheck(op: Op) | NextShard(op: Op)

  /** A sweep of one shard: the rooms still to visit. */
  datatype Job = Job(shard: nat, todo: set<Room>, after: After)

  /** Where the owner of an entry is in its work on it. */
  datatype Inside =
    | Look                      // is the cookie right?
    | Sweeping
    | CheckJoin                 // the caps of a room and of a key
    | Spend(known: bool)        // drop the challenge; known: the key is already in the room
    | AddClient(known: bool)
    | CheckPend                 // the caps of a new challenge
    | AddPend
    | Unlock

  /** Program counters; the comment says which locks are held there. */
  datatype Pc =
    | Idle
    | WantSweep(shard: nat, op: Op)                             // none
    | Evict(job: Job)                                           // shard
    | WantStale(job: Job, room: Room, e: Id)                    // shard
    | HaveStale(job: Job, room: Room, e: Id)                    // shard, entry
    | LeaveStale(job: Job, room: Room, e: Id, dead: bool)       // shard, entry
    | Delete(job: Job, room: Room, e: Id)                       // shard
    | CountDown(job: Job)                                       // shard
    | WantShard(op: Op)                                         // none
    | HaveShard(op: Op)                                         // shard
    | CheckCap(op: Op)                                          // shard
    | CheckIp(op: Op)                                           // shard
    | Insert(op: Op)                                            // shard
    | CountUp(op: Op)                                           // shard
    | AddIndex(op: Op)                                          // shard
    | Release(op: Op)                                           // shard
    | WantEntry(op: Op, e: Id)                                  // shard
    | HaveBoth(op: Op, e: Id)                                   // shard, entry
    | Own(op: Op, e: Id, at: Inside)                            // entry
    | MsgRelease(op: Op, e: Id)                                 // shard
    | WantBare(op: Op, e: Id)                                   // none
    | HaveBare(op: Op, e: Id)                                   // entry
    | WantStats(shard: nat)                                     // none
    | Walk(shard: nat, todo: set<Room>)                         // shard
    | WantStat(shard: nat, todo: set<Room>, e: Id)              // shard
    | HaveStat(shard: nat, todo: set<Room>, e: Id)              // shard, entry

  datatype Limits = Limits(
    maxRooms: pos, maxRoomsPerIP: pos, maxClientsHard: pos, maxPendingPerRoom: pos, maxInRoomPending: pos,
    shards: pos, workers: pos, hash: Room -> nat, ipKey: Addr -> Ip)

  function ShardOf(c: Limits, r: Room): (sh: nat)
    ensures sh < c.shards
  {
    c.hash(r) % c.shards
  }

  /** A read lock on a shard held by a thread. */
  datatype Hold = Hold(shard: nat, t: Tid)

  /** The admitted clients and the challenges of an entry. */
  datatype Content = Content(clients: set<Addr>, chal: set<Addr>)

  const NOTHING := Content({}, {})

  /** The room is listed under the key. */
  datatype Pair = Pair(ip: Ip, room: Room)

  datatype Sys = Sys(
    table: map<Room, Id>,       // all shards' room tables together
    entries: seq<Content>,      // every entry object ever created
    count: int,                 // totalRoomCount
    total: int,                 // inRoomPendingTotal
    index: set<Pair>,           // the per-key room index
    writer: map<nat, Tid>,      // who holds a shard for writing
    readers: set<Hold>,
    owner: map<Id, Tid>,        // who holds an entry
    pcs: seq<Pc>)

  /** What a sweep drops next. */
  datatype Drop = Keep | DropClient(addr: Addr) | DropChallenge(addr: Addr)

  /** What the environment decides in one step. */
  datatype Choice = Choice(op: Op, room: Room, drop: Drop, yes: bool)

  // ----- locks -----

  predicate Packet(op: Op) {
    op.Complete? || op.Initial? || op.Admit? || op.Message?
  }

  predicate Exclusive(op: Op) {
    op.Complete? || op.Initial?
  }

  function OpShard(c: Limits, op: Op): nat {
    if Packet(op) then ShardOf(c, op.room) else 0
  }

  /** The shard the program counter holds, if any. */
  function HeldShard(c: Limits, pc: Pc): Option<nat> {
    match pc
    case Evict(job) => Some(job.shard)
    case WantStale(job, _, _) => Some(job.shard)
    case HaveStale(job, _, _) => Some(job.shard)
    case LeaveStale(job, _, _, _) => Some(job.shard)
    case Delete(job, _, _) => Some(job.shard)
    case CountDown(job) => Some(job.shard)
    case HaveShard(op) => Some(OpShard(c, op))
    case CheckCap(op) => Some(OpShard(c, op))
    case CheckIp(op) => Some(OpShard(c, op))
    case Insert(op) => Some(OpShard(c, op))
    case CountUp(op) => Some(OpShard(c, op))
    case AddIndex(op) => Some(OpShard(c, op))
    case Release(op) => Some(OpShard(c, op))
    case WantEntry(op, _) => Some(OpShard(c, op))
    case HaveBoth(op, _) => Some(OpShard(c, op))
    case MsgRelease(op, _) => Some(OpShard(c, op))
    case Walk(sh, _) => Some(sh)
    case WantStat(sh, _, _) => Some(sh)
    case HaveStat(sh, _, _) => Some(sh)
    case _ => None
  }

  predicate HoldsForWriting(pc: Pc) {
    match pc
    case HaveShard(op) => Exclusive(op)
    case Release(op) => Exclusive(op)
    case WantEntry(op, _) => Exclusive(op)
    case HaveBoth(op, _) => Exclusive(op)
    case MsgRelease(_, _) => false
    case Walk(_, _) => false
    case WantStat(_, _, _) => false
    case HaveStat(_, _, _) => false
    case _ => true
  }

  function HeldEntry(pc: Pc): Option<Id> {
    match pc
    case HaveStale(_, _, e) => Some(e)
    case LeaveStale(_, _, e, _) => Some(e)
    case HaveBoth(_, e) => Some(e)
    case Own(_, e, _) => Some(e)
    case HaveBare(_, e) => Some(e)
    case HaveStat(_, _, e) => Some(e)
    case _ => None
  }

  /** The shard the thread is waiting to write. */
  function WaitsToWrite(c: Limits, pc: Pc): Option<nat> {
    match pc
    case WantSweep(i, _) => if i < c.shards then Some(i) else None
    case WantShard(op) => if Exclusive(op) then Some(OpShard(c, op)) else None
    case _ => None
  }

  predicate CanWrite(s: Sys, sh: nat) {
    sh !in s.writer && forall h | h in s.readers :: h.shard != sh
  }

  /** The shard the thread is waiting to read. */
  function WaitsToRead(c: Limits, pc: Pc): Option<nat> {
    match pc
    case WantShard(op) => if Exclusive(op) then None else Some(OpShard(c, op))
    case WantStats(i) => if i < c.shards then Some(i) else None
    case _ => None
  }

  /** Only waiting for a lock can stop a thread. */
  predicate Enabled(c: Limits, s: Sys, t: Tid)
    requires t < |s.pcs|
  {
    match s.pcs[t]
    case WantSweep(i, _) => i < c.shards ==> CanWrite(s, i)
    case WantShard(op) => if Exclusive(op) then CanWrite(s, OpShard(c, op)) else OpShard(c, op) !in s.writer
    case WantStale(_, _, e) => e !in s.owner
    case WantEntry(_, e) => e !in s.owner
    case WantBare(_, e) => e !in s.owner
    case WantStats(i) => i < c.shards ==> i !in s.writer
    case WantStat(_, _, e) => e !in s.owner
    case _ => true
  }

  /** A writer that has asked for a shard and not got it yet may keep readers waiting; this
      thread does not have to wait for that either. */
  predicate Unblocked(c: Limits, s: Sys, t: Tid)
    requires t < |s.pcs|
  {
    && Enabled(c, s, t)
    && (WaitsToRead(c, s.pcs[t]).Some? ==>
          forall u | 0 <= u < |s.pcs| :: WaitsToWrite(c, s.pcs[u]) != WaitsToRead(c, s.pcs[t]))
  }

  // ----- the work on one entry -----

  predicate HasKey(c: Limits, clients: set<Addr>, ip: Ip) {
    exists a | a in clients :: c.ipKey(a) == ip
  }

  predicate Sweeps(x: Content, drop: Drop) {
    match drop
    case Keep => false
    case DropClient(a) => a in x.clients
    case DropChallenge(a) => a in x.chal
  }

  function Swept(x: Content, drop: Drop): Content {
    match drop
    case Keep => x
    case DropClient(a) => x.(clients := x.clients - {a})
    case DropChallenge(a) => x.(chal := x.chal - {a})
  }

  /** A key whose last client goes leaves the index of the room. */
  function SweptIndex(c: Limits, index: set<Pair>, r: Room, x: Content, drop: Drop): set<Pair> {
    if drop.DropClient? && Sweeps(x, drop) && !HasKey(c, Swept(x, drop).clients, c.ipKey(drop.addr))
    then index - {Pair(c.ipKey(drop.addr), r)} else index
  }

  /** The rooms listed under a key. */
  function KeyPairs(index: set<Pair>, ip: Ip): set<Pair> {
    set p | p in index && p.ip == ip
  }

  predicate JoinAllowed(c: Limits, s: Sys, op: Op, x: Content, ch: Choice)
    requires Packet(op)
  {
    && (op.addr in x.clients || |x.clients| < c.maxClientsHard)
    && (op.Complete? ==> ch.yes)        // the per-prefix cap
    && (HasKey(c, x.clients, c.ipKey(op.addr)) || |KeyPairs(s.index, c.ipKey(op.addr))| < c.maxRoomsPerIP)
  }

  predicate PendAllowed(c: Limits, s: Sys, op: Op, x: Content, ch: Choice)
    requires Packet(op)
  {
    && ch.yes && op.addr !in x.clients && op.addr !in x.chal && |x.clients| < c.maxClientsHard
    && |x.chal| < c.maxPendingPerRoom && s.total < c.maxInRoomPending
  }

  function NextInside(c: Limits, s: Sys, op: Op, x: Content, at: Inside, ch: Choice): Inside
    requires Packet(op)
  {
    match at
    case Look => if op.addr in x.chal && ch.yes then Sweeping else Unlock
    case Sweeping => if Sweeps(x, ch.drop) then Sweeping else if op.Initial? then CheckPend else CheckJoin
    case CheckJoin =>
      var known := HasKey(c, x.clients, c.ipKey(op.addr));
      if !JoinAllowed(c, s, op, x, ch) then Unlock else if op.Admit? then Spend(known) else AddClient(known)
    case Spend(known) => AddClient(known)
    case AddClient(_) => Unlock
    case CheckPend => if PendAllowed(c, s, op, x, ch) then AddPend else Unlock
    case AddPend => Unlock
    case Unlock => Unlock
  }

  function NextContent(op: Op, x: Content, at: Inside, ch: Choice): Content
    requires Packet(op)
  {
    match at
    case Look => if !ch.yes && ch.drop.DropChallenge? then x.(chal := x.chal - {op.addr}) else x
    case Sweeping => Swept(x, ch.drop)
    case Spend(_) => x.(chal := x.chal - {op.addr})
    case AddClient(_) => x.(clients := x.clients + {op.addr})
    case AddPend => x.(chal := x.chal + {op.addr})
    case _ => x
  }

  function InsideIndex(c: Limits, index: set<Pair>, op: Op, x: Content, at: Inside, ch: Choice): set<Pair>
    requires Packet(op)
  {
    match at
    case Sweeping => SweptIndex(c, index, op.room, x, ch.drop)
    case AddClient(known) => if known then index else index + {Pair(c.ipKey(op.addr), op.room)}
    case _ => index
  }

  /** `adjustInRoomPending`: adds, clamping at zero. */
  function Adjusted(total: int, delta: int): int {
    if total + delta < 0 then 0 else total + delta
  }

  // ----- steps: what each program counter does to each variable -----

  function ShardTable(c: Limits, s: Sys, sh: nat): set<Room> {
    set r | r in s.table && ShardOf(c, r) == sh
  }

  ghost function Pick(todo: set<Room>, r: Room): (p: Room)
    requires todo != {}
    ensures p in todo
  {
    if r in todo then r else var x :| x in todo; x
  }

  /** Workers handle packets, the next thread runs the cleanup, the last one the statistics. */
  predicate MayRun(c: Limits, t: Tid, op: Op) {
    if op.Cleanup? then t == c.workers else if op.Stats? then t == c.workers + 1 else t < c.workers
  }

  /** The first look at the counter happens before any lock is taken. */
  function Start(c: Limits, s: Sys, op: Op): Pc {
    if op.Stats? then WantStats(0)
    else if op.Cleanup? || (op.Complete? && s.count >= c.maxRooms) then WantSweep(0, op)
    else WantShard(op)
  }

  function Lookup(c: Limits, s: Sys, op: Op): Pc
    requires Packet(op)
  {
    if op.room in s.table then
      if op.Message? then MsgRelease(op, s.table[op.room]) else WantEntry(op, s.table[op.room])
    else if !op.Complete? then Release(op)
    else if s.count >= c.maxRooms then Evict(Job(OpShard(c, op), ShardTable(c, s, OpShard(c, op)), Recheck(op)))
    else CheckCap(op)
  }

  ghost function NextEvict(s: Sys, job: Job, ch: Choice): Pc
    requires job.todo <= s.table.Keys
  {
    if job.todo != {} then
      var r := Pick(job.todo, ch.room); WantStale(job.(todo := job.todo - {r}), r, s.table[r])
    else match job.after
      case Recheck(op) => CheckCap(op)
      case NextShard(op) => WantSweep(job.shard + 1, op)
  }

  ghost function NextWalk(s: Sys, sh: nat, todo: set<Room>, ch: Choice): Pc
    requires todo <= s.table.Keys
  {
    if todo == {} then WantStats(sh + 1) else var r := Pick(todo, ch.room); WantStat(sh, todo - {r}, s.table[r])
  }

  ghost function NextPc(c: Limits, s: Sys, t: Tid, pc: Pc, ch: Choice): Pc
    requires PcFits(c, s, pc)
  {
    match pc
    case Idle => if MayRun(c, t, ch.op) then Start(c, s, ch.op) else Idle
    case WantSweep(i, op) =>
      if i < c.shards then Evict(Job(i, ShardTable(c, s, i), NextShard(op)))
      else if op.Cleanup? then Idle else WantShard(op)
    case Evict(job) => NextEvict(s, job, ch)
    case WantStale(job, r, e) => HaveStale(job, r, e)
    case HaveStale(job, r, e) =>
      if Sweeps(s.entries[e], ch.drop) then pc else LeaveStale(job, r, e, s.entries[e].clients == {} && ch.yes)
    case LeaveStale(job, r, e, dead) => if dead then Delete(job, r, e) else Evict(job)
    case Delete(job, r, e) => CountDown(job)
    case CountDown(job) => Evict(job)
    case WantShard(op) => HaveShard(op)
    case HaveShard(op) => Lookup(c, s, op)
    case CheckCap(op) => if s.count >= c.maxRooms then Release(op) else CheckIp(op)
    case CheckIp(op) => if |KeyPairs(s.index, c.ipKey(op.addr))| >= c.maxRoomsPerIP then Release(op) else Insert(op)
    case Insert(op) => CountUp(op)
    case CountUp(op) => AddIndex(op)
    case AddIndex(op) => Release(op)
    case Release(op) => Idle
    case WantEntry(op, e) => HaveBoth(op, e)
    case HaveBoth(op, e) => Own(op, e, if op.Admit? then Look else Sweeping)
    case Own(op, e, at) => if at.Unlock? then Idle else Own(op, e, NextInside(c, s, op, s.entries[e], at, ch))
    case MsgRelease(op, e) => WantBare(op, e)
    case WantBare(op, e) => HaveBare(op, e)
    case HaveBare(op, e) => Idle
    case WantStats(i) => if i < c.shards then Walk(i, ShardTable(c, s, i)) else Idle
    case Walk(sh, todo) => NextWalk(s, sh, todo, ch)
    case WantStat(sh, todo, e) => HaveStat(sh, todo, e)
    case HaveStat(sh, todo, e) => Walk(sh, todo)
  }

  function NextTable(c: Limits, s: Sys, pc: Pc): map<Room, Id>
    requires PcFits(c, s, pc)
  {
    match pc
    case Insert(op) => s.table[op.room := |s.entries|]
    case Delete(_, r, _) => s.table - {r}
    case _ => s.table
  }

  /** A dead room loses its last challenges before it goes. */
  function LeftContent(s: Sys, pc: Pc, ch: Choice): Content
    requires pc.HaveStale? && pc.e < |s.entries|
  {
    var x := s.entries[pc.e];
    if Sweeps(x, ch.drop) then Swept(x, ch.drop) else if x.clients == {} && ch.yes then NOTHING else x
  }

  function NextEntries(c: Limits, s: Sys, pc: Pc, ch: Choice): seq<Content>
    requires PcFits(c, s, pc)
  {
    match pc
    case Insert(op) => s.entries + [Content({op.addr}, {})]
    case HaveStale(_, _, e) => s.entries[e := LeftContent(s, pc, ch)]
    case Own(op, e, at) => s.entries[e := NextContent(op, s.entries[e], at, ch)]
    case _ => s.entries
  }

  function NextCount(s: Sys, pc: Pc): int {
    match pc
    case CountUp(_) => s.count + 1
    case CountDown(_) => s.count - 1
    case _ => s.count
  }

  function NextTotal(c: Limits, s: Sys, pc: Pc, ch: Choice): int
    requires PcFits(c, s, pc)
  {
    match pc
    case HaveStale(_, _, e) => Adjusted(s.total, |LeftContent(s, pc, ch).chal| - |s.entries[e].chal|)
    case Own(op, e, at) => Adjusted(s.total, |NextContent(op, s.entries[e], at, ch).chal| - |s.entries[e].chal|)
    case _ => s.total
  }

  function NextIndex(c: Limits, s: Sys, pc: Pc, ch: Choice): set<Pair>
    requires PcFits(c, s, pc)
  {
    match pc
    case HaveStale(_, r, e) => SweptIndex(c, s.index, r, s.entries[e], ch.drop)
    case Own(op, e, at) => InsideIndex(c, s.index, op, s.entries[e], at, ch)
    case AddIndex(op) => s.index + {Pair(c.ipKey(op.addr), op.room)}
    case _ => s.index
  }

  function NextWriter(c: Limits, s: Sys, t: Tid, pc: Pc): map<nat, Tid> {
    match pc
    case WantSweep(i, _) => if i < c.shards then s.writer[i := t] else s.writer
    case Evict(job) => if job.todo == {} && job.after.NextShard? then s.writer - {job.shard} else s.writer
    case WantShard(op) => if Exclusive(op) then s.writer[OpShard(c, op) := t] else s.writer
    case Release(op) => if Exclusive(op) then s.writer - {OpShard(c, op)} else s.writer
    case HaveBoth(op, _) => if Exclusive(op) then s.writer - {OpShard(c, op)} else s.writer
    case _ => s.writer
  }

  function NextReaders(c: Limits, s: Sys, t: Tid, pc: Pc): set<Hold> {
    match pc
    case WantShard(op) => if Exclusive(op) then s.readers else s.readers + {Hold(OpShard(c, op), t)}
    case Release(op) => if Exclusive(op) then s.readers else s.readers - {Hold(OpShard(c, op), t)}
    case HaveBoth(op, _) => if Exclusive(op) then s.readers else s.readers - {Hold(OpShard(c, op), t)}
    case MsgRelease(op, _) => s.readers - {Hold(OpShard(c, op), t)}
    case WantStats(i) => if i < c.shards then s.readers + {Hold(i, t)} else s.readers
    case Walk(sh, todo) => if todo == {} then s.readers - {Hold(sh, t)} else s.readers
    case _ => s.readers
  }

  function NextOwner(s: Sys, t: Tid, pc: Pc): map<Id, Tid> {
    match pc
    case WantStale(_, _, e) => s.owner[e := t]
    case LeaveStale(_, _, e, _) => s.owner - {e}
    case WantEntry(_, e) => s.owner[e := t]
    case Own(_, e, at) => if at.Unlock? then s.owner - {e} else s.owner
    case WantBare(_, e) => s.owner[e := t]
    case HaveBare(_, e) => s.owner - {e}
    case WantStat(_, _, e) => s.owner[e := t]
    case HaveStat(_, _, e) => s.owner - {e}
    case _ => s.owner
  }

  /** One step of thread t. */
  ghost function Move(c: Limits, s: Sys, t: Tid, ch: Choice): Sys
    requires t < |s.pcs| && PcFits(c, s, s.pcs[t])
  {
    var pc := s.pcs[t];
    Sys(NextTable(c, s, pc), NextEntries(c, s, pc, ch), NextCount(s, pc), NextTotal(c, s, pc, ch),
        NextIndex(c, s, pc, ch),
        NextWriter(c, s, t, pc), NextReaders(c, s, t, pc), NextOwner(s, t, pc), s.pcs[t := NextPc(c, s, t, pc, ch)])
  }

  predicate AfterFits(c: Limits, sh: nat, after: After) {
    after.Recheck? ==> after.op.Complete? && OpShard(c, after.op) == sh
  }

  /** The rooms and entries a program counter speaks of exist. */
  predicate PcFits(c: Limits, s: Sys, pc: Pc) {
    match pc
    case Evict(job) => job.todo <= s.table.Keys && AfterFits(c, job.shard, job.after)
    case HaveStale(_, _, e) => e < |s.entries|
    case WantShard(op) => Packet(op)
    case HaveShard(op) => Packet(op)
    case CheckCap(op) => op.Complete?
    case CheckIp(op) => op.Complete?
    case Insert(op) => op.Complete?
    case CountUp(op) => op.Complete?
    case AddIndex(op) => op.Complete?
    case Own(op, e, _) => Packet(op) && e < |s.entries|
    case MsgRelease(op, _) => op.Message?
    case Walk(_, todo) => todo <= s.table.Keys
    case _ => true
  }

  // ----- lock variables and program counters agree -----

  predicate Writes(s: Sys, sh: nat, t: Tid) {
    sh in s.writer && s.writer[sh] == t
  }

  predicate Owns(s: Sys, e: Id, t: Tid) {
    e in s.owner && s.owner[e] == t
  }

  ghost predicate Agrees(c: Limits, s: Sys, t: Tid, pc: Pc) {
    && (forall sh: nat :: Writes(s, sh, t) <==> HeldShard(c, pc) == Some(sh) && HoldsForWriting(pc))
    && (forall sh: nat :: Hold(sh, t) in s.readers <==> HeldShard(c, pc) == Some(sh) && !HoldsForWriting(pc))
    && (forall e: nat :: Owns(s, e, t) <==> HeldEntry(pc) == Some(e))
  }

  ghost predicate ReadersExclude(s: Sys) {
    forall h | h in s.readers :: h.shard !in s.writer
  }

  ghost predicate LocksOk(c: Limits, s: Sys) {
    && (forall t | 0 <= t < |s.pcs| :: Agrees(c, s, t, s.pcs[t]))
    && (forall sh | sh in s.writer :: s.writer[sh] < |s.pcs|)
    && (forall h | h in s.readers :: h.t < |s.pcs|)
    && (forall e | e in s.owner :: s.owner[e] < |s.pcs|)
    && ReadersExclude(s)
  }

  /** Nobody else's locks change. */
  ghost predicate OthersKeep(s: Sys, s': Sys, t: Tid) {
    && (forall sh: nat, u: nat | u != t :: Writes(s', sh, u) == Writes(s, sh, u))
    && (forall sh: nat, u: nat | u != t :: (Hold(sh, u) in s'.readers) == (Hold(sh, u) in s.readers))
    && (forall e: nat, u: nat | u != t :: Owns(s', e, u) == Owns(s, e, u))
  }

  lemma LocksStep(c: Limits, s: Sys, s': Sys, t: Tid, pc: Pc)
    requires LocksOk(c, s) && t < |s.pcs| && s'.pcs == s.pcs[t := pc]
    requires OthersKeep(s, s', t) && Agrees(c, s', t, pc) && ReadersExclude(s')
    ensures LocksOk(c, s')
  {
    forall u | 0 <= u < |s'.pcs| ensures Agrees(c, s', u, s'.pcs[u]) {
      if u != t { assert Agrees(c, s, u, s.pcs[u]); }
    }
    forall sh | sh in s'.writer ensures s'.writer[sh] < |s'.pcs| {
      var u := s'.writer[sh];
      assert Writes(s', sh, u);
      assert u != t ==> Writes(s, sh, u);
    }
    forall e | e in s'.owner ensures s'.owner[e] < |s'.pcs| {
      var u := s'.owner[e];
      assert Owns(s', e, u);
      assert u != t ==> Owns(s, e, u);
    }
    forall h | h in s'.readers ensures h.t < |s'.pcs| {
      assert Hold(h.shard, h.t) in s'.readers;
      assert h.t != t ==> Hold(h.shard, h.t) in s.readers;
    }
  }

  /** A step that neither takes nor releases a lock. */
  lemma SameLocks(c: Limits, s: Sys, s': Sys, t: Tid, pc: Pc)
    requires LocksOk(c, s) && t < |s.pcs| && s'.pcs == s.pcs[t := pc]
    requires s'.writer == s.writer && s'.readers == s.readers && s'.owner == s.owner
    requires HeldShard(c, pc) == HeldShard(c, s.pcs[t]) && HeldEntry(pc) == HeldEntry(s.pcs[t])
    requires HeldShard(c, pc).Some? ==> HoldsForWriting(pc) == HoldsForWriting(s.pcs[t])
    ensures LocksOk(c, s')
  {
    assert Agrees(c, s, t, s.pcs[t]);
    assert forall sh': nat :: Writes(s', sh', t) == Writes(s, sh', t);
    assert forall e': nat :: Owns(s', e', t) == Owns(s, e', t);
    LocksStep(c, s, s', t, pc);
  }

  lemma TakeWriter(c: Limits, s: Sys, s': Sys, t: Tid, sh: nat, pc: Pc)
    requires LocksOk(c, s) && t < |s.pcs| && s'.pcs == s.pcs[t := pc] && CanWrite(s, sh)
    requires s'.writer == s.writer[sh := t] && s'.readers == s.readers && s'.owner == s.owner
    requires HeldShard(c, s.pcs[t]).None? && HeldShard(c, pc) == Some(sh) && HoldsForWriting(pc)
    requires HeldEntry(pc) == HeldEntry(s.pcs[t])
    ensures LocksOk(c, s')
  {
    assert Agrees(c, s, t, s.pcs[t]);
    assert forall e': nat :: Owns(s', e', t) == Owns(s, e', t);
    LocksStep(c, s, s', t, pc);
  }

  lemma TakeReader(c: Limits, s: Sys, s': Sys, t: Tid, sh: nat, pc: Pc)
    requires LocksOk(c, s) && t < |s.pcs| && s'.pcs == s.pcs[t := pc] && sh !in s.writer
    requires s'.writer == s.writer && s'.readers == s.readers + {Hold(sh, t)} && s'.owner == s.owner
    requires HeldShard(c, s.pcs[t]).None? && HeldShard(c, pc) == Some(sh) && !HoldsForWriting(pc)
    requires HeldEntry(pc) == HeldEntry(s.pcs[t])
    ensures LocksOk(c, s')
  {
    assert Agrees(c, s, t, s.pcs[t]);
    assert forall sh': nat :: Writes(s', sh', t) == Writes(s, sh', t);
    assert forall e': nat :: Owns(s', e', t) == Owns(s, e', t);
    LocksStep(c, s, s', t, pc);
  }

  lemma DropWriter(c: Limits, s: Sys, s': Sys, t: Tid, sh: nat, pc: Pc)
    requires LocksOk(c, s) && t < |s.pcs| && s'.pcs == s.pcs[t := pc]
    requires s'.writer == s.writer - {sh} && s'.readers == s.readers && s'.owner == s.owner
    requires HeldShard(c, s.pcs[t]) == Some(sh) && HoldsForWriting(s.pcs[t]) && HeldShard(c, pc).None?
    requires HeldEntry(pc) == HeldEntry(s.pcs[t])
    ensures LocksOk(c, s')
  {
    assert Agrees(c, s, t, s.pcs[t]);
    assert Writes(s, sh, t);
    assert forall e': nat :: Owns(s', e', t) == Owns(s, e', t);
    LocksStep(c, s, s', t, pc);
  }

  lemma DropReader(c: Limits, s: Sys, s': Sys, t: Tid, sh: nat, pc: Pc)
    requires LocksOk(c, s) && t < |s.pcs| && s'.pcs == s.pcs[t := pc]
    requires s'.writer == s.writer && s'.readers == s.readers - {Hold(sh, t)} && s'.owner == s.owner
    requires HeldShard(c, s.pcs[t]) == Some(sh) && !HoldsForWriting(s.pcs[t]) && HeldShard(c, pc).None?
    requires HeldEntry(pc) == HeldEntry(s.pcs[t])
    ensures LocksOk(c, s')
  {
    assert Agrees(c, s, t, s.pcs[t]);
    assert forall sh': nat :: Writes(s', sh', t) == Writes(s, sh', t);
    assert forall e': nat :: Owns(s', e', t) == Owns(s, e', t);
    LocksStep(c, s, s', t, pc);
  }

  lemma TakeEntry(c: Limits, s: Sys, s': Sys, t: Tid, e: Id, pc: Pc)
    requires LocksOk(c, s) && t < |s.pcs| && s'.pcs == s.pcs[t := pc] && e !in s.owner
    requires s'.writer == s.writer && s'.readers == s.readers && s'.owner == s.owner[e := t]
    requires HeldShard(c, pc) == HeldShard(c, s.pcs[t]) && HeldEntry(s.pcs[t]).None? && HeldEntry(pc) == Some(e)
    requires HeldShard(c, pc).Some? ==> HoldsForWriting(pc) == HoldsForWriting(s.pcs[t])
    ensures LocksOk(c, s')
  {
    assert Agrees(c, s, t, s.pcs[t]);
    assert forall sh': nat :: Writes(s', sh', t) == Writes(s, sh', t);
    LocksStep(c, s, s', t, pc);
  }

  lemma DropEntry(c: Limits, s: Sys, s': Sys, t: Tid, e: Id, pc: Pc)
    requires LocksOk(c, s) && t < |s.pcs| && s'.pcs == s.pcs[t := pc]
    requires s'.writer == s.writer && s'.readers == s.readers && s'.owner == s.owner - {e}
    requires HeldShard(c, pc) == HeldShard(c, s.pcs[t]) && HeldEntry(s.pcs[t]) == Some(e) && HeldEntry(pc).None?
    requires HeldShard(c, pc).Some? ==> HoldsForWriting(pc) == HoldsForWriting(s.pcs[t])
    ensures LocksOk(c, s')
  {
    assert Agrees(c, s, t, s.pcs[t]);
    assert Owns(s, e, t);
    assert forall sh': nat :: Writes(s', sh', t) == Writes(s, sh', t);
    LocksStep(c, s, s', t, pc);
  }

  lemma MoveLocks(c: Limits, s: Sys, t: Tid, ch: Choice)
    requires LocksOk(c, s) && t < |s.pcs| && Enabled(c, s, t) && PcFits(c, s, s.pcs[t])
    ensures LocksOk(c, Move(c, s, t, ch))
  {
    var pc := s.pcs[t];
    if HeldEntry(pc).Some? {
      MoveOwner(c, s, t, ch);
    } else if HeldShard(c, pc).None? {
      MoveFree(c, s, t, ch);
    } else if pc.Evict? || pc.WantStale? || pc.Delete? || pc.CountDown? {
      MoveEvictor(c, s, t, ch);
    } else if pc.Walk? || pc.WantStat? {
      MoveWalker(c, s, t, ch);
    } else {
      MoveHolder(c, s, t, ch);
    }
  }

  lemma MoveWantShard(c: Limits, s: Sys, t: Tid, ch: Choice)
    requires LocksOk(c, s) && t < |s.pcs| && Enabled(c, s, t) && PcFits(c, s, s.pcs[t]) && s.pcs[t].WantShard?
    ensures LocksOk(c, Move(c, s, t, ch))
  {
    var s', op := Move(c, s, t, ch), s.pcs[t].op;
    if Exclusive(op) {
      TakeWriter(c, s, s', t, OpShard(c, op), s'.pcs[t]);
    } else {
      TakeReader(c, s, s', t, OpShard(c, op), s'.pcs[t]);
    }
  }

  lemma MoveFree(c: Limits, s: Sys, t: Tid, ch: Choice)
    requires LocksOk(c, s) && t < |s.pcs| && Enabled(c, s, t) && PcFits(c, s, s.pcs[t])
    requires HeldEntry(s.pcs[t]).None? && HeldShard(c, s.pcs[t]).None?
    ensures LocksOk(c, Move(c, s, t, ch))
  {
    var s' := Move(c, s, t, ch);
    var pc := s'.pcs[t];
    match s.pcs[t]
    case Idle => SameLocks(c, s, s', t, pc);
    case WantSweep(i, _) => if i < c.shards { TakeWriter(c, s, s', t, i, pc); } else { SameLocks(c, s, s', t, pc); }
    case WantShard(_) => MoveWantShard(c, s, t, ch);
    case WantBare(_, e) => TakeEntry(c, s, s', t, e, pc);
    case WantStats(i) => if i < c.shards { TakeReader(c, s, s', t, i, pc); } else { SameLocks(c, s, s', t, pc); }
  }

  lemma MoveEvictor(c: Limits, s: Sys, t: Tid, ch: Choice)
    requires LocksOk(c, s) && t < |s.pcs| && Enabled(c, s, t) && PcFits(c, s, s.pcs[t])
    requires s.pcs[t].Evict? || s.pcs[t].WantStale? || s.pcs[t].Delete? || s.pcs[t].CountDown?
    ensures LocksOk(c, Move(c, s, t, ch))
  {
    var s' := Move(c, s, t, ch);
    var pc := s'.pcs[t];
    match s.pcs[t]
    case Evict(job) =>
      if job.todo == {} && job.after.NextShard? {
        DropWriter(c, s, s', t, job.shard, pc);
      } else {
        SameLocks(c, s, s', t, pc);
      }
    case WantStale(_, _, e) => TakeEntry(c, s, s', t, e, pc);
    case Delete(_, _, _) => SameLocks(c, s, s', t, pc);
    case CountDown(_) => SameLocks(c, s, s', t, pc);
  }

  lemma MoveWalker(c: Limits, s: Sys, t: Tid, ch: Choice)
    requires LocksOk(c, s) && t < |s.pcs| && Enabled(c, s, t) && PcFits(c, s, s.pcs[t])
    requires s.pcs[t].Walk? || s.pcs[t].WantStat?
    ensures LocksOk(c, Move(c, s, t, ch))
  {
    var s' := Move(c, s, t, ch);
    var pc := s'.pcs[t];
    match s.pcs[t]
    case Walk(sh, todo) => if todo == {} { DropReader(c, s, s', t, sh, pc); } else { SameLocks(c, s, s', t, pc); }
    case WantStat(_, _, e) => TakeEntry(c, s, s', t, e, pc);
  }

  lemma MoveHolder(c: Limits, s: Sys, t: Tid, ch: Choice)
    requires LocksOk(c, s) && t < |s.pcs| && Enabled(c, s, t) && PcFits(c, s, s.pcs[t])
    requires HeldEntry(s.pcs[t]).None? && HeldShard(c, s.pcs[t]).Some?
    requires !s.pcs[t].Evict? && !s.pcs[t].WantStale? && !s.pcs[t].Delete? && !s.pcs[t].CountDown?
    requires !s.pcs[t].Walk? && !s.pcs[t].WantStat?
    ensures LocksOk(c, Move(c, s, t, ch))
  {
    var s' := Move(c, s, t, ch);
    var pc := s'.pcs[t];
    match s.pcs[t]
    case Release(_) => MoveLeaver(c, s, t, ch);
    case WantEntry(_, e) => TakeEntry(c, s, s', t, e, pc);
    case MsgRelease(_, _) => MoveLeaver(c, s, t, ch);
    case _ => MoveStayer(c, s, t, ch);
  }

  lemma MoveStayer(c: Limits, s: Sys, t: Tid, ch: Choice)
    requires LocksOk(c, s) && t < |s.pcs| && PcFits(c, s, s.pcs[t])
    requires var pc := s.pcs[t];
      pc.HaveShard? || pc.CheckCap? || pc.CheckIp? || pc.Insert? || pc.CountUp? || pc.AddIndex?
    ensures LocksOk(c, Move(c, s, t, ch))
  {
    SameLocks(c, s, Move(c, s, t, ch), t, NextPc(c, s, t, s.pcs[t], ch));
  }

  lemma MoveLeaver(c: Limits, s: Sys, t: Tid, ch: Choice)
    requires LocksOk(c, s) && t < |s.pcs| && PcFits(c, s, s.pcs[t])
    requires s.pcs[t].Release? || s.pcs[t].MsgRelease? || s.pcs[t].HaveBoth?
    ensures LocksOk(c, Move(c, s, t, ch))
  {
    MoveRelease(c, s, Move(c, s, t, ch), t, s.pcs[t].op);
  }

  lemma MoveOwner(c: Limits, s: Sys, t: Tid, ch: Choice)
    requires LocksOk(c, s) && t < |s.pcs| && Enabled(c, s, t) && PcFits(c, s, s.pcs[t]) && HeldEntry(s.pcs[t]).Some?
    ensures LocksOk(c, Move(c, s, t, ch))
  {
    var s' := Move(c, s, t, ch);
    var pc := s'.pcs[t];
    match s.pcs[t]
    case HaveStale(_, _, _) => SameLocks(c, s, s', t, pc);
    case HaveBoth(_, _) => MoveLeaver(c, s, t, ch);
    case Own(_, _, at) => if at.Unlock? { MoveDropper(c, s, t, ch); } else { SameLocks(c, s, s', t, pc); }
    case _ => MoveDropper(c, s, t, ch);
  }

  lemma MoveDropper(c: Limits, s: Sys, t: Tid, ch: Choice)
    requires LocksOk(c, s) && t < |s.pcs| && PcFits(c, s, s.pcs[t])
    requires var pc := s.pcs[t]; pc.LeaveStale? || (pc.Own? && pc.at.Unlock?) || pc.HaveBare? || pc.HaveStat?
    ensures LocksOk(c, Move(c, s, t, ch))
  {
    DropEntry(c, s, Move(c, s, t, ch), t, s.pcs[t].e, Move(c, s, t, ch).pcs[t]);
  }

  lemma MoveRelease(c: Limits, s: Sys, s': Sys, t: Tid, op: Op)
    requires LocksOk(c, s) && t < |s.pcs| && |s'.pcs| == |s.pcs| && s'.pcs == s.pcs[t := s'.pcs[t]]
    requires s'.writer == if Exclusive(op) then s.writer - {OpShard(c, op)} else s.writer
    requires s'.readers == if Exclusive(op) then s.readers else s.readers - {Hold(OpShard(c, op), t)}
    requires s'.owner == s.owner
    requires HeldShard(c, s.pcs[t]) == Some(OpShard(c, op)) && HoldsForWriting(s.pcs[t]) == Exclusive(op)
    requires HeldShard(c, s'.pcs[t]).None? && HeldEntry(s'.pcs[t]) == HeldEntry(s.pcs[t])
    ensures LocksOk(c, s')
  {
    if Exclusive(op) { DropWriter(c, s, s', t, OpShard(c, op), s'.pcs[t]); }
    else { DropReader(c, s, s', t, OpShard(c, op), s'.pcs[t]); }
  }
}
