/** The pre-cookie store under concurrency.  A lookup and the deletion that follows it are
    separate critical sections, and so are an insertion and its count.  So one challenge
    can admit more than once and a count can stay too high; both by an exact amount. */
module RelayRaces {
  import opened Text
  import opened RelaySpec
  import opened RelayIndex
  import opened Tally

  type Tid = nat
  type Id = nat       // identity of a stored challenge

  /** What a thread starts on. */
  datatype Task = Ask(k: Key) | Answer(k: Key) | Clean

  datatype Cookie = Right | Wrong | Late

  /** Program counters.  `join` is the challenge to admit on once the counts are settled. */
  datatype Pc =
    | Idle
    | CheckIp(k: Key)                   // the key's pending cap
    | Budget(k: Key)                    // the global cap, under the store shard's lock
    | Put(k: Key, known: bool)          // the insertion, under the same lock
    | AddCount(ip: Ip)
    | AddTotal
    | Lookup(k: Key)
    | Found(k: Key, id: Id)
    | Remove(k: Key, id: Id, late: bool)
    | SubCount(ip: Ip, join: Option<Id>)
    | SubTotal(join: Option<Id>)
    | Join(id: Id)
    | Sweep(shard: nat)
    | Return(shard: nat, gone: set<Key>)
    | ReturnTotal(shard: nat, gone: set<Key>, n: nat)

  datatype Caps = Caps(maxPendingPerIP: pos, maxPendingGlobal: pos, shards: pos, workers: pos, hash: Room -> nat,
      ipKey: Addr -> Ip)

  datatype Sys = Sys(
    store: map<Key, Id>,
    next: Id,                   // the next identity
    counts: Counts,             // per key
    total: int,
    admits: map<Id, nat>,       // how often each challenge has admitted
    pcs: seq<Pc>)

  datatype Choice = Choice(task: Task, cookie: Cookie, gone: set<Key>, key: Key)

  function KeyOf(c: Caps, k: Key): Ip {
    c.ipKey(k.src)
  }

  function StoreShard(c: Caps, k: Key): nat {
    c.hash(k.room) % c.shards
  }

  function IpOf(c: Caps): Key -> Ip {
    (k: Key) => KeyOf(c, k)
  }

  function OfIp(c: Caps, keys: set<Key>, ip: Ip): set<Key> {
    Of(IpOf(c), keys, ip)
  }

  function AdmitsOf(s: Sys, id: Id): nat {
    if id in s.admits then s.admits[id] else 0
  }

  // ----- the store's locks -----

  /** The store shard held across steps: only an insertion does so. */
  function HeldShard(c: Caps, pc: Pc): Option<nat> {
    match pc
    case Put(k, _) => Some(StoreShard(c, k))
    case _ => None
  }

  /** The store shard a step needs. */
  function NeedsShard(c: Caps, pc: Pc): Option<nat> {
    match pc
    case Budget(k) => Some(StoreShard(c, k))
    case Lookup(k) => Some(StoreShard(c, k))
    case Remove(k, _, _) => Some(StoreShard(c, k))
    case Sweep(i) => if i < c.shards then Some(i) else None
    case _ => None
  }

  predicate Enabled(c: Caps, s: Sys, t: Tid)
    requires t < |s.pcs|
  {
    NeedsShard(c, s.pcs[t]).Some? ==>
      forall u | 0 <= u < |s.pcs| && u != t :: HeldShard(c, s.pcs[u]) != NeedsShard(c, s.pcs[t])
  }

  // ----- steps -----

  /** Workers ask and answer, the last thread cleans. */
  predicate MayRun(c: Caps, t: Tid, task: Task) {
    task.Clean? <==> t == c.workers
  }

  function Start(task: Task): Pc {
    match task
    case Ask(k) => CheckIp(k)
    case Answer(k) => Lookup(k)
    case Clean => Sweep(0)
  }

  function Then(join: Option<Id>): Pc {
    match join
    case None => Idle
    case Some(id) => Join(id)
  }

  /** The expired ones a sweep finds in a shard. */
  function Swept(c: Caps, s: Sys, shard: nat, ch: Choice): set<Key> {
    set k | k in ch.gone && k in s.store && StoreShard(c, k) == shard
  }

  ghost function Pick(gone: set<Key>, k: Key): (p: Key)
    requires gone != {}
    ensures p in gone
  {
    if k in gone then k else var x :| x in gone; x
  }

  ghost function Batch(c: Caps, gone: set<Key>, ch: Choice): set<Key>
    requires gone != {}
  {
    OfIp(c, gone, KeyOf(c, Pick(gone, ch.key)))
  }

  ghost function NextPc(c: Caps, s: Sys, t: Tid, pc: Pc, ch: Choice): Pc {
    match pc
    case Idle => if MayRun(c, t, ch.task) then Start(ch.task) else Idle
    case CheckIp(k) => if CountOf(s.counts, KeyOf(c, k)) >= c.maxPendingPerIP then Idle else Budget(k)
    case Budget(k) => if k !in s.store && s.total >= c.maxPendingGlobal then Idle else Put(k, k in s.store)
    case Put(k, known) => if known then Idle else AddCount(KeyOf(c, k))
    case AddCount(_) => AddTotal
    case AddTotal => Idle
    case Lookup(k) => if k in s.store then Found(k, s.store[k]) else Idle
    case Found(k, id) => if ch.cookie.Wrong? then Idle else Remove(k, id, ch.cookie.Late?)
    case Remove(k, id, late) =>
      var join := if late then None else Some(id);
      if k in s.store then SubCount(KeyOf(c, k), join) else Then(join)
    case SubCount(_, join) => SubTotal(join)
    case SubTotal(join) => Then(join)
    case Join(_) => Idle
    case Sweep(i) => if i < c.shards then Return(i, Swept(c, s, i, ch)) else Idle
    case Return(i, gone) =>
      if gone == {} then Sweep(i + 1) else ReturnTotal(i, gone - Batch(c, gone, ch), |Batch(c, gone, ch)|)
    case ReturnTotal(i, gone, _) => Return(i, gone)
  }

  function NextStore(c: Caps, s: Sys, pc: Pc, ch: Choice): map<Key, Id> {
    match pc
    case Put(k, _) => s.store[k := s.next]
    case Remove(k, _, _) => s.store - {k}
    case Sweep(i) => s.store - Swept(c, s, i, ch)
    case _ => s.store
  }

  /** `addPendingIP` on the key's count; a count that would not be positive is dropped. */
  ghost function NextCounts(c: Caps, s: Sys, pc: Pc, ch: Choice): Counts {
    match pc
    case AddCount(ip) => Adjust(s.counts, ip, 1)
    case SubCount(ip, _) => Adjust(s.counts, ip, -1)
    case Return(_, gone) =>
      if gone == {} then s.counts else Adjust(s.counts, KeyOf(c, Pick(gone, ch.key)), -|Batch(c, gone, ch)|)
    case _ => s.counts
  }

  function NextTotal(s: Sys, pc: Pc): int {
    match pc
    case AddTotal => s.total + 1
    case SubTotal(_) => s.total - 1
    case ReturnTotal(_, _, n) => s.total - n
    case _ => s.total
  }

  /** One step of thread t. */
  ghost function Move(c: Caps, s: Sys, t: Tid, ch: Choice): Sys
    requires t < |s.pcs|
  {
    var pc := s.pcs[t];
    Sys(NextStore(c, s, pc, ch), if pc.Put? then s.next + 1 else s.next, NextCounts(c, s, pc, ch), NextTotal(s, pc),
        if pc.Join? then s.admits[pc.id := AdmitsOf(s, pc.id) + 1] else s.admits, s.pcs[t := NextPc(c, s, t, pc, ch)])
  }

  datatype Turn = Turn(t: Tid, ch: Choice)

  function Init(c: Caps): Sys {
    Sys(map[], 0, map[], 0, map[], seq(c.workers + 1, _ => Idle))
  }

  ghost predicate CanTurn(c: Caps, s: Sys, turn: Turn) {
    turn.t < |s.pcs| && Enabled(c, s, turn.t)
  }

  /** The state after the turns; a thread that is waiting for a lock does nothing. */
  ghost function Exec(c: Caps, turns: seq<Turn>): Sys {
    if turns == [] then Init(c) else
    var s, turn := Exec(c, turns[..|turns| - 1]), turns[|turns| - 1];
    if CanTurn(c, s, turn) then Move(c, s, turn.t, turn.ch) else s
  }

  // ----- what a program counter may rely on -----

  predicate Sweeper(pc: Pc) {
    pc.Sweep? || pc.Return? || pc.ReturnTotal?
  }

  /** If the store still holds the challenge, then under this key. */
  ghost predicate OnlyAt(s: Sys, k: Key, id: Id) {
    id < s.next && forall k' | k' in s.store && s.store[k'] == id :: k' == k
  }

  ghost predicate Gone(s: Sys, id: Id) {
    id < s.next && forall k | k in s.store :: s.store[k] != id
  }

  ghost predicate PcOk(c: Caps, s: Sys, t: Tid, pc: Pc) {
    && (Sweeper(pc) ==> t == c.workers)
    && (!Sweeper(pc) && !pc.Idle? ==> t < c.workers)
    && match pc
       case Put(k, known) => known <==> k in s.store
       case Found(k, id) => OnlyAt(s, k, id)
       case Remove(k, id, _) => OnlyAt(s, k, id)
       case SubCount(_, join) => join.Some? ==> Gone(s, join.value)
       case SubTotal(join) => join.Some? ==> Gone(s, join.value)
       case Join(id) => Gone(s, id)
       case _ => true
  }

  /** No two keys have the same challenge. */
  ghost predicate StoreOk(s: Sys) {
    && (forall k | k in s.store :: s.store[k] < s.next)
    && (forall k, k' | k in s.store && k' in s.store && k != k' :: s.store[k] != s.store[k'])
  }

  /** Two insertions are never under way in one shard. */
  ghost predicate LocksOk(c: Caps, s: Sys) {
    forall t, u | 0 <= t < |s.pcs| && 0 <= u < |s.pcs| && t != u && HeldShard(c, s.pcs[t]).Some? ::
      HeldShard(c, s.pcs[t]) != HeldShard(c, s.pcs[u])
  }

  ghost predicate Inv(c: Caps, s: Sys) {
    && |s.pcs| == c.workers + 1 && StoreOk(s) && LocksOk(c, s)
    && (forall t | 0 <= t < |s.pcs| :: PcOk(c, s, t, s.pcs[t]))
  }

  ghost predicate CanMove(c: Caps, s: Sys, t: Tid) {
    Inv(c, s) && t < |s.pcs| && Enabled(c, s, t)
  }

  lemma MoveStore(c: Caps, s: Sys, t: Tid, ch: Choice)
    requires CanMove(c, s, t)
    ensures StoreOk(Move(c, s, t, ch))
  {
  }

  lemma MoveLocks(c: Caps, s: Sys, t: Tid, ch: Choice)
    requires CanMove(c, s, t)
    ensures LocksOk(c, Move(c, s, t, ch))
  {
    var s' := Move(c, s, t, ch);
    assert HeldShard(c, s'.pcs[t]).Some? ==> HeldShard(c, s'.pcs[t]) == NeedsShard(c, s.pcs[t]);
  }

  lemma MoverOk(c: Caps, s: Sys, t: Tid, ch: Choice)
    requires CanMove(c, s, t)
    ensures PcOk(c, Move(c, s, t, ch), t, NextPc(c, s, t, s.pcs[t], ch))
  {
    assert PcOk(c, s, t, s.pcs[t]);
  }

  /** The steps of others leave an insertion's key alone and bring no challenge back. */
  lemma OtherOk(c: Caps, s: Sys, t: Tid, ch: Choice, u: Tid)
    requires CanMove(c, s, t) && u < |s.pcs| && u != t
    ensures PcOk(c, Move(c, s, t, ch), u, s.pcs[u])
  {
    assert PcOk(c, s, u, s.pcs[u]);
    if s.pcs[u].Put? { PutUndisturbed(c, s, t, ch, u); }
  }

  lemma PutUndisturbed(c: Caps, s: Sys, t: Tid, ch: Choice, u: Tid)
    requires CanMove(c, s, t) && u < |s.pcs| && u != t && s.pcs[u].Put?
    ensures s.pcs[u].k in Move(c, s, t, ch).store <==> s.pcs[u].k in s.store
  {
    assert HeldShard(c, s.pcs[u]) == Some(StoreShard(c, s.pcs[u].k));
    assert HeldShard(c, s.pcs[t]) != HeldShard(c, s.pcs[u]);
  }

  lemma MoveInv(c: Caps, s: Sys, t: Tid, ch: Choice)
    requires CanMove(c, s, t)
    ensures Inv(c, Move(c, s, t, ch))
  {
    MoveStore(c, s, t, ch);
    MoveLocks(c, s, t, ch);
    MoverOk(c, s, t, ch);
    var s' := Move(c, s, t, ch);
    forall u | 0 <= u < |s'.pcs| ensures PcOk(c, s', u, s'.pcs[u]) {
      if u != t { OtherOk(c, s, t, ch, u); }
    }
  }

  lemma {:induction false} ExecInv(c: Caps, turns: seq<Turn>)
    ensures Inv(c, Exec(c, turns))
  {
    if turns == [] {
    } else {
      var n := |turns| - 1;
      ExecInv(c, turns[..n]);
      var s := Exec(c, turns[..n]);
      if CanTurn(c, s, turns[n]) { MoveInv(c, s, turns[n].t, turns[n].ch); }
    }
  }
}
