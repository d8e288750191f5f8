/** Invariants of every interleaving: clients and challenges enter only entries the table
    still maps, and some thread can always go on. */
module RelaySafety {
  import opened Text
  import opened RelaySpec
  import opened RelayLocks

  // ----- what a program counter may rely on -----

  predicate Mapped(s: Sys, r: Room, e: Id) {
    r in s.table && s.table[r] == e
  }

  ghost predicate TodoOk(c: Limits, s: Sys, sh: nat, todo: set<Room>) {
    forall r | r in todo :: r in s.table && ShardOf(c, r) == sh
  }

  predicate AfterOk(c: Limits, s: Sys, t: Tid, sh: nat, after: After) {
    && MayRun(c, t, after.op)
    && match after
       case Recheck(op) => op.Complete? && ShardOf(c, op.room) == sh && op.room !in s.table
       case NextShard(op) => op.Complete? || op.Cleanup?
  }

  ghost predicate JobOk(c: Limits, s: Sys, t: Tid, job: Job) {
    TodoOk(c, s, job.shard, job.todo) && AfterOk(c, s, t, job.shard, job.after)
  }

  ghost predicate StaleOk(c: Limits, s: Sys, job: Job, r: Room, e: Id) {
    Mapped(s, r, e) && ShardOf(c, r) == job.shard && r !in job.todo && e < |s.entries|
  }

  /** What the owner of an entry has found out about it. */
  predicate InsideOk(c: Limits, op: Op, x: Content, at: Inside)
    requires Packet(op)
  {
    match at
    case Look => op.Admit?
    case Sweeping => true
    case CheckJoin => !op.Initial?
    case Spend(known) => op.Admit? && JoinOk(c, op, x, known)
    case AddClient(known) => !op.Initial? && JoinOk(c, op, x, known)
    case CheckPend => op.Initial?
    case AddPend => op.Initial? && op.addr !in x.clients && op.addr !in x.chal && |x.chal| < c.maxPendingPerRoom
    case Unlock => true
  }

  predicate JoinOk(c: Limits, op: Op, x: Content, known: bool)
    requires Packet(op)
  {
    known == HasKey(c, x.clients, c.ipKey(op.addr)) && (op.addr in x.clients || |x.clients| < c.maxClientsHard)
  }

  ghost predicate OwnOk(c: Limits, s: Sys, t: Tid, op: Op, e: Id, at: Inside) {
    && MayRun(c, t, op) && Packet(op) && !op.Message? && Mapped(s, op.room, e)
    && e < |s.entries| && InsideOk(c, op, s.entries[e], at)
  }

  /** A room just created holds its first client and nothing else. */
  predicate NewRoomOk(s: Sys, op: Op)
    requires op.Complete?
  {
    op.room in s.table && s.table[op.room] < |s.entries| && s.entries[s.table[op.room]] == Content({op.addr}, {})
  }

  ghost predicate PcOk(c: Limits, s: Sys, t: Tid, pc: Pc) {
    match pc
    case Idle => true
    case WantSweep(_, op) => MayRun(c, t, op) && (op.Complete? || op.Cleanup?)
    case Evict(job) => JobOk(c, s, t, job)
    case WantStale(job, r, e) => JobOk(c, s, t, job) && StaleOk(c, s, job, r, e)
    case HaveStale(job, r, e) => JobOk(c, s, t, job) && StaleOk(c, s, job, r, e)
    case LeaveStale(job, r, e, dead) => JobOk(c, s, t, job) && StaleOk(c, s, job, r, e)
      && (dead ==> s.entries[e] == NOTHING)
    case Delete(job, r, e) => JobOk(c, s, t, job) && StaleOk(c, s, job, r, e) && s.entries[e] == NOTHING
    case CountDown(job) => JobOk(c, s, t, job)
    case WantShard(op) => MayRun(c, t, op) && Packet(op)
    case HaveShard(op) => MayRun(c, t, op) && Packet(op)
    case CheckCap(op) => MayRun(c, t, op) && op.Complete? && op.room !in s.table
    case CheckIp(op) => MayRun(c, t, op) && op.Complete? && op.room !in s.table
    case Insert(op) => MayRun(c, t, op) && op.Complete? && op.room !in s.table
    case CountUp(op) => MayRun(c, t, op) && op.Complete? && NewRoomOk(s, op)
    case AddIndex(op) => MayRun(c, t, op) && op.Complete? && NewRoomOk(s, op)
    case Release(op) => Packet(op)
    case WantEntry(op, e) => MayRun(c, t, op) && Packet(op) && !op.Message? && Mapped(s, op.room, e)
    case HaveBoth(op, e) => MayRun(c, t, op) && Packet(op) && !op.Message? && Mapped(s, op.room, e)
    case Own(op, e, at) => OwnOk(c, s, t, op, e, at)
    case MsgRelease(op, _) => op.Message?
    case WantBare(_, _) => true
    case HaveBare(_, _) => true
    case WantStats(_) => true
    case Walk(sh, todo) => TodoOk(c, s, sh, todo)
    case WantStat(sh, todo, _) => TodoOk(c, s, sh, todo)
    case HaveStat(sh, todo, _) => TodoOk(c, s, sh, todo)
  }

  /** Distinct rooms have distinct entries, and an entry no room maps holds nothing. */
  ghost predicate TableOk(s: Sys) {
    && (forall r | r in s.table :: s.table[r] < |s.entries|)
    && (forall r1, r2 | r1 in s.table && r2 in s.table && r1 != r2 :: s.table[r1] != s.table[r2])
    && (forall e | 0 <= e < |s.entries| && s.entries[e] != NOTHING :: exists r :: Mapped(s, r, e))
  }

  /** A room that is going, or that nobody else has seen yet. */
  function ClaimedRoom(pc: Pc): Option<Room> {
    match pc
    case Delete(_, r, _) => Some(r)
    case CountUp(op) => if op.Complete? then Some(op.room) else None
    case AddIndex(op) => if op.Complete? then Some(op.room) else None
    case _ => None
  }

  function OwnedRoom(pc: Pc): Option<Room> {
    match pc
    case Own(op, _, _) => if Packet(op) then Some(op.room) else None
    case _ => None
  }

  /** Nobody is at work on a claimed room. */
  ghost predicate Apart(s: Sys) {
    forall t, u | 0 <= t < |s.pcs| && 0 <= u < |s.pcs| && ClaimedRoom(s.pcs[t]).Some? && OwnedRoom(s.pcs[u]).Some? ::
      ClaimedRoom(s.pcs[t]) != OwnedRoom(s.pcs[u])
  }

  ghost predicate Threads(c: Limits, s: Sys) {
    |s.pcs| == c.workers + 2 && forall t | 0 <= t < |s.pcs| :: PcOk(c, s, t, s.pcs[t])
  }

  ghost predicate Inv(c: Limits, s: Sys) {
    LocksOk(c, s) && Threads(c, s) && TableOk(s) && Apart(s)
  }

  lemma Fits(c: Limits, s: Sys, t: Tid)
    requires TableOk(s) && t < |s.pcs| && PcOk(c, s, t, s.pcs[t])
    ensures PcFits(c, s, s.pcs[t])
  {
  }

  // ----- locks keep other threads' facts -----

  lemma ShardsApart(c: Limits, s: Sys, t: Tid, u: Tid)
    requires LocksOk(c, s) && t < |s.pcs| && u < |s.pcs| && t != u
    requires HeldShard(c, s.pcs[t]).Some? && HoldsForWriting(s.pcs[t])
    ensures HeldShard(c, s.pcs[u]) != HeldShard(c, s.pcs[t])
  {
    assert Agrees(c, s, t, s.pcs[t]) && Agrees(c, s, u, s.pcs[u]);
    var sh := HeldShard(c, s.pcs[t]).value;
    assert Writes(s, sh, t);
    assert HeldShard(c, s.pcs[u]) == Some(sh) ==> Writes(s, sh, u) || Hold(sh, u) in s.readers;
  }

  lemma OwnersApart(c: Limits, s: Sys, t: Tid, u: Tid)
    requires LocksOk(c, s) && t < |s.pcs| && u < |s.pcs| && t != u && HeldEntry(s.pcs[t]).Some?
    ensures HeldEntry(s.pcs[u]) != HeldEntry(s.pcs[t])
  {
    assert Agrees(c, s, t, s.pcs[t]) && Agrees(c, s, u, s.pcs[u]);
    var e := HeldEntry(s.pcs[t]).value;
    assert Owns(s, e, t);
    assert HeldEntry(s.pcs[u]) == Some(e) ==> Owns(s, e, u);
  }

  /** Thread t is in a position to change the entry of room r. */
  predicate WorksAt(pc: Pc, r: Room, e: Id) {
    match pc
    case HaveStale(_, r', e') => r' == r && e' == e
    case Own(op, e', _) => e' == e && Packet(op) && op.room == r
    case _ => false
  }

  /** Then no claimed room, and no other owner's entry, is that one. */
  lemma WorkerAlone(c: Limits, s: Sys, t: Tid, u: Tid, r: Room, e: Id)
    requires Inv(c, s) && t < |s.pcs| && u < |s.pcs| && t != u && WorksAt(s.pcs[t], r, e)
    ensures Mapped(s, r, e) && e < |s.entries|
    ensures ClaimedRoom(s.pcs[u]) != Some(r)
    ensures HeldEntry(s.pcs[u]) != Some(e)
  {
    assert PcOk(c, s, t, s.pcs[t]) && PcOk(c, s, u, s.pcs[u]);
    OwnersApart(c, s, t, u);
    if s.pcs[t].HaveStale? { ShardsApart(c, s, t, u); }
  }

  // ----- what a step does to the tables -----

  /** One entry changes, and it is that of room r. */
  ghost predicate Touched(s: Sys, s': Sys, e: Id) {
    && s'.table == s.table && |s'.entries| == |s.entries| && e < |s.entries|
    && s'.entries == s.entries[e := s'.entries[e]]
  }

  /** The rooms a program counter may rely on: those of a shard it holds, or the one it works on. */
  predicate CaresRoom(c: Limits, pc: Pc, r: Room) {
    HeldShard(c, pc) == Some(ShardOf(c, r)) || OwnedRoom(pc) == Some(r)
  }

  /** Nothing a program counter may rely on has changed. */
  ghost predicate Unseen(c: Limits, s: Sys, s': Sys, pc: Pc) {
    && |s.entries| <= |s'.entries|
    && (forall r | CaresRoom(c, pc, r) ::
      (r in s'.table <==> r in s.table) && (r in s.table ==> s'.table[r] == s.table[r]))
    && (forall e | 0 <= e < |s.entries| && HeldEntry(pc) == Some(e) :: s'.entries[e] == s.entries[e])
    && (forall r, e | 0 <= e < |s.entries| && ClaimedRoom(pc) == Some(r) && Mapped(s, r, e) ::
      s'.entries[e] == s.entries[e])
  }

  lemma UnseenEvictor(c: Limits, s: Sys, s': Sys, u: Tid, pc: Pc)
    requires PcOk(c, s, u, pc) && Unseen(c, s, s', pc) && Evicting(pc)
    ensures PcOk(c, s', u, pc)
  {
  }

  lemma UnseenOwner(c: Limits, s: Sys, s': Sys, u: Tid, pc: Pc)
    requires PcOk(c, s, u, pc) && Unseen(c, s, s', pc) && pc.Own?
    ensures PcOk(c, s', u, pc)
  {
  }

  lemma UnseenWatcher(c: Limits, s: Sys, s': Sys, u: Tid, pc: Pc)
    requires PcOk(c, s, u, pc) && Unseen(c, s, s', pc) && (pc.Walk? || pc.WantStat? || pc.HaveStat?)
    ensures PcOk(c, s', u, pc)
  {
  }

  lemma UnseenCreator(c: Limits, s: Sys, s': Sys, u: Tid, pc: Pc)
    requires PcOk(c, s, u, pc) && Unseen(c, s, s', pc) && (pc.CountUp? || pc.AddIndex?)
    ensures PcOk(c, s', u, pc)
  {
    var r := pc.op.room;
    assert CaresRoom(c, pc, r) && ClaimedRoom(pc) == Some(r) && Mapped(s, r, s.table[r]);
    assert s'.table[r] == s.table[r];
  }

  lemma UnseenOther(c: Limits, s: Sys, s': Sys, u: Tid, pc: Pc)
    requires PcOk(c, s, u, pc) && Unseen(c, s, s', pc) && !Evicting(pc) && !pc.Own?
    requires !pc.Walk? && !pc.WantStat? && !pc.HaveStat? && !pc.CountUp? && !pc.AddIndex?
    ensures PcOk(c, s', u, pc)
  {
  }

  lemma UnseenKeeps(c: Limits, s: Sys, s': Sys, u: Tid, pc: Pc)
    requires PcOk(c, s, u, pc) && Unseen(c, s, s', pc)
    ensures PcOk(c, s', u, pc)
  {
    if Evicting(pc) { UnseenEvictor(c, s, s', u, pc); }
    else if pc.Own? { UnseenOwner(c, s, s', u, pc); }
    else if pc.Walk? || pc.WantStat? || pc.HaveStat? { UnseenWatcher(c, s, s', u, pc); }
    else if pc.CountUp? || pc.AddIndex? { UnseenCreator(c, s, s', u, pc); }
    else { UnseenOther(c, s, s', u, pc); }
  }

  /** A room that others may not have seen appears or disappears under its shard's write lock. */
  lemma RoomUnseen(c: Limits, s: Sys, t: Tid, u: Tid, r: Room)
    requires Inv(c, s) && t < |s.pcs| && u < |s.pcs| && t != u
    requires HeldShard(c, s.pcs[t]) == Some(ShardOf(c, r)) && HoldsForWriting(s.pcs[t])
    requires OwnedRoom(s.pcs[u]) != Some(r)
    ensures !CaresRoom(c, s.pcs[u], r)
  {
    ShardsApart(c, s, t, u);
  }

  lemma InsertKeeps(c: Limits, s: Sys, t: Tid, ch: Choice, u: Tid)
    requires CanMove(c, s, t) && u < |s.pcs| && t != u && s.pcs[t].Insert?
    ensures Unseen(c, s, Move(c, s, t, ch), s.pcs[u])
  {
    assert PcOk(c, s, t, s.pcs[t]) && PcOk(c, s, u, s.pcs[u]);
    RoomUnseen(c, s, t, u, s.pcs[t].op.room);
  }

  lemma DeleteKeeps(c: Limits, s: Sys, t: Tid, ch: Choice, u: Tid)
    requires CanMove(c, s, t) && u < |s.pcs| && t != u && s.pcs[t].Delete?
    ensures Unseen(c, s, Move(c, s, t, ch), s.pcs[u])
  {
    assert PcOk(c, s, t, s.pcs[t]) && ClaimedRoom(s.pcs[t]) == Some(s.pcs[t].room);
    RoomUnseen(c, s, t, u, s.pcs[t].room);
  }

  lemma TouchKeeps(c: Limits, s: Sys, s': Sys, t: Tid, u: Tid, r: Room, e: Id)
    requires Inv(c, s) && t < |s.pcs| && u < |s.pcs| && t != u && WorksAt(s.pcs[t], r, e) && Touched(s, s', e)
    ensures Unseen(c, s, s', s.pcs[u])
  {
    WorkerAlone(c, s, t, u, r, e);
  }

  // ----- one step keeps the invariant -----

  ghost predicate CanMove(c: Limits, s: Sys, t: Tid) {
    Inv(c, s) && t < |s.pcs| && Enabled(c, s, t) && PcFits(c, s, s.pcs[t])
  }

  predicate ChangesTables(pc: Pc) {
    pc.Insert? || pc.Delete? || pc.HaveStale? || pc.Own?
  }

  lemma QuietMove(c: Limits, s: Sys, t: Tid, ch: Choice)
    requires t < |s.pcs| && PcFits(c, s, s.pcs[t]) && !ChangesTables(s.pcs[t])
    ensures Move(c, s, t, ch).table == s.table && Move(c, s, t, ch).entries == s.entries
  {
  }

  lemma TouchMove(c: Limits, s: Sys, t: Tid, ch: Choice)
    requires CanMove(c, s, t) && (s.pcs[t].HaveStale? || s.pcs[t].Own?)
    ensures Touched(s, Move(c, s, t, ch), s.pcs[t].e)
    ensures s.pcs[t].HaveStale? ==> WorksAt(s.pcs[t], s.pcs[t].room, s.pcs[t].e)
    ensures s.pcs[t].Own? ==> Packet(s.pcs[t].op) && WorksAt(s.pcs[t], s.pcs[t].op.room, s.pcs[t].e)
  {
  }

  lemma OtherOk(c: Limits, s: Sys, t: Tid, ch: Choice, u: Tid)
    requires CanMove(c, s, t) && u < |s.pcs| && u != t
    ensures PcOk(c, Move(c, s, t, ch), u, s.pcs[u])
  {
    OtherUnseen(c, s, t, ch, u);
    assert PcOk(c, s, u, s.pcs[u]);
    UnseenKeeps(c, s, Move(c, s, t, ch), u, s.pcs[u]);
  }

  lemma OtherUnseen(c: Limits, s: Sys, t: Tid, ch: Choice, u: Tid)
    requires CanMove(c, s, t) && u < |s.pcs| && u != t
    ensures Unseen(c, s, Move(c, s, t, ch), s.pcs[u])
  {
    var pc := s.pcs[t];
    if pc.Insert? { InsertKeeps(c, s, t, ch, u); }
    else if pc.Delete? { DeleteKeeps(c, s, t, ch, u); }
    else if pc.HaveStale? {
      TouchMove(c, s, t, ch);
      TouchKeeps(c, s, Move(c, s, t, ch), t, u, pc.room, pc.e);
    } else if pc.Own? {
      TouchMove(c, s, t, ch);
      TouchKeeps(c, s, Move(c, s, t, ch), t, u, pc.op.room, pc.e);
    } else {
      QuietMove(c, s, t, ch);
    }
  }

  predicate Evicting(pc: Pc) {
    pc.Evict? || pc.WantStale? || pc.HaveStale? || pc.LeaveStale? || pc.Delete? || pc.CountDown?
  }

  lemma EvictorOk(c: Limits, s: Sys, t: Tid, ch: Choice)
    requires CanMove(c, s, t) && Evicting(s.pcs[t])
    ensures PcOk(c, Move(c, s, t, ch), t, NextPc(c, s, t, s.pcs[t], ch))
  {
    assert PcOk(c, s, t, s.pcs[t]);
  }

  lemma InsideNext(c: Limits, s: Sys, op: Op, x: Content, at: Inside, ch: Choice)
    requires Packet(op) && !op.Message? && InsideOk(c, op, x, at) && !at.Unlock?
    ensures InsideOk(c, op, NextContent(op, x, at, ch), NextInside(c, s, op, x, at, ch))
  {
  }

  lemma OwnerOk(c: Limits, s: Sys, t: Tid, ch: Choice)
    requires CanMove(c, s, t) && s.pcs[t].Own?
    ensures PcOk(c, Move(c, s, t, ch), t, NextPc(c, s, t, s.pcs[t], ch))
  {
    assert PcOk(c, s, t, s.pcs[t]);
    var Own(op, e, at) := s.pcs[t];
    if !at.Unlock? { InsideNext(c, s, op, s.entries[e], at, ch); }
  }

  predicate Creating(pc: Pc) {
    pc.CheckCap? || pc.CheckIp? || pc.Insert? || pc.CountUp? || pc.AddIndex?
  }

  lemma CreatorOk(c: Limits, s: Sys, t: Tid, ch: Choice)
    requires CanMove(c, s, t) && Creating(s.pcs[t])
    ensures PcOk(c, Move(c, s, t, ch), t, NextPc(c, s, t, s.pcs[t], ch))
  {
    assert PcOk(c, s, t, s.pcs[t]);
  }

  predicate Watching(pc: Pc) {
    pc.WantStats? || pc.Walk? || pc.WantStat? || pc.HaveStat?
  }

  lemma WatcherOk(c: Limits, s: Sys, t: Tid, ch: Choice)
    requires CanMove(c, s, t) && Watching(s.pcs[t])
    ensures PcOk(c, Move(c, s, t, ch), t, NextPc(c, s, t, s.pcs[t], ch))
  {
    assert PcOk(c, s, t, s.pcs[t]);
  }

  lemma FinderOk(c: Limits, s: Sys, t: Tid, ch: Choice)
    requires CanMove(c, s, t) && s.pcs[t].HaveShard?
    ensures PcOk(c, Move(c, s, t, ch), t, NextPc(c, s, t, s.pcs[t], ch))
  {
    assert PcOk(c, s, t, s.pcs[t]);
  }

  lemma WorkerOk(c: Limits, s: Sys, t: Tid, ch: Choice)
    requires CanMove(c, s, t) && !s.pcs[t].HaveShard? && !Evicting(s.pcs[t]) && !s.pcs[t].Own? && !Creating(s.pcs[t])
      && !Watching(s.pcs[t])
    ensures PcOk(c, Move(c, s, t, ch), t, NextPc(c, s, t, s.pcs[t], ch))
  {
    assert PcOk(c, s, t, s.pcs[t]);
  }

  lemma MoverOk(c: Limits, s: Sys, t: Tid, ch: Choice)
    requires CanMove(c, s, t)
    ensures PcOk(c, Move(c, s, t, ch), t, NextPc(c, s, t, s.pcs[t], ch))
  {
    if Evicting(s.pcs[t]) { EvictorOk(c, s, t, ch); }
    else if s.pcs[t].Own? { OwnerOk(c, s, t, ch); }
    else if Creating(s.pcs[t]) { CreatorOk(c, s, t, ch); }
    else if Watching(s.pcs[t]) { WatcherOk(c, s, t, ch); }
    else if s.pcs[t].HaveShard? { FinderOk(c, s, t, ch); }
    else { WorkerOk(c, s, t, ch); }
  }

  lemma MoveTable(c: Limits, s: Sys, t: Tid, ch: Choice)
    requires CanMove(c, s, t)
    ensures TableOk(Move(c, s, t, ch))
  {
    var s' := Move(c, s, t, ch);
    assert PcOk(c, s, t, s.pcs[t]);
    match s.pcs[t]
    case Insert(op) => InsertTable(s, s', op);
    case Delete(_, r, e) => DeleteTable(s, s', r, e);
    case HaveStale(_, r, e) => TouchTable(s, s', r, e);
    case Own(op, e, _) => TouchTable(s, s', op.room, e);
    case _ => SameTable(s, s');
  }

  lemma SameTable(s: Sys, s': Sys)
    requires TableOk(s) && s'.table == s.table && s'.entries == s.entries
    ensures TableOk(s')
  {
    forall e | 0 <= e < |s'.entries| && s'.entries[e] != NOTHING ensures exists r :: Mapped(s', r, e) {
      var r :| Mapped(s, r, e);
      assert Mapped(s', r, e);
    }
  }

  lemma InsertTable(s: Sys, s': Sys, op: Op)
    requires TableOk(s) && op.Complete? && op.room !in s.table
    requires s'.table == s.table[op.room := |s.entries|] && s'.entries == s.entries + [Content({op.addr}, {})]
    ensures TableOk(s')
  {
    forall e | 0 <= e < |s'.entries| && s'.entries[e] != NOTHING ensures exists r :: Mapped(s', r, e) {
      if e == |s.entries| {
        assert Mapped(s', op.room, e);
      } else {
        var r :| Mapped(s, r, e);
        assert Mapped(s', r, e);
      }
    }
  }

  lemma DeleteTable(s: Sys, s': Sys, room: Room, e0: Id)
    requires TableOk(s) && Mapped(s, room, e0) && e0 < |s.entries| && s.entries[e0] == NOTHING
    requires s'.table == s.table - {room} && s'.entries == s.entries
    ensures TableOk(s')
  {
    forall e | 0 <= e < |s'.entries| && s'.entries[e] != NOTHING ensures exists r :: Mapped(s', r, e) {
      var r :| Mapped(s, r, e);
      assert Mapped(s', r, e);
    }
  }

  lemma TouchTable(s: Sys, s': Sys, room: Room, e0: Id)
    requires TableOk(s) && Mapped(s, room, e0) && Touched(s, s', e0)
    ensures TableOk(s')
  {
    forall e | 0 <= e < |s'.entries| && s'.entries[e] != NOTHING ensures exists r :: Mapped(s', r, e) {
      if e == e0 {
        assert Mapped(s', room, e);
      } else {
        var r :| Mapped(s, r, e);
        assert Mapped(s', r, e);
      }
    }
  }

  lemma MoveApart(c: Limits, s: Sys, t: Tid, ch: Choice)
    requires CanMove(c, s, t)
    ensures Apart(Move(c, s, t, ch))
  {
    var s' := Move(c, s, t, ch);
    forall x, y | 0 <= x < |s'.pcs| && 0 <= y < |s'.pcs| && ClaimedRoom(s'.pcs[x]).Some? && OwnedRoom(s'.pcs[y]).Some?
      ensures ClaimedRoom(s'.pcs[x]) != OwnedRoom(s'.pcs[y])
    {
      if x == y {
      } else if x == t {
        NewClaim(c, s, t, ch, y);
      } else if y == t {
        NewOwner(c, s, t, ch, x);
      }
    }
  }

  /** A room is claimed only when nobody is at work on it ... */
  lemma NewClaim(c: Limits, s: Sys, t: Tid, ch: Choice, u: Tid)
    requires CanMove(c, s, t) && u < |s.pcs| && t != u && OwnedRoom(s.pcs[u]).Some?
    requires ClaimedRoom(NextPc(c, s, t, s.pcs[t], ch)).Some?
    ensures ClaimedRoom(NextPc(c, s, t, s.pcs[t], ch)) != OwnedRoom(s.pcs[u])
  {
    assert PcOk(c, s, t, s.pcs[t]) && PcOk(c, s, u, s.pcs[u]);
    if s.pcs[t].LeaveStale? { OwnersApart(c, s, t, u); }
  }

  /** ... and nobody starts to work on a claimed room, whose shard is locked. */
  lemma NewOwner(c: Limits, s: Sys, t: Tid, ch: Choice, u: Tid)
    requires CanMove(c, s, t) && u < |s.pcs| && t != u && ClaimedRoom(s.pcs[u]).Some?
    requires OwnedRoom(NextPc(c, s, t, s.pcs[t], ch)).Some?
    ensures ClaimedRoom(s.pcs[u]) != OwnedRoom(NextPc(c, s, t, s.pcs[t], ch))
  {
    assert PcOk(c, s, t, s.pcs[t]) && PcOk(c, s, u, s.pcs[u]);
    ShardsApart(c, s, u, t);
    assert s.pcs[t].HaveBoth? || s.pcs[t].Own?;
  }

  lemma MoveInv(c: Limits, s: Sys, t: Tid, ch: Choice)
    requires CanMove(c, s, t)
    ensures Inv(c, Move(c, s, t, ch))
  {
    var s' := Move(c, s, t, ch);
    MoveLocks(c, s, t, ch);
    MoveTable(c, s, t, ch);
    MoveApart(c, s, t, ch);
    forall u | 0 <= u < |s'.pcs| ensures PcOk(c, s', u, s'.pcs[u]) {
      if u == t { MoverOk(c, s, t, ch); } else { OtherOk(c, s, t, ch, u); }
    }
  }

  // ----- runs -----

  datatype Turn = Turn(t: Tid, ch: Choice)

  function Init(c: Limits): Sys {
    Sys(map[], [], 0, 0, {}, map[], {}, map[], seq(c.workers + 2, _ => Idle))
  }

  ghost predicate CanTurn(c: Limits, s: Sys, turn: Turn) {
    turn.t < |s.pcs| && Enabled(c, s, turn.t) && PcFits(c, s, s.pcs[turn.t])
  }

  /** The state after the turns; a thread that is waiting for a lock does nothing. */
  ghost function Exec(c: Limits, turns: seq<Turn>): Sys {
    if turns == [] then Init(c) else
    var s, turn := Exec(c, turns[..|turns| - 1]), turns[|turns| - 1];
    if CanTurn(c, s, turn) then Move(c, s, turn.t, turn.ch) else s
  }

  lemma InitLocks(c: Limits)
    ensures LocksOk(c, Init(c))
  {
    var s := Init(c);
    forall t | 0 <= t < |s.pcs| ensures Agrees(c, s, t, s.pcs[t]) {
      assert s.pcs[t] == Idle;
    }
  }

  lemma InitInv(c: Limits)
    ensures Inv(c, Init(c))
  {
    InitLocks(c);
    var s := Init(c);
    assert forall t | 0 <= t < |s.pcs| :: s.pcs[t] == Idle;
  }

  /** Every interleaving keeps the invariant. */
  lemma {:induction false} ExecInv(c: Limits, turns: seq<Turn>)
    ensures Inv(c, Exec(c, turns))
  {
    if turns == [] {
      InitInv(c);
    } else {
      var n := |turns| - 1;
      ExecInv(c, turns[..n]);
      var s := Exec(c, turns[..n]);
      if CanTurn(c, s, turns[n]) { MoveInv(c, s, turns[n].t, turns[n].ch); }
    }
  }

  /** A thread at work on an entry owns it, and the table maps it from the packet's room. */
  ghost predicate WorkMapped(s: Sys) {
    forall t | 0 <= t < |s.pcs| && s.pcs[t].Own? ::
      Packet(s.pcs[t].op) && Mapped(s, s.pcs[t].op.room, s.pcs[t].e) && Owns(s, s.pcs[t].e, t)
  }

  /** Under every interleaving a thread about to let a client or a challenge in owns an
      entry that the table still maps from its room, and no entry the table dropped holds one. */
  lemma ClientsAreMapped(c: Limits, turns: seq<Turn>)
    ensures WorkMapped(Exec(c, turns))
    ensures var s := Exec(c, turns);
      forall e | 0 <= e < |s.entries| && s.entries[e] != NOTHING :: exists r :: Mapped(s, r, e)
  {
    ExecInv(c, turns);
    var s := Exec(c, turns);
    forall t | 0 <= t < |s.pcs| && s.pcs[t].Own?
      ensures Packet(s.pcs[t].op) && Mapped(s, s.pcs[t].op.room, s.pcs[t].e) && Owns(s, s.pcs[t].e, t)
    {
      assert PcOk(c, s, t, s.pcs[t]) && Agrees(c, s, t, s.pcs[t]);
    }
  }

  // ----- no deadlock -----

  /** While any thread is at work, some thread at work can take its next step even if
      writers that wait keep readers out, and that step changes something, whatever the
      caps and the clock decide. */
  lemma NoDeadlock(c: Limits, turns: seq<Turn>, busy: Tid) returns (t: Tid)
    requires busy < |Exec(c, turns).pcs| && !Exec(c, turns).pcs[busy].Idle?
    ensures t < |Exec(c, turns).pcs| && !Exec(c, turns).pcs[t].Idle?
    ensures Unblocked(c, Exec(c, turns), t)
    ensures forall ch :: Exec(c, turns + [Turn(t, ch)]) != Exec(c, turns)
  {
    ExecInv(c, turns);
    var s := Exec(c, turns);
    t := SomeUnblocked(c, s, busy);
    Fits(c, s, t);
    forall ch ensures Exec(c, turns + [Turn(t, ch)]) != s {
      ExecMove(c, turns, t, ch);
      Advances(c, s, t, ch);
    }
  }

  lemma ExecMove(c: Limits, turns: seq<Turn>, t: Tid, ch: Choice)
    requires CanTurn(c, Exec(c, turns), Turn(t, ch))
    ensures Exec(c, turns + [Turn(t, ch)]) == Move(c, Exec(c, turns), t, ch)
  {
    assert (turns + [Turn(t, ch)])[..|turns|] == turns;
  }

  /** A step that does not move the program counter is a sweep, which drops something. */
  lemma Advances(c: Limits, s: Sys, t: Tid, ch: Choice)
    requires t < |s.pcs| && PcFits(c, s, s.pcs[t]) && !s.pcs[t].Idle? && PcOk(c, s, t, s.pcs[t])
    ensures Move(c, s, t, ch) != s
  {
    if NextPc(c, s, t, s.pcs[t], ch) == s.pcs[t] {
      SweepMoves(c, s, t, ch);
    } else {
      assert Move(c, s, t, ch).pcs[t] != s.pcs[t];
    }
  }

  lemma SweptChanges(x: Content, drop: Drop)
    requires Sweeps(x, drop)
    ensures Swept(x, drop) != x
  {
    assert drop.addr !in Swept(x, drop).clients || drop.addr !in Swept(x, drop).chal;
  }

  lemma SweepMoves(c: Limits, s: Sys, t: Tid, ch: Choice)
    requires t < |s.pcs| && PcFits(c, s, s.pcs[t]) && !s.pcs[t].Idle? && PcOk(c, s, t, s.pcs[t])
    requires NextPc(c, s, t, s.pcs[t], ch) == s.pcs[t]
    ensures Move(c, s, t, ch) != s
  {
    var pc := s.pcs[t];
    assert pc.HaveStale? || (pc.Own? && pc.at.Sweeping?);
    SweptChanges(s.entries[pc.e], ch.drop);
    assert NextEntries(c, s, pc, ch)[pc.e] != s.entries[pc.e];
  }

  lemma SomeUnblocked(c: Limits, s: Sys, busy: Tid) returns (t: Tid)
    requires LocksOk(c, s) && busy < |s.pcs| && !s.pcs[busy].Idle?
    ensures t < |s.pcs| && !s.pcs[t].Idle? && Unblocked(c, s, t)
  {
    if e :| e in s.owner {
      t := OwnerRuns(c, s, e);
    } else if sh :| sh in s.writer {
      t := s.writer[sh];
      assert Agrees(c, s, t, s.pcs[t]) && Writes(s, sh, t);
    } else if h :| h in s.readers {
      t := h.t;
      assert Agrees(c, s, t, s.pcs[t]) && Hold(h.shard, t) in s.readers;
    } else {
      t := FreeRuns(c, s, busy);
    }
  }

  /** A thread that owns an entry waits for nothing. */
  lemma OwnerRuns(c: Limits, s: Sys, e: Id) returns (t: Tid)
    requires LocksOk(c, s) && e in s.owner
    ensures t < |s.pcs| && !s.pcs[t].Idle? && Unblocked(c, s, t)
  {
    t := s.owner[e];
    assert Agrees(c, s, t, s.pcs[t]) && Owns(s, e, t);
  }

  /** With no lock held, a waiting writer gets its shard, and a reader does if no writer waits. */
  lemma FreeRuns(c: Limits, s: Sys, busy: Tid) returns (t: Tid)
    requires s.owner == map[] && s.writer == map[] && s.readers == {} && busy < |s.pcs| && !s.pcs[busy].Idle?
    ensures t < |s.pcs| && !s.pcs[t].Idle? && Unblocked(c, s, t)
  {
    if u :| 0 <= u < |s.pcs| && WaitsToWrite(c, s.pcs[u]).Some? {
      t := u;
    } else {
      t := busy;
    }
  }
}
