/** How far the caps that are checked and counted in separate steps can be exceeded: by
    one less than the number of threads that can be between check and count at once. */
module RelayBounds {
  import opened Text
  import opened RelaySpec
  import opened RelayCaps
  import opened Tally
  import opened RelayLocks
  import opened RelaySafety
  import opened RelayShared

  type Weight = Pc -> int

  // ----- rooms -----

  function Up(): Weight { (pc: Pc) => if pc.CountUp? then 1 else 0 }           // inserted, not yet counted
  function Down(): Weight { (pc: Pc) => if pc.CountDown? then 1 else 0 }       // deleted, not yet counted

  /** Let through by the cap, not yet counted. */
  function Past(): Weight { (pc: Pc) => if pc.CheckIp? || pc.Insert? || pc.CountUp? then 1 else 0 }

  ghost predicate ShardUsed(c: Limits, sh: nat) {
    exists r: Named :: ShardOf(c, r) == sh
  }

  /** The shards that rooms hash to. */
  ghost function UsedShards(c: Limits): set<nat> {
    set sh | sh in Below(c.shards) && ShardUsed(c, sh)
  }

  /** How many workers can create rooms at once: each holds another shard. */
  ghost function Parallel(c: Limits): (k: nat)
    ensures k <= c.workers && k <= |UsedShards(c)| && (k == c.workers || k == |UsedShards(c)|)
  {
    if c.workers <= |UsedShards(c)| then c.workers else |UsedShards(c)|
  }

  /** The most rooms there can be. */
  ghost function MostRooms(c: Limits): int {
    c.maxRooms + Parallel(c) - 1
  }

  ghost predicate CountOk(c: Limits, s: Sys) {
    && |s.table| + Total(Down(), s.pcs) == s.count + Total(Up(), s.pcs)
    && s.count + Total(Past(), s.pcs) <= MostRooms(c)
  }

  lemma CountBounds(c: Limits, s: Sys)
    requires CountOk(c, s)
    ensures s.count <= MostRooms(c) && |s.table| <= MostRooms(c)
  {
    TotalNonNegative(Up(), s.pcs);
    TotalNonNegative(Down(), s.pcs);
    TotalAtMost(Up(), Past(), s.pcs);
  }

  lemma PastHolds(c: Limits, s: Sys, t: Tid)
    requires Inv(c, s) && t < |s.pcs| && Past()(s.pcs[t]) == 1
    ensures t < c.workers && HeldShard(c, s.pcs[t]).Some? && HeldShard(c, s.pcs[t]).value in UsedShards(c)
    ensures HoldsForWriting(s.pcs[t])
  {
    assert PcOk(c, s, t, s.pcs[t]);
    assert ShardUsed(c, ShardOf(c, s.pcs[t].op.room));
  }

  function ShardAt(c: Limits, pcs: seq<Pc>): nat -> nat {
    (t: nat) => if t < |pcs| && HeldShard(c, pcs[t]).Some? then HeldShard(c, pcs[t]).value else 0
  }

  lemma PastShards(c: Limits, s: Sys)
    requires Inv(c, s)
    ensures Total(Past(), s.pcs) <= |UsedShards(c)|
  {
    var past, f := Counted(Past(), s.pcs), ShardAt(c, s.pcs);
    TotalCounted(Past(), s.pcs);
    forall t | t in past ensures f(t) in UsedShards(c) {
      PastHolds(c, s, t);
    }
    forall t, u | t in past && u in past && t != u ensures f(t) != f(u) {
      PastHolds(c, s, t);
      PastHolds(c, s, u);
      ShardsApart(c, s, t, u);
    }
    Injected(past, UsedShards(c), f);
  }

  lemma PastAtMost(c: Limits, s: Sys)
    requires Inv(c, s)
    ensures Total(Past(), s.pcs) <= Parallel(c)
  {
    PastShards(c, s);
    forall t | 0 <= t < |s.pcs| && Past()(s.pcs[t]) == 1 ensures t < c.workers {
      PastHolds(c, s, t);
    }
    CountedBelow(Past(), s.pcs, c.workers);
  }

  lemma OneMore(table: map<Room, Id>, r: Room, e: Id)
    requires r !in table
    ensures |table[r := e]| == |table| + 1
  {
    assert table[r := e].Keys == table.Keys + {r};
  }

  lemma OneLess(table: map<Room, Id>, r: Room)
    requires r in table
    ensures |table - {r}| == |table| - 1
  {
    assert (table - {r}).Keys == table.Keys - {r};
  }

  lemma TableSize(c: Limits, s: Sys, t: Tid)
    requires CanMove(c, s, t)
    ensures |NextTable(c, s, s.pcs[t])| == |s.table|
      + (if s.pcs[t].Insert? then 1 else 0) - (if s.pcs[t].Delete? then 1 else 0)
  {
    var pc := s.pcs[t];
    assert PcOk(c, s, t, pc);
    if pc.Insert? { OneMore(s.table, pc.op.room, |s.entries|); }
    else if pc.Delete? { OneLess(s.table, pc.room); }
  }

  lemma MoveUpDown(c: Limits, s: Sys, t: Tid, ch: Choice)
    requires CanMove(c, s, t)
    ensures var s', pc := Move(c, s, t, ch), s.pcs[t];
      && Total(Up(), s'.pcs) == Total(Up(), s.pcs) + (if pc.Insert? then 1 else if pc.CountUp? then -1 else 0)
      && Total(Down(), s'.pcs) == Total(Down(), s.pcs) + (if pc.Delete? then 1 else if pc.CountDown? then -1 else 0)
  {
    var pc, pc' := s.pcs[t], NextPc(c, s, t, s.pcs[t], ch);
    TotalUpdate(Up(), s.pcs, t, pc');
    TotalUpdate(Down(), s.pcs, t, pc');
    assert pc'.CountUp? <==> pc.Insert?;
    assert pc'.CountDown? <==> pc.Delete?;
  }

  /** The sum of counter and threads past the check grows only at a check that found space. */
  lemma MovePast(c: Limits, s: Sys, t: Tid, ch: Choice)
    requires CanMove(c, s, t)
    ensures var s' := Move(c, s, t, ch);
      || s'.count + Total(Past(), s'.pcs) <= s.count + Total(Past(), s.pcs)
      || s'.count == s.count < c.maxRooms
  {
    TotalUpdate(Past(), s.pcs, t, NextPc(c, s, t, s.pcs[t], ch));
  }

  lemma MoveCount(c: Limits, s: Sys, t: Tid, ch: Choice)
    requires CanMove(c, s, t) && CountOk(c, s)
    ensures CountOk(c, Move(c, s, t, ch))
  {
    TableSize(c, s, t);
    MoveUpDown(c, s, t, ch);
    MovePast(c, s, t, ch);
    MoveInv(c, s, t, ch);
    PastAtMost(c, Move(c, s, t, ch));
  }

  // ----- rooms per key -----

  /** Found space for the key and has not listed the room yet. */
  predicate PastKey(c: Limits, ip: Ip, pc: Pc) {
    match pc
    case Insert(op) => op.Complete? && c.ipKey(op.addr) == ip
    case CountUp(op) => op.Complete? && c.ipKey(op.addr) == ip
    case AddIndex(op) => op.Complete? && c.ipKey(op.addr) == ip
    case Own(op, _, at) => Packet(op) && c.ipKey(op.addr) == ip && (at == Spend(false) || at == AddClient(false))
    case _ => false
  }

  function PastIp(c: Limits, ip: Ip): Weight {
    (pc: Pc) => if PastKey(c, ip, pc) then 1 else 0
  }

  ghost predicate KeyOk(c: Limits, s: Sys, ip: Ip) {
    |KeyPairs(s.index, ip)| + Total(PastIp(c, ip), s.pcs) <= c.maxRoomsPerIP + c.workers - 1
  }

  lemma PairsShrink(index: set<Pair>, index': set<Pair>, ip: Ip)
    requires index' <= index
    ensures |KeyPairs(index', ip)| <= |KeyPairs(index, ip)|
  {
    SubsetSize(KeyPairs(index', ip), KeyPairs(index, ip));
  }

  lemma PairsGrow(index: set<Pair>, p: Pair, ip: Ip)
    ensures |KeyPairs(index + {p}, ip)| <= |KeyPairs(index, ip)| + if p.ip == ip then 1 else 0
  {
    if p.ip == ip {
      assert KeyPairs(index + {p}, ip) == KeyPairs(index, ip) + {p};
    } else {
      assert KeyPairs(index + {p}, ip) == KeyPairs(index, ip);
    }
  }

  function Key01(c: Limits, ip: Ip, pc: Pc): int {
    if PastKey(c, ip, pc) then 1 else 0
  }

  /** The owner of an entry: listed rooms and its own share of the threads past the check. */
  lemma InsideKey(c: Limits, s: Sys, op: Op, e: Id, at: Inside, ch: Choice, ip: Ip)
    requires Packet(op) && e < |s.entries|
    ensures var x := s.entries[e];
      var pc := Own(op, e, at);
      var pc' := if at.Unlock? then Idle else Own(op, e, NextInside(c, s, op, x, at, ch));
      var index' := InsideIndex(c, s.index, op, x, at, ch);
      || |KeyPairs(index', ip)| + Key01(c, ip, pc') <= |KeyPairs(s.index, ip)| + Key01(c, ip, pc)
      || (index' == s.index && |KeyPairs(s.index, ip)| < c.maxRoomsPerIP)
  {
    match at
    case Sweeping => PairsShrink(s.index, SweptIndex(c, s.index, op.room, s.entries[e], ch.drop), ip);
    case AddClient(known) => PairsGrow(s.index, Pair(c.ipKey(op.addr), op.room), ip);
    case _ =>
  }

  /** A step changes the listed rooms of a key by no more than its own share, unless it is a check that found space. */
  ghost predicate KeyStep(c: Limits, s: Sys, s': Sys, pc: Pc, pc': Pc, ip: Ip) {
    || |KeyPairs(s'.index, ip)| + Key01(c, ip, pc') <= |KeyPairs(s.index, ip)| + Key01(c, ip, pc)
    || (s'.index == s.index && |KeyPairs(s.index, ip)| < c.maxRoomsPerIP)
  }

  predicate Lists(pc: Pc) {
    pc.Own? || pc.HaveStale? || pc.AddIndex?
  }

  lemma ListerKey(c: Limits, s: Sys, t: Tid, ch: Choice, ip: Ip)
    requires CanMove(c, s, t) && Lists(s.pcs[t])
    ensures KeyStep(c, s, Move(c, s, t, ch), s.pcs[t], NextPc(c, s, t, s.pcs[t], ch), ip)
  {
    match s.pcs[t]
    case Own(op, e, at) => InsideKey(c, s, op, e, at, ch, ip);
    case HaveStale(_, r, e) => PairsShrink(s.index, SweptIndex(c, s.index, r, s.entries[e], ch.drop), ip);
    case AddIndex(op) => PairsGrow(s.index, Pair(c.ipKey(op.addr), op.room), ip);
  }

  lemma OtherKey(c: Limits, s: Sys, t: Tid, ch: Choice, ip: Ip)
    requires CanMove(c, s, t) && !Lists(s.pcs[t])
    ensures KeyStep(c, s, Move(c, s, t, ch), s.pcs[t], NextPc(c, s, t, s.pcs[t], ch), ip)
  {
  }

  lemma KeyAtMost(c: Limits, s: Sys, ip: Ip)
    requires Inv(c, s)
    ensures Total(PastIp(c, ip), s.pcs) <= c.workers
  {
    forall t | 0 <= t < |s.pcs| && PastIp(c, ip)(s.pcs[t]) == 1 ensures t < c.workers {
      assert PcOk(c, s, t, s.pcs[t]);
    }
    CountedBelow(PastIp(c, ip), s.pcs, c.workers);
  }

  lemma MoveKey(c: Limits, s: Sys, t: Tid, ch: Choice, ip: Ip)
    requires CanMove(c, s, t) && KeyOk(c, s, ip)
    ensures KeyOk(c, Move(c, s, t, ch), ip)
  {
    TotalUpdate(PastIp(c, ip), s.pcs, t, NextPc(c, s, t, s.pcs[t], ch));
    if Lists(s.pcs[t]) { ListerKey(c, s, t, ch, ip); } else { OtherKey(c, s, t, ch, ip); }
    MoveInv(c, s, t, ch);
    KeyAtMost(c, Move(c, s, t, ch), ip);
  }

  // ----- in-room challenges -----

  /** Found space for a challenge and has not counted it yet. */
  function PastPend(): Weight { (pc: Pc) => if pc.Own? && pc.at.AddPend? then 1 else 0 }

  /** How many workers can be at it at once: each owns the entry of another room. */
  ghost function Owners(c: Limits): int {
    if c.workers <= MostRooms(c) then c.workers else MostRooms(c)
  }

  ghost predicate PendOk(c: Limits, s: Sys) {
    s.total >= 0 && s.total + Total(PastPend(), s.pcs) <= c.maxInRoomPending + Owners(c) - 1
  }

  lemma ContentSize(op: Op, x: Content, at: Inside, ch: Choice)
    requires Packet(op)
    ensures |NextContent(op, x, at, ch).chal| <= |x.chal| + if at.AddPend? then 1 else 0
  {
    SizeMinus(x.chal, op.addr);
    SizePlus(x.chal, op.addr);
    if at.Sweeping? && ch.drop.DropChallenge? { SizeMinus(x.chal, ch.drop.addr); }
  }

  lemma InsidePend(c: Limits, s: Sys, op: Op, e: Id, at: Inside, ch: Choice)
    requires Packet(op) && e < |s.entries| && s.total >= 0 && InsideOk(c, op, s.entries[e], at)
    ensures var x := s.entries[e];
      var pc' := if at.Unlock? then Idle else Own(op, e, NextInside(c, s, op, x, at, ch));
      var total' := Adjusted(s.total, |NextContent(op, x, at, ch).chal| - |x.chal|);
      && total' >= 0
      && (|| total' + PastPend()(pc') <= s.total + PastPend()(Own(op, e, at))
          || (total' == s.total < c.maxInRoomPending))
  {
    ContentSize(op, s.entries[e], at, ch);
  }

  lemma MoverPend(c: Limits, s: Sys, t: Tid, ch: Choice)
    requires CanMove(c, s, t) && s.total >= 0
    ensures var pc, pc', s' := s.pcs[t], NextPc(c, s, t, s.pcs[t], ch), Move(c, s, t, ch);
      && s'.total >= 0
      && (|| s'.total + PastPend()(pc') <= s.total + PastPend()(pc) || (s'.total == s.total < c.maxInRoomPending))
  {
    assert PcOk(c, s, t, s.pcs[t]);
    match s.pcs[t]
    case Own(op, e, at) => InsidePend(c, s, op, e, at, ch);
    case HaveStale(_, _, e) => StalePend(s, s.pcs[t], ch);
    case _ =>
  }

  lemma StalePend(s: Sys, pc: Pc, ch: Choice)
    requires pc.HaveStale? && pc.e < |s.entries|
    ensures |LeftContent(s, pc, ch).chal| <= |s.entries[pc.e].chal|
  {
    if ch.drop.DropChallenge? { SizeMinus(s.entries[pc.e].chal, ch.drop.addr); }
  }

  lemma PendOwns(c: Limits, s: Sys, t: Tid)
    requires Inv(c, s) && t < |s.pcs| && PastPend()(s.pcs[t]) == 1
    ensures t < c.workers && HeldEntry(s.pcs[t]).Some? && HeldEntry(s.pcs[t]).value in s.table.Values
  {
    assert PcOk(c, s, t, s.pcs[t]);
    assert s.pcs[t].op.room in s.table.Keys;
  }

  function EntryAt(pcs: seq<Pc>): nat -> nat {
    (t: nat) => if t < |pcs| && HeldEntry(pcs[t]).Some? then HeldEntry(pcs[t]).value else 0
  }

  lemma {:induction false} ValuesSize(table: map<Room, Id>)
    ensures |table.Values| <= |table|
    decreases |table|
  {
    if table == map[] {
      assert table.Values == {};
    } else {
      var r :| r in table;
      var rest := table - {r};
      assert rest.Keys == table.Keys - {r};
      ValuesSize(rest);
      ValuesMinus(table, r);
      SubsetSize(table.Values, rest.Values + {table[r]});
    }
  }

  lemma ValuesMinus(table: map<Room, Id>, r: Room)
    requires r in table
    ensures table.Values <= (table - {r}).Values + {table[r]}
  {
    forall e | e in table.Values ensures e in (table - {r}).Values + {table[r]} {
      var q :| q in table && table[q] == e;
      assert q != r ==> q in table - {r} && (table - {r})[q] == e;
    }
  }

  lemma PendEntries(c: Limits, s: Sys)
    requires Inv(c, s)
    ensures Total(PastPend(), s.pcs) <= |s.table|
  {
    var past, f := Counted(PastPend(), s.pcs), EntryAt(s.pcs);
    TotalCounted(PastPend(), s.pcs);
    forall t | t in past ensures f(t) in s.table.Values {
      PendOwns(c, s, t);
    }
    forall t, u | t in past && u in past && t != u ensures f(t) != f(u) {
      PendOwns(c, s, t);
      PendOwns(c, s, u);
      OwnersApart(c, s, t, u);
    }
    Injected(past, s.table.Values, f);
    ValuesSize(s.table);
  }

  lemma PendAtMost(c: Limits, s: Sys)
    requires Inv(c, s) && CountOk(c, s)
    ensures Total(PastPend(), s.pcs) <= Owners(c)
  {
    forall t | 0 <= t < |s.pcs| && PastPend()(s.pcs[t]) == 1 ensures t < c.workers {
      PendOwns(c, s, t);
    }
    CountedBelow(PastPend(), s.pcs, c.workers);
    PendEntries(c, s);
    CountBounds(c, s);
  }

  lemma MovePend(c: Limits, s: Sys, t: Tid, ch: Choice)
    requires CanMove(c, s, t) && PendOk(c, s) && CountOk(c, s)
    ensures PendOk(c, Move(c, s, t, ch))
  {
    TotalUpdate(PastPend(), s.pcs, t, NextPc(c, s, t, s.pcs[t], ch));
    MoverPend(c, s, t, ch);
    MoveInv(c, s, t, ch);
    MoveCount(c, s, t, ch);
    PendAtMost(c, Move(c, s, t, ch));
  }

  // ----- runs -----

  ghost predicate Bounded(c: Limits, s: Sys) {
    CountOk(c, s) && PendOk(c, s) && forall ip :: KeyOk(c, s, ip)
  }

  lemma SomeShard(c: Limits)
    ensures Parallel(c) >= 1
  {
    var r: Named := Room("x");
    var sh := ShardOf(c, r);
    assert ShardUsed(c, sh);
    SubsetSize({sh}, UsedShards(c));
  }

  lemma InitTotal(c: Limits, w: Weight)
    requires w(Idle) == 0
    ensures Total(w, Init(c).pcs) == 0
  {
    TotalSame(w, c.workers + 2, Idle);
  }

  lemma InitCount(c: Limits)
    ensures CountOk(c, Init(c))
  {
    SomeShard(c);
    InitTotal(c, Up());
    InitTotal(c, Down());
    InitTotal(c, Past());
  }

  lemma InitPend(c: Limits)
    ensures PendOk(c, Init(c))
  {
    SomeShard(c);
    InitTotal(c, PastPend());
  }

  lemma InitKey(c: Limits, ip: Ip)
    ensures KeyOk(c, Init(c), ip)
  {
    InitTotal(c, PastIp(c, ip));
    assert KeyPairs({}, ip) == {};
  }

  lemma InitBounded(c: Limits)
    ensures Bounded(c, Init(c))
  {
    InitCount(c);
    InitPend(c);
    forall ip ensures KeyOk(c, Init(c), ip) {
      InitKey(c, ip);
    }
  }

  lemma StepBounded(c: Limits, s: Sys, t: Tid, ch: Choice)
    requires CanMove(c, s, t) && Bounded(c, s)
    ensures Bounded(c, Move(c, s, t, ch))
  {
    MoveCount(c, s, t, ch);
    MovePend(c, s, t, ch);
    forall ip ensures KeyOk(c, Move(c, s, t, ch), ip) {
      MoveKey(c, s, t, ch, ip);
    }
  }

  lemma {:induction false} ExecBounded(c: Limits, turns: seq<Turn>)
    ensures Bounded(c, Exec(c, turns))
  {
    if turns == [] {
      InitBounded(c);
    } else {
      var n := |turns| - 1;
      ExecBounded(c, turns[..n]);
      ExecInv(c, turns[..n]);
      var s := Exec(c, turns[..n]);
      if CanTurn(c, s, turns[n]) { StepBounded(c, s, turns[n].t, turns[n].ch); }
    }
  }

  ghost predicate AllIdle(s: Sys) {
    forall t | 0 <= t < |s.pcs| :: s.pcs[t].Idle?
  }

  /** With the cap check and the increment in separate steps, counter and table exceed
      maxRooms by at most one less than the number of workers that can create rooms at
      once, and they agree when nobody is at work. */
  lemma RoomsBounded(c: Limits, turns: seq<Turn>)
    ensures var s := Exec(c, turns);
      && s.count <= c.maxRooms + Parallel(c) - 1
      && |s.table| <= c.maxRooms + Parallel(c) - 1
      && (AllIdle(s) ==> s.count == |s.table|)
  {
    ExecBounded(c, turns);
    var s := Exec(c, turns);
    CountBounds(c, s);
    if AllIdle(s) {
      assert s.pcs == seq(|s.pcs|, _ => Idle);
      TotalSame(Up(), |s.pcs|, Idle);
      TotalSame(Down(), |s.pcs|, Idle);
    }
  }

  function Min(a: int, b: int): int {
    if a <= b then a else b
  }

  /** The most rooms a key can be listed in ... */
  ghost function MostKeyRooms(c: Limits): int {
    Min(c.maxRoomsPerIP + c.workers - 1, MostRooms(c))
  }

  /** ... and the most challenges the rooms can hold. */
  ghost function MostChallenges(c: Limits): int {
    Min(c.maxInRoomPending + Owners(c) - 1, MostRooms(c) * c.maxPendingPerRoom)
  }

  /** A key is not listed in more rooms than there are. */
  lemma ListedRooms(c: Limits, turns: seq<Turn>, ip: Ip)
    ensures |KeyPairs(Exec(c, turns).index, ip)| <= |Exec(c, turns).table|
  {
    var s := Exec(c, turns);
    var pairs := KeyPairs(s.index, ip);
    forall p | p in pairs ensures p.room in s.table { IndexExact(c, turns, p.room, ip); }
    PairRooms(pairs, ip);
    SubsetSize(set p | p in pairs :: p.room, s.table.Keys);
  }

  lemma {:induction false} PairRooms(pairs: set<Pair>, ip: Ip)
    requires forall p | p in pairs :: p.ip == ip
    ensures |set p | p in pairs :: p.room| == |pairs|
    decreases |pairs|
  {
    if pairs == {} {
    } else {
      var q :| q in pairs;
      PairRooms(pairs - {q}, ip);
      assert (set p | p in pairs :: p.room) == (set p | p in pairs - {q} :: p.room) + {q.room};
      assert q.room !in set p | p in pairs - {q} :: p.room;
    }
  }

  /** The entries that hold challenges. */
  function Holders(entries: seq<Content>): set<nat> {
    set e | 0 <= e < |entries| && entries[e].chal != {}
  }

  lemma {:induction false} HoldersSum(c: Limits, entries: seq<Content>)
    requires forall e | 0 <= e < |entries| :: |entries[e].chal| <= c.maxPendingPerRoom
    ensures ChalSum(entries) <= |Holders(entries)| * c.maxPendingPerRoom
  {
    if entries == [] {
    } else {
      var n := |entries| - 1;
      HoldersSum(c, entries[..n]);
      if entries[n].chal == {} {
        assert Holders(entries) == Holders(entries[..n]);
      } else {
        assert Holders(entries) == Holders(entries[..n]) + {n};
        OneMoreTimes(|Holders(entries[..n])|, c.maxPendingPerRoom);
      }
    }
  }

  lemma OneMoreTimes(n: nat, p: nat)
    ensures (n + 1) * p == n * p + p
  {
  }

  lemma HolderMapped(s: Sys, e: Id)
    requires TableOk(s) && e in Holders(s.entries)
    ensures e in s.table.Values
  {
    assert s.entries[e].chal != NOTHING.chal;
    var r :| Mapped(s, r, e);
    assert r in s.table.Keys;
  }

  /** Only mapped entries hold challenges. */
  lemma HoldersMapped(c: Limits, turns: seq<Turn>)
    ensures var s := Exec(c, turns); |Holders(s.entries)| <= |s.table|
  {
    var s := Exec(c, turns);
    ExecInv(c, turns);
    forall e | e in Holders(s.entries) ensures e in s.table.Values { HolderMapped(s, e); }
    SubsetSize(Holders(s.entries), s.table.Values);
    ValuesSize(s.table);
  }

  lemma Scaled(a: int, b: int, p: pos)
    requires a <= b
    ensures a * p <= b * p
  {
  }

  /** Under every interleaving a key is listed in at most as many rooms, and the rooms hold at
      most as many challenges, as said above; so either cap is exceeded by less than the
      number of workers. */
  lemma KeysAndChallengesBounded(c: Limits, turns: seq<Turn>, ip: Ip)
    ensures var s := Exec(c, turns);
      && |KeyPairs(s.index, ip)| <= MostKeyRooms(c) <= c.maxRoomsPerIP + c.workers - 1
      && ChalSum(s.entries) <= MostChallenges(c) <= c.maxInRoomPending + c.workers - 1
  {
    ExecBounded(c, turns);
    ChallengesExact(c, turns);
    var s := Exec(c, turns);
    assert KeyOk(c, s, ip);
    TotalNonNegative(PastIp(c, ip), s.pcs);
    TotalNonNegative(PastPend(), s.pcs);
    CountBounds(c, s);
    ListedRooms(c, turns, ip);
    HoldersSum(c, s.entries);
    HoldersMapped(c, turns);
    Scaled(|Holders(s.entries)|, MostRooms(c), c.maxPendingPerRoom);
  }
}
