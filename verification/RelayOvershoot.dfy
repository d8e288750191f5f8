/** The bound on the room counter is exact: some interleaving reaches it.  So the counter
    stays within its cap on every interleaving if and only if there is one worker or one
    shard in use. */
module RelayOvershoot {
  import opened Text
  import opened RelaySpec
  import opened RelayCaps
  import opened RelayLocks
  import opened RelaySafety
  import opened RelayBounds

  /** The i-th registration of the run. */
  type Plan = nat -> Op

  ghost predicate Creations(plan: Plan) {
    forall i: nat :: plan(i).Complete?
  }

  function RoomAt(plan: Plan, i: nat): Room
    requires plan(i).Complete?
  {
    plan(i).room
  }

  function KeyAt(c: Limits, plan: Plan, i: nat): Ip
    requires plan(i).Complete?
  {
    c.ipKey(plan(i).addr)
  }

  /** The shard of the i-th room after the table is all but full. */
  function Slot(c: Limits, plan: Plan, i: nat): nat {
    OpShard(c, plan(c.maxRooms - 1 + i))
  }

  /** Different rooms and keys throughout, and different shards for the k last rooms. */
  ghost predicate Spread(c: Limits, plan: Plan, k: nat) {
    && Creations(plan)
    && (forall i: nat, j: nat | i < j < c.maxRooms - 1 + k :: RoomAt(plan, i) != RoomAt(plan, j))
    && (forall i: nat, j: nat | i < j < c.maxRooms - 1 + k :: KeyAt(c, plan, i) != KeyAt(c, plan, j))
    && (forall i: nat, j: nat | i < j < k :: Slot(c, plan, i) != Slot(c, plan, j))
  }

  function Yes(op: Op): Choice
    requires Packet(op)
  {
    Choice(op, op.room, Keep, true)
  }

  /** One turn of worker w. */
  lemma Do(c: Limits, turns: seq<Turn>, w: Tid, op: Op) returns (turns': seq<Turn>)
    requires Packet(op) && CanTurn(c, Exec(c, turns), Turn(w, Yes(op)))
    ensures Exec(c, turns') == Move(c, Exec(c, turns), w, Yes(op))
  {
    turns' := turns + [Turn(w, Yes(op))];
    ExecMove(c, turns, w, Yes(op));
  }

  function Locked(c: Limits, s: Sys, w: Tid, op: Op, pc: Pc): Sys
    requires w < |s.pcs|
  {
    s.(writer := s.writer[OpShard(c, op) := w], pcs := s.pcs[w := pc])
  }

  ghost predicate CanPark(c: Limits, s: Sys, w: Tid, op: Op) {
    && w < c.workers && |s.pcs| == c.workers + 2 && s.pcs[w] == Idle && op.Complete?
    && op.room !in s.table && s.count < c.maxRooms && CanWrite(s, OpShard(c, op))
    && KeyPairs(s.index, c.ipKey(op.addr)) == {}
  }

  lemma TakeShard(c: Limits, turns: seq<Turn>, w: Tid, op: Op) returns (turns': seq<Turn>)
    requires CanPark(c, Exec(c, turns), w, op)
    ensures Exec(c, turns') == Locked(c, Exec(c, turns), w, op, HaveShard(op))
  {
    turns' := Do(c, turns, w, op);
    turns' := Do(c, turns', w, op);
  }

  ghost predicate AtShard(c: Limits, s: Sys, w: Tid, op: Op) {
    && w < |s.pcs| && s.pcs[w] == HaveShard(op) && op.Complete? && op.room !in s.table && s.count < c.maxRooms
    && KeyPairs(s.index, c.ipKey(op.addr)) == {}
  }

  lemma PassRoom(c: Limits, turns: seq<Turn>, w: Tid, op: Op) returns (turns': seq<Turn>)
    requires AtShard(c, Exec(c, turns), w, op)
    ensures var s := Exec(c, turns); Exec(c, turns') == s.(pcs := s.pcs[w := CheckCap(op)])
  {
    turns' := Do(c, turns, w, op);
  }

  lemma PassCaps(c: Limits, turns: seq<Turn>, w: Tid, op: Op) returns (turns': seq<Turn>)
    requires var s := Exec(c, turns); w < |s.pcs| && s.pcs[w] == CheckCap(op) && op.Complete? && s.count < c.maxRooms
    requires KeyPairs(Exec(c, turns).index, c.ipKey(op.addr)) == {}
    ensures var s := Exec(c, turns); Exec(c, turns') == s.(pcs := s.pcs[w := Insert(op)])
  {
    turns' := Do(c, turns, w, op);
    turns' := Do(c, turns', w, op);
  }

  lemma PassChecks(c: Limits, turns: seq<Turn>, w: Tid, op: Op) returns (turns': seq<Turn>)
    requires AtShard(c, Exec(c, turns), w, op)
    ensures var s := Exec(c, turns); Exec(c, turns') == s.(pcs := s.pcs[w := Insert(op)])
  {
    turns' := PassRoom(c, turns, w, op);
    turns' := PassCaps(c, turns', w, op);
  }

  /** An idle worker takes its shard and passes both checks. */
  lemma Park(c: Limits, turns: seq<Turn>, w: Tid, op: Op) returns (turns': seq<Turn>)
    requires CanPark(c, Exec(c, turns), w, op)
    ensures Exec(c, turns') == Locked(c, Exec(c, turns), w, op, Insert(op))
  {
    turns' := TakeShard(c, turns, w, op);
    turns' := PassChecks(c, turns', w, op);
  }

  function Inserted(s: Sys, op: Op): Sys
    requires op.Complete?
  {
    s.(table := s.table[op.room := |s.entries|], entries := s.entries + [Content({op.addr}, {})], count := s.count + 1)
  }

  /** A worker past the checks inserts and counts its room. */
  lemma Count(c: Limits, turns: seq<Turn>, w: Tid, op: Op) returns (turns': seq<Turn>)
    requires var s := Exec(c, turns); w < |s.pcs| && s.pcs[w] == Insert(op) && op.Complete?
    ensures var s := Exec(c, turns); Exec(c, turns') == Inserted(s, op).(pcs := s.pcs[w := AddIndex(op)])
  {
    turns' := Do(c, turns, w, op);
    turns' := Do(c, turns', w, op);
  }

  /** The room is created, counted and listed. */
  function Created(c: Limits, s: Sys, op: Op): Sys
    requires op.Complete?
  {
    Inserted(s, op).(index := s.index + {Pair(c.ipKey(op.addr), op.room)})
  }

  lemma ListAndLeave(c: Limits, turns: seq<Turn>, w: Tid, op: Op) returns (turns': seq<Turn>)
    requires var s := Exec(c, turns); w < |s.pcs| && s.pcs[w] == AddIndex(op) && op.Complete?
    ensures var s := Exec(c, turns);
      Exec(c, turns') == s.(index := s.index + {Pair(c.ipKey(op.addr), op.room)}, writer := s.writer - {OpShard(c, op)},
                            pcs := s.pcs[w := Idle])
  {
    turns' := Do(c, turns, w, op);
    turns' := Do(c, turns', w, op);
  }

  /** The worker is idle again and its lock is gone. */
  lemma Left(s: Sys, sh: nat, a: Pc, b: Pc)
    requires s.pcs != [] && s.pcs[0] == Idle && s.writer == map[]
    ensures s.pcs[0 := a][0 := b][0 := Idle] == s.pcs && s.writer[sh := 0] - {sh} == s.writer
  {
  }

  lemma CreateAlone(c: Limits, turns: seq<Turn>, op: Op) returns (turns': seq<Turn>)
    requires CanPark(c, Exec(c, turns), 0, op) && Exec(c, turns).writer == map[]
    ensures Exec(c, turns') == Created(c, Exec(c, turns), op)
  {
    Left(Exec(c, turns), OpShard(c, op), Insert(op), AddIndex(op));
    turns' := Park(c, turns, 0, op);
    turns' := Count(c, turns', 0, op);
    turns' := ListAndLeave(c, turns', 0, op);
  }

  /** The table has just the first k rooms of the plan, each with its first client. */
  ghost predicate Built(s: Sys, plan: Plan, k: nat)
    requires Creations(plan)
  {
    && |s.entries| == k
    && (forall i: nat | i < k :: RoomBuilt(s, plan, i))
    && (forall r | r in s.table :: exists i: nat :: i < k && r == RoomAt(plan, i))
  }

  predicate RoomBuilt(s: Sys, plan: Plan, i: nat)
    requires plan(i).Complete?
  {
    Mapped(s, RoomAt(plan, i), i) && i < |s.entries| && s.entries[i] == Content({plan(i).addr}, {})
  }

  /** And the index knows only their keys. */
  ghost predicate Knows(c: Limits, s: Sys, plan: Plan, k: nat)
    requires Creations(plan)
  {
    Built(s, plan, k) && forall p | p in s.index :: exists i: nat :: i < k && p.ip == KeyAt(c, plan, i)
  }

  lemma Unknown(c: Limits, s: Sys, plan: Plan, k: nat, m: nat, j: nat)
    requires Spread(c, plan, m) && Knows(c, s, plan, k) && k <= j < c.maxRooms - 1 + m
    ensures RoomAt(plan, j) !in s.table && KeyPairs(s.index, KeyAt(c, plan, j)) == {}
  {
    forall p | p in s.index ensures p.ip != KeyAt(c, plan, j) {
      var i: nat :| i < k && p.ip == KeyAt(c, plan, i);
    }
  }

  /** k rooms in the table, nobody at work. */
  ghost predicate Filled(c: Limits, s: Sys, plan: Plan, k: nat)
    requires Creations(plan)
  {
    && |s.pcs| == c.workers + 2 && s.writer == map[] && s.readers == {} && s.count == k
    && (forall t | 0 <= t < |s.pcs| :: s.pcs[t] == Idle) && Knows(c, s, plan, k)
  }

  lemma FillOne(c: Limits, turns: seq<Turn>, plan: Plan, k: nat, m: nat) returns (turns': seq<Turn>)
    requires Spread(c, plan, m) && m >= 1 && k < c.maxRooms - 1 && Filled(c, Exec(c, turns), plan, k)
    ensures Filled(c, Exec(c, turns'), plan, k + 1)
  {
    Unknown(c, Exec(c, turns), plan, k, m, k);
    turns' := CreateAlone(c, turns, plan(k));
    CreatedKnows(c, Exec(c, turns), plan, k, m);
  }

  lemma InsertedBuilt(c: Limits, s: Sys, plan: Plan, k: nat, m: nat)
    requires Spread(c, plan, m) && k < c.maxRooms - 1 + m && Built(s, plan, k)
    ensures Built(Inserted(s, plan(k)), plan, k + 1)
  {
    var s' := Inserted(s, plan(k));
    forall i: nat | i < k + 1 ensures RoomBuilt(s', plan, i) {
      if i < k { assert RoomBuilt(s, plan, i) && RoomAt(plan, i) != RoomAt(plan, k); }
    }
    forall r | r in s'.table ensures exists i: nat :: i < k + 1 && r == RoomAt(plan, i) {
      if r in s.table {
        var i: nat :| i < k && r == RoomAt(plan, i);
      } else {
        assert r == RoomAt(plan, k);
      }
    }
  }

  lemma CreatedKnows(c: Limits, s: Sys, plan: Plan, k: nat, m: nat)
    requires Spread(c, plan, m) && k < c.maxRooms - 1 + m && Knows(c, s, plan, k)
    ensures Knows(c, Created(c, s, plan(k)), plan, k + 1)
  {
    var s' := Created(c, s, plan(k));
    InsertedBuilt(c, s, plan, k, m);
    SameBuilt(Inserted(s, plan(k)), s', plan, k + 1);
    forall p | p in s'.index ensures exists i: nat :: i < k + 1 && p.ip == KeyAt(c, plan, i) {
      if p in s.index {
        var i: nat :| i < k && p.ip == KeyAt(c, plan, i);
      } else {
        assert p.ip == KeyAt(c, plan, k);
      }
    }
  }

  lemma SameBuilt(s: Sys, s': Sys, plan: Plan, k: nat)
    requires Creations(plan) && Built(s, plan, k) && s'.table == s.table && s'.entries == s.entries
    ensures Built(s', plan, k)
  {
    forall i: nat | i < k ensures RoomBuilt(s', plan, i) { assert RoomBuilt(s, plan, i); }
  }

  lemma {:induction false} Fill(c: Limits, plan: Plan, k: nat, m: nat) returns (turns: seq<Turn>)
    requires Spread(c, plan, m) && m >= 1 && k < c.maxRooms
    ensures Filled(c, Exec(c, turns), plan, k)
  {
    if k == 0 {
      turns := [];
    } else {
      turns := Fill(c, plan, k - 1, m);
      turns := FillOne(c, turns, plan, k - 1, m);
    }
  }

  function Last(c: Limits, plan: Plan, i: nat): Op {
    plan(c.maxRooms - 1 + i)
  }

  /** k workers past the checks, the others idle. */
  ghost predicate Parked(c: Limits, s: Sys, plan: Plan, k: nat)
    requires Creations(plan)
  {
    && |s.pcs| == c.workers + 2 && s.count == c.maxRooms - 1 && s.readers == {}
    && (forall t | 0 <= t < |s.pcs| :: s.pcs[t] == if t < k then Insert(Last(c, plan, t)) else Idle)
    && (forall sh | sh in s.writer :: exists i: nat :: i < k && sh == Slot(c, plan, i))
    && Knows(c, s, plan, c.maxRooms - 1)
  }

  /** The next worker's room, key and shard are free ... */
  lemma NextFree(c: Limits, s: Sys, plan: Plan, k: nat, m: nat)
    requires Spread(c, plan, m) && k < m <= c.workers && Parked(c, s, plan, k)
    ensures CanPark(c, s, k, Last(c, plan, k))
  {
    NextIdle(c, s, plan, k);
    Unknown(c, s, plan, c.maxRooms - 1, m, c.maxRooms - 1 + k);
    SlotFree(c, s, plan, k, m);
  }

  lemma NextIdle(c: Limits, s: Sys, plan: Plan, k: nat)
    requires Creations(plan) && k < c.workers && Parked(c, s, plan, k)
    ensures |s.pcs| == c.workers + 2 && s.pcs[k] == Idle && Last(c, plan, k).Complete? && s.count < c.maxRooms
    ensures RoomAt(plan, c.maxRooms - 1 + k) == Last(c, plan, k).room
    ensures KeyAt(c, plan, c.maxRooms - 1 + k) == c.ipKey(Last(c, plan, k).addr)
  {
  }

  lemma SlotFree(c: Limits, s: Sys, plan: Plan, k: nat, m: nat)
    requires Spread(c, plan, m) && k < m && s.readers == {}
    requires forall sh | sh in s.writer :: exists i: nat :: i < k && sh == Slot(c, plan, i)
    ensures CanWrite(s, Slot(c, plan, k))
  {
  }

  /** ... and it parks there. */
  lemma ParkNext(c: Limits, s: Sys, plan: Plan, k: nat, m: nat)
    requires Spread(c, plan, m) && k < m <= c.workers && Parked(c, s, plan, k)
    ensures Parked(c, Locked(c, s, k, Last(c, plan, k), Insert(Last(c, plan, k))), plan, k + 1)
  {
    var s' := Locked(c, s, k, Last(c, plan, k), Insert(Last(c, plan, k)));
    SameBuilt(s, s', plan, c.maxRooms - 1);
    forall sh | sh in s'.writer ensures exists i: nat :: i < k + 1 && sh == Slot(c, plan, i) {
      if sh in s.writer {
        var i: nat :| i < k && sh == Slot(c, plan, i);
      } else {
        assert sh == Slot(c, plan, k);
      }
    }
  }

  lemma ParkOne(c: Limits, turns: seq<Turn>, plan: Plan, k: nat, m: nat) returns (turns': seq<Turn>)
    requires Spread(c, plan, m) && k < m <= c.workers && Parked(c, Exec(c, turns), plan, k)
    ensures Parked(c, Exec(c, turns'), plan, k + 1)
  {
    NextFree(c, Exec(c, turns), plan, k, m);
    ParkNext(c, Exec(c, turns), plan, k, m);
    turns' := Park(c, turns, k, Last(c, plan, k));
  }

  lemma FilledParked(c: Limits, s: Sys, plan: Plan)
    requires Creations(plan) && Filled(c, s, plan, c.maxRooms - 1)
    ensures Parked(c, s, plan, 0)
  {
  }

  lemma {:induction false} ParkAll(c: Limits, plan: Plan, k: nat, m: nat) returns (turns: seq<Turn>)
    requires Spread(c, plan, m) && k <= m <= c.workers && m >= 1
    ensures Parked(c, Exec(c, turns), plan, k)
  {
    if k == 0 {
      turns := Fill(c, plan, c.maxRooms - 1, m);
      FilledParked(c, Exec(c, turns), plan);
    } else {
      turns := ParkAll(c, plan, k - 1, m);
      turns := ParkOne(c, turns, plan, k - 1, m);
    }
  }

  /** The first k of m workers have inserted and counted their rooms. */
  ghost predicate Counting(c: Limits, s: Sys, plan: Plan, k: nat, m: nat)
    requires Creations(plan)
  {
    && k <= m <= c.workers && |s.pcs| == c.workers + 2 && s.count == c.maxRooms - 1 + k
    && Built(s, plan, c.maxRooms - 1 + k)
    && (forall t | 0 <= t < |s.pcs| ::
          s.pcs[t] == if t < k then AddIndex(Last(c, plan, t)) else if t < m then Insert(Last(c, plan, t)) else Idle)
  }

  lemma CountNext(c: Limits, s: Sys, plan: Plan, k: nat, m: nat)
    requires Spread(c, plan, m) && k < m && Counting(c, s, plan, k, m)
    ensures Counting(c, Inserted(s, Last(c, plan, k)).(pcs := s.pcs[k := AddIndex(Last(c, plan, k))]), plan, k + 1, m)
  {
    var n, op := c.maxRooms - 1 + k, Last(c, plan, k);
    InsertedBuilt(c, s, plan, n, m);
    SameBuilt(Inserted(s, op), Inserted(s, op).(pcs := s.pcs[k := AddIndex(op)]), plan, n + 1);
  }

  lemma {:induction false} CountAll(c: Limits, plan: Plan, k: nat, m: nat) returns (turns: seq<Turn>)
    requires Spread(c, plan, m) && k <= m <= c.workers && m >= 1
    ensures Counting(c, Exec(c, turns), plan, k, m)
  {
    if k == 0 {
      turns := ParkAll(c, plan, m, m);
    } else {
      turns := CountAll(c, plan, k - 1, m);
      turns := CountOne(c, turns, plan, k - 1, m);
    }
  }

  lemma CountOne(c: Limits, turns: seq<Turn>, plan: Plan, k: nat, m: nat) returns (turns': seq<Turn>)
    requires Spread(c, plan, m) && k < m && Counting(c, Exec(c, turns), plan, k, m)
    ensures Counting(c, Exec(c, turns'), plan, k + 1, m)
  {
    CountNext(c, Exec(c, turns), plan, k, m);
    turns' := Count(c, turns, k, Last(c, plan, k));
  }

  /** Any m workers with rooms in m shards drive the counter to maxRooms + m - 1. */
  lemma Overshoot(c: Limits, plan: Plan, m: nat) returns (turns: seq<Turn>)
    requires Spread(c, plan, m) && 1 <= m <= c.workers
    ensures Exec(c, turns).count == c.maxRooms + m - 1
  {
    turns := CountAll(c, plan, m, m);
  }

  /** The first k workers have listed their rooms and are idle again. */
  ghost predicate Leaving(c: Limits, s: Sys, plan: Plan, k: nat, m: nat)
    requires Creations(plan)
  {
    && k <= m <= c.workers && |s.pcs| == c.workers + 2 && Built(s, plan, c.maxRooms - 1 + m)
    && (forall t | 0 <= t < |s.pcs| :: s.pcs[t] == if k <= t < m then AddIndex(Last(c, plan, t)) else Idle)
  }

  lemma {:induction false} LeaveAll(c: Limits, plan: Plan, k: nat, m: nat) returns (turns: seq<Turn>)
    requires Spread(c, plan, m) && k <= m <= c.workers && m >= 1
    ensures Leaving(c, Exec(c, turns), plan, k, m)
  {
    if k == 0 {
      turns := CountAll(c, plan, m, m);
    } else {
      turns := LeaveAll(c, plan, k - 1, m);
      var s := Exec(c, turns);
      turns := ListAndLeave(c, turns, k - 1, Last(c, plan, k - 1));
      SameBuilt(s, Exec(c, turns), plan, c.maxRooms - 1 + m);
    }
  }

  // ----- a plan for every configuration -----

  /** There are as many keys and rooms as the run needs. */
  ghost predicate Enough(c: Limits, name: nat -> Named, addr: nat -> Addr) {
    && (forall i: nat, j: nat | i < j < c.maxRooms + c.workers :: name(i) != name(j))
    && (forall i: nat, j: nat | i < j < c.maxRooms + c.workers :: c.ipKey(addr(i)) != c.ipKey(addr(j)))
  }

  predicate Distinct<T(==)>(xs: seq<T>) {
    forall i, j | 0 <= i < j < |xs| :: xs[i] != xs[j]
  }

  /** Rooms in different shards. */
  ghost predicate ShardsDiffer(c: Limits, rooms: seq<Named>) {
    forall i, j | 0 <= i < j < |rooms| :: ShardOf(c, rooms[i]) != ShardOf(c, rooms[j])
  }

  lemma {:induction false} OnePerShard(c: Limits, shards: set<nat>) returns (rooms: seq<Named>)
    requires forall sh | sh in shards :: ShardUsed(c, sh)
    ensures |rooms| == |shards| && ShardsDiffer(c, rooms)
    ensures forall i | 0 <= i < |rooms| :: ShardOf(c, rooms[i]) in shards
    decreases |shards|
  {
    if shards == {} {
      rooms := [];
    } else {
      var sh :| sh in shards;
      rooms := OnePerShard(c, shards - {sh});
      assert ShardUsed(c, sh);
      var r: Named :| ShardOf(c, r) == sh;
      rooms := rooms + [r];
    }
  }

  /** Any n elements of a set, in some order. */
  lemma {:induction false} Taken<T>(from: set<T>, n: nat) returns (xs: seq<T>)
    requires n <= |from|
    ensures |xs| == n && Distinct(xs) && forall i | 0 <= i < n :: xs[i] in from
  {
    if n == 0 {
      xs := [];
    } else {
      var x :| x in from;
      xs := Taken(from - {x}, n - 1);
      xs := xs + [x];
    }
  }

  function Names(name: nat -> Named, n: nat): set<Named> {
    set i: nat | i < n :: name(i)
  }

  lemma NamesNext(name: nat -> Named, n: nat)
    requires forall i: nat | i < n :: name(i) != name(n)
    ensures name(n) !in Names(name, n) && Names(name, n + 1) == Names(name, n) + {name(n)}
  {
  }

  lemma {:induction false} NamesSize(name: nat -> Named, n: nat)
    requires forall i: nat, j: nat | i < j < n :: name(i) != name(j)
    ensures |Names(name, n)| == n
  {
    if n == 0 {
    } else {
      NamesSize(name, n - 1);
      NamesNext(name, n - 1);
    }
  }

  function Elements<T>(xs: seq<T>): set<T> {
    set x | x in xs
  }

  lemma {:induction false} ElementsSize<T>(xs: seq<T>)
    ensures |Elements(xs)| <= |xs|
  {
    if xs == [] {
    } else {
      var n := |xs| - 1;
      ElementsSize(xs[..n]);
      assert Elements(xs) == Elements(xs[..n]) + {xs[n]};
    }
  }

  lemma MinusSize<T>(a: set<T>, b: set<T>)
    ensures |a - b| + |b| >= |a|
  {
    assert a == (a - b) + a * b && (a - b) !! (a * b);
    SubsetSize(a * b, b);
  }

  /** Rooms that are none of the given ones. */
  lemma Fillers(name: nat -> Named, n: nat, last: seq<Named>) returns (rooms: seq<Named>)
    requires forall i: nat, j: nat | i < j < n + |last| :: name(i) != name(j)
    ensures |rooms| == n && Distinct(rooms) && forall i | 0 <= i < n :: rooms[i] !in last
  {
    NamesSize(name, n + |last|);
    ElementsSize(last);
    MinusSize(Names(name, n + |last|), Elements(last));
    rooms := Taken(Names(name, n + |last|) - Elements(last), n);
  }

  function PlanOf(rooms: seq<Named>, addr: nat -> Addr): Plan {
    (i: nat) => Complete(if i < |rooms| then rooms[i] else Room("x"), addr(i))
  }

  /** First the fillers, then rooms in different shards. */
  lemma PlanSpread(c: Limits, fill: seq<Named>, last: seq<Named>, name: nat -> Named, addr: nat -> Addr)
    requires Enough(c, name, addr) && |fill| == c.maxRooms - 1 && |last| <= c.workers
    requires Distinct(fill) && ShardsDiffer(c, last) && forall i | 0 <= i < |fill| :: fill[i] !in last
    ensures Spread(c, PlanOf(fill + last, addr), |last|)
  {
    var plan, rooms := PlanOf(fill + last, addr), fill + last;
    forall i: nat, j: nat | i < j < |rooms| ensures RoomAt(plan, i) != RoomAt(plan, j) {
      assert j >= |fill| ==> rooms[j] in last;
    }
    forall i: nat, j: nat | i < j < |last| ensures Slot(c, plan, i) != Slot(c, plan, j) {
      assert plan(|fill| + i).room == last[i] && plan(|fill| + j).room == last[j];
    }
  }

  ghost predicate PlanFor(c: Limits, plan: Plan, addr: nat -> Addr) {
    Spread(c, plan, Parallel(c)) && forall i: nat :: plan(i).addr == addr(i)
  }

  lemma SomePlan(c: Limits, name: nat -> Named, addr: nat -> Addr) returns (plan: Plan)
    requires Enough(c, name, addr)
    ensures PlanFor(c, plan, addr)
  {
    var last := OnePerShard(c, UsedShards(c));
    last := last[..Parallel(c)];
    var fill := Fillers(name, c.maxRooms - 1, last);
    PlanSpread(c, fill, last, name, addr);
    plan := PlanOf(fill + last, addr);
  }

  /** Some interleaving reaches the bound. */
  lemma BoundReached(c: Limits, name: nat -> Named, addr: nat -> Addr) returns (turns: seq<Turn>)
    requires Enough(c, name, addr)
    ensures Exec(c, turns).count == c.maxRooms + Parallel(c) - 1
  {
    SomeShard(c);
    var plan := SomePlan(c, name, addr);
    turns := Overshoot(c, plan, Parallel(c));
  }

  /** No interleaving takes the counter over the cap. */
  ghost predicate NeverOver(c: Limits) {
    forall turns :: Exec(c, turns).count <= c.maxRooms
  }

  /** The counter stays within maxRooms on every interleaving if and only if there is one
      worker or all rooms fall into one shard. */
  lemma WithinExactly(c: Limits, name: nat -> Named, addr: nat -> Addr)
    requires Enough(c, name, addr)
    ensures NeverOver(c) <==> c.workers == 1 || |UsedShards(c)| == 1
  {
    SomeShard(c);
    if Parallel(c) == 1 {
      forall turns ensures Exec(c, turns).count <= c.maxRooms {
        RoomsBounded(c, turns);
      }
    } else {
      var turns := BoundReached(c, name, addr);
      assert Exec(c, turns).count > c.maxRooms;
    }
  }
}
