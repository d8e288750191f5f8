/** One worker's visit to a room that exists, step by step, while others only hold entries of
    other rooms: it leaves a challenge there, or is admitted on one. */
module RelayVisits {
  import opened Text
  import opened RelaySpec
  import opened RelayLocks
  import opened RelaySafety
  import opened RelayShared
  import opened RelayBounds

  /** What the visits are about; the locks follow from the program counters, the index and
      the totals from the entries. */
  datatype View = View(table: map<Room, Id>, entries: seq<Content>, pcs: seq<Pc>)

  function ViewOf(s: Sys): View {
    View(s.table, s.entries, s.pcs)
  }

  function Doing(v: View, w: Tid, pc: Pc): View
    requires w < |v.pcs|
  {
    v.(pcs := v.pcs[w := pc])
  }

  function With(v: View, e: Id, x: Content): View
    requires e < |v.entries|
  {
    v.(entries := v.entries[e := x])
  }

  /** Nobody but w holds a shard or the entry. */
  ghost predicate Clear(c: Limits, v: View, w: Tid, e: Id) {
    && w < |v.pcs|
    && forall u | 0 <= u < |v.pcs| && u != w :: HeldShard(c, v.pcs[u]).None? && HeldEntry(v.pcs[u]) != Some(e)
  }

  predicate Approaching(pc: Pc, e: Id) {
    pc.Idle? || pc.WantShard? || pc.HaveShard? || (pc.WantEntry? && pc.e == e) || pc.HaveBoth?
  }

  lemma ClearShard(c: Limits, s: Sys, w: Tid, e: Id, sh: nat)
    requires LocksOk(c, s) && Clear(c, ViewOf(s), w, e) && HeldShard(c, s.pcs[w]).None?
    ensures CanWrite(s, sh)
  {
    if sh in s.writer {
      var t := s.writer[sh];
      assert Agrees(c, s, t, s.pcs[t]) && Writes(s, sh, t);
    }
    forall h | h in s.readers ensures h.shard != sh {
      assert Agrees(c, s, h.t, s.pcs[h.t]) && Hold(h.shard, h.t) in s.readers;
    }
  }

  lemma ClearEntry(c: Limits, s: Sys, w: Tid, e: Id)
    requires LocksOk(c, s) && Clear(c, ViewOf(s), w, e) && HeldEntry(s.pcs[w]).None?
    ensures e !in s.owner
  {
    if e in s.owner {
      var t := s.owner[e];
      assert Agrees(c, s, t, s.pcs[t]) && Owns(s, e, t);
    }
  }

  lemma ClearEnabled(c: Limits, s: Sys, w: Tid, e: Id)
    requires LocksOk(c, s) && Clear(c, ViewOf(s), w, e) && Approaching(s.pcs[w], e)
    ensures Enabled(c, s, w)
  {
    match s.pcs[w]
    case WantShard(op) => ClearShard(c, s, w, e, OpShard(c, op));
    case WantEntry(_, _) => ClearEntry(c, s, w, e);
    case _ =>
  }

  lemma DoingDoing(v: View, w: Tid, a: Pc, b: Pc)
    requires w < |v.pcs|
    ensures Doing(Doing(v, w, a), w, b) == Doing(v, w, b)
  {
    assert v.pcs[w := a][w := b] == v.pcs[w := b];
  }

  /** One step on the way to the entry. */
  lemma Approach(c: Limits, turns: seq<Turn>, v: View, w: Tid, e: Id, pc: Pc, ch: Choice) returns (turns': seq<Turn>)
    requires Clear(c, v, w, e) && ViewOf(Exec(c, turns)) == Doing(v, w, pc) && Approaching(pc, e)
    requires PcFits(c, Exec(c, turns), pc)
    ensures ViewOf(Exec(c, turns')) == Doing(v, w, NextPc(c, Exec(c, turns), w, pc, ch))
  {
    var s := Exec(c, turns);
    ExecInv(c, turns);
    assert Clear(c, ViewOf(s), w, e);
    ClearEnabled(c, s, w, e);
    turns' := turns + [Turn(w, ch)];
    ExecMove(c, turns, w, ch);
    QuietMove(c, s, w, ch);
    DoingDoing(v, w, pc, NextPc(c, s, w, pc, ch));
  }

  /** One step of the owner's work. */
  lemma Work(c: Limits, turns: seq<Turn>, v: View, w: Tid, op: Op, e: Id, at: Inside, ch: Choice)
    returns (turns': seq<Turn>)
    requires w < |v.pcs| && ViewOf(Exec(c, turns)) == Doing(v, w, Own(op, e, at)) && Packet(op) && e < |v.entries|
    requires !at.Unlock?
    ensures var x := v.entries[e];
      ViewOf(Exec(c, turns')) ==
      Doing(With(v, e, NextContent(op, x, at, ch)), w, Own(op, e, NextInside(c, Exec(c, turns), op, x, at, ch)))
  {
    var s := Exec(c, turns);
    turns' := turns + [Turn(w, ch)];
    ExecMove(c, turns, w, ch);
    DoingDoing(v, w, Own(op, e, at), NextPc(c, s, w, s.pcs[w], ch));
  }

  lemma Leave(c: Limits, turns: seq<Turn>, v: View, w: Tid, op: Op, e: Id, ch: Choice) returns (turns': seq<Turn>)
    requires w < |v.pcs| && ViewOf(Exec(c, turns)) == Doing(v, w, Own(op, e, Unlock)) && Packet(op) && e < |v.entries|
    ensures ViewOf(Exec(c, turns')) == Doing(v, w, Idle)
  {
    var s := Exec(c, turns);
    turns' := turns + [Turn(w, ch)];
    ExecMove(c, turns, w, ch);
    DoingDoing(v, w, Own(op, e, Unlock), Idle);
    assert v.entries[e := v.entries[e]] == v.entries;
  }

  function Yes(op: Op): Choice
    requires Packet(op)
  {
    Choice(op, op.room, Keep, true)
  }

  predicate Visits(op: Op) {
    op.Initial? || op.Admit?
  }

  /** The table maps the packet's room to the entry. */
  predicate Leads(v: View, op: Op, e: Id)
    requires Packet(op)
  {
    op.room in v.table && v.table[op.room] == e && e < |v.entries|
  }

  lemma ToShard(c: Limits, turns: seq<Turn>, v: View, w: Tid, op: Op, e: Id) returns (turns': seq<Turn>)
    requires Clear(c, v, w, e) && w < c.workers && Visits(op) && ViewOf(Exec(c, turns)) == Doing(v, w, Idle)
    ensures ViewOf(Exec(c, turns')) == Doing(v, w, HaveShard(op))
  {
    turns' := Approach(c, turns, v, w, e, Idle, Yes(op));
    turns' := Approach(c, turns', v, w, e, WantShard(op), Yes(op));
  }

  lemma ToEntry(c: Limits, turns: seq<Turn>, v: View, w: Tid, op: Op, e: Id) returns (turns': seq<Turn>)
    requires Clear(c, v, w, e) && Visits(op) && Leads(v, op, e) && ViewOf(Exec(c, turns)) == Doing(v, w, HaveShard(op))
    ensures ViewOf(Exec(c, turns')) == Doing(v, w, HaveBoth(op, e))
  {
    turns' := Approach(c, turns, v, w, e, HaveShard(op), Yes(op));
    turns' := Approach(c, turns', v, w, e, WantEntry(op, e), Yes(op));
  }

  function First(op: Op): Inside {
    if op.Admit? then Look else Sweeping
  }

  lemma Arrive(c: Limits, turns: seq<Turn>, v: View, w: Tid, op: Op, e: Id) returns (turns': seq<Turn>)
    requires Clear(c, v, w, e) && w < c.workers && Visits(op) && Leads(v, op, e)
    requires ViewOf(Exec(c, turns)) == Doing(v, w, Idle)
    ensures ViewOf(Exec(c, turns')) == Doing(v, w, Own(op, e, First(op)))
  {
    turns' := ToShard(c, turns, v, w, op, e);
    turns' := ToEntry(c, turns', v, w, op, e);
    turns' := Approach(c, turns', v, w, e, HaveBoth(op, e), Yes(op));
  }

  /** The entry without the client. */
  function Without(x: Content, a: Addr): Content {
    x.(clients := x.clients - {a})
  }

  function Check(op: Op): Inside {
    if op.Initial? then CheckPend else CheckJoin
  }

  lemma WithWith(v: View, e: Id, x: Content, y: Content)
    requires e < |v.entries|
    ensures With(With(v, e, x), e, y) == With(v, e, y) && With(v, e, v.entries[e]) == v
  {
    assert v.entries[e := x][e := y] == v.entries[e := y] && v.entries[e := v.entries[e]] == v.entries;
  }

  /** The sweep drops one client if it is there, and nothing else. */
  lemma SweepOff(c: Limits, turns: seq<Turn>, v: View, w: Tid, op: Op, e: Id, a: Addr) returns (turns': seq<Turn>)
    requires w < |v.pcs| && Visits(op) && e < |v.entries| && ViewOf(Exec(c, turns)) == Doing(v, w, Own(op, e, Sweeping))
    ensures ViewOf(Exec(c, turns')) == Doing(With(v, e, Without(v.entries[e], a)), w, Own(op, e, Check(op)))
  {
    var x, ch := v.entries[e], Choice(op, op.room, DropClient(a), true);
    var y := Without(x, a);
    turns' := Work(c, turns, v, w, op, e, Sweeping, ch);
    if a in x.clients {
      var v' := With(v, e, y);
      assert Without(y, a) == y;
      turns' := Work(c, turns', v', w, op, e, Sweeping, ch);
      WithWith(v, e, y, y);
    }
  }

  // ----- a new challenge -----

  lemma SameSum(entries: seq<Content>, e: nat, x: Content)
    requires e < |entries| && x.chal == entries[e].chal
    ensures ChalSum(entries[e := x]) == ChalSum(entries)
  {
    ChalUpdate(entries, e, x);
  }

  /** There is space for a challenge to b once a is gone from the room. */
  ghost predicate HasSpace(c: Limits, v: View, e: Id, a: Addr, b: Addr) {
    && e < |v.entries| && b !in v.entries[e].chal && b !in Without(v.entries[e], a).clients
    && |Without(v.entries[e], a).clients| < c.maxClientsHard
    && |v.entries[e].chal| < c.maxPendingPerRoom && ChalSum(v.entries) < c.maxInRoomPending
  }

  /** The worker has found space for the challenge and has not added it yet. */
  lemma Knock(c: Limits, turns: seq<Turn>, v: View, w: Tid, r: Named, e: Id, a: Addr, b: Addr)
    returns (turns': seq<Turn>)
    requires Clear(c, v, w, e) && w < c.workers && Leads(v, Initial(r, b), e) && HasSpace(c, v, e, a, b)
    requires ViewOf(Exec(c, turns)) == Doing(v, w, Idle)
    ensures ViewOf(Exec(c, turns')) == Doing(With(v, e, Without(v.entries[e], a)), w, Own(Initial(r, b), e, AddPend))
  {
    var op, y := Initial(r, b), Without(v.entries[e], a);
    turns' := Arrive(c, turns, v, w, op, e);
    turns' := SweepOff(c, turns', v, w, op, e, a);
    turns' := PassPend(c, turns', With(v, e, y), w, op, e, v);
  }

  lemma PassPend(c: Limits, turns: seq<Turn>, v: View, w: Tid, op: Op, e: Id, v0: View) returns (turns': seq<Turn>)
    requires w < |v.pcs| && op.Initial? && e < |v.entries|
      && ViewOf(Exec(c, turns)) == Doing(v, w, Own(op, e, CheckPend))
    requires e < |v0.entries| && v == With(v0, e, v.entries[e]) && v.entries[e].chal == v0.entries[e].chal
    requires var x := v.entries[e]; op.addr !in x.chal && op.addr !in x.clients && |x.clients| < c.maxClientsHard
    requires |v0.entries[e].chal| < c.maxPendingPerRoom && ChalSum(v0.entries) < c.maxInRoomPending
    ensures ViewOf(Exec(c, turns')) == Doing(v, w, Own(op, e, AddPend))
  {
    ChallengesExact(c, turns);
    SameSum(v0.entries, e, v.entries[e]);
    turns' := Work(c, turns, v, w, op, e, CheckPend, Yes(op));
    WithWith(v, e, v.entries[e], v.entries[e]);
  }

  function Holding(x: Content, b: Addr): Content {
    x.(chal := x.chal + {b})
  }

  lemma AddOne(c: Limits, turns: seq<Turn>, v: View, w: Tid, op: Op, e: Id) returns (turns': seq<Turn>)
    requires w < |v.pcs| && op.Initial? && e < |v.entries| && ViewOf(Exec(c, turns)) == Doing(v, w, Own(op, e, AddPend))
    ensures ViewOf(Exec(c, turns')) == Doing(With(v, e, Holding(v.entries[e], op.addr)), w, Idle)
  {
    turns' := Work(c, turns, v, w, op, e, AddPend, Yes(op));
    turns' := Leave(c, turns', With(v, e, Holding(v.entries[e], op.addr)), w, op, e, Yes(op));
  }

  // ----- an admission -----

  /** The rooms a client of the key is in. */
  function KeyRooms(c: Limits, v: View, ip: Ip): set<Room> {
    set r | r in v.table && v.table[r] < |v.entries| && HasKey(c, v.entries[v.table[r]].clients, ip)
  }

  /** While no room is being created, they are the listed ones. */
  lemma ListedAre(c: Limits, turns: seq<Turn>, ip: Ip)
    requires forall t | 0 <= t < |Exec(c, turns).pcs| :: HeldShard(c, Exec(c, turns).pcs[t]).None?
    ensures |KeyPairs(Exec(c, turns).index, ip)| == |KeyRooms(c, ViewOf(Exec(c, turns)), ip)|
  {
    var s := Exec(c, turns);
    var pairs := KeyPairs(s.index, ip);
    forall r ensures Pair(ip, r) in s.index <==> r in KeyRooms(c, ViewOf(s), ip) {
      IndexExact(c, turns, r, ip);
    }
    PairRooms(pairs, ip);
    assert (set p | p in pairs :: p.room) == KeyRooms(c, ViewOf(s), ip) by {
      forall r | r in KeyRooms(c, ViewOf(s), ip) ensures r in set p | p in pairs :: p.room {
        assert Pair(ip, r) in pairs;
      }
      forall r | r in set p | p in pairs :: p.room ensures r in KeyRooms(c, ViewOf(s), ip) {
        assert Pair(ip, r) in pairs;
      }
    }
  }

  /** The room holds a challenge to b and nobody, and its key may enter one more room. */
  ghost predicate Admissible(c: Limits, v: View, e: Id, b: Addr) {
    && e < |v.entries| && v.entries[e] == Content({}, {b})
    && |KeyRooms(c, v, c.ipKey(b))| < c.maxRoomsPerIP
  }

  lemma LookIn(c: Limits, turns: seq<Turn>, v: View, w: Tid, r: Named, e: Id, b: Addr) returns (turns': seq<Turn>)
    requires Clear(c, v, w, e) && w < c.workers && Leads(v, Admit(r, b), e) && Admissible(c, v, e, b)
    requires ViewOf(Exec(c, turns)) == Doing(v, w, Idle)
    ensures ViewOf(Exec(c, turns')) == Doing(v, w, Own(Admit(r, b), e, CheckJoin))
  {
    var op := Admit(r, b);
    turns' := Arrive(c, turns, v, w, op, e);
    WithWith(v, e, v.entries[e], v.entries[e]);
    turns' := Work(c, turns', v, w, op, e, Look, Yes(op));
    turns' := Work(c, turns', v, w, op, e, Sweeping, Yes(op));
  }

  lemma PassJoin(c: Limits, turns: seq<Turn>, v: View, w: Tid, op: Op, e: Id) returns (turns': seq<Turn>)
    requires Clear(c, v, w, e) && op.Admit? && Admissible(c, v, e, op.addr)
    requires ViewOf(Exec(c, turns)) == Doing(v, w, Own(op, e, CheckJoin))
    ensures ViewOf(Exec(c, turns')) == Doing(v, w, Own(op, e, Spend(false)))
  {
    var s := Exec(c, turns);
    ListedAre(c, turns, c.ipKey(op.addr));
    assert KeyRooms(c, ViewOf(s), c.ipKey(op.addr)) == KeyRooms(c, v, c.ipKey(op.addr));
    WithWith(v, e, v.entries[e], v.entries[e]);
    turns' := Work(c, turns, v, w, op, e, CheckJoin, Yes(op));
  }

  /** The worker has found space for the key, spent the challenge and not listed the room yet. */
  lemma Pass(c: Limits, turns: seq<Turn>, v: View, w: Tid, r: Named, e: Id, b: Addr) returns (turns': seq<Turn>)
    requires Clear(c, v, w, e) && w < c.workers && Leads(v, Admit(r, b), e) && Admissible(c, v, e, b)
    requires ViewOf(Exec(c, turns)) == Doing(v, w, Idle)
    ensures ViewOf(Exec(c, turns')) == Doing(With(v, e, NOTHING), w, Own(Admit(r, b), e, AddClient(false)))
  {
    var op := Admit(r, b);
    assert {b} - {b} == {};
    turns' := LookIn(c, turns, v, w, r, e, b);
    turns' := PassJoin(c, turns', v, w, op, e);
    turns' := Work(c, turns', v, w, op, e, Spend(false), Yes(op));
  }

  lemma ComeIn(c: Limits, turns: seq<Turn>, v: View, w: Tid, op: Op, e: Id) returns (turns': seq<Turn>)
    requires w < |v.pcs| && op.Admit? && e < |v.entries| && v.entries[e] == NOTHING
    requires ViewOf(Exec(c, turns)) == Doing(v, w, Own(op, e, AddClient(false)))
    ensures ViewOf(Exec(c, turns')) == Doing(With(v, e, Content({op.addr}, {})), w, Idle)
  {
    assert {} + {op.addr} == {op.addr};
    turns' := Work(c, turns, v, w, op, e, AddClient(false), Yes(op));
    turns' := Leave(c, turns', With(v, e, Content({op.addr}, {})), w, op, e, Yes(op));
  }
}
