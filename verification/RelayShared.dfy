/** The shared bookkeeping under every interleaving: the per-key room index, the total of
    in-room challenges and the caps of a single room are exact, although they are kept
    under different locks. */
module RelayShared {
  import opened Text
  import opened RelaySpec
  import opened RelayLocks
  import opened RelaySafety

  // ----- the index -----

  /** Thread t has put the room into the table and not yet into the index. */
  predicate CreatesAt(s: Sys, t: Tid, r: Room) {
    t < |s.pcs| && (s.pcs[t].CountUp? || s.pcs[t].AddIndex?) && ClaimedRoom(s.pcs[t]) == Some(r)
  }

  predicate BeingCreated(s: Sys, r: Room) {
    exists t | 0 <= t < |s.pcs| :: CreatesAt(s, t, r)
  }

  /** Some client of the room has the key. */
  predicate KeyIn(c: Limits, s: Sys, r: Room, ip: Ip) {
    r in s.table && s.table[r] < |s.entries| && HasKey(c, s.entries[s.table[r]].clients, ip)
  }

  /** The room is listed under a key exactly if it is not just being created and a client of it has the key. */
  ghost predicate Listed(c: Limits, s: Sys, r: Room) {
    forall ip :: Pair(ip, r) in s.index <==> !BeingCreated(s, r) && KeyIn(c, s, r, ip)
  }

  ghost predicate IndexOk(c: Limits, s: Sys) {
    forall r :: Listed(c, s, r)
  }

  /** The index agrees with an entry's clients. */
  ghost predicate Synced(c: Limits, index: set<Pair>, r: Room, clients: set<Addr>) {
    forall ip :: Pair(ip, r) in index <==> HasKey(c, clients, ip)
  }

  lemma SweptSynced(c: Limits, index: set<Pair>, r: Room, x: Content, drop: Drop)
    requires Synced(c, index, r, x.clients)
    ensures Synced(c, SweptIndex(c, index, r, x, drop), r, Swept(x, drop).clients)
  {
    if drop.DropClient? && Sweeps(x, drop) {
      var x' := Swept(x, drop);
      forall ip ensures HasKey(c, x'.clients, ip) <==>
                        HasKey(c, x.clients, ip) && (ip != c.ipKey(drop.addr) || HasKey(c, x'.clients, ip)) {
        if HasKey(c, x.clients, ip) && ip != c.ipKey(drop.addr) {
          var a :| a in x.clients && c.ipKey(a) == ip;
          assert a in x'.clients;
        }
      }
    } else {
      assert Swept(x, drop).clients == x.clients;
    }
  }

  lemma AddedSynced(c: Limits, index: set<Pair>, op: Op, x: Content, known: bool)
    requires Packet(op) && Synced(c, index, op.room, x.clients) && known == HasKey(c, x.clients, c.ipKey(op.addr))
    ensures var index' := if known then index else index + {Pair(c.ipKey(op.addr), op.room)};
      Synced(c, index', op.room, x.clients + {op.addr})
  {
    var clients := x.clients + {op.addr};
    assert op.addr in clients;
    forall ip ensures HasKey(c, clients, ip) <==> HasKey(c, x.clients, ip) || ip == c.ipKey(op.addr) {
      if HasKey(c, x.clients, ip) {
        var a :| a in x.clients && c.ipKey(a) == ip;
        assert a in clients;
      }
    }
  }

  lemma InsideSynced(c: Limits, index: set<Pair>, op: Op, x: Content, at: Inside, ch: Choice)
    requires Packet(op) && InsideOk(c, op, x, at) && Synced(c, index, op.room, x.clients)
    ensures Synced(c, InsideIndex(c, index, op, x, at, ch), op.room, NextContent(op, x, at, ch).clients)
  {
    if at.Sweeping? { SweptSynced(c, index, op.room, x, ch.drop); }
    else if at.AddClient? { AddedSynced(c, index, op, x, at.known); }
    else { assert NextContent(op, x, at, ch).clients == x.clients; }
  }

  // ----- one step keeps the index -----

  /** Only pairs of room r change. */
  ghost predicate OnlyRoom(index: set<Pair>, index': set<Pair>, r: Room) {
    forall ip, r' | r' != r :: Pair(ip, r') in index' <==> Pair(ip, r') in index
  }

  lemma SameCreations(c: Limits, s: Sys, t: Tid, ch: Choice, r: Room)
    requires CanMove(c, s, t)
    requires CreatesAt(Move(c, s, t, ch), t, r) == CreatesAt(s, t, r)
    ensures BeingCreated(Move(c, s, t, ch), r) == BeingCreated(s, r)
  {
    var s' := Move(c, s, t, ch);
    if BeingCreated(s, r) {
      var u :| 0 <= u < |s.pcs| && CreatesAt(s, u, r);
      assert CreatesAt(s', u, r);
    }
    if BeingCreated(s', r) {
      var u :| 0 <= u < |s'.pcs| && CreatesAt(s', u, r);
      assert CreatesAt(s, u, r);
    }
  }

  predicate Creator(pc: Pc) {
    pc.Insert? || pc.CountUp? || pc.AddIndex?
  }

  /** Threads not at the end of a creation create nothing, before and after. */
  lemma NoCreation(c: Limits, s: Sys, t: Tid, ch: Choice, r: Room)
    requires CanMove(c, s, t) && !Creator(s.pcs[t])
    ensures BeingCreated(Move(c, s, t, ch), r) == BeingCreated(s, r)
  {
    assert !NextPc(c, s, t, s.pcs[t], ch).CountUp? && !NextPc(c, s, t, s.pcs[t], ch).AddIndex?;
    SameCreations(c, s, t, ch, r);
  }

  lemma TouchIndex(c: Limits, s: Sys, t: Tid, ch: Choice, room: Room, e: Id, r: Room)
    requires CanMove(c, s, t) && IndexOk(c, s) && WorksAt(s.pcs[t], room, e) && Mapped(s, room, e)
    requires var s' := Move(c, s, t, ch);
      && Touched(s, s', e) && OnlyRoom(s.index, s'.index, room)
      && (Synced(c, s.index, room, s.entries[e].clients) ==> Synced(c, s'.index, room, s'.entries[e].clients))
    ensures Listed(c, Move(c, s, t, ch), r)
  {
    var s' := Move(c, s, t, ch);
    NoCreation(c, s, t, ch, r);
    assert Listed(c, s, r);
    if r == room {
      NotCreated(c, s, t, room, e);
    } else if r in s.table {
      assert s.table[r] != e;
    }
  }

  lemma NotCreated(c: Limits, s: Sys, t: Tid, r: Room, e: Id)
    requires Inv(c, s) && t < |s.pcs| && WorksAt(s.pcs[t], r, e)
    ensures !BeingCreated(s, r)
  {
    if BeingCreated(s, r) {
      var u :| 0 <= u < |s.pcs| && CreatesAt(s, u, r);
      WorkerAlone(c, s, t, u, r, e);
    }
  }

  lemma StaleIndex(c: Limits, s: Sys, t: Tid, ch: Choice, r: Room)
    requires CanMove(c, s, t) && IndexOk(c, s) && s.pcs[t].HaveStale?
    ensures Listed(c, Move(c, s, t, ch), r)
  {
    var HaveStale(_, room, e) := s.pcs[t];
    TouchMove(c, s, t, ch);
    assert PcOk(c, s, t, s.pcs[t]);
    if Synced(c, s.index, room, s.entries[e].clients) { StaleSynced(c, s, t, ch); }
    TouchIndex(c, s, t, ch, room, e, r);
  }

  lemma StaleSynced(c: Limits, s: Sys, t: Tid, ch: Choice)
    requires CanMove(c, s, t) && s.pcs[t].HaveStale?
    requires Synced(c, s.index, s.pcs[t].room, s.entries[s.pcs[t].e].clients)
    ensures Synced(c, NextIndex(c, s, s.pcs[t], ch), s.pcs[t].room, LeftContent(s, s.pcs[t], ch).clients)
  {
    var x := s.entries[s.pcs[t].e];
    SweptSynced(c, s.index, s.pcs[t].room, x, ch.drop);
    if !Sweeps(x, ch.drop) { assert LeftContent(s, s.pcs[t], ch).clients == x.clients; }
  }

  lemma OwnIndex(c: Limits, s: Sys, t: Tid, ch: Choice, r: Room)
    requires CanMove(c, s, t) && IndexOk(c, s) && s.pcs[t].Own?
    ensures Listed(c, Move(c, s, t, ch), r)
  {
    var Own(op, e, at) := s.pcs[t];
    TouchMove(c, s, t, ch);
    assert PcOk(c, s, t, s.pcs[t]);
    if Synced(c, s.index, op.room, s.entries[e].clients) { InsideSynced(c, s.index, op, s.entries[e], at, ch); }
    TouchIndex(c, s, t, ch, op.room, e, r);
  }

  lemma InsertIndex(c: Limits, s: Sys, t: Tid, ch: Choice, r: Room)
    requires CanMove(c, s, t) && IndexOk(c, s) && s.pcs[t].Insert?
    ensures Listed(c, Move(c, s, t, ch), r)
  {
    var s', room := Move(c, s, t, ch), s.pcs[t].op.room;
    assert PcOk(c, s, t, s.pcs[t]) && Listed(c, s, r);
    if r == room {
      assert CreatesAt(s', t, r);
    } else {
      SameCreations(c, s, t, ch, r);
    }
  }

  lemma CountIndex(c: Limits, s: Sys, t: Tid, ch: Choice, r: Room)
    requires CanMove(c, s, t) && IndexOk(c, s) && s.pcs[t].CountUp?
    ensures Listed(c, Move(c, s, t, ch), r)
  {
    assert PcOk(c, s, t, s.pcs[t]) && Listed(c, s, r);
    SameCreations(c, s, t, ch, r);
  }

  /** No other thread creates the same room: its shard is locked. */
  lemma OneCreator(c: Limits, s: Sys, t: Tid, u: Tid, r: Room)
    requires Inv(c, s) && CreatesAt(s, t, r) && CreatesAt(s, u, r)
    ensures t == u
  {
    assert PcOk(c, s, t, s.pcs[t]) && PcOk(c, s, u, s.pcs[u]);
    if t != u { ShardsApart(c, s, t, u); }
  }

  lemma AddIndexIndex(c: Limits, s: Sys, t: Tid, ch: Choice, r: Room)
    requires CanMove(c, s, t) && IndexOk(c, s) && s.pcs[t].AddIndex?
    ensures Listed(c, Move(c, s, t, ch), r)
  {
    var s', op := Move(c, s, t, ch), s.pcs[t].op;
    assert PcOk(c, s, t, s.pcs[t]) && Listed(c, s, r);
    if r == op.room {
      assert CreatesAt(s, t, r);
      Finished(c, s, t, ch, r);
      assert forall ip :: HasKey(c, {op.addr}, ip) <==> ip == c.ipKey(op.addr);
    } else {
      SameCreations(c, s, t, ch, r);
    }
  }

  lemma Finished(c: Limits, s: Sys, t: Tid, ch: Choice, r: Room)
    requires CanMove(c, s, t) && s.pcs[t].AddIndex? && CreatesAt(s, t, r)
    ensures !BeingCreated(Move(c, s, t, ch), r)
  {
    var s' := Move(c, s, t, ch);
    if BeingCreated(s', r) {
      var u :| 0 <= u < |s'.pcs| && CreatesAt(s', u, r);
      assert CreatesAt(s, u, r);
      OneCreator(c, s, t, u, r);
    }
  }

  lemma DeleteIndex(c: Limits, s: Sys, t: Tid, ch: Choice, r: Room)
    requires CanMove(c, s, t) && IndexOk(c, s) && s.pcs[t].Delete?
    ensures Listed(c, Move(c, s, t, ch), r)
  {
    assert PcOk(c, s, t, s.pcs[t]) && Listed(c, s, r);
    NoCreation(c, s, t, ch, r);
    assert forall ip :: !HasKey(c, NOTHING.clients, ip);
  }

  lemma QuietIndex(c: Limits, s: Sys, t: Tid, ch: Choice, r: Room)
    requires CanMove(c, s, t) && IndexOk(c, s) && !ChangesTables(s.pcs[t]) && !Creator(s.pcs[t])
    ensures Listed(c, Move(c, s, t, ch), r)
  {
    assert Listed(c, s, r);
    QuietMove(c, s, t, ch);
    NoCreation(c, s, t, ch, r);
    assert NextIndex(c, s, s.pcs[t], ch) == s.index;
  }

  lemma MoveIndex(c: Limits, s: Sys, t: Tid, ch: Choice)
    requires CanMove(c, s, t) && IndexOk(c, s)
    ensures IndexOk(c, Move(c, s, t, ch))
  {
    forall r ensures Listed(c, Move(c, s, t, ch), r) {
      match s.pcs[t]
      case Insert(_) => InsertIndex(c, s, t, ch, r);
      case CountUp(_) => CountIndex(c, s, t, ch, r);
      case AddIndex(_) => AddIndexIndex(c, s, t, ch, r);
      case Delete(_, _, _) => DeleteIndex(c, s, t, ch, r);
      case HaveStale(_, _, _) => StaleIndex(c, s, t, ch, r);
      case Own(_, _, _) => OwnIndex(c, s, t, ch, r);
      case _ => QuietIndex(c, s, t, ch, r);
    }
  }

  lemma {:induction false} ExecIndex(c: Limits, turns: seq<Turn>)
    ensures IndexOk(c, Exec(c, turns))
  {
    if turns == [] {
      InitIndex(c);
    } else {
      var n := |turns| - 1;
      ExecIndex(c, turns[..n]);
      ExecInv(c, turns[..n]);
      var s := Exec(c, turns[..n]);
      if CanTurn(c, s, turns[n]) { MoveIndex(c, s, turns[n].t, turns[n].ch); }
    }
  }

  lemma InitIndex(c: Limits)
    ensures IndexOk(c, Init(c))
  {
  }

  /** Under every interleaving, a room is listed under exactly the keys of its clients,
      unless a thread is between creating it and listing it; then under none. */
  lemma IndexExact(c: Limits, turns: seq<Turn>, r: Room, ip: Ip)
    ensures var s := Exec(c, turns);
      Pair(ip, r) in s.index <==> !BeingCreated(s, r) && KeyIn(c, s, r, ip)
  {
    ExecIndex(c, turns);
    assert Listed(c, Exec(c, turns), r);
  }

  // ----- challenges -----

  function ChalSum(entries: seq<Content>): nat {
    if entries == [] then 0 else ChalSum(entries[..|entries| - 1]) + |entries[|entries| - 1].chal|
  }

  lemma {:induction false} ChalUpdate(entries: seq<Content>, e: nat, x: Content)
    requires e < |entries|
    ensures ChalSum(entries[e := x]) == ChalSum(entries) - |entries[e].chal| + |x.chal|
  {
    var n := |entries| - 1;
    if e == n {
      assert entries[e := x][..n] == entries[..n];
    } else {
      assert entries[e := x][..n] == entries[..n][e := x];
      ChalUpdate(entries[..n], e, x);
    }
  }

  lemma ChalAppend(entries: seq<Content>, x: Content)
    ensures ChalSum(entries + [x]) == ChalSum(entries) + |x.chal|
  {
    assert (entries + [x])[..|entries|] == entries;
  }

  ghost predicate TotalOk(s: Sys) {
    s.total == ChalSum(s.entries)
  }

  /** The clamp at zero changes nothing: the total always moves by the change in size. */
  lemma MoveTotal(c: Limits, s: Sys, t: Tid, ch: Choice)
    requires CanMove(c, s, t) && TotalOk(s)
    ensures TotalOk(Move(c, s, t, ch))
  {
    var s' := Move(c, s, t, ch);
    match s.pcs[t]
    case Insert(op) => ChalAppend(s.entries, Content({op.addr}, {}));
    case HaveStale(_, _, e) => ChalUpdate(s.entries, e, s'.entries[e]);
    case Own(_, e, _) => ChalUpdate(s.entries, e, s'.entries[e]);
    case _ => assert s'.entries == s.entries;
  }

  // ----- the caps of a single room -----

  ghost predicate RoomCaps(c: Limits, s: Sys) {
    forall e | 0 <= e < |s.entries| ::
      |s.entries[e].clients| <= c.maxClientsHard && |s.entries[e].chal| <= c.maxPendingPerRoom
  }

  predicate ContentCaps(c: Limits, x: Content) {
    |x.clients| <= c.maxClientsHard && |x.chal| <= c.maxPendingPerRoom
  }

  lemma SizeMinus<T>(a: set<T>, x: T)
    ensures |a - {x}| <= |a|
  {
    if x in a { assert |a| == |a - {x}| + 1; } else { assert a - {x} == a; }
  }

  lemma SizePlus<T>(a: set<T>, x: T)
    ensures |a + {x}| == |a| + if x in a then 0 else 1
  {
    if x in a { assert a + {x} == a; }
  }

  lemma SweptCaps(c: Limits, x: Content, drop: Drop)
    requires ContentCaps(c, x)
    ensures ContentCaps(c, Swept(x, drop))
  {
    match drop
    case Keep =>
    case DropClient(a) => SizeMinus(x.clients, a);
    case DropChallenge(a) => SizeMinus(x.chal, a);
  }

  lemma InsideCaps(c: Limits, op: Op, x: Content, at: Inside, ch: Choice)
    requires Packet(op) && InsideOk(c, op, x, at) && ContentCaps(c, x)
    ensures ContentCaps(c, NextContent(op, x, at, ch))
  {
    SweptCaps(c, x, ch.drop);
    SizeMinus(x.chal, op.addr);
    SizePlus(x.chal, op.addr);
    SizePlus(x.clients, op.addr);
  }

  lemma MoveCaps(c: Limits, s: Sys, t: Tid, ch: Choice)
    requires CanMove(c, s, t) && RoomCaps(c, s)
    ensures RoomCaps(c, Move(c, s, t, ch))
  {
    assert PcOk(c, s, t, s.pcs[t]);
    match s.pcs[t]
    case HaveStale(_, _, e) => SweptCaps(c, s.entries[e], ch.drop);
    case Own(op, e, at) => InsideCaps(c, op, s.entries[e], at, ch);
    case _ =>
  }

  /** Under every interleaving the total of in-room challenges equals their number, and no
      room exceeds its own caps. */
  lemma {:induction false} ChallengesExact(c: Limits, turns: seq<Turn>)
    ensures TotalOk(Exec(c, turns)) && RoomCaps(c, Exec(c, turns))
  {
    if turns == [] {
    } else {
      var n := |turns| - 1;
      ChallengesExact(c, turns[..n]);
      ExecInv(c, turns[..n]);
      var s := Exec(c, turns[..n]);
      if CanTurn(c, s, turns[n]) {
        MoveTotal(c, s, turns[n].t, turns[n].ch);
        MoveCaps(c, s, turns[n].t, turns[n].ch);
      }
    }
  }
}
