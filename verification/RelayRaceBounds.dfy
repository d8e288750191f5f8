/** By how much the races of the pre-cookie store can go wrong, on every interleaving. */
module RelayRaceBounds {
  import opened Text
  import opened RelaySpec
  import opened RelayIndex
  import opened Tally
  import opened RelayRaces

  type Weight = Pc -> int

  // ----- the total -----

  /** Inserted and not yet in the total, or gone and still in it. */
  function UpOf(pc: Pc): int {
    if pc.AddCount? || pc.AddTotal? then 1 else 0
  }

  function DownOf(pc: Pc): int {
    match pc
    case SubCount(_, _) => 1
    case SubTotal(_) => 1
    case Return(_, gone) => |gone|
    case ReturnTotal(_, gone, n) => |gone| + n
    case _ => 0
  }

  function UpTotal(): Weight { (pc: Pc) => UpOf(pc) }
  function DownTotal(): Weight { (pc: Pc) => DownOf(pc) }

  ghost predicate TotalOk(s: Sys) {
    s.total + Total(UpTotal(), s.pcs) - Total(DownTotal(), s.pcs) == |s.store|
  }

  lemma MinusKeys(m: map<Key, Id>, gone: set<Key>)
    requires gone <= m.Keys
    ensures |m - gone| == |m| - |gone|
  {
    assert (m - gone).Keys == m.Keys - gone;
    assert m.Keys == (m.Keys - gone) + gone;
  }

  lemma PlusKey(m: map<Key, Id>, k: Key, id: Id)
    ensures |m[k := id]| == |m| + if k in m then 0 else 1
  {
    assert m[k := id].Keys == m.Keys + {k};
    if k in m { assert m.Keys + {k} == m.Keys; }
  }

  lemma MinusKey(m: map<Key, Id>, k: Key)
    ensures |m - {k}| == |m| - if k in m then 1 else 0
  {
    if k in m { MinusKeys(m, {k}); } else { assert m - {k} == m; }
  }

  /** No shard beyond the last holds anything. */
  lemma LastSweep(c: Caps, s: Sys, i: nat, ch: Choice)
    requires i >= c.shards
    ensures Swept(c, s, i, ch) == {} && s.store - Swept(c, s, i, ch) == s.store
  {
  }

  lemma BatchSize(c: Caps, gone: set<Key>, ch: Choice)
    requires gone != {}
    ensures |gone - Batch(c, gone, ch)| + |Batch(c, gone, ch)| == |gone|
  {
    assert gone == (gone - Batch(c, gone, ch)) + Batch(c, gone, ch);
  }

  /** The mover's part of the balance, for a step at pc. */
  ghost predicate Balanced(c: Caps, s: Sys, t: Tid, pc: Pc, ch: Choice) {
    var pc' := NextPc(c, s, t, pc, ch);
    NextTotal(s, pc) + UpOf(pc') - DownOf(pc') - |NextStore(c, s, pc, ch)| ==
      s.total + UpOf(pc) - DownOf(pc) - |s.store|
  }

  lemma SweepTotal(c: Caps, s: Sys, t: Tid, i: nat, ch: Choice)
    ensures Balanced(c, s, t, Sweep(i), ch)
  {
    var gone := Swept(c, s, i, ch);
    if i >= c.shards {
      LastSweep(c, s, i, ch);
      assert NextPc(c, s, t, Sweep(i), ch) == Idle;
    } else {
      MinusKeys(s.store, gone);
      assert NextPc(c, s, t, Sweep(i), ch) == Return(i, gone);
    }
  }

  lemma ReturnBalance(c: Caps, s: Sys, t: Tid, i: nat, gone: set<Key>, ch: Choice)
    ensures Balanced(c, s, t, Return(i, gone), ch)
  {
    if gone != {} { BatchSize(c, gone, ch); }
  }

  lemma PutTotal(c: Caps, s: Sys, t: Tid, k: Key, ch: Choice)
    ensures Balanced(c, s, t, Put(k, k in s.store), ch)
  {
    PlusKey(s.store, k, s.next);
  }

  lemma RemoveTotal(c: Caps, s: Sys, t: Tid, k: Key, id: Id, late: bool, ch: Choice)
    ensures Balanced(c, s, t, Remove(k, id, late), ch)
  {
    MinusKey(s.store, k);
    var join := if late then None else Some(id);
    if k in s.store {
      assert NextPc(c, s, t, Remove(k, id, late), ch) == SubCount(KeyOf(c, k), join);
    } else {
      assert NextPc(c, s, t, Remove(k, id, late), ch) == Then(join);
    }
  }

  lemma QuietTotal(c: Caps, s: Sys, t: Tid, pc: Pc, ch: Choice)
    requires !pc.Sweep? && !pc.Return? && !pc.Put? && !pc.Remove?
    ensures Balanced(c, s, t, pc, ch)
  {
  }

  lemma MoverTotal(c: Caps, s: Sys, t: Tid, ch: Choice)
    requires t < |s.pcs| && PcOk(c, s, t, s.pcs[t])
    ensures Balanced(c, s, t, s.pcs[t], ch)
  {
    match s.pcs[t]
    case Sweep(i) => SweepTotal(c, s, t, i, ch);
    case Return(i, gone) => ReturnBalance(c, s, t, i, gone, ch);
    case Put(k, known) => PutTotal(c, s, t, k, ch);
    case Remove(k, id, late) => RemoveTotal(c, s, t, k, id, late, ch);
    case _ => QuietTotal(c, s, t, s.pcs[t], ch);
  }

  lemma MoveTotal(c: Caps, s: Sys, t: Tid, ch: Choice)
    requires CanMove(c, s, t) && TotalOk(s)
    ensures TotalOk(Move(c, s, t, ch))
  {
    TotalUpdate(UpTotal(), s.pcs, t, NextPc(c, s, t, s.pcs[t], ch));
    TotalUpdate(DownTotal(), s.pcs, t, NextPc(c, s, t, s.pcs[t], ch));
    assert PcOk(c, s, t, s.pcs[t]);
    MoverTotal(c, s, t, ch);
  }

  // ----- one key's count -----

  /** Inserted and not yet in the key's count, or gone and still in it. */
  function UpAt(ip: Ip, pc: Pc): int {
    if pc.AddCount? && pc.ip == ip then 1 else 0
  }

  function DownAt(c: Caps, ip: Ip, pc: Pc): int {
    match pc
    case SubCount(ip', _) => if ip' == ip then 1 else 0
    case Return(_, gone) => |OfIp(c, gone, ip)|
    case ReturnTotal(_, gone, _) => |OfIp(c, gone, ip)|
    case _ => 0
  }

  function UpIp(ip: Ip): Weight { (pc: Pc) => UpAt(ip, pc) }
  function DownIp(c: Caps, ip: Ip): Weight { (pc: Pc) => DownAt(c, ip, pc) }

  function Stored(c: Caps, s: Sys, ip: Ip): nat {
    |OfIp(c, s.store.Keys, ip)|
  }

  /** What the count would be if it never stopped at zero. */
  function Due(c: Caps, s: Sys, ip: Ip): int {
    Stored(c, s, ip) - Total(UpIp(ip), s.pcs) + Total(DownIp(c, ip), s.pcs)
  }

  /** How much the count is too high. */
  function Excess(c: Caps, s: Sys, ip: Ip): int {
    CountOf(s.counts, ip) - Due(c, s, ip)
  }

  ghost predicate ExcessOk(c: Caps, s: Sys, ip: Ip) {
    CountOf(s.counts, ip) >= 0 && 0 <= Excess(c, s, ip) <= c.workers
  }

  /** What a step adds to a key's count, but for the stop at zero. */
  ghost function Delta(c: Caps, s: Sys, pc: Pc, ch: Choice, ip: Ip): int {
    match pc
    case AddCount(ip') => if ip' == ip then 1 else 0
    case SubCount(ip', _) => if ip' == ip then -1 else 0
    case Return(_, gone) => if gone != {} && KeyOf(c, Pick(gone, ch.key)) == ip then -|Batch(c, gone, ch)| else 0
    case _ => 0
  }

  lemma CountMoves(c: Caps, s: Sys, pc: Pc, ch: Choice, ip: Ip)
    requires CountOf(s.counts, ip) >= 0
    ensures var n := CountOf(s.counts, ip) + Delta(c, s, pc, ch, ip);
      CountOf(NextCounts(c, s, pc, ch), ip) == if n < 0 then 0 else n
  {
  }

  lemma PutStored(c: Caps, m: map<Key, Id>, k: Key, id: Id, ip: Ip)
    ensures |OfIp(c, m[k := id].Keys, ip)| == |OfIp(c, m.Keys, ip)| + if k !in m && KeyOf(c, k) == ip then 1 else 0
  {
    assert m[k := id].Keys == m.Keys + {k};
    if k in m { assert m.Keys + {k} == m.Keys; } else { OfAdd(IpOf(c), m.Keys, k, ip); }
  }

  lemma RemoveStored(c: Caps, m: map<Key, Id>, k: Key, ip: Ip)
    ensures |OfIp(c, (m - {k}).Keys, ip)| == |OfIp(c, m.Keys, ip)| - if k in m && KeyOf(c, k) == ip then 1 else 0
  {
    assert (m - {k}).Keys == m.Keys - {k};
    if k in m { OfDrop(IpOf(c), m.Keys, {k}, KeyOf(c, k), ip); } else { assert m.Keys - {k} == m.Keys; }
  }

  lemma SweptStored(c: Caps, s: Sys, i: nat, ch: Choice, ip: Ip)
    ensures |OfIp(c, (s.store - Swept(c, s, i, ch)).Keys, ip)| + |OfIp(c, Swept(c, s, i, ch), ip)| == Stored(c, s, ip)
  {
    var gone := Swept(c, s, i, ch);
    assert (s.store - gone).Keys == s.store.Keys - gone;
    assert OfIp(c, s.store.Keys, ip) == OfIp(c, s.store.Keys - gone, ip) + OfIp(c, gone, ip);
  }

  lemma BatchOf(c: Caps, gone: set<Key>, ch: Choice, ip: Ip)
    requires gone != {}
    ensures var b := Batch(c, gone, ch);
      |OfIp(c, gone - b, ip)| == |OfIp(c, gone, ip)| - if KeyOf(c, Pick(gone, ch.key)) == ip then |b| else 0
  {
    OfDrop(IpOf(c), gone, Batch(c, gone, ch), KeyOf(c, Pick(gone, ch.key)), ip);
  }

  lemma EmptyOf(c: Caps, ip: Ip)
    ensures OfIp(c, {}, ip) == {}
  {
  }

  /** What the mover alone contributes to the due count. */
  ghost function Share(c: Caps, s: Sys, pc: Pc, ip: Ip): int {
    Stored(c, s, ip) - UpAt(ip, pc) + DownAt(c, ip, pc)
  }

  lemma SweeperDue(c: Caps, s: Sys, t: Tid, ch: Choice, ip: Ip)
    requires CanMove(c, s, t) && Sweeper(s.pcs[t])
    ensures Share(c, Move(c, s, t, ch), NextPc(c, s, t, s.pcs[t], ch), ip) ==
            Share(c, s, s.pcs[t], ip) + Delta(c, s, s.pcs[t], ch, ip)
  {
    EmptyOf(c, ip);
    match s.pcs[t]
    case Sweep(i) => SweptStored(c, s, i, ch, ip); if i >= c.shards { LastSweep(c, s, i, ch); }
    case Return(_, gone) => if gone != {} { BatchOf(c, gone, ch, ip); }
    case ReturnTotal(_, _, _) =>
  }

  lemma KeyDue(c: Caps, s: Sys, t: Tid, ch: Choice, ip: Ip)
    requires CanMove(c, s, t) && (s.pcs[t].Put? || s.pcs[t].Remove?)
    ensures Share(c, Move(c, s, t, ch), NextPc(c, s, t, s.pcs[t], ch), ip) ==
            Share(c, s, s.pcs[t], ip) + Delta(c, s, s.pcs[t], ch, ip)
  {
    var k := s.pcs[t].k;
    assert PcOk(c, s, t, s.pcs[t]);
    PutStored(c, s.store, k, s.next, ip);
    RemoveStored(c, s.store, k, ip);
  }

  lemma QuietDue(c: Caps, s: Sys, t: Tid, ch: Choice, ip: Ip)
    requires CanMove(c, s, t) && !Sweeper(s.pcs[t]) && !s.pcs[t].Put? && !s.pcs[t].Remove?
    ensures Share(c, Move(c, s, t, ch), NextPc(c, s, t, s.pcs[t], ch), ip) ==
            Share(c, s, s.pcs[t], ip) + Delta(c, s, s.pcs[t], ch, ip)
  {
    assert PcOk(c, s, t, s.pcs[t]);
  }

  lemma WorkerDue(c: Caps, s: Sys, t: Tid, ch: Choice, ip: Ip)
    requires CanMove(c, s, t) && !Sweeper(s.pcs[t])
    ensures Share(c, Move(c, s, t, ch), NextPc(c, s, t, s.pcs[t], ch), ip) ==
            Share(c, s, s.pcs[t], ip) + Delta(c, s, s.pcs[t], ch, ip)
  {
    if s.pcs[t].Put? || s.pcs[t].Remove? { KeyDue(c, s, t, ch, ip); } else { QuietDue(c, s, t, ch, ip); }
  }

  lemma MoveDue(c: Caps, s: Sys, t: Tid, ch: Choice, ip: Ip)
    requires CanMove(c, s, t)
    ensures Due(c, Move(c, s, t, ch), ip) == Due(c, s, ip) + Delta(c, s, s.pcs[t], ch, ip)
  {
    TotalUpdate(UpIp(ip), s.pcs, t, NextPc(c, s, t, s.pcs[t], ch));
    TotalUpdate(DownIp(c, ip), s.pcs, t, NextPc(c, s, t, s.pcs[t], ch));
    if Sweeper(s.pcs[t]) { SweeperDue(c, s, t, ch, ip); } else { WorkerDue(c, s, t, ch, ip); }
  }

  /** The due count falls below zero by at most the insertions not yet counted. */
  lemma DueAtLeast(c: Caps, s: Sys, ip: Ip)
    requires Inv(c, s)
    ensures Due(c, s, ip) + c.workers >= 0
  {
    forall t | 0 <= t < |s.pcs| && UpIp(ip)(s.pcs[t]) == 1 ensures t < c.workers {
      assert PcOk(c, s, t, s.pcs[t]);
    }
    CountedBelow(UpIp(ip), s.pcs, c.workers);
    TotalNonNegative(DownIp(c, ip), s.pcs);
  }

  lemma MoveExcess(c: Caps, s: Sys, t: Tid, ch: Choice, ip: Ip)
    requires CanMove(c, s, t) && ExcessOk(c, s, ip)
    ensures ExcessOk(c, Move(c, s, t, ch), ip)
  {
    CountMoves(c, s, s.pcs[t], ch, ip);
    MoveDue(c, s, t, ch, ip);
    MoveInv(c, s, t, ch);
    DueAtLeast(c, Move(c, s, t, ch), ip);
  }

  // ----- the caps -----

  /** Found space in the store and is not in the total yet. */
  function PastTotal(): Weight {
    (pc: Pc) => if (pc.Put? && !pc.known) || pc.AddCount? || pc.AddTotal? then 1 else 0
  }

  ghost predicate GlobalOk(c: Caps, s: Sys) {
    s.total + Total(PastTotal(), s.pcs) <= c.maxPendingGlobal + c.workers - 1
  }

  lemma MoveGlobal(c: Caps, s: Sys, t: Tid, ch: Choice)
    requires CanMove(c, s, t) && GlobalOk(c, s)
    ensures GlobalOk(c, Move(c, s, t, ch))
  {
    TotalUpdate(PastTotal(), s.pcs, t, NextPc(c, s, t, s.pcs[t], ch));
    MoveInv(c, s, t, ch);
    var s' := Move(c, s, t, ch);
    forall u | 0 <= u < |s'.pcs| && PastTotal()(s'.pcs[u]) == 1 ensures u < c.workers {
      assert PcOk(c, s', u, s'.pcs[u]);
    }
    CountedBelow(PastTotal(), s'.pcs, c.workers);
  }

  /** Found space for the key and is not in its count yet. */
  predicate PastKey(c: Caps, ip: Ip, pc: Pc) {
    match pc
    case Budget(k) => KeyOf(c, k) == ip
    case Put(k, known) => KeyOf(c, k) == ip
    case AddCount(ip') => ip' == ip
    case _ => false
  }

  function PastIp(c: Caps, ip: Ip): Weight {
    (pc: Pc) => if PastKey(c, ip, pc) then 1 else 0
  }

  ghost predicate KeyOk(c: Caps, s: Sys, ip: Ip) {
    CountOf(s.counts, ip) + Total(PastIp(c, ip), s.pcs) <= c.maxPendingPerIP + c.workers - 1
  }

  lemma MoveKey(c: Caps, s: Sys, t: Tid, ch: Choice, ip: Ip)
    requires CanMove(c, s, t) && KeyOk(c, s, ip) && CountOf(s.counts, ip) >= 0
    ensures KeyOk(c, Move(c, s, t, ch), ip)
  {
    TotalUpdate(PastIp(c, ip), s.pcs, t, NextPc(c, s, t, s.pcs[t], ch));
    CountMoves(c, s, s.pcs[t], ch, ip);
    MoveInv(c, s, t, ch);
    PastAtMost(c, Move(c, s, t, ch), ip);
  }

  lemma PastAtMost(c: Caps, s: Sys, ip: Ip)
    requires Inv(c, s)
    ensures Total(PastIp(c, ip), s.pcs) <= c.workers
  {
    forall u | 0 <= u < |s.pcs| && PastIp(c, ip)(s.pcs[u]) == 1 ensures u < c.workers {
      assert PcOk(c, s, u, s.pcs[u]);
    }
    CountedBelow(PastIp(c, ip), s.pcs, c.workers);
  }

  // ----- admissions on one challenge -----

  predicate HoldsId(id: Id, pc: Pc) {
    match pc
    case Found(_, id') => id' == id
    case Remove(_, id', late) => id' == id && !late
    case SubCount(_, join) => join == Some(id)
    case SubTotal(join) => join == Some(id)
    case Join(id') => id' == id
    case _ => false
  }

  function Holding(id: Id): Weight {
    (pc: Pc) => if HoldsId(id, pc) then 1 else 0
  }

  ghost predicate Live(s: Sys, id: Id) {
    id >= s.next || exists k :: k in s.store && s.store[k] == id
  }

  ghost predicate AdmitOk(c: Caps, s: Sys, id: Id) {
    && AdmitsOf(s, id) + Total(Holding(id), s.pcs) <= c.workers
    && (Live(s, id) ==> AdmitsOf(s, id) == 0)
  }

  lemma HoldersAtMost(c: Caps, s: Sys, id: Id)
    requires Inv(c, s)
    ensures Total(Holding(id), s.pcs) <= c.workers
  {
    forall u | 0 <= u < |s.pcs| && Holding(id)(s.pcs[u]) == 1 ensures u < c.workers {
      assert PcOk(c, s, u, s.pcs[u]);
    }
    CountedBelow(Holding(id), s.pcs, c.workers);
  }

  /** A challenge that is gone does not come back. */
  lemma StaysGone(c: Caps, s: Sys, t: Tid, ch: Choice, id: Id)
    requires CanMove(c, s, t) && Live(Move(c, s, t, ch), id)
    ensures Live(s, id)
  {
    var s' := Move(c, s, t, ch);
    if id < s'.next {
      var k :| k in s'.store && s'.store[k] == id;
      assert id < s.next ==> k in s.store && s.store[k] == id;
    }
  }

  lemma MoveAdmit(c: Caps, s: Sys, t: Tid, ch: Choice, id: Id)
    requires CanMove(c, s, t) && AdmitOk(c, s, id)
    ensures AdmitOk(c, Move(c, s, t, ch), id)
  {
    var s', pc := Move(c, s, t, ch), s.pcs[t];
    assert PcOk(c, s, t, pc);
    TotalUpdate(Holding(id), s.pcs, t, NextPc(c, s, t, pc, ch));
    MoveInv(c, s, t, ch);
    HoldersAtMost(c, s', id);
    if Live(s', id) { StaysGone(c, s, t, ch, id); }
  }

  // ----- runs -----

  ghost predicate Bounded(c: Caps, s: Sys) {
    && TotalOk(s) && GlobalOk(c, s)
    && (forall ip :: ExcessOk(c, s, ip) && KeyOk(c, s, ip))
    && (forall id: nat :: AdmitOk(c, s, id))
  }

  lemma InitTotals(c: Caps, w: Weight)
    requires w(Idle) == 0
    ensures Total(w, Init(c).pcs) == 0
  {
    TotalSame(w, c.workers + 1, Idle);
  }

  lemma InitIp(c: Caps, ip: Ip)
    ensures ExcessOk(c, Init(c), ip) && KeyOk(c, Init(c), ip)
  {
    InitTotals(c, UpIp(ip));
    InitTotals(c, DownIp(c, ip));
    InitTotals(c, PastIp(c, ip));
    EmptyOf(c, ip);
  }

  lemma InitBounded(c: Caps)
    ensures Bounded(c, Init(c))
  {
    InitTotals(c, UpTotal());
    InitTotals(c, DownTotal());
    InitTotals(c, PastTotal());
    forall ip ensures ExcessOk(c, Init(c), ip) && KeyOk(c, Init(c), ip) {
      InitIp(c, ip);
    }
    forall id: nat ensures AdmitOk(c, Init(c), id) {
      InitTotals(c, Holding(id));
    }
  }

  lemma StepBounded(c: Caps, s: Sys, t: Tid, ch: Choice)
    requires CanMove(c, s, t) && Bounded(c, s)
    ensures Bounded(c, Move(c, s, t, ch))
  {
    MoveTotal(c, s, t, ch);
    MoveGlobal(c, s, t, ch);
    forall ip ensures ExcessOk(c, Move(c, s, t, ch), ip) && KeyOk(c, Move(c, s, t, ch), ip) {
      assert ExcessOk(c, s, ip) && KeyOk(c, s, ip);
      MoveExcess(c, s, t, ch, ip);
      MoveKey(c, s, t, ch, ip);
    }
    forall id: nat ensures AdmitOk(c, Move(c, s, t, ch), id) {
      MoveAdmit(c, s, t, ch, id);
    }
  }

  lemma {:induction false} ExecBounded(c: Caps, turns: seq<Turn>)
    ensures Bounded(c, Exec(c, turns))
  {
    if turns == [] {
      InitBounded(c);
    } else {
      var n := |turns| - 1;
      ExecBounded(c, turns[..n]);
      ExecInv(c, turns[..n]);
      var s := Exec(c, turns[..n]);
      if CanTurn(c, s, turns[n]) { StepBounded(c, s, turns[n].t, turns[n].ch); }
    }
  }

  /** One challenge admits at most as often as there are workers. */
  lemma AdmissionsBounded(c: Caps, turns: seq<Turn>, id: Id)
    ensures AdmitsOf(Exec(c, turns), id) <= c.workers
  {
    ExecBounded(c, turns);
    assert AdmitOk(c, Exec(c, turns), id);
    TotalNonNegative(Holding(id), Exec(c, turns).pcs);
  }

  ghost predicate AllIdle(s: Sys) {
    forall t | 0 <= t < |s.pcs| :: s.pcs[t].Idle?
  }

  /** When nobody is at work the total is exact, and a key's count is never too low and too
      high by at most the number of workers. */
  lemma CountsBounded(c: Caps, turns: seq<Turn>, ip: Ip)
    requires AllIdle(Exec(c, turns))
    ensures var s := Exec(c, turns);
      s.total == |s.store| && Stored(c, s, ip) <= CountOf(s.counts, ip) <= Stored(c, s, ip) + c.workers
  {
    ExecBounded(c, turns);
    var s := Exec(c, turns);
    assert ExcessOk(c, s, ip);
    IdleTotals(s, UpTotal());
    IdleTotals(s, DownTotal());
    IdleTotals(s, UpIp(ip));
    IdleTotals(s, DownIp(c, ip));
  }

  lemma IdleTotals(s: Sys, w: Weight)
    requires AllIdle(s) && w(Idle) == 0
    ensures Total(w, s.pcs) == 0
  {
    assert s.pcs == seq(|s.pcs|, _ => Idle);
    TotalSame(w, |s.pcs|, Idle);
  }

  /** The most challenges of one key the store can hold. */
  function MostOfKey(c: Caps): int {
    (if c.maxPendingPerIP <= c.maxPendingGlobal then c.maxPendingPerIP else c.maxPendingGlobal) + c.workers - 1
  }

  /** Under every interleaving the store holds at most maxPendingGlobal + workers - 1
      challenges, and of one key no more than the smaller of both caps + workers - 1. */
  lemma StoreBounded(c: Caps, turns: seq<Turn>, ip: Ip)
    ensures var s := Exec(c, turns);
      && |s.store| <= c.maxPendingGlobal + c.workers - 1
      && Stored(c, s, ip) <= MostOfKey(c)
  {
    ExecBounded(c, turns);
    var s := Exec(c, turns);
    assert ExcessOk(c, s, ip) && KeyOk(c, s, ip);
    TotalNonNegative(DownTotal(), s.pcs);
    TotalNonNegative(DownIp(c, ip), s.pcs);
    TotalAtMost(UpTotal(), PastTotal(), s.pcs);
    TotalAtMost(UpIp(ip), PastIp(c, ip), s.pcs);
    StoredAtMost(c, s, ip);
  }

  lemma StoredAtMost(c: Caps, s: Sys, ip: Ip)
    ensures Stored(c, s, ip) <= |s.store|
  {
    var all, part := s.store.Keys, OfIp(c, s.store.Keys, ip);
    assert all == part + (all - part);
  }
}
