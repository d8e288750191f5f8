/** Sliding-window consequence of the fixed-window limiters: whatever the packets and
    cleanup ticks, at most twice the limit passes in any interval of one window. */
module RelayRates {
  import opened Text
  import opened RelaySpec
  import opened RelayProvenance

  // ----- one limiter -----

  /** What one step does to one limiter. */
  datatype Beat = Beat(now: Time, passed: bool, before: Option<RegWindow>, after: Option<RegWindow>)

  /** A pass opens a window or uses up one unit of the open one; nothing else changes a
      window, but it may be dropped.  If a dropped limiter can be opened again, it is
      dropped only after two windows. */
  ghost predicate Meter(window: nat, rate: pos, reopens: bool, x: Beat) {
    if x.passed then
      && x.after.Some?
      && (x.before.None? ==> reopens)
      && if x.before.None? || x.now - x.before.value.start > window then x.after.value == RegWindow(1, x.now)
         else x.before.value.sent < rate && x.after.value == RegWindow(x.before.value.sent + 1, x.before.value.start)
    else
      || x.after == x.before
      || (x.after.None? && (reopens ==> x.now - x.before.value.start > 2 * window))
  }

  predicate Follows(x: Beat, y: Beat) {
    x.after == y.before && x.now <= y.now
  }

  /** Steps of one limiter in order, on a clock that never goes back. */
  ghost predicate Track(window: nat, rate: pos, reopens: bool, h: seq<Beat>) {
    && (forall i | 0 <= i < |h| :: Meter(window, rate, reopens, h[i]))
    && (forall i | 0 <= i < |h| - 1 :: Follows(h[i], h[i + 1]))
    && (h != [] && h[0].before.Some? ==> h[0].before.value.sent <= rate && h[0].before.value.start <= h[0].now)
  }

  function Passes(h: seq<Beat>): nat {
    if h == [] then 0 else Passes(h[..|h| - 1]) + if h[|h| - 1].passed then 1 else 0
  }

  /** From t on, at most `rate` passes fall in a window opened before t, and `rate` in one opened since. */
  ghost predicate Budget(rate: pos, reopens: bool, t: Time, w: Option<RegWindow>, count: nat) {
    match w
    case None => count <= if reopens then 0 else 2 * rate
    case Some(v) => v.sent <= rate && count <= v.sent + if v.start < t then 0 else rate
  }

  lemma BudgetStep(window: nat, rate: pos, reopens: bool, t: Time, x: Beat, count: nat)
    requires Meter(window, rate, reopens, x) && t <= x.now <= t + window
    requires Budget(rate, reopens, t, x.before, count)
    requires reopens && count > 0 && x.before.Some? ==> t <= x.before.value.start + window
    ensures Budget(rate, reopens, t, x.after, count + if x.passed then 1 else 0)
    ensures reopens && (count > 0 || x.passed) && x.after.Some? ==> t <= x.after.value.start + window
  {
  }

  /** Never more than twice the rate within one window's length. */
  lemma {:induction false} TrackBudget(window: nat, rate: pos, reopens: bool, h: seq<Beat>)
    requires Track(window, rate, reopens, h) && h != [] && h[|h| - 1].now - h[0].now <= window
    ensures Budget(rate, reopens, h[0].now, h[|h| - 1].after, Passes(h))
    ensures h[0].now <= h[|h| - 1].now
    ensures reopens && Passes(h) > 0 && h[|h| - 1].after.Some? ==> h[0].now <= h[|h| - 1].after.value.start + window
  {
    var g := h[..|h| - 1];
    if g != [] {
      assert forall i | 0 <= i < |g| :: g[i] == h[i];
      TrackBudget(window, rate, reopens, g);
      assert h[|h| - 2].after == h[|h| - 1].before;
    }
    BudgetStep(window, rate, reopens, h[0].now, h[|h| - 1], Passes(g));
  }

  /** `Passes` is the size of the set of passing positions, numbered from lo. */
  lemma {:induction false} PassesSet(h: seq<Beat>, lo: nat, which: set<nat>)
    requires forall i :: i in which <==> lo <= i < lo + |h| && h[i - lo].passed
    ensures Passes(h) == |which|
  {
    if h == [] {
      assert which == {};
    } else {
      var g, n := h[..|h| - 1], lo + |h| - 1;
      PassesSet(g, lo, which - {n});
      assert !h[n - lo].passed ==> which - {n} == which;
    }
  }

  lemma TrackBound(window: nat, rate: pos, reopens: bool, h: seq<Beat>, lo: nat, which: set<nat>)
    requires Track(window, rate, reopens, h) && h != [] && h[|h| - 1].now - h[0].now <= window
    requires forall i :: i in which <==> lo <= i < lo + |h| && h[i - lo].passed
    ensures |which| <= 2 * rate
  {
    TrackBudget(window, rate, reopens, h);
    PassesSet(h, lo, which);
  }

  // ----- REG: one window per address key -----

  function WindowAt(s: State, ip: Ip): Option<RegWindow> {
    if ip in s.reg then Some(s.reg[ip]) else None
  }

  predicate RegPasses(c: Config, step: Machine, s: State, i: Input, ip: Ip) {
    i.ev.Reg? && c.ipKey(i.ev.src) == ip && step(s, i).1 != Drop(RateLimited)
  }

  ghost predicate RegMeter(c: Config, step: Machine, s: State, i: Input, ip: Ip) {
    Meter(c.rateWindow, c.maxRegRate, true,
          Beat(i.now, RegPasses(c, step, s, i, ip), WindowAt(s, ip), WindowAt(step(s, i).0, ip)))
  }

  lemma EnterNotLimited(c: Config, rooms: RoomMap, room: Room, src: Addr, now: Time)
    ensures Enter(c, rooms, room, src, now).1 != Drop(RateLimited)
  {
  }

  lemma RevisitNotLimited(c: Config, rooms: RoomMap, stored: nat, room: Room, src: Addr, now: Time, rnd: Option<Bytes>)
    requires room in rooms
    ensures Revisit(c, rooms, stored, room, src, now, rnd).1 != Drop(RateLimited)
  {
  }

  lemma AdmitNotLimited(c: Config, rooms: RoomMap, room: Room, cookie: Bytes, src: Addr, now: Time)
    requires room in rooms
    ensures Admit(c, rooms, room, cookie, src, now).1 != Drop(RateLimited)
  {
  }

  lemma CookieNotLimited(c: Config, s: State, room: Room, cookie: Bytes, src: Addr, now: Time, rnd: Option<Bytes>)
    ensures WithCookie(c, s, room, cookie, src, now, rnd).1 != Drop(RateLimited)
  {
    if Key(room, src) in s.store {
      EnterNotLimited(c, s.rooms, room, src, now);
    } else if room in s.rooms {
      AdmitNotLimited(c, s.rooms, room, cookie, src, now);
    }
  }

  lemma InitialNotLimited(c: Config, s: State, room: Room, src: Addr, now: Time, rnd: Option<Bytes>)
    ensures WithoutCookie(c, s, room, src, now, rnd).1 != Drop(RateLimited)
  {
    if room in s.rooms { RevisitNotLimited(c, s.rooms, |StoreOf(c, s.store, c.ipKey(src))|, room, src, now, rnd); }
  }

  /** Past the limiter, no packet changes a window ... */
  lemma AllowedKeepsWindows(c: Config, s: State, room: Room, cookie: string, src: Addr, now: Time, rnd: Option<Bytes>)
    ensures RegAllowed(c, s, room, cookie, src, now, rnd).0.reg == s.reg
  {
  }

  /** ... or is called rate limited. */
  lemma AllowedNotLimited(c: Config, s: State, room: Room, cookie: string, src: Addr, now: Time, rnd: Option<Bytes>)
    ensures RegAllowed(c, s, room, cookie, src, now, rnd).1 != Drop(RateLimited)
  {
    if cookie == "" {
      InitialNotLimited(c, s, room, src, now, rnd);
    } else if GoodCookie(cookie) {
      CookieNotLimited(c, s, room, CookieBytes(cookie), src, now, rnd);
    }
  }

  lemma RegMeters(c: Config, s: State, i: Input, ip: Ip)
    ensures RegMeter(c, StepOf(c), s, i, ip)
  {
    if i.ev.Reg? {
      var s0 := s.(reg := RegLimit(c, s.reg, c.ipKey(i.ev.src), i.now).0);
      AllowedKeepsWindows(c, s0, i.ev.room, i.ev.cookie, i.ev.src, i.now, i.ev.rnd);
      AllowedNotLimited(c, s0, i.ev.room, i.ev.cookie, i.ev.src, i.now, i.ev.rnd);
    }
  }

  // ----- MSG: one limiter per admitted client -----

  function LimiterAt(rooms: RoomMap, q: Key): Option<RegWindow> {
    if !ClientAt(rooms, q) then None else
    var l := rooms[q.room].clients[q.src].limiter;
    Some(RegWindow(l.msgCount, l.windowStart))
  }

  /** q keeps its limiter or goes; unless it is newly admitted, with a new limiter. */
  predicate Keeps(rooms: RoomMap, rooms': RoomMap, q: Key, now: Time, admitted: bool) {
    if admitted then LimiterAt(rooms', q) == Some(RegWindow(0, now))
    else LimiterAt(rooms', q).None? || LimiterAt(rooms', q) == LimiterAt(rooms, q)
  }

  lemma SweepLimits(c: Config, rooms: RoomMap, room: Room, now: Time, q: Key)
    requires room in rooms
    ensures Keeps(rooms, rooms[room := Sweep(c, rooms[room], now)], q, now, false)
  {
  }

  lemma EvictLimits(c: Config, rooms: RoomMap, which: set<Room>, now: Time, q: Key)
    ensures Keeps(rooms, Evict(c, rooms, which, now), q, now, false)
  {
  }

  lemma JoinLimits(c: Config, rooms: RoomMap, room: Room, src: Addr, now: Time, q: Key)
    requires room in rooms
    ensures var r := Join(c, rooms, room, src, now);
      Keeps(rooms, r.0, q, now, q == Key(room, src) && r.1.Registered?)
  {
    SweepLimits(c, rooms, room, now, q);
  }

  lemma CreateLimits(c: Config, rooms: RoomMap, room: Room, src: Addr, now: Time, q: Key)
    requires room !in rooms
    ensures var r := Create(c, rooms, room, src, now);
      Keeps(rooms, r.0, q, now, q == Key(room, src) && r.1.Registered?)
  {
    EvictLimits(c, rooms, ShardRooms(c, rooms, Shard(c, room)), now, q);
  }

  lemma EnterLimits(c: Config, rooms: RoomMap, room: Room, src: Addr, now: Time, q: Key)
    ensures var r := Enter(c, rooms, room, src, now);
      Keeps(rooms, r.0, q, now, q == Key(room, src) && r.1.Registered?) && !r.1.Relayed?
  {
    EvictLimits(c, rooms, rooms.Keys, now, q);
    var rooms1 := if |rooms| >= c.maxRooms then Evict(c, rooms, rooms.Keys, now) else rooms;
    if room in rooms1 { JoinLimits(c, rooms1, room, src, now, q); } else { CreateLimits(c, rooms1, room, src, now, q); }
  }

  lemma AdmitLimits(c: Config, rooms: RoomMap, room: Room, cookie: Bytes, src: Addr, now: Time, q: Key)
    requires room in rooms
    ensures var r := Admit(c, rooms, room, cookie, src, now);
      Keeps(rooms, r.0, q, now, q == Key(room, src) && r.1.Registered?) && !r.1.Relayed?
  {
    SweepLimits(c, rooms, room, now, q);
  }

  lemma RevisitLimits(c: Config, rooms: RoomMap, stored: nat, room: Room, src: Addr, now: Time,
      rnd: Option<Bytes>, q: Key)
    requires room in rooms
    ensures var r := Revisit(c, rooms, stored, room, src, now, rnd); Keeps(rooms, r.0, q, now, false) && !r.1.Relayed?
  {
    SweepLimits(c, rooms, room, now, q);
  }

  predicate MsgPasses(step: Machine, s: State, i: Input, q: Key) {
    i.ev == Msg(q.room, q.src) && step(s, i).1.Relayed?
  }

  ghost predicate MsgMeter(c: Config, step: Machine, s: State, i: Input, q: Key) {
    if Admits(step, s, i, q, q in s.store) then LimiterAt(step(s, i).0.rooms, q) == Some(RegWindow(0, i.now))
    else Meter(c.rateWindow, c.maxMsgRate, false,
               Beat(i.now, MsgPasses(step, s, i, q), LimiterAt(s.rooms, q), LimiterAt(step(s, i).0.rooms, q)))
  }

  lemma MsgStepMeters(c: Config, s: State, i: Input, q: Key)
    requires i.ev.Msg?
    ensures MsgMeter(c, StepOf(c), s, i, q)
  {
  }

  /** A cookie for a pair the store knows either enters the room or leaves the rooms alone. */
  lemma StoredStep(c: Config, s: State, i: Input)
    requires i.ev.Reg? && GoodCookie(i.ev.cookie) && Key(i.ev.room, i.ev.src) in s.store
    ensures var r, e := Step(c, s, i), Enter(c, s.rooms, i.ev.room, i.ev.src, i.now);
      (r.0.rooms == s.rooms && r.1.Drop?) || (r.0.rooms == e.0 && r.1 == e.1)
  {
  }

  lemma EnterReplies(c: Config, rooms: RoomMap, room: Room, src: Addr, now: Time)
    ensures var r := Enter(c, rooms, room, src, now); r.1.Drop? || r.1 == Registered(src)
  {
  }

  lemma StoredCookieMeters(c: Config, s: State, i: Input, q: Key)
    requires i.ev.Reg? && GoodCookie(i.ev.cookie) && Key(i.ev.room, i.ev.src) in s.store
    ensures MsgMeter(c, StepOf(c), s, i, q)
  {
    StoredStep(c, s, i);
    EnterReplies(c, s.rooms, i.ev.room, i.ev.src, i.now);
    EnterLimits(c, s.rooms, i.ev.room, i.ev.src, i.now, q);
  }

  lemma RoomCookieMeters(c: Config, s: State, i: Input, q: Key)
    requires i.ev.Reg? && GoodCookie(i.ev.cookie) && Key(i.ev.room, i.ev.src) !in s.store
    ensures MsgMeter(c, StepOf(c), s, i, q)
  {
    if i.ev.room in s.rooms { AdmitLimits(c, s.rooms, i.ev.room, CookieBytes(i.ev.cookie), i.ev.src, i.now, q); }
  }

  lemma InitialMeters(c: Config, s: State, i: Input, q: Key)
    requires i.ev.Reg? && i.ev.cookie == ""
    ensures MsgMeter(c, StepOf(c), s, i, q)
  {
    var Reg(room, cookie, src, rnd) := i.ev;
    if room in s.rooms { RevisitLimits(c, s.rooms, |StoreOf(c, s.store, c.ipKey(src))|, room, src, i.now, rnd, q); }
  }

  lemma MsgMeters(c: Config, s: State, i: Input, q: Key)
    ensures MsgMeter(c, StepOf(c), s, i, q)
  {
    match i.ev
    case Reg(room, cookie, src, _) =>
      if cookie == "" {
        InitialMeters(c, s, i, q);
      } else if GoodCookie(cookie) {
        if Key(room, src) in s.store { StoredCookieMeters(c, s, i, q); } else { RoomCookieMeters(c, s, i, q); }
      }
    case Msg(_, _) => MsgStepMeters(c, s, i, q);
    case CleanRooms => EvictLimits(c, s.rooms, s.rooms.Keys, i.now, q);
    case CleanRates =>
  }

  // ----- runs -----

  /** A reachable window is within the rate and not from the future. */
  ghost predicate InBounds(rate: pos, w: Option<RegWindow>, now: Time) {
    w.Some? ==> w.value.sent <= rate && w.value.start <= now
  }

  ghost predicate AllReg(c: Config, step: Machine) {
    forall s, i, ip :: RegMeter(c, step, s, i, ip)
  }

  ghost predicate AllMsg(c: Config, step: Machine) {
    forall s, i, q :: MsgMeter(c, step, s, i, q)
  }

  lemma {:induction false} RegInBounds(c: Config, step: Machine, ins: seq<Input>, i: nat, ip: Ip)
    requires AllReg(c, step) && ClockOk(ins) && i < |ins|
    ensures InBounds(c.maxRegRate, WindowAt(Before(step, ins, i), ip), ins[i].now)
  {
    if i == 0 {
    } else {
      RegInBounds(c, step, ins, i - 1, ip);
      BeforeNext(step, ins, i - 1);
      assert RegMeter(c, step, Before(step, ins, i - 1), ins[i - 1], ip);
      assert ins[i - 1].now <= ins[i].now;
    }
  }

  lemma {:induction false} MsgInBounds(c: Config, step: Machine, ins: seq<Input>, i: nat, q: Key)
    requires AllMsg(c, step) && ClockOk(ins) && i < |ins|
    ensures InBounds(c.maxMsgRate, LimiterAt(Before(step, ins, i).rooms, q), ins[i].now)
  {
    if i == 0 {
    } else {
      MsgInBounds(c, step, ins, i - 1, q);
      BeforeNext(step, ins, i - 1);
      assert MsgMeter(c, step, Before(step, ins, i - 1), ins[i - 1], q);
      assert ins[i - 1].now <= ins[i].now;
    }
  }

  function RegPassed(c: Config, step: Machine, ins: seq<Input>, lo: nat, hi: nat, ip: Ip): set<nat>
    requires lo <= hi <= |ins|
  {
    set i | lo <= i < hi && RegPasses(c, step, Before(step, ins, i), ins[i], ip)
  }

  function MsgPassed(step: Machine, ins: seq<Input>, lo: nat, hi: nat, q: Key): set<nat>
    requires lo <= hi <= |ins|
  {
    set i | lo <= i < hi && MsgPasses(step, Before(step, ins, i), ins[i], q)
  }

  function RegBeat(c: Config, step: Machine, ins: seq<Input>, i: nat, ip: Ip): Beat
    requires i < |ins|
  {
    Beat(ins[i].now, RegPasses(c, step, Before(step, ins, i), ins[i], ip),
         WindowAt(Before(step, ins, i), ip), WindowAt(Before(step, ins, i + 1), ip))
  }

  function MsgBeat(step: Machine, ins: seq<Input>, i: nat, q: Key): Beat
    requires i < |ins|
  {
    Beat(ins[i].now, MsgPasses(step, Before(step, ins, i), ins[i], q),
         LimiterAt(Before(step, ins, i).rooms, q), LimiterAt(Before(step, ins, i + 1).rooms, q))
  }

  /** The beats of inputs lo to hi - 1. */
  function Beats(beat: nat -> Beat, lo: nat, hi: nat): (h: seq<Beat>)
    requires lo <= hi
    ensures |h| == hi - lo && forall i | lo <= i < hi :: h[i - lo] == beat(i)
  {
    if lo == hi then [] else Beats(beat, lo, hi - 1) + [beat(hi - 1)]
  }

  predicate Consecutive(beat: nat -> Beat, i: nat) {
    Follows(beat(i), beat(i + 1))
  }

  ghost predicate Paced(window: nat, rate: pos, reopens: bool, beat: nat -> Beat, lo: nat, hi: nat) {
    && lo < hi && InBounds(rate, beat(lo).before, beat(lo).now)
    && (forall i | lo <= i < hi :: Meter(window, rate, reopens, beat(i)))
    && (forall i: nat | lo <= i < hi - 1 :: Consecutive(beat, i))
  }

  /** Consecutive beats of one limiter make a track. */
  lemma BeatsTrack(window: nat, rate: pos, reopens: bool, beat: nat -> Beat, lo: nat, hi: nat)
    requires Paced(window, rate, reopens, beat, lo, hi)
    ensures Track(window, rate, reopens, Beats(beat, lo, hi))
  {
    var h := Beats(beat, lo, hi);
    forall k | 0 <= k < |h| ensures Meter(window, rate, reopens, h[k]) {
      assert h[k + lo - lo] == beat(k + lo);
    }
    forall k | 0 <= k < |h| - 1 ensures Follows(h[k], h[k + 1]) {
      assert Consecutive(beat, k + lo);
      assert h[k + lo - lo] == beat(k + lo) && h[k + 1 + lo - lo] == beat(k + lo + 1);
    }
    assert h[lo - lo] == beat(lo);
  }

  lemma BeatsBound(window: nat, rate: pos, reopens: bool, beat: nat -> Beat, lo: nat, hi: nat, which: set<nat>)
    requires Paced(window, rate, reopens, beat, lo, hi) && beat(hi - 1).now - beat(lo).now <= window
    requires forall i: nat :: i in which <==> lo <= i < hi && beat(i).passed
    ensures |which| <= 2 * rate
  {
    BeatsTrack(window, rate, reopens, beat, lo, hi);
    var h := Beats(beat, lo, hi);
    assert h[hi - 1 - lo] == beat(hi - 1) && h[lo - lo] == beat(lo);
    TrackBound(window, rate, reopens, h, lo, which);
  }

  lemma RegBeatOk(c: Config, step: Machine, ins: seq<Input>, i: nat, ip: Ip)
    requires AllReg(c, step) && i < |ins|
    ensures Meter(c.rateWindow, c.maxRegRate, true, RegBeat(c, step, ins, i, ip))
  {
    BeforeNext(step, ins, i);
    assert RegMeter(c, step, Before(step, ins, i), ins[i], ip);
  }

  function RegBeats(c: Config, step: Machine, ins: seq<Input>, ip: Ip): nat -> Beat {
    (i: nat) => if i < |ins| then RegBeat(c, step, ins, i, ip) else Beat(0, false, None, None)
  }

  lemma RegPaced(c: Config, step: Machine, ins: seq<Input>, lo: nat, hi: nat, ip: Ip)
    requires AllReg(c, step) && ClockOk(ins) && lo < hi <= |ins|
    ensures Paced(c.rateWindow, c.maxRegRate, true, RegBeats(c, step, ins, ip), lo, hi)
  {
    var beat := RegBeats(c, step, ins, ip);
    forall i | lo <= i < hi ensures Meter(c.rateWindow, c.maxRegRate, true, beat(i)) { RegBeatOk(c, step, ins, i, ip); }
    RegInBounds(c, step, ins, lo, ip);
  }

  lemma RegBound(c: Config, step: Machine, ins: seq<Input>, lo: nat, hi: nat, ip: Ip)
    requires AllReg(c, step) && ClockOk(ins) && lo < hi <= |ins| && ins[hi - 1].now - ins[lo].now <= c.rateWindow
    ensures |RegPassed(c, step, ins, lo, hi, ip)| <= 2 * c.maxRegRate
  {
    RegPaced(c, step, ins, lo, hi, ip);
    BeatsBound(c.rateWindow, c.maxRegRate, true, RegBeats(c, step, ins, ip), lo, hi,
      RegPassed(c, step, ins, lo, hi, ip));
  }

  lemma MsgBeatOk(c: Config, step: Machine, ins: seq<Input>, i: nat, q: Key)
    requires AllMsg(c, step) && i < |ins| && forall b: bool :: !AdmitsAt(step, ins, i, q, b)
    ensures Meter(c.rateWindow, c.maxMsgRate, false, MsgBeat(step, ins, i, q))
  {
    BeforeNext(step, ins, i);
    var s := Before(step, ins, i);
    assert MsgMeter(c, step, s, ins[i], q) && !AdmitsAt(step, ins, i, q, q in s.store);
  }

  function MsgBeats(step: Machine, ins: seq<Input>, q: Key): nat -> Beat {
    (i: nat) => if i < |ins| then MsgBeat(step, ins, i, q) else Beat(0, false, None, None)
  }

  lemma MsgPaced(c: Config, step: Machine, ins: seq<Input>, lo: nat, hi: nat, q: Key)
    requires AllMsg(c, step) && ClockOk(ins) && lo < hi <= |ins|
    requires forall j, b: bool | lo <= j < hi :: !AdmitsAt(step, ins, j, q, b)
    ensures Paced(c.rateWindow, c.maxMsgRate, false, MsgBeats(step, ins, q), lo, hi)
  {
    var beat := MsgBeats(step, ins, q);
    forall i | lo <= i < hi ensures Meter(c.rateWindow, c.maxMsgRate, false, beat(i)) { MsgBeatOk(c, step, ins, i, q); }
    MsgInBounds(c, step, ins, lo, q);
  }

  lemma MsgBound(c: Config, step: Machine, ins: seq<Input>, lo: nat, hi: nat, q: Key)
    requires AllMsg(c, step) && ClockOk(ins) && lo < hi <= |ins| && ins[hi - 1].now - ins[lo].now <= c.rateWindow
    requires forall j, b: bool | lo <= j < hi :: !AdmitsAt(step, ins, j, q, b)
    ensures |MsgPassed(step, ins, lo, hi, q)| <= 2 * c.maxMsgRate
  {
    MsgPaced(c, step, ins, lo, hi, q);
    BeatsBound(c.rateWindow, c.maxMsgRate, false, MsgBeats(step, ins, q), lo, hi, MsgPassed(step, ins, lo, hi, q));
  }

  /** On a clock that never goes back, at most 2 * maxRegRate REGs of one key get past the
      limiter within one window's length, cleanup ticks included. */
  lemma RegRate(c: Config, ins: seq<Input>, lo: nat, hi: nat, ip: Ip)
    requires ClockOk(ins) && lo < hi <= |ins| && ins[hi - 1].now - ins[lo].now <= c.rateWindow
    ensures |RegPassed(c, StepOf(c), ins, lo, hi, ip)| <= 2 * c.maxRegRate
  {
    forall s, i, ip' ensures RegMeter(c, StepOf(c), s, i, ip') { RegMeters(c, s, i, ip'); }
    RegBound(c, StepOf(c), ins, lo, hi, ip);
  }

  lemma RelayAllMsg(c: Config)
    ensures AllMsg(c, StepOf(c))
  {
    forall s, i, q ensures MsgMeter(c, StepOf(c), s, i, q) {
      MsgMeters(c, s, i, q);
    }
  }
}
