/** One stay of a client in a room: it is admitted at most once more while it stays, so
    its messages keep a rate although an admission brings a new limiter. */
module RelayStays {
  import opened Text
  import opened RelaySpec
  import opened RelayProvenance
  import opened RelayRates
  import opened RelayMsgRates

  /** A client that stays is not challenged. */
  ghost predicate StayLaw(step: Machine, s: State, i: Input, q: Key) {
    ClientAt(s.rooms, q) && ClientAt(step(s, i).0.rooms, q) ==> !Issues(step, s, i, q, false)
  }

  ghost predicate Unchallenged(step: Machine) {
    forall s, i, q :: StayLaw(step, s, i, q)
  }

  lemma ChallengedIsOut(c: Config, rooms: RoomMap, stored: nat, room: Room, src: Addr, now: Time, rnd: Option<Bytes>)
    requires room in rooms && Revisit(c, rooms, stored, room, src, now, rnd).1.Challenged?
    ensures !ClientAt(Revisit(c, rooms, stored, room, src, now, rnd).0, Key(room, src))
  {
  }

  lemma RelayUnchallenged(c: Config)
    ensures Unchallenged(StepOf(c))
  {
    forall s, i, q ensures StayLaw(StepOf(c), s, i, q) {
      if ClientAt(s.rooms, q) && Issues(StepOf(c), s, i, q, false) { ChallengedOut(c, s, i, q); }
    }
  }

  lemma ChallengedOut(c: Config, s: State, i: Input, q: Key)
    requires q.room in s.rooms && Issues(StepOf(c), s, i, q, false)
    ensures !ClientAt(Step(c, s, i).0.rooms, q)
  {
    var Reg(room, cookie, src, rnd) := i.ev;
    if cookie == "" {
      ChallengedIsOut(c, s.rooms, |StoreOf(c, s.store, c.ipKey(src))|, room, src, i.now, rnd);
    } else {
      NoChallenge(c, s, i);
    }
  }

  /** A REG with a cookie for an existing room is not answered with a challenge. */
  lemma NoChallenge(c: Config, s: State, i: Input)
    requires i.ev.Reg? && i.ev.cookie != "" && i.ev.room in s.rooms
    ensures !Step(c, s, i).1.Challenged?
  {
    var Reg(room, cookie, src, rnd) := i.ev;
    EnterReplies(c, s.rooms, room, src, i.now);
    if GoodCookie(cookie) { AdmitMoves(c, s.rooms, room, CookieBytes(cookie), src, i.now, Key(room, src)); }
  }

  // ----- runs -----

  /** No client has a challenge in the store. */
  lemma {:induction false} ClientNotStored(step: Machine, ins: seq<Input>, i: nat, q: Key)
    requires Lawful(step) && i <= |ins| && ClientAt(Before(step, ins, i).rooms, q)
    ensures q !in Before(step, ins, i).store
  {
    if i == 0 {
    } else {
      BeforeNext(step, ins, i - 1);
      assert StepFrom(step, Before(step, ins, i - 1), ins[i - 1], q);
      if ClientAt(Before(step, ins, i - 1).rooms, q) { ClientNotStored(step, ins, i - 1, q); }
    }
  }

  /** q is a client in every state in which an input from lo to hi - 1 arrives. */
  ghost predicate StaysFor(step: Machine, ins: seq<Input>, lo: nat, hi: nat, q: Key)
    requires lo <= hi <= |ins|
  {
    forall m | lo <= m < hi :: ClientAt(Before(step, ins, m).rooms, q)
  }

  /** While q stays, an admission of it spends a challenge of the room. */
  lemma AdmittedFromRoom(step: Machine, ins: seq<Input>, lo: nat, hi: nat, m: nat, q: Key, inStore: bool)
    requires Lawful(step) && lo <= m < hi <= |ins| && StaysFor(step, ins, lo, hi, q)
      && AdmitsAt(step, ins, m, q, inStore)
    ensures !inStore
  {
    ClientNotStored(step, ins, m, q);
  }

  /** While q stays, it is admitted at most once more. */
  lemma OneReadmission(step: Machine, ins: seq<Input>, lo: nat, hi: nat, m1: nat, m2: nat, q: Key, b1: bool, b2: bool)
    requires Lawful(step) && Unchallenged(step) && lo <= hi <= |ins| && StaysFor(step, ins, lo, hi, q)
    requires lo <= m1 < hi && lo <= m2 < hi && AdmitsAt(step, ins, m1, q, b1) && AdmitsAt(step, ins, m2, q, b2)
    ensures m1 == m2
  {
    AdmittedFromRoom(step, ins, lo, hi, m1, q, b1);
    AdmittedFromRoom(step, ins, lo, hi, m2, q, b2);
    if m1 < m2 {
      NotAgain(step, ins, lo, hi, m1, m2, q);
    } else if m2 < m1 {
      NotAgain(step, ins, lo, hi, m2, m1, q);
    }
  }

  lemma NotAgain(step: Machine, ins: seq<Input>, lo: nat, hi: nat, m1: nat, m2: nat, q: Key)
    requires Lawful(step) && Unchallenged(step) && lo <= m1 < m2 < hi <= |ins| && StaysFor(step, ins, lo, hi, q)
    requires AdmitsAt(step, ins, m1, q, false)
    ensures !AdmitsAt(step, ins, m2, q, false)
  {
    forall k | m1 <= k < m2 ensures !IssuesAt(step, ins, k, q, false) {
      BeforeNext(step, ins, k);
      assert StayLaw(step, Before(step, ins, k), ins[k], q);
    }
    if AdmitsAt(step, ins, m2, q, false) {
      var k := AdmissionOrigin(step, ins, m2, q, false);
    }
  }

  /** While a client stays in a room it is admitted at most once more, on a challenge of
      the room that was left over from before its stay. */
  lemma ReadmittedOnce(c: Config, ins: seq<Input>, lo: nat, hi: nat, m: nat, q: Key, inStore: bool)
    requires lo <= m < hi <= |ins| && StaysFor(StepOf(c), ins, lo, hi, q) && AdmitsAt(StepOf(c), ins, m, q, inStore)
    ensures !inStore
    ensures forall m', b: bool | lo <= m' < hi && AdmitsAt(StepOf(c), ins, m', q, b) :: m' == m
  {
    RelayLawful(c);
    RelayUnchallenged(c);
    AdmittedFromRoom(StepOf(c), ins, lo, hi, m, q, inStore);
    forall m', b: bool | lo <= m' < hi && AdmitsAt(StepOf(c), ins, m', q, b) ensures m' == m {
      OneReadmission(StepOf(c), ins, lo, hi, m, m', q, inStore, b);
    }
  }

  lemma OneAdmission(c: Config, ins: seq<Input>, lo: nat, hi: nat, q: Key)
    requires lo <= hi <= |ins| && StaysFor(StepOf(c), ins, lo, hi, q)
    ensures |Admitted(StepOf(c), ins, lo, hi, q)| <= 1
  {
    var which := Admitted(StepOf(c), ins, lo, hi, q);
    if m :| m in which {
      forall m' | m' in which ensures m' == m {
        var b: bool :| AdmitsAt(StepOf(c), ins, m, q, b);
        ReadmittedOnce(c, ins, lo, hi, m, q, b);
      }
      assert which == {m};
    }
  }

  /** While a client stays in a room, at most 3 * maxMsgRate of its messages are passed on
      within one window's length, admitted again or not. */
  lemma StayRate(c: Config, ins: seq<Input>, lo: nat, hi: nat, q: Key)
    requires ClockOk(ins) && lo < hi <= |ins| && ins[hi - 1].now - ins[lo].now <= c.rateWindow
    requires StaysFor(StepOf(c), ins, lo, hi, q)
    ensures |MsgPassed(StepOf(c), ins, lo, hi, q)| <= 3 * c.maxMsgRate
  {
    MsgRateBound(c, ins, lo, hi, q);
    OneAdmission(c, ins, lo, hi, q);
    AtMostThree(|Admitted(StepOf(c), ins, lo, hi, q)|, c.maxMsgRate);
  }

  lemma AtMostThree(n: nat, rate: nat)
    requires n <= 1
    ensures (2 + n) * rate <= 3 * rate
  {
  }
}
