/** How many messages of a client are passed on within one window's length, whatever
    admissions of it fall in between: each brings a new limiter, but none that opens twice. */
module RelayMsgRates {
  import opened Text
  import opened RelaySpec
  import opened RelayProvenance
  import opened RelayRates

  // ----- a limiter that starts inside the interval -----

  /** The window opened at t has counted every pass since, or is gone. */
  predicate OneWindow(rate: pos, t: Time, w: Option<RegWindow>, count: nat) {
    count <= rate && (w.Some? ==> w.value == RegWindow(count, t))
  }

  lemma {:induction false} FreshBudget(window: nat, rate: pos, t: Time, h: seq<Beat>)
    requires Track(window, rate, false, h) && h != [] && h[0].before == Some(RegWindow(0, t))
    requires t <= h[0].now && h[|h| - 1].now - t <= window
    ensures OneWindow(rate, t, h[|h| - 1].after, Passes(h)) && t <= h[|h| - 1].now
  {
    var g := h[..|h| - 1];
    if g == [] {
    } else {
      assert Follows(h[|h| - 2], h[|h| - 1]);
      assert forall i | 0 <= i < |g| :: g[i] == h[i];
      FreshBudget(window, rate, t, g);
    }
  }

  lemma FreshBound(window: nat, rate: pos, t: Time, beat: nat -> Beat, lo: nat, hi: nat, which: set<nat>)
    requires Paced(window, rate, false, beat, lo, hi) && beat(lo).before == Some(RegWindow(0, t))
    requires t <= beat(lo).now && beat(hi - 1).now - t <= window
    requires forall i: nat :: i in which <==> lo <= i < hi && beat(i).passed
    ensures |which| <= rate
  {
    BeatsTrack(window, rate, false, beat, lo, hi);
    var h := Beats(beat, lo, hi);
    assert h[hi - 1 - lo] == beat(hi - 1) && h[lo - lo] == beat(lo);
    FreshBudget(window, rate, t, h);
    PassesSet(h, lo, which);
  }

  // ----- runs -----

  predicate AdmittedAt(step: Machine, ins: seq<Input>, j: nat, q: Key)
    requires j < |ins|
  {
    AdmitsAt(step, ins, j, q, true) || AdmitsAt(step, ins, j, q, false)
  }

  /** The inputs from lo to hi - 1 that admit q. */
  function Admitted(step: Machine, ins: seq<Input>, lo: nat, hi: nat, q: Key): set<nat>
    requires lo <= hi <= |ins|
  {
    set j | lo <= j < hi && AdmittedAt(step, ins, j, q)
  }

  ghost predicate NoneIn(step: Machine, ins: seq<Input>, lo: nat, hi: nat, q: Key)
    requires lo <= hi <= |ins|
  {
    forall j | lo <= j < hi :: !AdmittedAt(step, ins, j, q)
  }

  lemma NoneAdmits(step: Machine, ins: seq<Input>, lo: nat, hi: nat, q: Key)
    requires lo <= hi <= |ins| && NoneIn(step, ins, lo, hi, q)
    ensures forall j, b: bool | lo <= j < hi :: !AdmitsAt(step, ins, j, q, b)
  {
    forall j, b: bool | lo <= j < hi ensures !AdmitsAt(step, ins, j, q, b) {
      assert !AdmittedAt(step, ins, j, q);
    }
  }

  /** Right after an admission the limiter is new. */
  lemma NewLimiter(c: Config, step: Machine, ins: seq<Input>, p: nat, q: Key)
    requires AllMsg(c, step) && p < |ins| && AdmittedAt(step, ins, p, q)
    ensures LimiterAt(Before(step, ins, p + 1).rooms, q) == Some(RegWindow(0, ins[p].now))
  {
    BeforeNext(step, ins, p);
    assert MsgMeter(c, step, Before(step, ins, p), ins[p], q);
  }

  /** From an admission to the next. */
  lemma AfterAdmission(c: Config, step: Machine, ins: seq<Input>, p: nat, hi: nat, q: Key)
    requires AllMsg(c, step) && ClockOk(ins) && p < hi <= |ins| && ins[hi - 1].now - ins[p].now <= c.rateWindow
    requires AdmittedAt(step, ins, p, q) && NoneIn(step, ins, p + 1, hi, q)
    ensures |MsgPassed(step, ins, p + 1, hi, q)| <= c.maxMsgRate
  {
    if p + 1 == hi {
      assert MsgPassed(step, ins, p + 1, hi, q) == {};
    } else {
      NoneAdmits(step, ins, p + 1, hi, q);
      MsgPaced(c, step, ins, p + 1, hi, q);
      NewLimiter(c, step, ins, p, q);
      assert ins[p].now <= ins[p + 1].now;
      FreshBound(c.rateWindow, c.maxMsgRate, ins[p].now, MsgBeats(step, ins, q), p + 1, hi,
                 MsgPassed(step, ins, p + 1, hi, q));
    }
  }

  lemma BeforeAdmissions(c: Config, step: Machine, ins: seq<Input>, lo: nat, hi: nat, q: Key)
    requires AllMsg(c, step) && ClockOk(ins) && lo <= hi <= |ins| && NoneIn(step, ins, lo, hi, q)
    requires lo < hi ==> ins[hi - 1].now - ins[lo].now <= c.rateWindow
    ensures |MsgPassed(step, ins, lo, hi, q)| <= 2 * c.maxMsgRate
  {
    if lo == hi {
      assert MsgPassed(step, ins, lo, hi, q) == {};
    } else {
      NoneAdmits(step, ins, lo, hi, q);
      MsgBound(c, step, ins, lo, hi, q);
    }
  }

  lemma SplitAt(step: Machine, ins: seq<Input>, lo: nat, p: nat, hi: nat, q: Key)
    requires lo <= p < hi <= |ins| && AdmittedAt(step, ins, p, q) && NoneIn(step, ins, p + 1, hi, q)
    ensures |MsgPassed(step, ins, lo, hi, q)| == |MsgPassed(step, ins, lo, p, q)| + |MsgPassed(step, ins, p + 1, hi, q)|
    ensures |Admitted(step, ins, lo, hi, q)| == |Admitted(step, ins, lo, p, q)| + 1
  {
    var a, b := MsgPassed(step, ins, lo, p, q), MsgPassed(step, ins, p + 1, hi, q);
    assert MsgPassed(step, ins, lo, hi, q) == a + b && a !! b;
    assert Admitted(step, ins, lo, hi, q) == Admitted(step, ins, lo, p, q) + {p};
  }

  lemma {:induction false} LastAdmission(step: Machine, ins: seq<Input>, lo: nat, hi: nat, q: Key) returns (p: nat)
    requires lo <= hi <= |ins| && !NoneIn(step, ins, lo, hi, q)
    ensures lo <= p < hi && AdmittedAt(step, ins, p, q) && NoneIn(step, ins, p + 1, hi, q)
  {
    if AdmittedAt(step, ins, hi - 1, q) {
      p := hi - 1;
    } else {
      p := LastAdmission(step, ins, lo, hi - 1, q);
    }
  }

  lemma {:induction false} AdmittedBound(c: Config, step: Machine, ins: seq<Input>, lo: nat, hi: nat, q: Key)
    requires AllMsg(c, step) && ClockOk(ins) && lo <= hi <= |ins|
    requires lo < hi ==> ins[hi - 1].now - ins[lo].now <= c.rateWindow
    ensures |MsgPassed(step, ins, lo, hi, q)| <= (2 + |Admitted(step, ins, lo, hi, q)|) * c.maxMsgRate
  {
    if NoneIn(step, ins, lo, hi, q) {
      BeforeAdmissions(c, step, ins, lo, hi, q);
      assert Admitted(step, ins, lo, hi, q) == {};
    } else {
      var p := LastAdmission(step, ins, lo, hi, q);
      assert ins[lo].now <= ins[p].now <= ins[hi - 1].now && (lo < p ==> ins[p - 1].now <= ins[hi - 1].now);
      AdmittedBound(c, step, ins, lo, p, q);
      AfterAdmission(c, step, ins, p, hi, q);
      SplitAt(step, ins, lo, p, hi, q);
      OneMore(2 + |Admitted(step, ins, lo, p, q)|, c.maxMsgRate);
    }
  }

  lemma OneMore(n: nat, rate: nat)
    ensures (n + 1) * rate == n * rate + rate
  {
  }

  /** On a clock that never goes back, at most 2 * maxMsgRate messages of a client are passed
      on within one window's length, and maxMsgRate more for each admission of it there. */
  lemma MsgRateBound(c: Config, ins: seq<Input>, lo: nat, hi: nat, q: Key)
    requires ClockOk(ins) && lo < hi <= |ins| && ins[hi - 1].now - ins[lo].now <= c.rateWindow
    ensures |MsgPassed(StepOf(c), ins, lo, hi, q)| <= (2 + |Admitted(StepOf(c), ins, lo, hi, q)|) * c.maxMsgRate
  {
    RelayAllMsg(c);
    AdmittedBound(c, StepOf(c), ins, lo, hi, q);
  }
}
