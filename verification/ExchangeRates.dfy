/** The budget of inbound relayed messages: whatever arrives, the loop works on at most
    1000 of them in any interval shorter than a second. */
module ExchangeRates {
  import opened Text
  import opened Wire
  import RelaySpec
  import Rates = RelayRates
  import opened Spake2
  import opened Confirm
  import opened Exchange
  import opened ExchangeRuns

  predicate Relevant(env: Env, p: Pass) {
    !p.cancelled && p.now <= env.deadline && p.read.Data? && HasPrefix(LineText(p.read.text), "MSGD ")
  }

  /** The pass goes on to work on a relayed message. */
  predicate WorksOn(env: Env, s: XState, p: Pass) {
    Relevant(env, p) && !OverBudget(Ready(env, s, p), LineText(p.read.text))
  }

  /** The budget as a limiter window; refused messages are not counted in it. */
  function Budget(s: XState): Option<RelaySpec.RegWindow> {
    if s.window.None? then None
    else Some(RelaySpec.RegWindow(if s.inbound < MAX_INBOUND then s.inbound else MAX_INBOUND, s.window.value))
  }

  predicate SameBudget(s: XState, s': XState) {
    s'.window == s.window && s'.inbound == s.inbound
  }

  /** The question whether a pass works on a message, as a value. */
  type Works = (XState, Pass) -> bool

  function WorksIn(env: Env): Works {
    (s, p) => WorksOn(env, s, p)
  }

  function BeatAt(works: Works, p: Pass, s: XState, s': XState): Rates.Beat {
    Rates.Beat(p.now, works(s, p), Budget(s), Budget(s'))
  }

  ghost predicate BudgetLaw(works: Works, step: Steps, s: XState, p: Pass, s': XState, out: Outcome) {
    step(s, p, s', out) ==> Rates.Meter(SECOND - 1, MAX_INBOUND, true, BeatAt(works, p, s, s'))
  }

  lemma SendsBudget(env: Env, s: XState, now: Time)
    ensures SameBudget(s, Sends(env, s, now))
  {
  }

  lemma LineBudget(env: Env, s: XState, line: Line, p: Pass, s': XState, out: Outcome)
    requires OnLine(env, s, line, p, s', out)
    ensures SameBudget(s, s')
  {
    if line.SpakeLine? && NewOffer(env, s, line.body, p.rnd).Some? {
      var m :| MadeRoom(s, m) && s' == Add(env, m, NewOffer(env, s, line.body, p.rnd).value, p.now);
    }
  }

  lemma MeterBudget(s: XState, line: string, now: Time)
    ensures var s' := Meter(s, line, now);
      Rates.Meter(SECOND - 1, MAX_INBOUND, true,
                  Rates.Beat(now, HasPrefix(line, "MSGD ") && !OverBudget(s', line), Budget(s), Budget(s')))
  {
  }

  /** Up to where a line is handled. */
  lemma ReadyBudget(env: Env, s: XState, p: Pass)
    requires !p.cancelled && p.now <= env.deadline
    ensures Rates.Meter(SECOND - 1, MAX_INBOUND, true, BeatAt(WorksIn(env), p, s, Ready(env, s, p)))
  {
    SendsBudget(env, s, p.now);
    if p.read.Data? { MeterBudget(Sends(env, s, p.now), LineText(p.read.text), p.now); }
  }

  lemma NextBudget(env: Env, s: XState, p: Pass, s': XState, out: Outcome)
    requires Next(env, s, p, s', out)
    ensures BudgetLaw(WorksIn(env), Loop(env), s, p, s', out)
  {
    if !p.cancelled && p.now <= env.deadline {
      ReadyBudget(env, s, p);
      if !p.read.Failed? { LineBudget(env, Ready(env, s, p), Heard(env, s, p), p, s', out); }
      assert Budget(s') == Budget(Ready(env, s, p));
    }
  }

  // ----- runs -----

  ghost predicate BudgetKept(works: Works, step: Steps) {
    forall s, p, s', out :: BudgetLaw(works, step, s, p, s', out)
  }

  ghost predicate ClockOk(passes: seq<Pass>) {
    forall i, j | 0 <= i <= j < |passes| :: passes[i].now <= passes[j].now
  }

  lemma {:induction false} BudgetInBounds(works: Works, step: Steps, h: History, i: nat)
    requires BudgetKept(works, step) && Trace(step, h) && ClockOk(h.passes) && i < |h.passes|
    ensures Rates.InBounds(MAX_INBOUND, Budget(h.states[i]), h.passes[i].now)
  {
    if i == 0 {
    } else {
      BudgetInBounds(works, step, h, i - 1);
      assert StepAt(step, h, i - 1);
      assert BudgetLaw(works, step, h.states[i - 1], h.passes[i - 1], h.states[i], h.outs[i - 1]);
      assert h.passes[i - 1].now <= h.passes[i].now;
    }
  }

  /** The h.passes of lo to hi - 1 that work on a message. */
  function WorkedOn(works: Works, h: History, lo: nat, hi: nat): set<nat>
    requires Shaped(h) && lo <= hi <= |h.passes|
  {
    set i | lo <= i < hi && works(h.states[i], h.passes[i])
  }

  function Beats(works: Works, h: History): nat -> Rates.Beat
    requires Shaped(h)
  {
    (i: nat) => if i < |h.passes| then BeatAt(works, h.passes[i], h.states[i], h.states[i + 1])
      else Rates.Beat(0, false, None, None)
  }

  lemma BeatsMetered(works: Works, step: Steps, h: History, i: nat)
    requires BudgetKept(works, step) && Trace(step, h) && i < |h.passes|
    ensures Rates.Meter(SECOND - 1, MAX_INBOUND, true, Beats(works, h)(i))
  {
    assert StepAt(step, h, i);
    assert BudgetLaw(works, step, h.states[i], h.passes[i], h.states[i + 1], h.outs[i]);
  }

  lemma BeatsConsecutive(works: Works, h: History, i: nat)
    requires Shaped(h) && i + 1 < |h.passes| && h.passes[i].now <= h.passes[i + 1].now
    ensures Rates.Consecutive(Beats(works, h), i)
  {
  }

  lemma BeatsPaced(works: Works, step: Steps, h: History, lo: nat, hi: nat)
    requires BudgetKept(works, step) && Trace(step, h) && ClockOk(h.passes) && lo < hi <= |h.passes|
    ensures Rates.Paced(SECOND - 1, MAX_INBOUND, true, Beats(works, h), lo, hi)
  {
    var beat := Beats(works, h);
    forall i | lo <= i < hi ensures Rates.Meter(SECOND - 1, MAX_INBOUND, true, beat(i)) {
      BeatsMetered(works, step, h, i);
    }
    forall i: nat | lo <= i < hi - 1 ensures Rates.Consecutive(beat, i) {
      BeatsConsecutive(works, h, i);
    }
    BudgetInBounds(works, step, h, lo);
  }

  lemma BeatsPassed(works: Works, h: History, lo: nat, hi: nat, i: nat)
    requires Shaped(h) && lo <= hi <= |h.passes|
    ensures i in WorkedOn(works, h, lo, hi) <==> lo <= i < hi && Beats(works, h)(i).passed
  {
  }

  lemma AllPassed(works: Works, h: History, lo: nat, hi: nat)
    requires Shaped(h) && lo <= hi <= |h.passes|
    ensures forall i: nat :: i in WorkedOn(works, h, lo, hi) <==> lo <= i < hi && Beats(works, h)(i).passed
  {
    forall i: nat ensures i in WorkedOn(works, h, lo, hi) <==> lo <= i < hi && Beats(works, h)(i).passed {
      BeatsPassed(works, h, lo, hi, i);
    }
  }

  lemma BeatNow(works: Works, h: History, i: nat)
    requires Shaped(h) && i < |h.passes|
    ensures Beats(works, h)(i).now == h.passes[i].now
  {
  }

  lemma PacedBound(works: Works, h: History, lo: nat, hi: nat)
    requires Shaped(h) && lo < hi <= |h.passes| && h.passes[hi - 1].now - h.passes[lo].now < SECOND
    requires Rates.Paced(SECOND - 1, MAX_INBOUND, true, Beats(works, h), lo, hi)
    ensures |WorkedOn(works, h, lo, hi)| <= 2 * MAX_INBOUND
  {
    AllPassed(works, h, lo, hi);
    BeatNow(works, h, hi - 1);
    BeatNow(works, h, lo);
    Rates.BeatsBound(SECOND - 1, MAX_INBOUND, true, Beats(works, h), lo, hi, WorkedOn(works, h, lo, hi));
  }

  lemma InboundStep(works: Works, step: Steps, h: History, lo: nat, hi: nat)
    requires BudgetKept(works, step) && Trace(step, h) && ClockOk(h.passes)
    requires lo < hi <= |h.passes| && h.passes[hi - 1].now - h.passes[lo].now < SECOND
    ensures |WorkedOn(works, h, lo, hi)| <= 2 * MAX_INBOUND
  {
    BeatsPaced(works, step, h, lo, hi);
    PacedBound(works, h, lo, hi);
  }

  /** In any interval shorter than a second at most 1000 relayed messages are worked on. */
  lemma InboundBound(env: Env, h: History, lo: nat, hi: nat)
    requires Trace(Loop(env), h) && ClockOk(h.passes)
    requires lo < hi <= |h.passes| && h.passes[hi - 1].now - h.passes[lo].now < SECOND
    ensures |WorkedOn(WorksIn(env), h, lo, hi)| <= 2 * MAX_INBOUND
  {
    BudgetsKept(env);
    InboundStep(WorksIn(env), Loop(env), h, lo, hi);
  }

  lemma BudgetsKept(env: Env)
    ensures BudgetKept(WorksIn(env), Loop(env))
  {
    forall s, p, s', out ensures BudgetLaw(WorksIn(env), Loop(env), s, p, s', out) {
      if Next(env, s, p, s', out) { NextBudget(env, s, p, s', out); }
    }
  }
}
