/** How soon the loop ends: once a confirm and a candidate it fits have both arrived. */
module ExchangePrompt {
  import opened Text
  import opened Wire
  import opened Spake2
  import opened Confirm
  import opened Exchange
  import opened ExchangeRuns

  ghost predicate SomeWins(env: Env, s: XState, k: Id, out: Outcome) {
    exists body :: Wins(env, s, k, body, out)
  }

  /** A key that is new in the table came with a spake2 message, and if the pass ended the
      loop it did so on that key. */
  ghost predicate NewKeyWins(env: Env, line: Line, s: XState, s': XState, out: Outcome) {
    forall k | k in s'.candidates && k !in s.candidates ::
      line.SpakeLine? && (out == Running || SomeWins(env, s', k, out))
  }

  /** A confirm that fits a candidate ends the loop at once. */
  ghost predicate ConfirmWins(env: Env, line: Line, s: XState, s': XState, out: Outcome) {
    line.ConfirmLine? && (exists k :: Fits(env, s, k, line.body)) ==> exists k :: Wins(env, s', k, line.body, out)
  }

  ghost predicate PromptLaw(env: Env, hears: Hears, step: Steps, s: XState, p: Pass, s': XState, out: Outcome) {
    step(s, p, s', out) && Good(env, s) ==>
      NewKeyWins(env, hears(s, p), s, s', out) && ConfirmWins(env, hears(s, p), s, s', out)
  }

  ghost predicate PromptSteps(env: Env, hears: Hears, step: Steps) {
    forall s, p, s', out :: PromptLaw(env, hears, step, s, p, s', out)
  }

  lemma SpakeNewKey(env: Env, s: XState, body: string, p: Pass, s': XState, out: Outcome)
    requires LawfulEnv(env) && Good(env, s) && OnSpake(env, s, body, p, s', out)
    ensures NewKeyWins(env, SpakeLine(body), s, s', out)
  {
    var offer := NewOffer(env, s, body, p.rnd);
    if offer.Some? {
      var o := offer.value;
      OfferKey(env, s, body, p.rnd);
      var m :| MadeRoom(s, m) && s' == Add(env, m, o, p.now);
      RoomMade(env, s, m);
      if out != Running {
        var i := SomeMatch(env, o.session, s.buffered);
        AddSessions(env, m, o, p.now, o.key);
        assert Wins(env, s', o.key, s.buffered[i], out);
      }
    }
  }

  lemma LineNewKey(env: Env, s: XState, line: Line, p: Pass, s': XState, out: Outcome)
    requires LawfulEnv(env) && Good(env, s) && OnLine(env, s, line, p, s', out)
    ensures NewKeyWins(env, line, s, s', out)
  {
    if line.SpakeLine? { SpakeNewKey(env, s, line.body, p, s', out); }
  }

  lemma LineConfirm(env: Env, s: XState, line: Line, p: Pass, s': XState, out: Outcome)
    requires OnLine(env, s, line, p, s', out)
    ensures ConfirmWins(env, line, s, s', out)
  {
    if line.ConfirmLine? && exists k :: Fits(env, s, k, line.body) {
      var k :| Fits(env, s, k, line.body) && out == PeerOf(env, s, k, line.body);
      assert Wins(env, s', k, line.body, out);
    }
  }

  lemma SameFits(env: Env, s: XState, s': XState, k: Id, body: string)
    requires Same(s, s')
    ensures Fits(env, s, k, body) == Fits(env, s', k, body)
  {
  }

  lemma NextPrompt(env: Env, s: XState, p: Pass, s': XState, out: Outcome)
    requires LawfulEnv(env) && Good(env, s) && Next(env, s, p, s', out)
    ensures NewKeyWins(env, Heard(env, s, p), s, s', out) && ConfirmWins(env, Heard(env, s, p), s, s', out)
  {
    var r, line := Ready(env, s, p), Heard(env, s, p);
    ReadySame(env, s, p);
    SameGood(env, s, r);
    if !p.cancelled && p.now <= env.deadline && !p.read.Failed? {
      LineNewKey(env, r, line, p, s', out);
      LineConfirm(env, r, line, p, s', out);
      if line.ConfirmLine? {
        if k :| Fits(env, s, k, line.body) { SameFits(env, s, r, k, line.body); }
      }
    }
  }

  lemma LoopPrompt(env: Env)
    requires LawfulEnv(env)
    ensures PromptSteps(env, Hearing(env), Loop(env))
  {
    forall s, p, s', out ensures PromptLaw(env, Hearing(env), Loop(env), s, p, s', out) {
      if Next(env, s, p, s', out) && Good(env, s) { NextPrompt(env, s, p, s', out); }
    }
  }

  // ----- runs -----

  /** Whether a confirm fits a candidate does not change while it is one. */
  lemma FitsAlways(env: Env, s: XState, s': XState, k: Id, body: string)
    requires Table(env, s) && Table(env, s') && k in s.candidates && k in s'.candidates
    ensures Fits(env, s, k, body) == Fits(env, s', k, body)
  {
    assert CandidateOk(env, s, k) && CandidateOk(env, s', k);
  }

  lemma Appended(env: Env, hears: Hears, step: Steps, s: XState, p: Pass, s': XState, out: Outcome, body: string)
    requires Lawful(env, hears, step) && step(s, p, s', out) && out == Running
    requires hears(s, p) == ConfirmLine(body) && |s.buffered| < MAX_BUFFERED
    ensures body in s'.buffered
  {
    assert StepLaw(env, hears, step, s, p, s', out);
    assert s'.buffered[|s.buffered|] == body;
  }

  /** A confirm that was buffered in pass i is there as long as the loop runs. */
  lemma StillBuffered(env: Env, hears: Hears, step: Steps, h: History, i: nat, n: nat, body: string)
    requires Lawful(env, hears, step) && Trace(step, h) && i < n <= |h.passes| && Ongoing(h, n)
    requires hears(h.states[i], h.passes[i]) == ConfirmLine(body) && |h.states[i].buffered| < MAX_BUFFERED
    ensures body in h.states[n].buffered
  {
    assert StepAt(step, h, i) && h.outs[i] == Running;
    Appended(env, hears, step, h.states[i], h.passes[i], h.states[i + 1], h.outs[i], body);
    BufferedStays(env, hears, step, h, i + 1, n, body);
  }

  /** The outcome is that of candidate k, or rests on this confirm. */
  ghost predicate Settles(env: Env, s: XState, k: Id, body: string, out: Outcome) {
    out.Done? && exists k', body' :: Wins(env, s, k', body', out) && (k' == k || body' == body)
  }

  /** A confirm heard in pass i fits candidate k of the final state, and was not lost: the
      buffer had space or the candidate was already there. */
  ghost predicate Met(env: Env, hears: Hears, h: History, i: nat, body: string, k: Id)
    requires Shaped(h)
  {
    && i < |h.passes| && hears(h.states[i], h.passes[i]) == ConfirmLine(body)
    && Fits(env, h.states[|h.passes|], k, body)
    && (|h.states[i].buffered| < MAX_BUFFERED || k in h.states[i].candidates)
  }

  /** One pass that hears a confirm which fits a candidate. */
  lemma ConfirmEnds(env: Env, hears: Hears, step: Steps, s: XState, p: Pass, s': XState, out: Outcome, k: Id,
      body: string)
    requires PromptSteps(env, hears, step) && step(s, p, s', out) && Good(env, s)
    requires hears(s, p) == ConfirmLine(body) && Fits(env, s, k, body)
    ensures Settles(env, s', k, body, out)
  {
    assert PromptLaw(env, hears, step, s, p, s', out);
    var k' :| Wins(env, s', k', body, out);
  }

  lemma NoNewKey(env: Env, hears: Hears, step: Steps, s: XState, p: Pass, s': XState, out: Outcome, k: Id)
    requires PromptSteps(env, hears, step) && step(s, p, s', out) && Good(env, s)
    requires !hears(s, p).SpakeLine? && k in s'.candidates
    ensures k in s.candidates
  {
    assert PromptLaw(env, hears, step, s, p, s', out);
  }

  /** The confirm is the last thing heard. */
  lemma MetNow(env: Env, hears: Hears, step: Steps, h: History, body: string, k: Id)
    requires Lawful(env, hears, step) && PromptSteps(env, hears, step) && Trace(step, h)
    requires h.passes != [] && Met(env, hears, h, |h.passes| - 1, body, k)
    ensures Settles(env, h.states[|h.passes|], k, body, h.outs[|h.passes| - 1])
  {
    var n := |h.passes| - 1;
    TraceInvariant(env, hears, step, h, n);
    TraceInvariant(env, hears, step, h, n + 1);
    assert StepAt(step, h, n);
    NoNewKey(env, hears, step, h.states[n], h.passes[n], h.states[n + 1], h.outs[n], k);
    FitsAlways(env, h.states[n], h.states[n + 1], k, body);
    ConfirmEnds(env, hears, step, h.states[n], h.passes[n], h.states[n + 1], h.outs[n], k, body);
  }

  lemma EndsAtOnce(env: Env, hears: Hears, step: Steps, h: History, i: nat, body: string, k: Id)
    requires Lawful(env, hears, step) && PromptSteps(env, hears, step) && Trace(step, h)
    requires i < |h.passes| && hears(h.states[i], h.passes[i]) == ConfirmLine(body)
    requires k in h.states[i].candidates && Fits(env, h.states[|h.passes|], k, body)
    ensures h.outs[i] != Running
  {
    TraceInvariant(env, hears, step, h, i);
    TraceInvariant(env, hears, step, h, |h.passes|);
    FitsAlways(env, h.states[i], h.states[|h.passes|], k, body);
    assert StepAt(step, h, i);
    ConfirmEnds(env, hears, step, h.states[i], h.passes[i], h.states[i + 1], h.outs[i], k, body);
  }

  /** No early confirm fits a candidate while the loop runs. */
  lemma BufferedUnfit(env: Env, hears: Hears, step: Steps, h: History, n: nat, body: string, k: Id)
    requires Lawful(env, hears, step) && Trace(step, h) && n <= |h.passes| && Ongoing(h, n)
    requires body in h.states[n].buffered && Fits(env, h.states[|h.passes|], k, body)
    ensures k !in h.states[n].candidates
  {
    TraceInvariant(env, hears, step, h, n);
    TraceInvariant(env, hears, step, h, |h.passes|);
    if k in h.states[n].candidates { FitsAlways(env, h.states[n], h.states[|h.passes|], k, body); }
  }

  /** While the loop runs the two have not met. */
  lemma NotYet(env: Env, hears: Hears, step: Steps, h: History, i: nat, n: nat, body: string, k: Id)
    requires Lawful(env, hears, step) && PromptSteps(env, hears, step) && Trace(step, h)
    requires Met(env, hears, h, i, body, k) && i < n <= |h.passes| && Ongoing(h, n)
    ensures k !in h.states[n].candidates
  {
    if |h.states[i].buffered| < MAX_BUFFERED {
      StillBuffered(env, hears, step, h, i, n, body);
      BufferedUnfit(env, hears, step, h, n, body, k);
    } else {
      EndsAtOnce(env, hears, step, h, i, body, k);
    }
  }

  /** One pass that adds the candidate and ends the loop. */
  lemma NewKeyEnds(env: Env, hears: Hears, step: Steps, s: XState, p: Pass, s': XState, out: Outcome, k: Id,
      body: string)
    requires PromptSteps(env, hears, step) && step(s, p, s', out) && Good(env, s)
    requires k in s'.candidates && k !in s.candidates && out != Running
    ensures Settles(env, s', k, body, out)
  {
    assert PromptLaw(env, hears, step, s, p, s', out);
    assert SomeWins(env, s', k, out);
    var body' :| Wins(env, s', k, body', out);
  }

  /** The confirm came first, the candidate last. */
  lemma MetLater(env: Env, hears: Hears, step: Steps, h: History, i: nat, body: string, k: Id)
    requires Lawful(env, hears, step) && PromptSteps(env, hears, step) && Trace(step, h)
    requires i < |h.passes| - 1 && Met(env, hears, h, i, body, k)
    ensures Settles(env, h.states[|h.passes|], k, body, h.outs[|h.passes| - 1])
  {
    var n := |h.passes| - 1;
    if h.outs[n] == Running {
      NotYet(env, hears, step, h, i, n + 1, body, k);
    } else {
      NotYet(env, hears, step, h, i, n, body, k);
      TraceInvariant(env, hears, step, h, n);
      assert StepAt(step, h, n);
      NewKeyEnds(env, hears, step, h.states[n], h.passes[n], h.states[n + 1], h.outs[n], k, body);
    }
  }

  lemma Prompt(env: Env, hears: Hears, step: Steps, h: History, i: nat, body: string, k: Id)
    requires Lawful(env, hears, step) && PromptSteps(env, hears, step) && Trace(step, h)
      && Met(env, hears, h, i, body, k)
    ensures Settles(env, h.states[|h.passes|], k, body, h.outs[|h.passes| - 1])
  {
    if i == |h.passes| - 1 {
      MetNow(env, hears, step, h, body, k);
    } else {
      MetLater(env, hears, step, h, i, body, k);
    }
  }

  /** Once a confirm and a candidate it fits have both arrived, in either order, the loop
      has ended with a peer: that candidate, or one the same confirm fits.  The confirm is
      lost only if it came first and found the buffer full. */
  lemma ReturnsPromptly(env: Env, h: History, i: nat, body: string, k: Id)
    requires LawfulEnv(env) && Trace(Loop(env), h) && Met(env, Hearing(env), h, i, body, k)
    ensures Settles(env, h.states[|h.passes|], k, body, h.outs[|h.passes| - 1])
  {
    LoopLawful(env);
    LoopPrompt(env);
    Prompt(env, Hearing(env), Loop(env), h, i, body, k);
  }
}
