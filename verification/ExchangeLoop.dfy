/** The exchange loop itself, with the loops it runs inside each pass. */
module ExchangeLoop {
  import opened Text
  import opened Wire
  import opened Spake2
  import opened Confirm
  import opened Exchange
  import opened ExchangeRuns

  lemma StampOne(lastSent: map<Id, Time>, which: set<Id>, now: Time, k: Id)
    requires k in lastSent
    ensures Stamped(lastSent, which, now)[k := now] == Stamped(lastSent, which + {k}, now)
  {
  }

  lemma ConfirmOne(candidates: map<Id, Candidate>, which: set<Id>, k: Id)
    requires which <= candidates.Keys && k in candidates
    ensures ConfirmsOf(candidates, which + {k}) == ConfirmsOf(candidates, which) + {ConfirmMsg(candidates[k].confirm)}
  {
  }

  lemma DoneMore(due: set<Id>, todo: set<Id>, k: Id)
    requires k in todo
    ensures due - (todo - {k}) == if k in due then due - todo + {k} else due - todo
  {
  }

  /** Resends every confirm that is due, walking the table in any order. */
  method ResendConfirms(env: Env, s: XState, now: Time) returns (r: XState)
    requires s.candidates.Keys == s.lastSent.Keys
    ensures r == SendConfirms(env, s, now)
  {
    ghost var due := DueConfirms(env, s, now);
    var todo, lastSent, sent := s.candidates.Keys, s.lastSent, s.sent;
    assert due - todo == {} && Stamped(lastSent, {}, now) == lastSent;
    while todo != {}
      invariant todo <= s.candidates.Keys && due <= s.candidates.Keys
      invariant lastSent == Stamped(s.lastSent, due - todo, now)
        && sent == s.sent + ConfirmsOf(s.candidates, due - todo)
      decreases |todo|
    {
      var k :| k in todo;
      DoneMore(due, todo, k);
      if now - lastSent[k] > env.confirmResend {
        StampOne(s.lastSent, due - todo, now, k);
        ConfirmOne(s.candidates, due - todo, k);
        sent := sent + {ConfirmMsg(s.candidates[k].confirm)};
        lastSent := lastSent[k := now];
      }
      todo := todo - {k};
    }
    assert due - todo == due;
    r := s.(lastSent := lastSent, sent := sent);
  }

  /** A candidate whose confirm was sent longest ago. */
  method FindOldest(s: XState) returns (oldest: Id)
    requires s.candidates.Keys == s.lastSent.Keys && s.candidates.Keys != {}
    ensures Oldest(s, oldest)
  {
    oldest :| oldest in s.candidates.Keys;
    var todo := s.candidates.Keys - {oldest};
    while todo != {}
      invariant todo <= s.candidates.Keys && oldest in s.candidates
      invariant forall j | j in s.candidates.Keys - todo :: s.lastSent[oldest] <= s.lastSent[j]
      decreases |todo|
    {
      var k :| k in todo;
      if s.lastSent[k] < s.lastSent[oldest] { oldest := k; }
      todo := todo - {k};
    }
  }

  /** The buffered confirms, in order of arrival, against a new candidate. */
  method ScanBuffered(env: Env, session: Session, buffered: seq<string>) returns (out: Outcome)
    ensures out == FirstMatch(env, session, buffered)
  {
    var i := 0;
    while i < |buffered|
      invariant i <= |buffered| && FirstMatch(env, session, buffered) == FirstMatch(env, session, buffered[i..])
    {
      var addr := env.verify(session, buffered[i]);
      if addr.Some? { return Done(addr.value, session.peerFp, session.isServer); }
      assert buffered[i..][1..] == buffered[i + 1..];
      i := i + 1;
    }
    return Running;
  }

  /** One confirm against every candidate, in any order. */
  method ScanCandidates(env: Env, s: XState, body: string) returns (out: Outcome)
    requires forall k | k in s.candidates :: BuffersExist(s, k)
    ensures if exists k :: Fits(env, s, k, body) then exists k :: Wins(env, s, k, body, out) else out == Running
  {
    var todo := s.candidates.Keys;
    while todo != {}
      invariant todo <= s.candidates.Keys && forall k | k in s.candidates.Keys - todo :: !Fits(env, s, k, body)
      decreases |todo|
    {
      var k :| k in todo;
      var addr := env.verify(SessionOf(s, s.candidates[k]), body);
      if addr.Some? {
        out := Done(addr.value, s.candidates[k].fp, s.candidates[k].isServer);
        assert Wins(env, s, k, body, out);
        return;
      }
      todo := todo - {k};
    }
    return Running;
  }

  method HandleSpake(env: Env, s: XState, body: string, p: Pass) returns (r: XState, out: Outcome)
    requires Table(env, s)
    ensures OnSpake(env, s, body, p, r, out)
  {
    var offer := NewOffer(env, s, body, p.rnd);
    if offer.None? { return s, Running; }
    var m := s;
    if |s.candidates| >= MAX_CANDIDATES {
      assert s.candidates.Keys != {};
      var k := FindOldest(s);
      assert CandidateOk(env, s, k);
      m := DropCandidate(s, k);
    }
    assert MadeRoom(s, m);
    r := Add(env, m, offer.value, p.now);
    out := ScanBuffered(env, offer.value.session, s.buffered);
  }

  method HandleConfirm(env: Env, s: XState, body: string) returns (r: XState, out: Outcome)
    requires Table(env, s)
    ensures OnConfirm(env, s, body, r, out)
  {
    forall k | k in s.candidates ensures BuffersExist(s, k) { assert CandidateOk(env, s, k); }
    out := ScanCandidates(env, s, body);
    r := if out == Running then Buffer(s, body) else s;
    if exists k :: Fits(env, s, k, body) {
      var k :| Wins(env, s, k, body, out);
    }
  }

  method HandleLine(env: Env, s: XState, line: Line, p: Pass) returns (r: XState, out: Outcome)
    requires Table(env, s)
    ensures OnLine(env, s, line, p, r, out)
  {
    match line
    case OkLine(addr) => return OnOk(env, s, addr), Running;
    case ChallengeLine(cookie) => return s.(cookie := cookie, lastReg := None), Running;
    case SpakeLine(body) => r, out := HandleSpake(env, s, body, p);
    case ConfirmLine(body) => r, out := HandleConfirm(env, s, body);
    case Ignored => return s, Running;
  }

  method DoPass(env: Env, s: XState, p: Pass) returns (r: XState, out: Outcome)
    requires Good(env, s)
    ensures Next(env, s, p, r, out)
  {
    if p.cancelled { return s, Cancelled; }
    if p.now > env.deadline { return s, TimedOut; }
    r := SendSpake(env, SendReg(env, s, p.now), p.now);
    r := ResendConfirms(env, r, p.now);
    if p.read.Timeout? { return r, Running; }
    if p.read.Failed? { return r, ReadFailed; }
    var line := LineText(p.read.text);
    r := Meter(r, line, p.now);
    if OverBudget(r, line) { return r, Running; }
    ReadySame(env, s, p);
    SameGood(env, s, r);
    r, out := HandleLine(env, r, ReadTrimmed(env.room, line), p);
  }

  /** The same, as a step of a run that keeps the invariant. */
  method RunPass(env: Env, s: XState, p: Pass) returns (r: XState, out: Outcome)
    requires LawfulEnv(env) && Good(env, s)
    ensures Loop(env)(s, p, r, out) && (out == Running ==> Good(env, r))
  {
    r, out := DoPass(env, s, p);
    NextKeeps(env, s, p, r, out);
  }

  predicate Wiped(b: Bytes) {
    forall i | 0 <= i < |b| :: b[i] == 0
  }

  /** Every key buffer handed out is wiped when the loop is left. */
  method WipeAll(keys: seq<Bytes>) returns (wiped: seq<Bytes>)
    ensures |wiped| == |keys| && forall i | 0 <= i < |keys| :: |wiped[i]| == |keys[i]| && Wiped(wiped[i])
  {
    wiped := keys;
    for i := 0 to |keys|
      invariant |wiped| == |keys| && forall j | 0 <= j < |keys| :: |wiped[j]| == |keys[j]|
      invariant forall j | 0 <= j < i :: Wiped(wiped[j])
    {
      wiped := Wipe(wiped, i);
    }
  }

  /** A run that has used up i passes and is in state s. */
  ghost predicate SoFar(step: Steps, addr: Bytes, passes: seq<Pass>, i: nat, s: XState, out: Outcome, h: History) {
    && i <= |passes| && h.addr == addr && h.passes == passes[..i] && Trace(step, h) && h.states[i] == s
    && out == (if i == 0 then Running else h.outs[i - 1])
  }

  function Empty(addr: Bytes): History {
    History(addr, [], [Start(addr)], [])
  }

  function Extended(h: History, p: Pass, s: XState, out: Outcome): History {
    History(h.addr, h.passes + [p], h.states + [s], h.outs + [out])
  }

  lemma ExtendTrace(step: Steps, h: History, p: Pass, s: XState, out: Outcome)
    requires Trace(step, h) && (h.outs != [] ==> h.outs[|h.outs| - 1] == Running)
    requires step(h.states[|h.passes|], p, s, out)
    ensures Trace(step, Extended(h, p, s, out))
  {
    var h' := Extended(h, p, s, out);
    forall j: nat | j < |h'.passes| ensures StepAt(step, h', j) {
      if j < |h.passes| { assert StepAt(step, h, j); }
    }
  }

  lemma ExtendSoFar(step: Steps, addr: Bytes, passes: seq<Pass>, i: nat, s: XState, h: History, s': XState,
      out: Outcome)
    requires i < |passes| && SoFar(step, addr, passes, i, s, Running, h) && step(s, passes[i], s', out)
    ensures SoFar(step, addr, passes, i + 1, s', out, Extended(h, passes[i], s', out))
  {
    ExtendTrace(step, h, passes[i], s', out);
    assert passes[..i] + [passes[i]] == passes[..i + 1];
  }

  method RunLoop(env: Env, addr: Bytes, passes: seq<Pass>) returns (out: Outcome, s: XState, n: nat, ghost h: History)
    requires LawfulEnv(env)
    ensures SoFar(Loop(env), addr, passes, n, s, out, h)
    ensures out == Running ==> n == |passes|
  {
    ghost var step := Loop(env);
    s, out, n, h := Start(addr), Running, 0, Empty(addr);
    StartGood(env, addr);
    while n < |passes| && out == Running
      invariant SoFar(step, addr, passes, n, s, out, h)
      invariant out == Running ==> Good(env, s)
    {
      ghost var before := s;
      s, out := RunPass(env, s, passes[n]);
      ExtendSoFar(step, addr, passes, n, before, h, s, out);
      h, n := Extended(h, passes[n], s, out), n + 1;
    }
  }

  /** The passes lead to this outcome, with this many key buffers handed out on the way. */
  ghost predicate LeadsTo(env: Env, addr: Bytes, passes: seq<Pass>, out: Outcome, buffers: nat) {
    exists n: nat, s, h ::
      && SoFar(Loop(env), addr, passes, n, s, out, h)
      && (out == Running ==> n == |passes|) && buffers == |s.keys|
  }

  /** Exchanges until a peer is found, the caller gives up or the time is over, and wipes
      the session keys.  `passes` is what each pass of the loop meets. */
  method ExchangeAndWipe(env: Env, addr: Bytes, passes: seq<Pass>) returns (out: Outcome, keys: seq<Bytes>)
    requires LawfulEnv(env)
    ensures LeadsTo(env, addr, passes, out, |keys|)
    ensures forall i | 0 <= i < |keys| :: Wiped(keys[i])
  {
    var s, n;
    ghost var h;
    out, s, n, h := RunLoop(env, addr, passes);
    keys := WipeAll(s.keys);
  }
}
