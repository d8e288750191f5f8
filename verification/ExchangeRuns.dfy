/** What every run of the exchange loop keeps, and what it returns. */
module ExchangeRuns {
  import opened Text
  import opened Wire
  import opened Spake2
  import opened Confirm
  import opened Exchange

  /** Only the fixed-size part of a payload matters. */
  ghost predicate LawfulEnv(env: Env) {
    forall p: Bytes | |p| >= PAYLOAD_LEN :: env.agree(p) == env.agree(p[..PAYLOAD_LEN])
  }

  // ----- the invariant -----

  /** The candidate is what its payload leads to, with keys intact, and its confirm has been sent. */
  predicate CandidateOk(env: Env, s: XState, k: Id) {
    && BuffersExist(s, k)
    && env.agree(k.payload) == Some(SessionOf(s, s.candidates[k]))
    && ConfirmMsg(s.candidates[k].confirm) in s.sent
  }

  /** No two candidates share a key buffer. */
  predicate Separate(a: Candidate, b: Candidate) {
    a.ck != b.ck && a.ck != b.ek && a.ek != b.ck && a.ek != b.ek
  }

  ghost predicate AllSeparate(s: XState) {
    && (forall j, k | j in s.candidates && k in s.candidates && j != k :: Separate(s.candidates[j], s.candidates[k]))
    && (forall k | k in s.candidates :: s.candidates[k].ck != s.candidates[k].ek)
  }

  ghost predicate Table(env: Env, s: XState) {
    && s.candidates.Keys == s.lastSent.Keys && |s.candidates| <= MAX_CANDIDATES && |s.buffered| <= MAX_BUFFERED
    && (forall k | k in s.candidates :: CandidateOk(env, s, k))
    && AllSeparate(s)
  }

  /** No early confirm fits any candidate. */
  ghost predicate Quiet(env: Env, s: XState) {
    forall k, i | k in s.candidates && 0 <= i < |s.buffered| :: !Fits(env, s, k, s.buffered[i])
  }

  ghost predicate Good(env: Env, s: XState) {
    Table(env, s) && Quiet(env, s)
  }

  /** Candidates, keys and early confirms are left alone; nothing sent is taken back. */
  predicate Same(s: XState, s': XState) {
    && s'.candidates == s.candidates && s'.keys == s.keys && s'.buffered == s.buffered
    && s'.lastSent.Keys == s.lastSent.Keys && s.sent <= s'.sent
  }

  lemma SameCandidate(env: Env, s: XState, s': XState, k: Id)
    requires Same(s, s') && CandidateOk(env, s, k)
    ensures CandidateOk(env, s', k)
  {
  }

  lemma SameTable(env: Env, s: XState, s': XState)
    requires Same(s, s') && Table(env, s)
    ensures Table(env, s')
  {
    forall k | k in s'.candidates ensures CandidateOk(env, s', k) { SameCandidate(env, s, s', k); }
  }

  lemma SameQuiet(env: Env, s: XState, s': XState)
    requires Same(s, s') && Quiet(env, s)
    ensures Quiet(env, s')
  {
    forall k, i | k in s'.candidates && 0 <= i < |s'.buffered| ensures !Fits(env, s', k, s'.buffered[i]) {
      assert !Fits(env, s, k, s.buffered[i]);
    }
  }

  lemma SameGood(env: Env, s: XState, s': XState)
    requires Same(s, s') && Good(env, s)
    ensures Good(env, s')
  {
    SameTable(env, s, s');
    SameQuiet(env, s, s');
  }

  lemma RegSame(env: Env, s: XState, now: Time)
    ensures Same(s, SendReg(env, s, now)) && Same(s, SendSpake(env, s, now))
  {
  }

  lemma MeterSame(s: XState, line: string, now: Time)
    ensures Same(s, Meter(s, line, now))
  {
  }

  lemma SameTrans(a: XState, b: XState, c: XState)
    requires Same(a, b) && Same(b, c)
    ensures Same(a, c)
  {
  }

  lemma ReadySame(env: Env, s: XState, p: Pass)
    ensures Same(s, Ready(env, s, p))
  {
    var s1 := SendReg(env, s, p.now);
    var s2 := SendSpake(env, s1, p.now);
    var s3 := SendConfirms(env, s2, p.now);
    RegSame(env, s, p.now);
    RegSame(env, s1, p.now);
    ConfirmsSame(env, s2, p.now);
    SameTrans(s, s1, s2);
    SameTrans(s, s2, s3);
    if p.read.Data? {
      MeterSame(s3, LineText(p.read.text), p.now);
      SameTrans(s, s3, Ready(env, s, p));
    }
  }

  lemma ConfirmsSame(env: Env, s: XState, now: Time)
    ensures Same(s, SendConfirms(env, s, now))
  {
    assert SendConfirms(env, s, now).lastSent.Keys == s.lastSent.Keys;
  }

  // ----- a new candidate -----

  lemma WipeOthers(keys: seq<Bytes>, a: nat, b: nat, i: nat)
    requires a < |keys| && b < |keys| && i < |keys| && i != a && i != b
    ensures |Wipe(Wipe(keys, a), b)| == |keys| && Wipe(Wipe(keys, a), b)[i] == keys[i]
  {
  }

  lemma DropOne(env: Env, s: XState, k: Id, j: Id)
    requires CandidateOk(env, s, j) && BuffersExist(s, k) && j != k && Separate(s.candidates[j], s.candidates[k])
    ensures CandidateOk(env, DropCandidate(s, k), j)
    ensures SessionOf(DropCandidate(s, k), s.candidates[j]) == SessionOf(s, s.candidates[j])
  {
    var c, d := s.candidates[j], s.candidates[k];
    WipeOthers(s.keys, d.ck, d.ek, c.ck);
    WipeOthers(s.keys, d.ck, d.ek, c.ek);
    assert DropCandidate(s, k).candidates[j] == c;
  }

  lemma DropSession(env: Env, s: XState, k: Id, j: Id)
    requires Table(env, s) && k in s.candidates && BuffersExist(s, k) && j in s.candidates && j != k
    ensures CandidateOk(env, DropCandidate(s, k), j)
    ensures SessionOf(DropCandidate(s, k), s.candidates[j]) == SessionOf(s, s.candidates[j])
  {
    assert CandidateOk(env, s, j);
    DropOne(env, s, k, j);
  }

  lemma DropSize(s: XState, k: Id)
    requires k in s.candidates && BuffersExist(s, k) && s.candidates.Keys == s.lastSent.Keys
    ensures var s' := DropCandidate(s, k);
      s'.candidates.Keys == s'.lastSent.Keys && |s'.candidates| == |s.candidates| - 1
  {
    var s' := DropCandidate(s, k);
    assert s'.candidates.Keys == s.candidates.Keys - {k} && s'.lastSent.Keys == s.lastSent.Keys - {k};
  }

  lemma DropKeeps(env: Env, s: XState, k: Id)
    requires Table(env, s) && k in s.candidates && BuffersExist(s, k)
    ensures Table(env, DropCandidate(s, k)) && |DropCandidate(s, k).candidates| == |s.candidates| - 1
  {
    var s' := DropCandidate(s, k);
    DropSize(s, k);
    forall j | j in s'.candidates ensures CandidateOk(env, s', j) {
      DropSession(env, s, k, j);
    }
    DropSeparate(s, k);
  }

  lemma DropSeparate(s: XState, k: Id)
    requires AllSeparate(s) && k in s.candidates && BuffersExist(s, k)
    ensures AllSeparate(DropCandidate(s, k))
  {
  }

  lemma DropQuiet(env: Env, s: XState, k: Id)
    requires Good(env, s) && k in s.candidates && BuffersExist(s, k)
    ensures Quiet(env, DropCandidate(s, k))
  {
    var s' := DropCandidate(s, k);
    forall j, i | j in s'.candidates && 0 <= i < |s'.buffered| ensures !Fits(env, s', j, s'.buffered[i]) {
      DropSession(env, s, k, j);
      assert CandidateOk(env, s, j) && !Fits(env, s, j, s.buffered[i]);
    }
  }

  lemma RoomMade(env: Env, s: XState, m: XState)
    requires Good(env, s) && MadeRoom(s, m)
    ensures Good(env, m) && |m.candidates| < MAX_CANDIDATES && m.buffered == s.buffered
    ensures m.candidates.Keys <= s.candidates.Keys
  {
    if |s.candidates| >= MAX_CANDIDATES {
      var k :| Oldest(s, k) && BuffersExist(s, k) && m == DropCandidate(s, k);
      DropKeeps(env, s, k);
      DropQuiet(env, s, k);
    }
  }

  lemma OfferKey(env: Env, s: XState, body: string, rnd: Rand)
    requires LawfulEnv(env) && NewOffer(env, s, body, rnd).Some?
    ensures var o := NewOffer(env, s, body, rnd).value;
      o.key !in s.candidates && env.agree(o.key.payload) == Some(o.session)
  {
  }

  predicate OfferOk(env: Env, s: XState, o: Offer) {
    o.key !in s.candidates && env.agree(o.key.payload) == Some(o.session)
  }

  lemma AddSessions(env: Env, s: XState, o: Offer, now: Time, k: Id)
    requires Table(env, s) && OfferOk(env, s, o) && k in Add(env, s, o, now).candidates
    ensures var s' := Add(env, s, o, now);
      && CandidateOk(env, s', k)
      && SessionOf(s', s'.candidates[k]) == if k == o.key then o.session else SessionOf(s, s.candidates[k])
  {
    if k != o.key { assert CandidateOk(env, s, k); }
  }

  lemma AddKeeps(env: Env, s: XState, o: Offer, now: Time)
    requires Table(env, s) && |s.candidates| < MAX_CANDIDATES && OfferOk(env, s, o)
    ensures Table(env, Add(env, s, o, now))
  {
    var s' := Add(env, s, o, now);
    assert s'.candidates.Keys == s.candidates.Keys + {o.key} && s'.lastSent.Keys == s.lastSent.Keys + {o.key};
    forall k | k in s'.candidates ensures CandidateOk(env, s', k) {
      AddSessions(env, s, o, now, k);
    }
    AddSeparate(env, s, o, now);
  }

  lemma AddSeparate(env: Env, s: XState, o: Offer, now: Time)
    requires Table(env, s) && OfferOk(env, s, o)
    ensures AllSeparate(Add(env, s, o, now))
  {
    var s' := Add(env, s, o, now);
    forall j, k | j in s'.candidates && k in s'.candidates && j != k
      ensures Separate(s'.candidates[j], s'.candidates[k])
    {
      if j != o.key { assert CandidateOk(env, s, j); }
      if k != o.key { assert CandidateOk(env, s, k); }
    }
  }

  lemma {:induction false} NoMatch(env: Env, session: Session, buffered: seq<string>, i: nat)
    requires FirstMatch(env, session, buffered) == Running && i < |buffered|
    ensures env.verify(session, buffered[i]).None?
  {
    if i == 0 {
    } else {
      NoMatch(env, session, buffered[1..], i - 1);
    }
  }

  lemma {:induction false} SomeMatch(env: Env, session: Session, buffered: seq<string>) returns (i: nat)
    requires FirstMatch(env, session, buffered) != Running
    ensures i < |buffered| && env.verify(session, buffered[i]).Some?
    ensures FirstMatch(env, session, buffered) ==
      Done(env.verify(session, buffered[i]).value, session.peerFp, session.isServer)
  {
    if env.verify(session, buffered[0]).Some? {
      i := 0;
    } else {
      i := SomeMatch(env, session, buffered[1..]);
      i := i + 1;
    }
  }

  lemma AddQuiet(env: Env, s: XState, o: Offer, now: Time)
    requires Good(env, s) && OfferOk(env, s, o) && FirstMatch(env, o.session, s.buffered) == Running
    ensures Quiet(env, Add(env, s, o, now))
  {
    var s' := Add(env, s, o, now);
    forall k, i | k in s'.candidates && 0 <= i < |s'.buffered| ensures !Fits(env, s', k, s'.buffered[i]) {
      AddSessions(env, s, o, now, k);
      if k == o.key {
        NoMatch(env, o.session, s.buffered, i);
      } else {
        assert CandidateOk(env, s, k) && !Fits(env, s, k, s.buffered[i]);
      }
    }
  }

  /** The outcome is a candidate's, on a confirm that was heard. */
  ghost predicate Earned(env: Env, s: XState, heard: Line, s': XState, out: Outcome) {
    exists k, body :: Wins(env, s', k, body, out) && (body in s.buffered || heard == ConfirmLine(body))
  }

  predicate Wins(env: Env, s: XState, k: Id, body: string, out: Outcome) {
    Fits(env, s, k, body) && out == PeerOf(env, s, k, body)
  }

  lemma SpakeKeeps(env: Env, s: XState, body: string, p: Pass, s': XState, out: Outcome)
    requires LawfulEnv(env) && Good(env, s) && OnSpake(env, s, body, p, s', out)
    ensures Table(env, s') && (out == Running ==> Quiet(env, s')) && s'.buffered == s.buffered
    ensures out != Running ==> Earned(env, s, SpakeLine(body), s', out)
  {
    var offer := NewOffer(env, s, body, p.rnd);
    if offer.Some? {
      var o := offer.value;
      OfferKey(env, s, body, p.rnd);
      var m :| MadeRoom(s, m) && s' == Add(env, m, o, p.now);
      RoomMade(env, s, m);
      AddKeeps(env, m, o, p.now);
      if out == Running {
        AddQuiet(env, m, o, p.now);
      } else {
        var i := SomeMatch(env, o.session, s.buffered);
        AddSessions(env, m, o, p.now, o.key);
        assert Wins(env, s', o.key, s.buffered[i], out);
      }
    }
  }

  lemma BufferTable(env: Env, s: XState, body: string)
    requires Table(env, s)
    ensures Table(env, Buffer(s, body))
  {
    var s' := Buffer(s, body);
    forall k | k in s'.candidates ensures CandidateOk(env, s', k) {
      assert CandidateOk(env, s, k);
    }
  }

  lemma BufferFits(env: Env, s: XState, body: string, k: Id, b: string)
    ensures Fits(env, Buffer(s, body), k, b) == Fits(env, s, k, b)
  {
  }

  lemma BufferOne(env: Env, s: XState, body: string, k: Id, i: nat)
    requires Quiet(env, s) && k in s.candidates && !Fits(env, s, k, body) && i < |Buffer(s, body).buffered|
    ensures !Fits(env, Buffer(s, body), k, Buffer(s, body).buffered[i])
  {
    BufferFits(env, s, body, k, Buffer(s, body).buffered[i]);
    if i < |s.buffered| { assert !Fits(env, s, k, s.buffered[i]); }
  }

  lemma BufferKeeps(env: Env, s: XState, body: string)
    requires Quiet(env, s) && forall k :: !Fits(env, s, k, body)
    ensures Quiet(env, Buffer(s, body))
  {
    var s' := Buffer(s, body);
    forall k, i | k in s'.candidates && 0 <= i < |s'.buffered| ensures !Fits(env, s', k, s'.buffered[i]) {
      BufferOne(env, s, body, k, i);
    }
  }

  lemma ConfirmKeeps(env: Env, s: XState, body: string, s': XState, out: Outcome)
    requires Good(env, s) && OnConfirm(env, s, body, s', out)
    ensures Table(env, s') && (out == Running ==> Quiet(env, s'))
    ensures out != Running ==> Earned(env, s, ConfirmLine(body), s', out)
  {
    if exists k :: Fits(env, s, k, body) {
      var k :| Fits(env, s, k, body) && out == PeerOf(env, s, k, body);
      assert Wins(env, s', k, body, out);
    } else {
      BufferTable(env, s, body);
      BufferKeeps(env, s, body);
    }
  }

  lemma LineKeeps(env: Env, s: XState, line: Line, p: Pass, s': XState, out: Outcome)
    requires LawfulEnv(env) && Good(env, s) && OnLine(env, s, line, p, s', out)
    ensures Table(env, s') && (out == Running ==> Quiet(env, s'))
    ensures out != Running ==> Earned(env, s, line, s', out)
  {
    match line
    case OkLine(addr) => SameGood(env, s, s');
    case ChallengeLine(_) => SameGood(env, s, s');
    case SpakeLine(body) => SpakeKeeps(env, s, body, p, s', out);
    case ConfirmLine(body) => ConfirmKeeps(env, s, body, s', out);
    case Ignored =>
  }

  /** One pass keeps the table; while the loop goes on no early confirm fits; if it ends
      with a peer, that peer was earned. */
  lemma NextKeeps(env: Env, s: XState, p: Pass, s': XState, out: Outcome)
    requires LawfulEnv(env) && Good(env, s) && Next(env, s, p, s', out)
    ensures Table(env, s') && (out == Running ==> Quiet(env, s'))
    ensures out.Done? ==> Earned(env, s, Heard(env, s, p), s', out)
  {
    var r := Ready(env, s, p);
    ReadySame(env, s, p);
    SameGood(env, s, r);
    if !p.cancelled && p.now <= env.deadline && !p.read.Failed? {
      LineKeeps(env, r, Heard(env, s, p), p, s', out);
    }
  }

  /** How a pass changes the early confirms. */
  predicate BuffersRight(line: Line, s: XState, s': XState, out: Outcome) {
    && (s'.buffered == s.buffered || (line.ConfirmLine? && s'.buffered == s.buffered + [line.body]))
    && (line.ConfirmLine? && out == Running && |s.buffered| < MAX_BUFFERED ==> s'.buffered == s.buffered + [line.body])
  }

  lemma NextBuffered(env: Env, s: XState, p: Pass, s': XState, out: Outcome)
    requires Next(env, s, p, s', out)
    ensures BuffersRight(Heard(env, s, p), s, s', out)
  {
    var r := Ready(env, s, p);
    ReadySame(env, s, p);
    if !p.cancelled && p.now <= env.deadline && !p.read.Failed? {
      LineBuffered(env, r, Heard(env, s, p), p, s', out);
    }
  }

  lemma LineBuffered(env: Env, s: XState, line: Line, p: Pass, s': XState, out: Outcome)
    requires OnLine(env, s, line, p, s', out)
    ensures BuffersRight(line, s, s', out)
  {
    if line.SpakeLine? && NewOffer(env, s, line.body, p.rnd).Some? {
      var m :| MadeRoom(s, m) && s' == Add(env, m, NewOffer(env, s, line.body, p.rnd).value, p.now);
    }
  }

  // ----- runs of any step relation that keeps the laws above -----

  type Steps = (XState, Pass, XState, Outcome) -> bool

  ghost function Loop(env: Env): Steps {
    (s, p, s', out) => Next(env, s, p, s', out)
  }

  /** What a pass hears, as a value. */
  type Hears = (XState, Pass) -> Line

  function Hearing(env: Env): Hears {
    (s, p) => Heard(env, s, p)
  }

  ghost predicate Kept(env: Env, s: XState, line: Line, s': XState, out: Outcome) {
    Table(env, s') && (out == Running ==> Quiet(env, s')) && (out.Done? ==> Earned(env, s, line, s', out))
  }

  ghost predicate StepLaw(env: Env, hears: Hears, step: Steps, s: XState, p: Pass, s': XState, out: Outcome) {
    step(s, p, s', out) ==>
      (Good(env, s) ==> Kept(env, s, hears(s, p), s', out)) && BuffersRight(hears(s, p), s, s', out)
  }

  ghost predicate Lawful(env: Env, hears: Hears, step: Steps) {
    forall s, p, s', out :: StepLaw(env, hears, step, s, p, s', out)
  }

  lemma LoopLawful(env: Env)
    requires LawfulEnv(env)
    ensures Lawful(env, Hearing(env), Loop(env))
  {
    forall s, p, s', out ensures StepLaw(env, Hearing(env), Loop(env), s, p, s', out) {
      if Next(env, s, p, s', out) {
        NextBuffered(env, s, p, s', out);
        if Good(env, s) { NextKeeps(env, s, p, s', out); }
      }
    }
  }

  /** What each pass of a run meets, the states around the passes, and their outcomes. */
  datatype History = History(addr: Bytes, passes: seq<Pass>, states: seq<XState>, outs: seq<Outcome>)

  predicate Shaped(h: History) {
    |h.states| == |h.passes| + 1 && |h.outs| == |h.passes|
  }

  predicate StepAt(step: Steps, h: History, i: nat)
    requires Shaped(h) && i < |h.passes|
  {
    step(h.states[i], h.passes[i], h.states[i + 1], h.outs[i])
  }

  /** The h.states between the h.passes of one run; only the last pass may end it. */
  ghost predicate Trace(step: Steps, h: History) {
    && Shaped(h) && h.states[0] == Start(h.addr)
    && (forall i: nat | i < |h.passes| :: StepAt(step, h, i))
    && (forall i | 0 <= i < |h.passes| - 1 :: h.outs[i] == Running)
  }

  lemma StartGood(env: Env, addr: Bytes)
    ensures Good(env, Start(addr))
  {
  }

  ghost predicate Ongoing(h: History, i: nat)
    requires Shaped(h) && i <= |h.passes|
  {
    i < |h.passes| || i == 0 || h.outs[i - 1] == Running
  }

  lemma {:induction false} TraceInvariant(env: Env, hears: Hears, step: Steps, h: History, i: nat)
    requires Lawful(env, hears, step) && Trace(step, h) && i <= |h.passes|
    ensures Table(env, h.states[i]) && (Ongoing(h, i) ==> Quiet(env, h.states[i]))
  {
    if i == 0 {
      StartGood(env, h.addr);
    } else {
      TraceInvariant(env, hears, step, h, i - 1);
      assert StepAt(step, h, i - 1);
      assert StepLaw(env, hears, step, h.states[i - 1], h.passes[i - 1], h.states[i], h.outs[i - 1]);
    }
  }

  ghost predicate HeardBefore(hears: Hears, h: History, i: nat, body: string)
    requires Shaped(h) && i <= |h.passes|
  {
    exists j | 0 <= j < i :: hears(h.states[j], h.passes[j]) == ConfirmLine(body)
  }

  lemma {:induction false} BufferedWereHeard(env: Env, hears: Hears, step: Steps, h: History, i: nat, body: string)
    requires Lawful(env, hears, step) && Trace(step, h) && i <= |h.passes| && body in h.states[i].buffered
    ensures HeardBefore(hears, h, i, body)
  {
    assert StepAt(step, h, i - 1);
    assert StepLaw(env, hears, step, h.states[i - 1], h.passes[i - 1], h.states[i], h.outs[i - 1]);
    if body in h.states[i - 1].buffered { BufferedWereHeard(env, hears, step, h, i - 1, body); }
  }

  lemma {:induction false} BufferedStays(env: Env, hears: Hears, step: Steps, h: History, i: nat, j: nat, body: string)
    requires Lawful(env, hears, step) && Trace(step, h) && i <= j <= |h.passes| && body in h.states[i].buffered
    ensures body in h.states[j].buffered
  {
    if i == j {
    } else {
      BufferedStays(env, hears, step, h, i, j - 1, body);
      assert StepAt(step, h, j - 1);
      assert StepLaw(env, hears, step, h.states[j - 1], h.passes[j - 1], h.states[j], h.outs[j - 1]);
    }
  }

  lemma Winner(env: Env, hears: Hears, step: Steps, h: History) returns (k: Id, body: string)
    requires Lawful(env, hears, step) && Trace(step, h) && h.passes != [] && h.outs[|h.passes| - 1].Done?
    ensures CandidateOk(env, h.states[|h.passes|], k)
      && Wins(env, h.states[|h.passes|], k, body, h.outs[|h.passes| - 1])
    ensures HeardBefore(hears, h, |h.passes|, body)
  {
    var n := |h.passes| - 1;
    TraceInvariant(env, hears, step, h, n);
    assert StepAt(step, h, n);
    assert StepLaw(env, hears, step, h.states[n], h.passes[n], h.states[n + 1], h.outs[n]);
    k, body :| Wins(env, h.states[n + 1], k, body, h.outs[n])
            && (body in h.states[n].buffered || hears(h.states[n], h.passes[n]) == ConfirmLine(body));
    if body in h.states[n].buffered { BufferedWereHeard(env, hears, step, h, n, body); }
  }

  // ----- the loop -----

  /** At every pass: at most 50 candidates, each with its confirm sent and its keys
      intact, and no early confirm fits any of them while the loop goes on. */
  lemma LoopInvariant(env: Env, h: History, i: nat)
    requires LawfulEnv(env) && Trace(Loop(env), h) && i <= |h.passes|
    ensures Table(env, h.states[i]) && (Ongoing(h, i) ==> Quiet(env, h.states[i]))
  {
    LoopLawful(env);
    TraceInvariant(env, Hearing(env), Loop(env), h, i);
  }

  /** A run that ends with a peer returns address, fingerprint and role of one candidate
      whose own confirm was sent, on a confirm that was heard and fits its keys. */
  lemma ResultFromOneCandidate(env: Env, h: History) returns (k: Id, body: string)
    requires LawfulEnv(env) && Trace(Loop(env), h) && h.passes != [] && h.outs[|h.passes| - 1].Done?
    ensures CandidateOk(env, h.states[|h.passes|], k)
      && Wins(env, h.states[|h.passes|], k, body, h.outs[|h.passes| - 1])
    ensures HeardBefore(Hearing(env), h, |h.passes|, body)
  {
    LoopLawful(env);
    k, body := Winner(env, Hearing(env), Loop(env), h);
  }

  /** A candidate leaves the table only to make room for a payload that has passed
      validation, when the table was full, and only the one whose confirm is oldest. */
  lemma EvictionOnlyForValid(env: Env, s: XState, p: Pass, s': XState, out: Outcome, k: Id)
    requires LawfulEnv(env) && Good(env, s) && Next(env, s, p, s', out) && k in s.candidates && k !in s'.candidates
    ensures var r := Ready(env, s, p);
      && Heard(env, s, p).SpakeLine? && NewOffer(env, r, Heard(env, s, p).body, p.rnd).Some?
      && |s.candidates| == MAX_CANDIDATES && Oldest(r, k)
      && s'.candidates.Keys == s.candidates.Keys - {k} + {NewOffer(env, r, Heard(env, s, p).body, p.rnd).value.key}
  {
    var r := Ready(env, s, p);
    ReadySame(env, s, p);
    LineEviction(env, r, Heard(env, s, p), p, s', out, k);
  }

  lemma LineEviction(env: Env, s: XState, line: Line, p: Pass, s': XState, out: Outcome, k: Id)
    requires OnLine(env, s, line, p, s', out) && k in s.candidates && k !in s'.candidates
    ensures line.SpakeLine? && NewOffer(env, s, line.body, p.rnd).Some? && |s.candidates| >= MAX_CANDIDATES
      && Oldest(s, k)
    ensures s'.candidates.Keys == s.candidates.Keys - {k} + {NewOffer(env, s, line.body, p.rnd).value.key}
  {
    assert line.SpakeLine?;
    var o := NewOffer(env, s, line.body, p.rnd).value;
    var m :| MadeRoom(s, m) && s' == Add(env, m, o, p.now);
    assert s'.candidates.Keys == m.candidates.Keys + {o.key};
    var v :| Oldest(s, v) && BuffersExist(s, v) && m == DropCandidate(s, v);
    assert m.candidates.Keys == s.candidates.Keys - {v};
    assert v == k;
  }
}
