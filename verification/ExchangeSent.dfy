/** What the loop writes is what the relay reads. */
module ExchangeSent {
  import opened Text
  import opened Wire
  import opened Spake2
  import opened Confirm
  import opened Exchange
  import opened ExchangeRuns
  import opened ExchangeHonest

  predicate BodySize(p: Bytes) {
    1 <= |p| <= 512
  }

  predicate CookieText(cookie: string) {
    AllHex(cookie) && |cookie| <= 32
  }

  predicate DatagramOk(d: Datagram) {
    match d
    case RegMsg(cookie) => CookieText(cookie)
    case SpakeMsg => true
    case ConfirmMsg(payload) => BodySize(payload)
  }

  function Meant(env: Env, d: Datagram): Packet {
    match d
    case RegMsg(cookie) => RegPacket(env.room, cookie)
    case SpakeMsg => MsgPacket(env.room, "spake2", HexEncode(env.payload))
    case ConfirmMsg(payload) => MsgPacket(env.room, "confirm", HexEncode(payload))
  }

  lemma ReadAsMeant(env: Env, d: Datagram)
    requires ValidRoomName(env.room) && BodySize(env.payload) && DatagramOk(d)
    ensures ParsePacket(Format(env, d)) == Meant(env, d)
  {
    match d
    case RegMsg(cookie) => RegRead(env.room, cookie);
    case SpakeMsg => MsgToRelay(env.room, "spake2", env.payload);
    case ConfirmMsg(payload) => MsgToRelay(env.room, "confirm", payload);
  }

  /** Everything sent so far, and what may be sent next. */
  ghost predicate SentOk(s: XState) {
    && (forall d | d in s.sent :: DatagramOk(d)) && CookieText(s.cookie)
    && (forall k | k in s.candidates :: BodySize(s.candidates[k].confirm))
  }

  ghost predicate SizedEnv(env: Env) {
    forall session, addr, r | RightSizes(r) && env.confirm(session, addr, r).Some? ::
      BodySize(env.confirm(session, addr, r).value)
  }

  lemma OwnSent(env: Env, s: XState, now: Time)
    requires SentOk(s)
    ensures SentOk(SendSpake(env, SendReg(env, s, now), now))
  {
  }

  lemma ConfirmsSent(env: Env, s: XState, now: Time)
    requires SentOk(s)
    ensures SentOk(SendConfirms(env, s, now))
  {
  }

  lemma ReadySent(env: Env, s: XState, p: Pass)
    requires SentOk(s)
    ensures SentOk(Ready(env, s, p))
  {
    OwnSent(env, s, p.now);
    ConfirmsSent(env, SendSpake(env, SendReg(env, s, p.now), p.now), p.now);
    if p.read.Data? { MeterSent(Sends(env, s, p.now), LineText(p.read.text), p.now); }
  }

  lemma MeterSent(s: XState, line: string, now: Time)
    requires SentOk(s)
    ensures SentOk(Meter(s, line, now))
  {
  }

  lemma MadeSent(s: XState, m: XState)
    requires SentOk(s) && MadeRoom(s, m)
    ensures SentOk(m)
  {
  }

  lemma AddSent(env: Env, m: XState, offer: Offer, now: Time)
    requires SentOk(m) && BodySize(offer.confirm)
    ensures SentOk(Add(env, m, offer, now))
  {
  }

  lemma SpakeSent(env: Env, s: XState, body: string, p: Pass, s': XState, out: Outcome)
    requires SizedEnv(env) && RightSizes(p.rnd) && SentOk(s) && OnSpake(env, s, body, p, s', out)
    ensures SentOk(s')
  {
    var offer := NewOffer(env, s, body, p.rnd);
    if offer.Some? {
      var m :| MadeRoom(s, m) && s' == Add(env, m, offer.value, p.now);
      MadeSent(s, m);
      AddSent(env, m, offer.value, p.now);
    }
  }

  lemma ChallengeCookie(room: string, line: string)
    ensures ReadTrimmed(room, line).ChallengeLine? ==> CookieText(ReadTrimmed(room, line).cookie)
  {
  }

  lemma LineSent(env: Env, s: XState, line: Line, p: Pass, s': XState, out: Outcome)
    requires SizedEnv(env) && RightSizes(p.rnd) && SentOk(s) && OnLine(env, s, line, p, s', out)
    requires line.ChallengeLine? ==> CookieText(line.cookie)
    ensures SentOk(s')
  {
    if line.SpakeLine? { SpakeSent(env, s, line.body, p, s', out); }
  }

  lemma NextSent(env: Env, s: XState, p: Pass, s': XState, out: Outcome)
    requires SizedEnv(env) && RightSizes(p.rnd) && SentOk(s) && Next(env, s, p, s', out)
    ensures SentOk(s')
  {
    ReadySent(env, s, p);
    if !p.cancelled && p.now <= env.deadline && !p.read.Failed? {
      if p.read.Data? { ChallengeCookie(env.room, LineText(p.read.text)); }
      LineSent(env, Ready(env, s, p), Heard(env, s, p), p, s', out);
    }
  }

  ghost predicate SentStep(step: Steps, s: XState, p: Pass, s': XState, out: Outcome) {
    step(s, p, s', out) && RightSizes(p.rnd) && SentOk(s) ==> SentOk(s')
  }

  ghost predicate SentSteps(step: Steps) {
    forall s, p, s', out :: SentStep(step, s, p, s', out)
  }

  lemma {:induction false} TraceSent(step: Steps, h: History, i: nat)
    requires SentSteps(step) && Trace(step, h) && i <= |h.passes|
    requires forall j | 0 <= j < i :: RightSizes(h.passes[j].rnd)
    ensures SentOk(h.states[i])
  {
    if i == 0 {
    } else {
      TraceSent(step, h, i - 1);
      assert StepAt(step, h, i - 1);
      assert SentStep(step, h.states[i - 1], h.passes[i - 1], h.states[i], h.outs[i - 1]);
    }
  }

  lemma LoopSent(env: Env)
    requires SizedEnv(env)
    ensures SentSteps(Loop(env))
  {
    forall s, p, s', out ensures SentStep(Loop(env), s, p, s', out) {
      if Next(env, s, p, s', out) && RightSizes(p.rnd) && SentOk(s) { NextSent(env, s, p, s', out); }
    }
  }

  lemma ConfirmSize(g: Group, x: Suite, s: Session, fp: Bytes, addr: Bytes, r: Rand)
    requires LawfulSuite(x) && RightSizes(r) && ConfirmPayload(g, x, s, fp, addr, r).Ok?
    ensures |ConfirmPayload(g, x, s, fp, addr, r).value| == CONFIRM_LEN
  {
    assert |Padded(addr)| == MAX_METADATA;
  }

  lemma EnvSized(g: Group, x: Suite, st: State, fp: Bytes, room: string, literal: string -> bool, t: Timing)
    requires LawfulSuite(x)
    ensures SizedEnv(EnvOf(g, x, st, fp, room, literal, t))
  {
    var env := EnvOf(g, x, st, fp, room, literal, t);
    forall session, addr, r | RightSizes(r) && env.confirm(session, addr, r).Some?
      ensures BodySize(env.confirm(session, addr, r).value)
    {
      ConfirmSize(g, x, session, fp, addr, r);
    }
  }

  /** Every datagram any run of an honest client's loop writes is read by the relay as the
      registration or message it was meant to be. */
  lemma SentIsRead(g: Group, x: Suite, st: State, fp: Bytes, room: string, literal: string -> bool, t: Timing,
                   h: History, i: nat, d: Datagram)
    requires LawfulGroup(g) && LawfulSuite(x) && Honest(g, st) && |fp| == FINGERPRINT_LEN && ValidRoomName(room)
    requires Trace(Loop(EnvOf(g, x, st, fp, room, literal, t)), h) && forall p | p in h.passes :: RightSizes(p.rnd)
    requires i <= |h.passes| && d in h.states[i].sent
    ensures var env := EnvOf(g, x, st, fp, room, literal, t); ParsePacket(Format(env, d)) == Meant(env, d)
  {
    var env := EnvOf(g, x, st, fp, room, literal, t);
    EnvSized(g, x, st, fp, room, literal, t);
    LoopSent(env);
    TraceSent(Loop(env), h, i);
    PayloadParts(g, st, fp);
    ReadAsMeant(env, d);
  }
}
