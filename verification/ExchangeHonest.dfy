/** The exchange loop over the real key agreement: two honest peers find each other. */
module ExchangeHonest {
  import opened Text
  import opened Wire
  import opened Spake2
  import opened Confirm
  import opened Exchange
  import opened ExchangeRuns
  import opened ExchangePrompt
  import opened ExchangeLoop

  function ToOption<T>(r: Result<T, Failure>): Option<T> {
    match r
    case Ok(v) => Some(v)
    case Err(_) => None
  }

  datatype Timing = Timing(deadline: Time, regInterval: nat, spakeResend: nat, confirmResend: nat)

  /** What the loop of a client with state st and certificate fingerprint fp works with. */
  function EnvOf(g: Group, x: Suite, st: State, fp: Bytes, room: string, literal: string -> bool, t: Timing): Env {
    Env(room, Payload(g, st, fp), literal,
        p => if g.order > 0 then ToOption(ProcessPayload(g, x, st, fp, p)) else None,
        (s, addr, rnd) => ToOption(ConfirmPayload(g, x, s, fp, addr, rnd)),
        (s, body) => ToOption(ProcessConfirm(g, x, s, fp, body)),
        t.deadline, t.regInterval, t.spakeResend, t.confirmResend)
  }

  lemma PayloadPrefix(g: Group, x: Suite, st: State, fp: Bytes, p: Bytes)
    requires g.order > 0 && |p| >= PAYLOAD_LEN
    ensures ProcessPayload(g, x, st, fp, p) == ProcessPayload(g, x, st, fp, p[..PAYLOAD_LEN])
  {
    var q := p[..PAYLOAD_LEN];
    assert q[..POINT_LEN] == p[..POINT_LEN] && q[POINT_LEN..2 * POINT_LEN] == p[POINT_LEN..2 * POINT_LEN];
    assert q[2 * POINT_LEN..PAYLOAD_LEN] == p[2 * POINT_LEN..PAYLOAD_LEN];
  }

  lemma EnvLawful(g: Group, x: Suite, st: State, fp: Bytes, room: string, literal: string -> bool, t: Timing)
    ensures LawfulEnv(EnvOf(g, x, st, fp, room, literal, t))
  {
    var env := EnvOf(g, x, st, fp, room, literal, t);
    forall p: Bytes | |p| >= PAYLOAD_LEN ensures env.agree(p) == env.agree(p[..PAYLOAD_LEN]) {
      if g.order > 0 { PayloadPrefix(g, x, st, fp, p); }
    }
  }

  /** The confirm b sends, having read a's payload. */
  function PeerConfirm(g: Group, x: Suite, a: State, b: State, fpA: Bytes, fpB: Bytes, addrB: Bytes,
      rB: Rand): Option<Bytes>
    requires g.order > 0
  {
    var sb := ProcessSpakeMsg(g, x, b, fpB, HexEncode(Payload(g, a, fpA)));
    if sb.Err? then None else ToOption(ConfirmPayload(g, x, sb.value, fpB, addrB, rB))
  }

  /** Two honest peers that share a password. */
  ghost predicate Peers(g: Group, x: Suite, a: State, b: State, fpA: Bytes, fpB: Bytes) {
    && LawfulGroup(g) && LawfulSuite(x) && Honest(g, a) && Honest(g, b) && a.pw == b.pw
    && |fpA| == FINGERPRINT_LEN && |fpB| == FINGERPRINT_LEN
  }

  lemma PeerConfirmFits(g: Group, x: Suite, a: State, b: State, fpA: Bytes, fpB: Bytes, addrB: Bytes, rB: Rand)
    requires Peers(g, x, a, b, fpA, fpB) && AllDrawn(rB) && PeerConfirm(g, x, a, b, fpA, fpB, addrB, rB).Some?
    ensures var sa := ProcessPayload(g, x, a, fpA, Payload(g, b, fpB));
      && sa.Ok? && sa.value.peerFp == fpB && sa.value.isServer == Serves(g, a, b) && Serves(g, a, b) != Serves(g, b, a)
      && ProcessConfirm(g, x, sa.value, fpA, HexEncode(PeerConfirm(g, x, a, b, fpA, fpB, addrB, rB).value)) ==
        Ok(TrimNul(addrB))
  {
    HexRoundTrip(Payload(g, b, fpB));
    Agreement(g, x, a, b, fpA, fpB);
    SessionKeySize(g, x, b, fpB, HexEncode(Payload(g, a, fpA)));
    var sa := ProcessSpakeMsg(g, x, a, fpA, HexEncode(Payload(g, b, fpB)));
    var sb := ProcessSpakeMsg(g, x, b, fpB, HexEncode(Payload(g, a, fpA)));
    ReadsPeer(g, x, a, b, fpA, fpB);
    OneServes(g, a, b);
    ConfirmRoundTrip(g, x, sb.value, sa.value, fpB, fpA, addrB, rB);
  }

  /** a's loop and b's confirm, as text. */
  datatype Meeting = Meeting(g: Group, x: Suite, a: State, b: State, fpA: Bytes, fpB: Bytes, addrB: Bytes, rB: Rand,
                             room: string, literal: string -> bool, t: Timing)

  function LoopOf(m: Meeting): Env {
    EnvOf(m.g, m.x, m.a, m.fpA, m.room, m.literal, m.t)
  }

  function PeerId(m: Meeting): Id {
    Id(Payload(m.g, m.b, m.fpB))
  }

  ghost predicate CanMeet(m: Meeting) {
    && Peers(m.g, m.x, m.a, m.b, m.fpA, m.fpB) && AllDrawn(m.rB)
    && PeerConfirm(m.g, m.x, m.a, m.b, m.fpA, m.fpB, m.addrB, m.rB).Some?
  }

  function PeerBody(m: Meeting): string
    requires m.g.order > 0 && PeerConfirm(m.g, m.x, m.a, m.b, m.fpA, m.fpB, m.addrB, m.rB).Some?
  {
    HexEncode(PeerConfirm(m.g, m.x, m.a, m.b, m.fpA, m.fpB, m.addrB, m.rB).value)
  }

  /** As a candidate, b has its own fingerprint and the role a does not have, and its confirm fits. */
  lemma PeerCandidate(m: Meeting, s: XState)
    requires CanMeet(m) && CandidateOk(LoopOf(m), s, PeerId(m))
    ensures var c := s.candidates[PeerId(m)]; c.fp == m.fpB && c.isServer == Serves(m.g, m.a, m.b)
    ensures Serves(m.g, m.a, m.b) != Serves(m.g, m.b, m.a)
    ensures Fits(LoopOf(m), s, PeerId(m), PeerBody(m))
    ensures LoopOf(m).verify(SessionOf(s, s.candidates[PeerId(m)]), PeerBody(m)) == Some(TrimNul(m.addrB))
  {
    PeerConfirmFits(m.g, m.x, m.a, m.b, m.fpA, m.fpB, m.addrB, m.rB);
  }

  /** Once b's payload is a candidate and b's confirm has been heard, in either order, a's
      loop has ended with a peer: it is b, with the role a does not have, unless b's confirm
      also fits another candidate. */
  lemma HonestPeersFinish(m: Meeting, h: History, i: nat)
    requires CanMeet(m) && Trace(Loop(LoopOf(m)), h) && HeardFrom(LoopOf(m), h, i, PeerId(m), PeerBody(m))
    requires PeerId(m) in h.states[|h.passes|].candidates
    ensures var s, out := h.states[|h.passes|], h.outs[|h.passes| - 1];
      && out.Done?
      && ((out.fp == m.fpB && out.isServer == Serves(m.g, m.a, m.b)) || OtherFits(LoopOf(m), s, PeerId(m), PeerBody(m)))
  {
    var env, s := LoopOf(m), h.states[|h.passes|];
    EnvLawful(m.g, m.x, m.a, m.fpA, m.room, m.literal, m.t);
    LoopInvariant(env, h, |h.passes|);
    assert CandidateOk(env, s, PeerId(m));
    PeerCandidate(m, s);
    ReturnsPromptly(env, h, i, PeerBody(m), PeerId(m));
    Settled(env, s, PeerId(m), PeerBody(m), h.outs[|h.passes| - 1]);
  }

  lemma Settled(env: Env, s: XState, k: Id, body: string, out: Outcome)
    requires Settles(env, s, k, body, out) && k in s.candidates
    ensures out.Done?
    ensures (out.fp == s.candidates[k].fp && out.isServer == s.candidates[k].isServer) || OtherFits(env, s, k, body)
  {
  }

  /** Pass i hears the confirm with space in the buffer or the candidate already there. */
  predicate HeardFrom(env: Env, h: History, i: nat, k: Id, body: string)
    requires Shaped(h)
  {
    && i < |h.passes| && Heard(env, h.states[i], h.passes[i]) == ConfirmLine(body)
    && (|h.states[i].buffered| < MAX_BUFFERED || k in h.states[i].candidates)
  }

  ghost predicate OtherFits(env: Env, s: XState, k: Id, body: string) {
    exists k' :: k' != k && Fits(env, s, k', body)
  }

  /** If the loop ends on b's payload and b's confirm, it returns b's address and
      fingerprint, and the role that b does not have. */
  lemma HonestResult(m: Meeting, s: XState, out: Outcome)
    requires CanMeet(m) && CandidateOk(LoopOf(m), s, PeerId(m)) && Wins(LoopOf(m), s, PeerId(m), PeerBody(m), out)
    ensures out == Done(TrimNul(m.addrB), m.fpB, Serves(m.g, m.a, m.b))
      && Serves(m.g, m.a, m.b) != Serves(m.g, m.b, m.a)
  {
    PeerCandidate(m, s);
  }

  // ----- leaving nothing behind -----

  const BLANK := State(0, 0, 0, 0, 0)

  /** One side's ephemeral secrets and points. */
  class Secrets {
    var st: State

    constructor (st: State)
      ensures this.st == st
    {
      this.st := st;
    }

    method Destroy()
      modifies this
      ensures st == BLANK
    {
      st := BLANK;
    }
  }

  /** The whole exchange: whatever its outcome, the session keys and the ephemeral secrets are gone. */
  method RegisterAndExchange(g: Group, x: Suite, secrets: Secrets, fp: Bytes, room: string, literal: string -> bool,
                             t: Timing, addr: Bytes, passes: seq<Pass>) returns (out: Outcome, keys: seq<Bytes>)
    modifies secrets
    ensures LeadsTo(EnvOf(g, x, old(secrets.st), fp, room, literal, t), addr, passes, out, |keys|)
    ensures secrets.st == BLANK && forall i | 0 <= i < |keys| :: Wiped(keys[i])
  {
    var env := EnvOf(g, x, secrets.st, fp, room, literal, t);
    EnvLawful(g, x, secrets.st, fp, room, literal, t);
    out, keys := ExchangeAndWipe(env, addr, passes);
    secrets.Destroy();
  }
}
