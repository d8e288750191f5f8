/** The client's exchange loop: candidates for the peer, confirms that came too early,
    and when the loop ends.  One pass of the loop is one step; the order in which a map
    is walked is left open. */
module Exchange {
  import opened Text
  import opened Wire
  import opened Spake2
  import opened Confirm

  type Time = nat

  const MAX_CANDIDATES: nat := 50
  const MAX_BUFFERED: nat := 200
  const MAX_INBOUND: nat := 500
  const SECOND: nat := 1_000_000_000
  const READ_BUFFER: nat := 1500

  /** Own room, own payload, timing, and the three things the loop asks of the key
      agreement: what a payload leads to, the confirm to send, and whether a confirm is
      good (and the address in it).  `literal` tells IP:port texts with a non-zero port. */
  datatype Env = Env(
    room: string, payload: Bytes, literal: string -> bool,
    agree: Bytes -> Option<Session>,
    confirm: (Session, Bytes, Rand) -> Option<Bytes>,
    verify: (Session, string) -> Option<Bytes>,
    deadline: Time, regInterval: nat, spakeResend: nat, confirmResend: nat)

  /** `ck` and `ek` are the positions of its key buffers. */
  datatype Candidate = Candidate(myPoint: Bytes, point: Bytes, fp: Bytes, isServer: bool, ck: nat, ek: nat,
      confirm: Bytes)

  /** The fixed-size part of a peer's payload, which identifies a candidate. */
  datatype Id = Id(payload: Bytes)

  /** What the loop writes to the relay. */
  datatype Datagram = RegMsg(cookie: string) | SpakeMsg | ConfirmMsg(payload: Bytes)

  datatype XState = XState(
    candidates: map<Id, Candidate>,
    lastSent: map<Id, Time>,
    buffered: seq<string>,
    keys: seq<Bytes>,              // every key buffer handed out so far
    myAddr: Bytes,
    registered: bool, cookie: string,
    lastReg: Option<Time>, lastSpake: Option<Time>,
    window: Option<Time>, inbound: nat,
    sent: set<Datagram>)           // every datagram written so far

  function Start(myAddr: Bytes): XState {
    XState(map[], map[], [], [], myAddr, false, "", None, None, None, 0, {})
  }

  datatype Read = Timeout | Failed | Data(text: string)

  /** What one pass of the loop meets. */
  datatype Pass = Pass(cancelled: bool, now: Time, read: Read, rnd: Rand)

  datatype Outcome = Running | Cancelled | TimedOut | ReadFailed | Done(addr: Bytes, fp: Bytes, isServer: bool)

  // ----- sending -----

  predicate Due(since: Option<Time>, now: Time, interval: nat) {
    since.None? || now - since.value > interval
  }

  function Format(env: Env, d: Datagram): string {
    match d
    case RegMsg(cookie) => FormatReg(env.room, cookie)
    case SpakeMsg => FormatMsg(env.room, "spake2", env.payload)
    case ConfirmMsg(payload) => FormatMsg(env.room, "confirm", payload)
  }

  function SendReg(env: Env, s: XState, now: Time): XState {
    if !Due(s.lastReg, now, env.regInterval) then s
    else s.(sent := s.sent + {RegMsg(s.cookie)}, lastReg := Some(now))
  }

  function SendSpake(env: Env, s: XState, now: Time): XState {
    if !s.registered || !Due(s.lastSpake, now, env.spakeResend) then s
    else s.(sent := s.sent + {SpakeMsg}, lastSpake := Some(now))
  }

  function DueConfirms(env: Env, s: XState, now: Time): set<Id> {
    set k | k in s.candidates && k in s.lastSent && now - s.lastSent[k] > env.confirmResend
  }

  function Stamped(lastSent: map<Id, Time>, which: set<Id>, now: Time): map<Id, Time> {
    map k | k in lastSent :: if k in which then now else lastSent[k]
  }

  function ConfirmsOf(candidates: map<Id, Candidate>, which: set<Id>): set<Datagram>
    requires which <= candidates.Keys
  {
    set k | k in which :: ConfirmMsg(candidates[k].confirm)
  }

  function SendConfirms(env: Env, s: XState, now: Time): XState {
    var due := DueConfirms(env, s, now);
    s.(lastSent := Stamped(s.lastSent, due, now), sent := s.sent + ConfirmsOf(s.candidates, due))
  }

  function Sends(env: Env, s: XState, now: Time): XState {
    SendConfirms(env, SendSpake(env, SendReg(env, s, now), now), now)
  }

  // ----- receiving -----

  /** The inbound budget of relayed messages, per second. */
  function Meter(s: XState, line: string, now: Time): XState {
    if !HasPrefix(line, "MSGD ") then s
    else if s.window.None? || now - s.window.value >= SECOND then s.(window := Some(now), inbound := 1)
    else s.(inbound := s.inbound + 1)
  }

  predicate OverBudget(s: XState, line: string) {
    HasPrefix(line, "MSGD ") && s.inbound > MAX_INBOUND
  }

  predicate PrintableASCII(s: string) {
    s != "" && Visible(s)
  }

  function TextBytes(s: string): Bytes {
    seq(|s|, i requires 0 <= i < |s| => s[i] as int % 256)
  }

  function OnOk(env: Env, s: XState, addr: string): XState {
    s.(registered := true,
       myAddr := if env.literal(addr) && PrintableASCII(addr) then TextBytes(addr) else s.myAddr)
  }

  /** Key buffers hold what they were made with or have been wiped. */
  function SessionOf(s: XState, c: Candidate): Session
    requires c.ck < |s.keys| && c.ek < |s.keys|
  {
    Session(c.myPoint, c.point, c.fp, c.isServer, Keys(s.keys[c.ck], s.keys[c.ek]))
  }

  datatype Offer = Offer(key: Id, session: Session, confirm: Bytes)

  /** A spake2 message that is complete, new and valid, with the confirm to answer it. */
  function NewOffer(env: Env, s: XState, body: string, rnd: Rand): Option<Offer> {
    var p := HexDecode(body);
    if p.None? || |p.value| < PAYLOAD_LEN then None else
    var key := Id(p.value[..PAYLOAD_LEN]);
    if key in s.candidates then None else
    var session := env.agree(p.value);
    if session.None? then None else
    var confirm := env.confirm(session.value, s.myAddr, rnd);
    if confirm.None? then None else Some(Offer(key, session.value, confirm.value))
  }

  /** A candidate whose confirm was sent longest ago. */
  ghost predicate Oldest(s: XState, k: Id) {
    && k in s.candidates && k in s.lastSent
    && forall j | j in s.candidates && j in s.lastSent :: s.lastSent[k] <= s.lastSent[j]
  }

  function Wipe(keys: seq<Bytes>, i: nat): seq<Bytes>
    requires i < |keys|
  {
    keys[i := Zeros(|keys[i]|)]
  }

  function DropCandidate(s: XState, k: Id): XState
    requires k in s.candidates && s.candidates[k].ck < |s.keys| && s.candidates[k].ek < |s.keys|
  {
    var c := s.candidates[k];
    s.(candidates := s.candidates - {k}, lastSent := s.lastSent - {k}, keys := Wipe(Wipe(s.keys, c.ck), c.ek))
  }

  function Add(env: Env, s: XState, o: Offer, now: Time): XState {
    var n := |s.keys|;
    var c := Candidate(o.session.myPoint, o.session.peerPoint, o.session.peerFp, o.session.isServer, n, n + 1,
      o.confirm);
    s.(candidates := s.candidates[o.key := c], lastSent := s.lastSent[o.key := now],
       keys := s.keys + [o.session.keys.confirm, o.session.keys.enc],
       sent := s.sent + {ConfirmMsg(o.confirm)})
  }

  /** The first early confirm that fits the session. */
  function FirstMatch(env: Env, session: Session, buffered: seq<string>): Outcome {
    if buffered == [] then Running
    else if env.verify(session, buffered[0]).Some? then
      Done(env.verify(session, buffered[0]).value, session.peerFp, session.isServer)
    else FirstMatch(env, session, buffered[1..])
  }

  ghost predicate MadeRoom(s: XState, s': XState) {
    if |s.candidates| < MAX_CANDIDATES then s' == s
    else exists k :: Oldest(s, k) && BuffersExist(s, k) && s' == DropCandidate(s, k)
  }

  predicate BuffersExist(s: XState, k: Id) {
    k in s.candidates && s.candidates[k].ck < |s.keys| && s.candidates[k].ek < |s.keys|
  }

  ghost predicate OnSpake(env: Env, s: XState, body: string, p: Pass, s': XState, out: Outcome) {
    match NewOffer(env, s, body, p.rnd)
    case None => s' == s && out == Running
    case Some(o) =>
      out == FirstMatch(env, o.session, s.buffered) && exists m :: MadeRoom(s, m) && s' == Add(env, m, o, p.now)
  }

  predicate Fits(env: Env, s: XState, k: Id, body: string) {
    BuffersExist(s, k) && env.verify(SessionOf(s, s.candidates[k]), body).Some?
  }

  function PeerOf(env: Env, s: XState, k: Id, body: string): Outcome
    requires Fits(env, s, k, body)
  {
    var c := s.candidates[k];
    Done(env.verify(SessionOf(s, c), body).value, c.fp, c.isServer)
  }

  function Buffer(s: XState, body: string): XState {
    if |s.buffered| < MAX_BUFFERED then s.(buffered := s.buffered + [body]) else s
  }

  ghost predicate OnConfirm(env: Env, s: XState, body: string, s': XState, out: Outcome) {
    if exists k :: Fits(env, s, k, body) then
      s' == s && exists k :: Fits(env, s, k, body) && out == PeerOf(env, s, k, body)
    else s' == Buffer(s, body) && out == Running
  }

  ghost predicate OnLine(env: Env, s: XState, line: Line, p: Pass, s': XState, out: Outcome) {
    match line
    case OkLine(addr) => s' == OnOk(env, s, addr) && out == Running
    case ChallengeLine(cookie) => s' == s.(cookie := cookie, lastReg := None) && out == Running
    case SpakeLine(body) => OnSpake(env, s, body, p, s', out)
    case ConfirmLine(body) => OnConfirm(env, s, body, s', out)
    case Ignored => s' == s && out == Running
  }

  function LineText(text: string): string {
    Trim(if |text| <= READ_BUFFER then text else text[..READ_BUFFER])
  }

  /** The state a datagram is handled in: what was due has been sent, the budget counted. */
  function Ready(env: Env, s: XState, p: Pass): XState {
    if p.read.Data? then Meter(Sends(env, s, p.now), LineText(p.read.text), p.now) else Sends(env, s, p.now)
  }

  /** The line handled in this pass, if the pass gets that far. */
  function Heard(env: Env, s: XState, p: Pass): Line {
    if p.cancelled || p.now > env.deadline || !p.read.Data? then Ignored
    else if OverBudget(Ready(env, s, p), LineText(p.read.text)) then Ignored
    else ReadTrimmed(env.room, LineText(p.read.text))
  }

  /** One pass of the loop. */
  ghost predicate Next(env: Env, s: XState, p: Pass, s': XState, out: Outcome) {
    if p.cancelled then s' == s && out == Cancelled
    else if p.now > env.deadline then s' == s && out == TimedOut
    else if p.read.Failed? then s' == Ready(env, s, p) && out == ReadFailed
    else OnLine(env, Ready(env, s, p), Heard(env, s, p), p, s', out)
  }
}
