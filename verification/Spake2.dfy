/** The password-authenticated key agreement.  The curve group is a cyclic group of
    prime order: a point is its logarithm to the base point, the identity is 0.  Hash,
    HKDF, HMAC and AEAD are parameters with only the laws the exchange needs. */
module Spake2 {
  import opened Text
  import opened Numbers

  const POINT_LEN: nat := 65
  const FINGERPRINT_LEN: nat := 32
  const NONCE_LEN: nat := 16
  const KEY_LEN: nat := 32

  // ----- the group -----

  /** `m` and `n` are the logarithms of the fixed generators M and N. */
  datatype Group = Group(order: int, m: int, n: int, marshal: int -> Bytes, unmarshal: Bytes -> Option<int>,
      xCoord: int -> nat)

  predicate InGroup(g: Group, e: int) {
    0 <= e < g.order
  }

  /** Encoding is defined for every point but the identity; decoding accepts exactly the
      encodings.  The identity is represented with x-coordinate 0. */
  ghost predicate LawfulGroup(g: Group) {
    && Prime(g.order) && 0 < g.m < g.order && 0 < g.n < g.order
    && (forall e | 0 < e < g.order :: |g.marshal(e)| == POINT_LEN && g.unmarshal(g.marshal(e)) == Some(e))
    && (forall b | g.unmarshal(b).Some? :: 0 < g.unmarshal(b).value < g.order && g.marshal(g.unmarshal(b).value) == b)
    && g.xCoord(0) == 0
  }

  function Times(g: Group, e: int, k: int): int
    requires g.order > 0
  {
    (e * k) % g.order
  }

  function Plus(g: Group, a: int, b: int): int
    requires g.order > 0
  {
    (a + b) % g.order
  }

  function Minus(g: Group, a: int, b: int): int
    requires g.order > 0
  {
    (a - b) % g.order
  }

  // ----- one side's state -----

  datatype State = State(pw: int, scalarM: int, scalarN: int, blindedM: int, blindedN: int)

  /** `pw` is the password scalar, the others are 32 random bytes as numbers. */
  function NewState(g: Group, pw: int, privM: nat, privN: nat): State
    requires g.order > 0
  {
    State(pw, privM % g.order, privN % g.order,
          Plus(g, privM % g.order, Times(g, g.m, pw)), Plus(g, privN % g.order, Times(g, g.n, pw)))
  }

  /** Both points can be encoded. */
  predicate Presentable(st: State) {
    st.blindedM != 0 && st.blindedN != 0
  }

  datatype Failure =
    | BadHex | TooShort | ReflectedFingerprint | ReflectedPoint
    | InvalidPoint | Identity | ZeroX | FingerprintSize | EmptyNonce
    | NoRandomness | AddressTooLong | BadKey | ConfirmMismatch | BadCiphertext

  function BigEndian(x: nat, len: nat): (b: Bytes)
    ensures |b| == len
  {
    if len == 0 then [] else BigEndian(x / 256, len - 1) + [x % 256]
  }

  function ComputeShared(g: Group, st: State, peer: Bytes, peerUsedM: bool): Result<Bytes, Failure>
    requires g.order > 0
  {
    if g.unmarshal(peer).None? then Err(InvalidPoint) else
    var unblinded := Minus(g, g.unmarshal(peer).value, Times(g, if peerUsedM then g.m else g.n, st.pw));
    if unblinded == 0 then Err(Identity) else
    var shared := g.xCoord(Times(g, unblinded, if peerUsedM then st.scalarN else st.scalarM));
    if shared == 0 then Err(ZeroX) else Ok(BigEndian(shared, 32))
  }

  // ----- byte order -----

  /** Lexicographic order on byte strings. */
  predicate Less(a: Bytes, b: Bytes) {
    b != [] && (a == [] || a[0] < b[0] || (a[0] == b[0] && Less(a[1..], b[1..])))
  }

  lemma {:induction false} LessTotal(a: Bytes, b: Bytes)
    ensures !Less(a, a)
    ensures !(Less(a, b) && Less(b, a))
    ensures a != b ==> Less(a, b) || Less(b, a)
  {
    if a == [] {
    } else {
      LessTotal(a[1..], a[1..]);
    }
    if a != [] && b != [] {
      if a[0] == b[0] {
        LessTotal(a[1..], b[1..]);
        assert a == [a[0]] + a[1..] && b == [b[0]] + b[1..];
      }
    }
  }

  /** Both in ascending order. */
  function SessionAAD(a: Bytes, b: Bytes): Bytes {
    if Less(b, a) then b + a else a + b
  }

  lemma AADSymmetric(a: Bytes, b: Bytes)
    ensures SessionAAD(a, b) == SessionAAD(b, a)
  {
    LessTotal(a, b);
  }

  predicate SamePair<T(==)>(a: T, b: T, c: T, d: T) {
    (a == c && b == d) || (a == d && b == c)
  }

  lemma AADPair(a: Bytes, b: Bytes, c: Bytes, d: Bytes, len: nat)
    requires |a| == len && |b| == len && |c| == len && |d| == len
    ensures SessionAAD(a, b) == SessionAAD(c, d) <==> SamePair(a, b, c, d)
  {
    AADSymmetric(a, b);
    var x, y := SessionAAD(a, b), SessionAAD(c, d);
    assert x[..len] == (if Less(b, a) then b else a) && x[len..] == (if Less(b, a) then a else b);
    assert y[..len] == (if Less(d, c) then d else c) && y[len..] == (if Less(d, c) then c else d);
  }

  // ----- key schedule -----

  datatype Suite = Suite(
    hash: Bytes -> Bytes,
    hkdf: (Bytes, Bytes) -> Bytes,
    hmac: (Bytes, Bytes) -> Bytes,
    seal: (Bytes, Bytes, Bytes, Bytes) -> Bytes,
    open: (Bytes, Bytes, Bytes, Bytes) -> Option<Bytes>)

  const GCM_NONCE_LEN: nat := 12
  const GCM_TAG_LEN: nat := 16

  /** Lengths, and opening undoes sealing. */
  ghost predicate LawfulSuite(x: Suite) {
    && (forall secret, salt :: |x.hkdf(secret, salt)| == 2 * KEY_LEN)
    && (forall key, msg :: |x.hmac(key, msg)| == 32)
    && (forall key, nonce, data, aad :: |x.seal(key, nonce, data, aad)| == |data| + GCM_TAG_LEN)
    && (forall key, nonce, data, aad :: x.open(key, nonce, x.seal(key, nonce, data, aad), aad) == Some(data))
  }

  const FINGERPRINT_LABEL: Bytes := Ascii("qvole-spake2-fingerprints")
  const SENDER_LABEL: Bytes := Ascii("qvole-spake2-confirm-sender")
  const RECEIVER_LABEL: Bytes := Ascii("qvole-spake2-confirm-receiver")
  const CONFIRM_LABEL: Bytes := Ascii("qvole-spake2-confirm")

  function Ascii(s: string): (b: Bytes)
    requires forall i | 0 <= i < |s| :: s[i] as int < 256
    ensures |b| == |s|
  {
    seq(|s|, i requires 0 <= i < |s| => s[i] as int)
  }

  /** What the key-derivation salt is a hash of. */
  function SaltInput(g: Group, my: Bytes, peer: Bytes, myFp: Bytes, peerFp: Bytes): Bytes {
    SessionAAD(my, peer) + g.marshal(g.n) + FINGERPRINT_LABEL + SessionAAD(myFp, peerFp)
  }

  datatype Keys = Keys(confirm: Bytes, enc: Bytes)

  function DeriveSessionKey(g: Group, x: Suite, secret: Bytes, my: Bytes, peer: Bytes, myFp: Bytes,
          peerFp: Bytes): Result<Keys, Failure>
  {
    if |myFp| != FINGERPRINT_LEN || |peerFp| != FINGERPRINT_LEN then Err(FingerprintSize)
    else if myFp == peerFp then Err(ReflectedFingerprint)
    else
      var key := x.hkdf(secret, x.hash(SaltInput(g, my, peer, myFp, peerFp)));
      Ok(Keys(if |key| >= KEY_LEN then key[..KEY_LEN] else key, if |key| >= KEY_LEN then key[KEY_LEN..] else []))
  }

  /** Equal concatenations with last parts of equal length have equal parts. */
  lemma Peel(a: Bytes, b: Bytes, c: Bytes, d: Bytes)
    requires |b| == |d|
    ensures a + b == c + d <==> a == c && b == d
  {
    if a + b == c + d {
      assert (a + b)[..|a|] == a && (c + d)[..|c|] == c;
      assert (a + b)[|a|..] == b && (c + d)[|c|..] == d;
    }
  }

  /** The salt input determines both unordered pairs. */
  lemma SaltInputPairs(g: Group, a: Bytes, b: Bytes, f: Bytes, h: Bytes, a': Bytes, b': Bytes, f': Bytes, h': Bytes)
    requires |a| == |b| == |a'| == |b'| == POINT_LEN && |f| == |h| == |f'| == |h'| == FINGERPRINT_LEN
    ensures SaltInput(g, a, b, f, h) == SaltInput(g, a', b', f', h')
      <==> SamePair(a, b, a', b') && SamePair(f, h, f', h')
  {
    var p, q, p', q' := SessionAAD(a, b), SessionAAD(f, h), SessionAAD(a', b'), SessionAAD(f', h');
    var gen := g.marshal(g.n);
    Peel(p + gen + FINGERPRINT_LABEL, q, p' + gen + FINGERPRINT_LABEL, q');
    Peel(p + gen, FINGERPRINT_LABEL, p' + gen, FINGERPRINT_LABEL);
    Peel(p, gen, p', gen);
    AADPair(a, b, a', b', POINT_LEN);
    AADPair(f, h, f', h', FINGERPRINT_LEN);
  }

  /** What a confirm is a MAC of. */
  function Transcript(g: Group, my: Bytes, peer: Bytes, nonce: Bytes, sender: Bytes, receiver: Bytes): Bytes {
    SessionAAD(my, peer) + g.marshal(g.n) + SENDER_LABEL + sender + RECEIVER_LABEL + receiver + nonce + CONFIRM_LABEL
  }

  /** Transcripts are equal only for the same unordered points, sender, receiver and nonce. */
  lemma TranscriptInjective(g: Group, a: Bytes, b: Bytes, n: Bytes, s: Bytes, r: Bytes, a': Bytes, b': Bytes,
          n': Bytes, s': Bytes, r': Bytes)
    requires |a| == |b| == |a'| == |b'| == POINT_LEN && |n| == |n'| == NONCE_LEN
    requires |s| == |r| == |s'| == |r'| == FINGERPRINT_LEN
    ensures Transcript(g, a, b, n, s, r) == Transcript(g, a', b', n', s', r') <==>
            SamePair(a, b, a', b') && s == s' && r == r' && n == n'
  {
    var p, p', gen := SessionAAD(a, b), SessionAAD(a', b'), g.marshal(g.n);
    var p1, p1' := p + gen + SENDER_LABEL, p' + gen + SENDER_LABEL;
    var p2, p2' := p1 + s + RECEIVER_LABEL, p1' + s' + RECEIVER_LABEL;
    var p3, p3' := p2 + r + n, p2' + r' + n';
    Peel(p3, CONFIRM_LABEL, p3', CONFIRM_LABEL);
    Peel(p2 + r, n, p2' + r', n');
    Peel(p2, r, p2', r');
    Peel(p1 + s, RECEIVER_LABEL, p1' + s', RECEIVER_LABEL);
    Peel(p1, s, p1', s');
    Peel(p + gen, SENDER_LABEL, p' + gen, SENDER_LABEL);
    Peel(p, gen, p', gen);
    AADPair(a, b, a', b', POINT_LEN);
  }

  function ComputeConfirm(g: Group, x: Suite, key: Bytes, my: Bytes, peer: Bytes, nonce: Bytes, sender: Bytes,
          receiver: Bytes): Result<Bytes, Failure>
  {
    if nonce == [] then Err(EmptyNonce)
    else if |sender| != FINGERPRINT_LEN || |receiver| != FINGERPRINT_LEN then Err(FingerprintSize)
    else if sender == receiver then Err(ReflectedFingerprint)
    else Ok(x.hmac(key, Transcript(g, my, peer, nonce, sender, receiver)))
  }

  /** The peer's confirm has the peer as sender. */
  predicate VerifyConfirm(g: Group, x: Suite, key: Bytes, my: Bytes, peer: Bytes, nonce: Bytes, myFp: Bytes,
          peerFp: Bytes, mac: Bytes) {
    ComputeConfirm(g, x, key, my, peer, nonce, peerFp, myFp) == Ok(mac)
  }

  /** What one side computes as sender the other accepts as receiver. */
  lemma ConfirmAccepted(g: Group, x: Suite, key: Bytes, my: Bytes, peer: Bytes, nonce: Bytes, myFp: Bytes,
      peerFp: Bytes)
    requires nonce != [] && |myFp| == |peerFp| == FINGERPRINT_LEN && myFp != peerFp
    ensures var r := ComputeConfirm(g, x, key, my, peer, nonce, myFp, peerFp);
      r.Ok? && VerifyConfirm(g, x, key, peer, my, nonce, peerFp, myFp, r.value)
  {
    AADSymmetric(my, peer);
  }

  lemma KeysSymmetric(g: Group, x: Suite, secret: Bytes, my: Bytes, peer: Bytes, myFp: Bytes, peerFp: Bytes)
    ensures DeriveSessionKey(g, x, secret, my, peer, myFp, peerFp) ==
      DeriveSessionKey(g, x, secret, peer, my, peerFp, myFp)
  {
    AADSymmetric(my, peer);
    AADSymmetric(myFp, peerFp);
  }

  // ----- the exchange of points -----

  function Payload(g: Group, st: State, fp: Bytes): Bytes {
    g.marshal(st.blindedM) + g.marshal(st.blindedN) + fp
  }

  datatype Session = Session(myPoint: Bytes, peerPoint: Bytes, peerFp: Bytes, isServer: bool, keys: Keys)

  const PAYLOAD_LEN: nat := 2 * POINT_LEN + FINGERPRINT_LEN

  /** Reads the peer's points and fingerprint; the larger M-point makes the server. */
  function ProcessPayload(g: Group, x: Suite, st: State, myFp: Bytes, payload: Bytes): Result<Session, Failure>
    requires g.order > 0
  {
    if |payload| < PAYLOAD_LEN then Err(TooShort) else
    var peerM, peerN := payload[..POINT_LEN], payload[POINT_LEN..2 * POINT_LEN];
    var peerFp := payload[2 * POINT_LEN..PAYLOAD_LEN];
    var myM := g.marshal(st.blindedM);
    if myFp == peerFp then Err(ReflectedFingerprint)
    else if myM == peerM then Err(ReflectedPoint)
    else Agree(g, x, st, myFp, peerFp, Less(peerM, myM), peerM, peerN)
  }

  /** The server uses its N-point and the peer's M-point, the client the other way round. */
  function Agree(g: Group, x: Suite, st: State, myFp: Bytes, peerFp: Bytes, isServer: bool, peerM: Bytes,
          peerN: Bytes): Result<Session, Failure>
    requires g.order > 0
  {
    var my := g.marshal(if isServer then st.blindedN else st.blindedM);
    var peer := if isServer then peerM else peerN;
    var shared := ComputeShared(g, st, peer, isServer);
    if shared.Err? then Err(shared.error) else
    var keys := DeriveSessionKey(g, x, shared.value, my, peer, myFp, peerFp);
    if keys.Err? then Err(keys.error) else Ok(Session(my, peer, peerFp, isServer, keys.value))
  }

  function ProcessSpakeMsg(g: Group, x: Suite, st: State, myFp: Bytes, body: string): Result<Session, Failure>
    requires g.order > 0
  {
    if HexDecode(body).None? then Err(BadHex) else ProcessPayload(g, x, st, myFp, HexDecode(body).value)
  }

  // ----- agreement -----

  lemma Unblind(g: Group, r: int, gen: int, pw: int)
    requires g.order > 0 && InGroup(g, r)
    ensures Minus(g, Plus(g, r, Times(g, gen, pw)), Times(g, gen, pw)) == r
  {
    var t := Times(g, gen, pw);
    var q := (r + t) / g.order;
    assert (r + t) % g.order - t == g.order * (-q) + r;
    ModUnique((r + t) % g.order - t, g.order, -q, r);
  }

  /** The logarithm of the shared point: the client's M-scalar times the server's N-scalar. */
  function SharedLog(g: Group, server: State, client: State): int
    requires g.order > 0
  {
    Times(g, client.scalarM, server.scalarN)
  }

  lemma ServerShared(g: Group, server: State, client: State)
    requires LawfulGroup(g) && Honest(g, server) && Honest(g, client) && server.pw == client.pw
    ensures ComputeShared(g, server, g.marshal(client.blindedM), true) ==
            if client.scalarM == 0 then Err(Identity)
            else if g.xCoord(SharedLog(g, server, client)) == 0 then Err(ZeroX)
            else Ok(BigEndian(g.xCoord(SharedLog(g, server, client)), 32))
  {
    Unblind(g, client.scalarM, g.m, client.pw);
  }

  lemma ClientShared(g: Group, server: State, client: State)
    requires LawfulGroup(g) && Honest(g, server) && Honest(g, client) && server.pw == client.pw
    ensures ComputeShared(g, client, g.marshal(server.blindedN), false) ==
            if server.scalarN == 0 then Err(Identity)
            else if g.xCoord(SharedLog(g, server, client)) == 0 then Err(ZeroX)
            else Ok(BigEndian(g.xCoord(SharedLog(g, server, client)), 32))
  {
    Unblind(g, server.scalarN, g.n, server.pw);
    assert server.scalarN * client.scalarM == client.scalarM * server.scalarN;
  }

  /** Made by NewState, with points that can be encoded. */
  predicate Honest(g: Group, st: State) {
    && g.order > 0 && Presentable(st) && InGroup(g, st.scalarM) && InGroup(g, st.scalarN)
    && st.blindedM == Plus(g, st.scalarM, Times(g, g.m, st.pw))
    && st.blindedN == Plus(g, st.scalarN, Times(g, g.n, st.pw))
  }

  lemma NewStateHonest(g: Group, pw: int, privM: nat, privN: nat)
    requires g.order > 0 && Presentable(NewState(g, pw, privM, privN))
    ensures Honest(g, NewState(g, pw, privM, privN))
  {
  }

  /** Both sides succeed or both fail, and on success they have the same secret. */
  lemma SharedAgrees(g: Group, server: State, client: State)
    requires LawfulGroup(g) && Honest(g, server) && Honest(g, client) && server.pw == client.pw
    ensures var s := ComputeShared(g, server, g.marshal(client.blindedM), true);
      var c := ComputeShared(g, client, g.marshal(server.blindedN), false);
      && (s.Ok? <==> c.Ok?)
      && (s.Ok? <==> g.xCoord(SharedLog(g, server, client)) != 0)
      && (s.Ok? ==> s == c)
  {
    ServerShared(g, server, client);
    ClientShared(g, server, client);
    ZeroScalar(g, server, client);
  }

  lemma ZeroScalar(g: Group, server: State, client: State)
    requires g.order > 0
    ensures client.scalarM == 0 || server.scalarN == 0 ==> SharedLog(g, server, client) == 0
  {
    assert client.scalarM == 0 || server.scalarN == 0 ==> client.scalarM * server.scalarN == 0;
  }

  lemma PayloadParts(g: Group, st: State, fp: Bytes)
    requires LawfulGroup(g) && Honest(g, st) && |fp| == FINGERPRINT_LEN
    ensures var p := Payload(g, st, fp);
      && |p| == PAYLOAD_LEN && p[..POINT_LEN] == g.marshal(st.blindedM)
      && p[POINT_LEN..2 * POINT_LEN] == g.marshal(st.blindedN) && p[2 * POINT_LEN..PAYLOAD_LEN] == fp
  {
    assert InGroup(g, st.blindedM) && InGroup(g, st.blindedN);
    assert |g.marshal(st.blindedM)| == POINT_LEN && |g.marshal(st.blindedN)| == POINT_LEN;
  }

  /** A failed agreement between honest peers means a zero scalar or a shared point with x = 0. */
  lemma SharedLogZero(g: Group, server: State, client: State)
    requires LawfulGroup(g) && Honest(g, server) && Honest(g, client)
    ensures SharedLog(g, server, client) == 0 <==> client.scalarM == 0 || server.scalarN == 0
  {
    ProductZero(g.order, client.scalarM, server.scalarN);
  }

  /** What `me` makes of an honest peer's payload. */
  lemma ReadsPeer(g: Group, x: Suite, me: State, peer: State, myFp: Bytes, peerFp: Bytes)
    requires LawfulGroup(g) && Honest(g, me) && Honest(g, peer)
    requires |myFp| == FINGERPRINT_LEN && |peerFp| == FINGERPRINT_LEN
    ensures g.marshal(me.blindedM) == g.marshal(peer.blindedM) <==> me.blindedM == peer.blindedM
    ensures ProcessSpakeMsg(g, x, me, myFp, HexEncode(Payload(g, peer, peerFp))) ==
            if myFp == peerFp then Err(ReflectedFingerprint)
            else if me.blindedM == peer.blindedM then Err(ReflectedPoint)
            else Agree(g, x, me, myFp, peerFp, Serves(g, me, peer), g.marshal(peer.blindedM), g.marshal(peer.blindedN))
  {
    HexRoundTrip(Payload(g, peer, peerFp));
    PayloadParts(g, peer, peerFp);
    var m, p := g.marshal(me.blindedM), g.marshal(peer.blindedM);
    assert g.unmarshal(m) == Some(me.blindedM) && g.unmarshal(p) == Some(peer.blindedM);
  }

  /** The larger M-point makes the server. */
  predicate Serves(g: Group, me: State, peer: State) {
    Less(g.marshal(peer.blindedM), g.marshal(me.blindedM))
  }

  lemma OneServes(g: Group, a: State, b: State)
    requires g.marshal(a.blindedM) != g.marshal(b.blindedM)
    ensures Serves(g, a, b) != Serves(g, b, a)
  {
    LessTotal(g.marshal(a.blindedM), g.marshal(b.blindedM));
  }

  /** The logarithm of the point the two peers share. */
  function AgreedLog(g: Group, a: State, b: State): int
    requires g.order > 0
  {
    if Serves(g, a, b) then SharedLog(g, a, b) else SharedLog(g, b, a)
  }

  /** Two honest peers with one password succeed or fail together.  They succeed exactly if
      their M-points and fingerprints differ and the point they share has a non-zero
      x-coordinate.  Then they have opposite roles, the one with the larger M-point being
      the server, use the same two points, hold the same keys and know each other's fingerprint. */
  lemma Agreement(g: Group, x: Suite, a: State, b: State, fpA: Bytes, fpB: Bytes)
    requires LawfulGroup(g) && Honest(g, a) && Honest(g, b) && a.pw == b.pw
    requires |fpA| == FINGERPRINT_LEN && |fpB| == FINGERPRINT_LEN
    ensures var ra := ProcessSpakeMsg(g, x, a, fpA, HexEncode(Payload(g, b, fpB)));
      var rb := ProcessSpakeMsg(g, x, b, fpB, HexEncode(Payload(g, a, fpA)));
      && (ra.Ok? <==> rb.Ok?)
      && (ra.Ok? <==> a.blindedM != b.blindedM && fpA != fpB && g.xCoord(AgreedLog(g, a, b)) != 0)
      && (ra.Ok? ==> Matched(ra.value, rb.value, fpA, fpB) && ra.value.isServer == Serves(g, a, b))
  {
    ReadsPeer(g, x, a, b, fpA, fpB);
    ReadsPeer(g, x, b, a, fpB, fpA);
    if fpA != fpB && a.blindedM != b.blindedM {
      OneServes(g, a, b);
      if Serves(g, a, b) {
        RolesAgree(g, x, a, b, fpA, fpB);
      } else {
        RolesAgree(g, x, b, a, fpB, fpA);
      }
    }
  }

  /** The same for any two states made from one password scalar. */
  lemma NewStatesAgree(g: Group, x: Suite, pw: int, aM: nat, aN: nat, bM: nat, bN: nat, fpA: Bytes, fpB: Bytes)
    requires LawfulGroup(g) && |fpA| == FINGERPRINT_LEN && |fpB| == FINGERPRINT_LEN
    requires Presentable(NewState(g, pw, aM, aN)) && Presentable(NewState(g, pw, bM, bN))
    ensures var a, b := NewState(g, pw, aM, aN), NewState(g, pw, bM, bN);
      var ra := ProcessSpakeMsg(g, x, a, fpA, HexEncode(Payload(g, b, fpB)));
      var rb := ProcessSpakeMsg(g, x, b, fpB, HexEncode(Payload(g, a, fpA)));
      && (ra.Ok? <==> rb.Ok?)
      && (ra.Ok? <==> a.blindedM != b.blindedM && fpA != fpB && g.xCoord(AgreedLog(g, a, b)) != 0)
      && (ra.Ok? ==> Matched(ra.value, rb.value, fpA, fpB))
  {
    NewStateHonest(g, pw, aM, aN);
    NewStateHonest(g, pw, bM, bN);
    Agreement(g, x, NewState(g, pw, aM, aN), NewState(g, pw, bM, bN), fpA, fpB);
  }

  predicate Matched(a: Session, b: Session, fpA: Bytes, fpB: Bytes) {
    && a.isServer != b.isServer && a.myPoint == b.peerPoint && a.peerPoint == b.myPoint
    && a.keys == b.keys && a.peerFp == fpB && b.peerFp == fpA
  }

  lemma RolesAgree(g: Group, x: Suite, server: State, client: State, fpS: Bytes, fpC: Bytes)
    requires LawfulGroup(g) && Honest(g, server) && Honest(g, client) && server.pw == client.pw
    ensures var s := Agree(g, x, server, fpS, fpC, true, g.marshal(client.blindedM), g.marshal(client.blindedN));
      var c := Agree(g, x, client, fpC, fpS, false, g.marshal(server.blindedM), g.marshal(server.blindedN));
      && (s.Ok? <==> c.Ok?)
      && (s.Ok? <==> g.xCoord(SharedLog(g, server, client)) != 0 && |fpS| == |fpC| == FINGERPRINT_LEN && fpS != fpC)
      && (s.Ok? ==> Matched(s.value, c.value, fpS, fpC) && s.value.isServer)
  {
    SharedAgrees(g, server, client);
    var shared := ComputeShared(g, server, g.marshal(client.blindedM), true);
    if shared.Ok? {
      KeysSymmetric(g, x, shared.value, g.marshal(server.blindedN), g.marshal(client.blindedM), fpS, fpC);
    }
  }

  // ----- the laws can be met -----

  function ToyPoint(e: int): Bytes {
    seq(POINT_LEN - 1, _ => 0) + [if 0 <= e < 256 then e else 0]
  }

  function ToyGroup(): Group {
    Group(3, 1, 2, e => ToyPoint(e),
          b => if b == ToyPoint(1) then Some(1) else if b == ToyPoint(2) then Some(2) else None,
          e => if e == 0 then 0 else 1)
  }

  function ToySuite(): Suite {
    Suite(b => [], (secret, salt) => seq(2 * KEY_LEN, _ => 0), (key, msg) => seq(32, _ => 0),
          (key, nonce, data, aad) => data + seq(GCM_TAG_LEN, _ => 0),
          (key, nonce, data, aad) => if |data| >= GCM_TAG_LEN then Some(data[..|data| - GCM_TAG_LEN]) else None)
  }

  /** The laws asked of the group and of the primitives contradict nothing. */
  lemma LawsCanHold()
    ensures LawfulGroup(ToyGroup()) && LawfulSuite(ToySuite())
  {
    assert ToyPoint(1)[POINT_LEN - 1] != ToyPoint(2)[POINT_LEN - 1];
  }
}
