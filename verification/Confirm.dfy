/** Key confirmation and the sealed address: nonce, MAC, sealed address and padding. */
module Confirm {
  import opened Text
  import opened Spake2

  const MAX_METADATA: nat := 52
  const MAC_LEN: nat := 32
  const SEALED_LEN: nat := GCM_NONCE_LEN + MAX_METADATA + GCM_TAG_LEN
  const PAD_LEN: nat := 32
  const CONFIRM_LEN: nat := NONCE_LEN + MAC_LEN + SEALED_LEN + PAD_LEN

  /** The randomness one confirm draws; None when the source of randomness fails. */
  datatype Rand = Rand(nonce: Option<Bytes>, gcm: Option<Bytes>, pad: Option<Bytes>)

  predicate RightSizes(r: Rand) {
    && (r.nonce.Some? ==> |r.nonce.value| == NONCE_LEN)
    && (r.gcm.Some? ==> |r.gcm.value| == GCM_NONCE_LEN)
    && (r.pad.Some? ==> |r.pad.value| == PAD_LEN)
  }

  function Zeros(n: nat): (b: Bytes)
    ensures |b| == n && forall i | 0 <= i < n :: b[i] == 0
  {
    if n == 0 then [] else Zeros(n - 1) + [0]
  }

  function Padded(addr: Bytes): Bytes {
    if |addr| < MAX_METADATA then addr + Zeros(MAX_METADATA - |addr|) else addr
  }

  predicate AesKey(key: Bytes) {
    |key| in {16, 24, 32}
  }

  function EncryptMetadata(x: Suite, key: Bytes, aad: Bytes, data: Bytes, nonce: Option<Bytes>)
    : Result<Bytes, Failure>
  {
    if !AesKey(key) then Err(BadKey)
    else if nonce.None? then Err(NoRandomness)
    else Ok(nonce.value + x.seal(key, nonce.value, data, aad))
  }

  function DecryptMetadata(x: Suite, key: Bytes, aad: Bytes, ct: Bytes): Result<Bytes, Failure> {
    if !AesKey(key) then Err(BadKey)
    else if |ct| < GCM_NONCE_LEN then Err(TooShort)
    else if x.open(key, ct[..GCM_NONCE_LEN], ct[GCM_NONCE_LEN..], aad).None? then Err(BadCiphertext)
    else Ok(x.open(key, ct[..GCM_NONCE_LEN], ct[GCM_NONCE_LEN..], aad).value)
  }

  /** What stops a confirm before the address is looked at. */
  function Mac(g: Group, x: Suite, s: Session, myFp: Bytes, nonce: Option<Bytes>): Result<Bytes, Failure> {
    if nonce.None? then Err(NoRandomness)
    else ComputeConfirm(g, x, s.keys.confirm, s.myPoint, s.peerPoint, nonce.value, myFp, s.peerFp)
  }

  /** The confirm one side sends. */
  function ConfirmPayload(g: Group, x: Suite, s: Session, myFp: Bytes, addr: Bytes, r: Rand): Result<Bytes, Failure> {
    var mac := Mac(g, x, s, myFp, r.nonce);
    if mac.Err? then Err(mac.error)
    else if |addr| > MAX_METADATA then Err(AddressTooLong)
    else
      var sealed := EncryptMetadata(x, s.keys.enc, SessionAAD(s.myPoint, s.peerPoint), Padded(addr), r.gcm);
      if sealed.Err? then Err(sealed.error)
      else if r.pad.None? then Err(NoRandomness)
      else Ok(r.nonce.value + mac.value + sealed.value + r.pad.value)
  }

  function TrimNul(b: Bytes): Bytes {
    if b != [] && b[|b| - 1] == 0 then TrimNul(b[..|b| - 1]) else b
  }

  /** What the other side makes of it: the peer's address. */
  function ProcessConfirm(g: Group, x: Suite, s: Session, myFp: Bytes, body: string): Result<Bytes, Failure> {
    if HexDecode(body).None? then Err(BadHex) else
    var p := HexDecode(body).value;
    if |p| < CONFIRM_LEN then Err(TooShort) else
    var nonce, mac := p[..NONCE_LEN], p[NONCE_LEN..NONCE_LEN + MAC_LEN];
    var sealed := p[NONCE_LEN + MAC_LEN..NONCE_LEN + MAC_LEN + SEALED_LEN];
    if !VerifyConfirm(g, x, s.keys.confirm, s.myPoint, s.peerPoint, nonce, myFp, s.peerFp, mac)
      then Err(ConfirmMismatch) else
    var addr := DecryptMetadata(x, s.keys.enc, SessionAAD(s.myPoint, s.peerPoint), sealed);
    if addr.Err? then Err(addr.error) else Ok(TrimNul(addr.value))
  }

  // ----- building in place -----

  method ZeroBytes(b: array<byte>)
    modifies b
    ensures b[..] == Zeros(b.Length)
  {
    for i := 0 to b.Length
      invariant forall j | 0 <= j < i :: b[j] == 0
    {
      b[i] := 0;
    }
  }

  /** The address buffer is the caller's own when it needs no padding, and is then wiped. */
  method BuildConfirmPayload(g: Group, x: Suite, s: Session, myFp: Bytes, myAddr: array<byte>,
          r: Rand) returns (res: Result<Bytes, Failure>)
    modifies myAddr
    ensures res == ConfirmPayload(g, x, s, myFp, old(myAddr[..]), r)
    ensures myAddr[..] == if Mac(g, x, s, myFp, r.nonce).Ok? && myAddr.Length == MAX_METADATA then Zeros(MAX_METADATA)
                          else old(myAddr[..])
  {
    var mac := Mac(g, x, s, myFp, r.nonce);
    if mac.Err? { return Err(mac.error); }
    var addrBytes := myAddr;
    if addrBytes.Length > MAX_METADATA { return Err(AddressTooLong); }
    if addrBytes.Length < MAX_METADATA {
      var padded := new byte[MAX_METADATA](_ => 0);
      for i := 0 to myAddr.Length
        invariant padded[..i] == myAddr[..i]
        invariant forall j | i <= j < MAX_METADATA :: padded[j] == 0
        invariant fresh(padded) && myAddr[..] == old(myAddr[..])
      {
        padded[i] := myAddr[i];
      }
      assert padded[..] == Padded(myAddr[..]);
      addrBytes := padded;
    }
    assert addrBytes[..] == Padded(old(myAddr[..]));
    var sealed := EncryptMetadata(x, s.keys.enc, SessionAAD(s.myPoint, s.peerPoint), addrBytes[..], r.gcm);
    ZeroBytes(addrBytes);
    if sealed.Err? { return Err(sealed.error); }
    if r.pad.None? { return Err(NoRandomness); }
    res := Ok(r.nonce.value + mac.value + sealed.value + r.pad.value);
  }

  // ----- round trip -----

  lemma {:induction false} TrimNulZeros(addr: Bytes, n: nat)
    ensures TrimNul(addr + Zeros(n)) == TrimNul(addr)
  {
    if n == 0 {
      assert addr + Zeros(0) == addr;
    } else {
      var b := addr + Zeros(n);
      assert b[..|b| - 1] == addr + Zeros(n - 1) && b[|b| - 1] == 0;
      TrimNulZeros(addr, n - 1);
    }
  }

  lemma {:induction false} TrimNulExact(addr: Bytes)
    ensures TrimNul(addr) == addr <==> addr == [] || addr[|addr| - 1] != 0
    ensures |TrimNul(addr)| <= |addr|
  {
    if addr == [] {
    } else {
      TrimNulExact(addr[..|addr| - 1]);
    }
  }

  /** Two ends of one agreement, with keys of the right size. */
  predicate Paired(a: Session, b: Session, fpA: Bytes, fpB: Bytes) {
    && Matched(a, b, fpA, fpB)
    && |fpA| == FINGERPRINT_LEN && |fpB| == FINGERPRINT_LEN && fpA != fpB && |a.keys.enc| == KEY_LEN
  }

  predicate AllDrawn(r: Rand) {
    RightSizes(r) && r.nonce.Some? && r.gcm.Some? && r.pad.Some?
  }

  lemma ConfirmParts(nonce: Bytes, mac: Bytes, sealed: Bytes, pad: Bytes)
    requires |nonce| == NONCE_LEN && |mac| == MAC_LEN && |sealed| == SEALED_LEN && |pad| == PAD_LEN
    ensures var p := nonce + mac + sealed + pad;
      && |p| == CONFIRM_LEN && p[..NONCE_LEN] == nonce && p[NONCE_LEN..NONCE_LEN + MAC_LEN] == mac
      && p[NONCE_LEN + MAC_LEN..NONCE_LEN + MAC_LEN + SEALED_LEN] == sealed
  {
  }

  lemma Opens(x: Suite, key: Bytes, aad: Bytes, data: Bytes, nonce: Bytes)
    requires LawfulSuite(x) && AesKey(key) && |nonce| == GCM_NONCE_LEN
    ensures var sealed := EncryptMetadata(x, key, aad, data, Some(nonce));
      && sealed.Ok? && |sealed.value| == GCM_NONCE_LEN + |data| + GCM_TAG_LEN
      && DecryptMetadata(x, key, aad, sealed.value) == Ok(data)
  {
    var ct := nonce + x.seal(key, nonce, data, aad);
    assert ct[..GCM_NONCE_LEN] == nonce && ct[GCM_NONCE_LEN..] == x.seal(key, nonce, data, aad);
  }

  /** A confirm can be built exactly for addresses of up to 52 bytes, and the other end
      then recovers the address up to trailing NULs. */
  lemma ConfirmRoundTrip(g: Group, x: Suite, a: Session, b: Session, fpA: Bytes, fpB: Bytes, addr: Bytes, r: Rand)
    requires LawfulSuite(x) && Paired(a, b, fpA, fpB) && AllDrawn(r)
    ensures var p := ConfirmPayload(g, x, a, fpA, addr, r);
      && (p.Ok? <==> |addr| <= MAX_METADATA)
      && (p.Ok? ==> |p.value| == CONFIRM_LEN && ProcessConfirm(g, x, b, fpB, HexEncode(p.value)) == Ok(TrimNul(addr)))
  {
    ConfirmAccepted(g, x, a.keys.confirm, a.myPoint, a.peerPoint, r.nonce.value, fpA, fpB);
    if |addr| <= MAX_METADATA {
      var aad := SessionAAD(a.myPoint, a.peerPoint);
      AADSymmetric(a.myPoint, a.peerPoint);
      Opens(x, a.keys.enc, aad, Padded(addr), r.gcm.value);
      var sealed := EncryptMetadata(x, a.keys.enc, aad, Padded(addr), r.gcm).value;
      var mac := Mac(g, x, a, fpA, r.nonce).value;
      ConfirmParts(r.nonce.value, mac, sealed, r.pad.value);
      HexRoundTrip(r.nonce.value + mac + sealed + r.pad.value);
      if |addr| < MAX_METADATA { TrimNulZeros(addr, MAX_METADATA - |addr|); }
    }
  }

  /** The address comes back exactly when it does not end in NUL. */
  lemma AddressRecovered(g: Group, x: Suite, a: Session, b: Session, fpA: Bytes, fpB: Bytes, addr: Bytes, r: Rand)
    requires LawfulSuite(x) && Paired(a, b, fpA, fpB) && AllDrawn(r) && |addr| <= MAX_METADATA
    ensures var p := ConfirmPayload(g, x, a, fpA, addr, r);
      p.Ok? && (ProcessConfirm(g, x, b, fpB, HexEncode(p.value)) == Ok(addr) <==> addr == [] || addr[|addr| - 1] != 0)
  {
    ConfirmRoundTrip(g, x, a, b, fpA, fpB, addr, r);
    TrimNulExact(addr);
  }

  /** From two fresh states: if the points can be exchanged at all, each end accepts the
      other's confirm and recovers the other's address. */
  lemma HonestHandshake(g: Group, x: Suite, a: State, b: State, fpA: Bytes, fpB: Bytes, addrA: Bytes, addrB: Bytes,
          rA: Rand, rB: Rand)
    requires LawfulGroup(g) && LawfulSuite(x) && Honest(g, a) && Honest(g, b) && a.pw == b.pw
    requires |fpA| == FINGERPRINT_LEN && |fpB| == FINGERPRINT_LEN && AllDrawn(rA) && AllDrawn(rB)
    requires |addrA| <= MAX_METADATA && |addrB| <= MAX_METADATA
    ensures var sa := ProcessSpakeMsg(g, x, a, fpA, HexEncode(Payload(g, b, fpB)));
      var sb := ProcessSpakeMsg(g, x, b, fpB, HexEncode(Payload(g, a, fpA)));
      && (sa.Ok? <==> sb.Ok?)
      && (sa.Ok? ==>
            var ca := ConfirmPayload(g, x, sa.value, fpA, addrA, rA);
            var cb := ConfirmPayload(g, x, sb.value, fpB, addrB, rB);
            && ca.Ok? && cb.Ok?
            && ProcessConfirm(g, x, sb.value, fpB, HexEncode(ca.value)) == Ok(TrimNul(addrA))
            && ProcessConfirm(g, x, sa.value, fpA, HexEncode(cb.value)) == Ok(TrimNul(addrB)))
  {
    Agreement(g, x, a, b, fpA, fpB);
    var sa := ProcessSpakeMsg(g, x, a, fpA, HexEncode(Payload(g, b, fpB)));
    var sb := ProcessSpakeMsg(g, x, b, fpB, HexEncode(Payload(g, a, fpA)));
    if sa.Ok? {
      SessionKeySize(g, x, a, fpA, HexEncode(Payload(g, b, fpB)));
      ConfirmRoundTrip(g, x, sa.value, sb.value, fpA, fpB, addrA, rA);
      ConfirmRoundTrip(g, x, sb.value, sa.value, fpB, fpA, addrB, rB);
    }
  }

  lemma SessionKeySize(g: Group, x: Suite, st: State, fp: Bytes, body: string)
    requires LawfulSuite(x) && g.order > 0
    ensures var s := ProcessSpakeMsg(g, x, st, fp, body);
      s.Ok? ==> |s.value.keys.enc| == KEY_LEN && |s.value.keys.confirm| == KEY_LEN
  {
  }
}
