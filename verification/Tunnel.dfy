/** The tunnel configuration exchange: both ends arrive at one ordered list of requests,
    and an index into it means the same thing on both sides. */
module Tunnel {
  import opened Text
  import opened TunnelText

  /** What one end knows after the exchange: its own requests start at `start`. */
  datatype Side = Side(peerAccept: bool, reqs: seq<Request>, start: nat, count: nat)

  /** Client requests come first in the combined list, then the server's. */
  function ExchangeConfig(mine: seq<Request>, isServer: bool, peerText: string): Parsed<Side> {
    if |mine| > MAX_REQUESTS then Err(TooManyRequests) else
    var peer := Parse(peerText);
    if peer.Err? then Err(peer.error)
    else if isServer then Ok(Side(peer.value.0, peer.value.1 + mine, |peer.value.1|, |mine|))
    else Ok(Side(peer.value.0, mine + peer.value.1, 0, |mine|))
  }

  predicate Mine(s: Side, i: nat) {
    s.start <= i < s.start + s.count
  }

  /** Whose turn it is to listen, before the peer's consent and the allowlist are asked. */
  predicate MayListen(s: Side, i: nat)
    requires i < |s.reqs|
  {
    if Mine(s, i) then s.reqs[i].kind != "R" else s.reqs[i].kind != "L"
  }

  predicate Listens(s: Side, i: nat, allowsListen: string -> bool)
    requires i < |s.reqs|
  {
    MayListen(s, i) && if Mine(s, i) then s.peerAccept else allowsListen(s.reqs[i].listen)
  }

  /** Whose turn it is to dial when the other end opens a stream for the request. */
  predicate MayDial(s: Side, i: nat)
    requires i < |s.reqs|
  {
    !(s.reqs[i].kind == "L" && Mine(s, i)) && !(s.reqs[i].kind == "R" && !Mine(s, i))
  }

  predicate Dials(s: Side, i: nat, allowsForward: string -> bool)
    requires i < |s.reqs|
  {
    MayDial(s, i) && (Mine(s, i) || allowsForward(s.reqs[i].target))
  }

  /** The requests this end opens a listener for. */
  method ListenIndexes(s: Side, allowsListen: string -> bool) returns (idx: seq<nat>)
    ensures forall i: nat :: i in idx <==> i < |s.reqs| && Listens(s, i, allowsListen)
    ensures forall j, k | 0 <= j < k < |idx| :: idx[j] < idx[k]
  {
    idx := [];
    for i := 0 to |s.reqs|
      invariant forall j: nat :: j in idx <==> j < i && Listens(s, j, allowsListen)
      invariant forall j, k | 0 <= j < k < |idx| :: idx[j] < idx[k]
    {
      var r, mine := s.reqs[i], s.start <= i < s.start + s.count;
      if mine {
        if r.kind == "R" || !s.peerAccept { continue; }
      } else {
        if r.kind == "L" || !allowsListen(r.listen) { continue; }
      }
      forall j | 0 <= j < |idx| ensures idx[j] < i { assert idx[j] in idx; }
      idx := idx + [i];
    }
  }

  // ----- the stream header -----

  function Header(i: nat): Option<Bytes> {
    if i > 65535 then None else Some([i / 256, i % 256])
  }

  /** The request a stream is for, read from its first two bytes. */
  function StreamIndex(s: Side, header: Bytes): (r: Option<nat>)
    ensures r.Some? ==> r.value < |s.reqs|
  {
    if |header| < 2 then None else
    var i := header[0] as int * 256 + header[1] as int;
    if i >= |s.reqs| then None else Some(i)
  }

  // ----- both ends together -----

  ghost predicate AllSendable(reqs: seq<Request>) {
    |reqs| <= MAX_REQUESTS && forall i | 0 <= i < |reqs| :: Sendable(reqs[i])
  }

  /** Each end reads the other's text; they end with the same list, and their own ranges
      partition it. */
  lemma SidesAgree(acceptC: bool, reqsC: seq<Request>, acceptS: bool, reqsS: seq<Request>)
    requires AllSendable(reqsC) && AllSendable(reqsS)
    ensures var c := ExchangeConfig(reqsC, false, Render(acceptS, reqsS));
      var s := ExchangeConfig(reqsS, true, Render(acceptC, reqsC));
      && c.Ok? && s.Ok? && Matching(c.value, s.value)
      && c.value.reqs == reqsC + reqsS && c.value.peerAccept == acceptS && s.value.peerAccept == acceptC
  {
    ConfigRoundTrip(acceptC, reqsC);
    ConfigRoundTrip(acceptS, reqsS);
    var reqs := reqsC + reqsS;
    forall i | 0 <= i < |reqs| ensures KindOk(reqs[i]) {
      assert i < |reqsC| ==> Sendable(reqsC[i]);
      assert i >= |reqsC| ==> Sendable(reqsS[i - |reqsC|]);
    }
  }

  predicate KindOk(r: Request) {
    r.kind == "L" || r.kind == "R"
  }

  /** The same list of known kinds, each index owned by exactly one end, all indexes within a header. */
  ghost predicate Matching(c: Side, s: Side) {
    && c.reqs == s.reqs && |c.reqs| <= 2 * MAX_REQUESTS
    && (forall i | 0 <= i < |c.reqs| :: KindOk(c.reqs[i]))
    && (forall i: nat | i < |c.reqs| :: Mine(c, i) != Mine(s, i))
  }

  /** For each request exactly one end may listen, and exactly the other one dials. */
  lemma OneListensOtherDials(c: Side, s: Side, i: nat)
    requires Matching(c, s) && i < |c.reqs|
    ensures MayListen(c, i) != MayListen(s, i)
    ensures MayDial(c, i) == MayListen(s, i) && MayDial(s, i) == MayListen(c, i)
  {
    assert KindOk(c.reqs[i]) && Mine(c, i) != Mine(s, i);
  }

  /** A connection accepted by the end that listens is announced with a header that the
      other end reads as the same request, which that other end then dials if its
      allowlist agrees, and the listening end never would. */
  lemma StreamReachesTarget(from: Side, to: Side, i: nat, allowsListen: string -> bool, allowsForward: string -> bool)
    requires (Matching(from, to) || Matching(to, from)) && i < |from.reqs| && Listens(from, i, allowsListen)
    ensures Header(i).Some? && StreamIndex(to, Header(i).value) == Some(i) && to.reqs[i] == from.reqs[i]
    ensures Dials(to, i, allowsForward) <==> Mine(to, i) || allowsForward(from.reqs[i].target)
    ensures !MayDial(from, i) && !MayListen(to, i)
  {
    if Matching(from, to) { OneListensOtherDials(from, to, i); } else { OneListensOtherDials(to, from, i); }
  }

  /** Exactly one end may listen for request i and exactly the other one dials; the header
      for i is read as i on both sides, and the same request stands there. */
  predicate SameMeaning(c: Side, s: Side, i: nat) {
    && i < |c.reqs| && i < |s.reqs| && c.reqs[i] == s.reqs[i]
    && MayListen(c, i) != MayListen(s, i)
    && MayDial(c, i) == MayListen(s, i) && MayDial(s, i) == MayListen(c, i)
    && Header(i).Some? && StreamIndex(c, Header(i).value) == Some(i) && StreamIndex(s, Header(i).value) == Some(i)
  }

  lemma MatchingMeans(c: Side, s: Side, i: nat)
    requires Matching(c, s) && i < |c.reqs|
    ensures SameMeaning(c, s, i)
  {
    OneListensOtherDials(c, s, i);
  }

  /** From the two configurations to what an index in a stream header means. */
  lemma IndexMeansTheSame(acceptC: bool, reqsC: seq<Request>, acceptS: bool, reqsS: seq<Request>, i: nat)
    requires AllSendable(reqsC) && AllSendable(reqsS) && i < |reqsC| + |reqsS|
    ensures var c := ExchangeConfig(reqsC, false, Render(acceptS, reqsS));
      var s := ExchangeConfig(reqsS, true, Render(acceptC, reqsC));
      c.Ok? && s.Ok? && SameMeaning(c.value, s.value, i)
  {
    SidesAgree(acceptC, reqsC, acceptS, reqsS);
    MatchingMeans(ExchangeConfig(reqsC, false, Render(acceptS, reqsS)).value,
                  ExchangeConfig(reqsS, true, Render(acceptC, reqsC)).value, i);
  }

  /** An end that reads back its peer's printed list gets that list only if it is sendable. */
  lemma ListsAgreeOnlyIfSendable(acceptC: bool, reqsC: seq<Request>, acceptS: bool, reqsS: seq<Request>)
    requires var c := ExchangeConfig(reqsC, false, Render(acceptS, reqsS));
      var s := ExchangeConfig(reqsS, true, Render(acceptC, reqsC));
      && c.Ok? && s.Ok? && c.value.reqs == s.value.reqs
      && c.value.start + c.value.count == s.value.start && c.value.peerAccept == acceptS
      && s.value.peerAccept == acceptC
    ensures AllSendable(reqsC) && AllSendable(reqsS)
  {
    var c := ExchangeConfig(reqsC, false, Render(acceptS, reqsS)).value;
    var s := ExchangeConfig(reqsS, true, Render(acceptC, reqsC)).value;
    var gotS, gotC := Parse(Render(acceptS, reqsS)).value.1, Parse(Render(acceptC, reqsC)).value.1;
    assert reqsC + gotS == gotC + reqsS && |reqsC| == |gotC|;
    assert (reqsC + gotS)[..|reqsC|] == reqsC && (gotC + reqsS)[..|gotC|] == gotC;
    assert (reqsC + gotS)[|reqsC|..] == gotS && (gotC + reqsS)[|gotC|..] == reqsS;
    ConfigRoundTrip(acceptC, reqsC);
    ConfigRoundTrip(acceptS, reqsS);
  }
}
