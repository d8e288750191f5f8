/** When the per-key counts of the pre-cookie store are exact: a count is too high by just
    what its stop at zero has swallowed, so it is right if and only if the stop never acted. */
module RelayRaceExact {
  import opened Text
  import opened RelaySpec
  import opened RelayIndex
  import opened Tally
  import opened RelayRaces
  import opened RelayRaceBounds

  /** The turn takes more from the key's count than is there. */
  ghost predicate Clamps(c: Caps, s: Sys, turn: Turn, ip: Ip) {
    CanTurn(c, s, turn) && CountOf(s.counts, ip) + Delta(c, s, s.pcs[turn.t], turn.ch, ip) < 0
  }

  /** How much of it the stop at zero swallows. */
  ghost function Swallowed(c: Caps, s: Sys, turn: Turn, ip: Ip): nat {
    if Clamps(c, s, turn, ip) then -(CountOf(s.counts, ip) + Delta(c, s, s.pcs[turn.t], turn.ch, ip)) else 0
  }

  lemma MoveSwallows(c: Caps, s: Sys, turn: Turn, ip: Ip)
    requires CanTurn(c, s, turn) && Inv(c, s) && CountOf(s.counts, ip) >= 0
    ensures Excess(c, Move(c, s, turn.t, turn.ch), ip) == Excess(c, s, ip) + Swallowed(c, s, turn, ip)
  {
    CountMoves(c, s, s.pcs[turn.t], turn.ch, ip);
    MoveDue(c, s, turn.t, turn.ch, ip);
  }

  /** It acts only while an insertion of the key is not in its count yet. */
  lemma ClampsEarly(c: Caps, turns: seq<Turn>, turn: Turn, ip: Ip)
    requires Clamps(c, Exec(c, turns), turn, ip)
    ensures Total(UpIp(ip), Exec(c, turns).pcs) > 0
  {
    ExecInv(c, turns);
    ExecBounded(c, turns);
    assert ExcessOk(c, Exec(c, turns), ip);
    ClampsUncounted(c, Exec(c, turns), turn, ip);
  }

  lemma ClampsUncounted(c: Caps, s: Sys, turn: Turn, ip: Ip)
    requires Inv(c, s) && ExcessOk(c, s, ip) && Clamps(c, s, turn, ip)
    ensures Total(UpIp(ip), s.pcs) > 0
  {
    var pc' := NextPc(c, s, turn.t, s.pcs[turn.t], turn.ch);
    MoveDue(c, s, turn.t, turn.ch, ip);
    TotalUpdate(UpIp(ip), s.pcs, turn.t, pc');
    TotalNonNegative(DownIp(c, ip), s.pcs[turn.t := pc']);
  }

  /** What the stop has swallowed in a run. */
  ghost function Lost(c: Caps, turns: seq<Turn>, ip: Ip): nat {
    if turns == [] then 0 else
    var n := |turns| - 1;
    Lost(c, turns[..n], ip) + Swallowed(c, Exec(c, turns[..n]), turns[n], ip)
  }

  lemma {:induction false} ExcessLost(c: Caps, turns: seq<Turn>, ip: Ip)
    ensures Excess(c, Exec(c, turns), ip) == Lost(c, turns, ip)
  {
    if turns == [] {
      InitTotals(c, UpIp(ip));
      InitTotals(c, DownIp(c, ip));
      EmptyOf(c, ip);
    } else {
      var n := |turns| - 1;
      ExcessLost(c, turns[..n], ip);
      ExecInv(c, turns[..n]);
      ExecBounded(c, turns[..n]);
      var s := Exec(c, turns[..n]);
      assert ExcessOk(c, s, ip);
      if CanTurn(c, s, turns[n]) { MoveSwallows(c, s, turns[n], ip); }
    }
  }

  ghost predicate ClampsAt(c: Caps, turns: seq<Turn>, i: nat, ip: Ip)
    requires i < |turns|
  {
    Clamps(c, Exec(c, turns[..i]), turns[i], ip)
  }

  /** No turn of the run finds too little in the key's count. */
  ghost predicate NeverClamps(c: Caps, turns: seq<Turn>, ip: Ip) {
    forall i: nat | i < |turns| :: !ClampsAt(c, turns, i, ip)
  }

  lemma NeverClampsNext(c: Caps, turns: seq<Turn>, ip: Ip)
    requires turns != []
    ensures var n := |turns| - 1;
      NeverClamps(c, turns, ip) <==> NeverClamps(c, turns[..n], ip) && !ClampsAt(c, turns, n, ip)
  {
    var n := |turns| - 1;
    forall i: nat | i < n ensures ClampsAt(c, turns[..n], i, ip) == ClampsAt(c, turns, i, ip) {
      assert turns[..n][..i] == turns[..i];
    }
  }

  lemma {:induction false} NothingLost(c: Caps, turns: seq<Turn>, ip: Ip)
    ensures Lost(c, turns, ip) == 0 <==> NeverClamps(c, turns, ip)
  {
    if turns == [] {
    } else {
      NothingLost(c, turns[..|turns| - 1], ip);
      NeverClampsNext(c, turns, ip);
    }
  }

  /** Whenever nobody is at work, a key's count is what the store holds of it and what the
      stop at zero has swallowed; so it is exact if and only if no turn took more from the
      count than was there. */
  lemma CountsExactly(c: Caps, turns: seq<Turn>, ip: Ip)
    requires AllIdle(Exec(c, turns))
    ensures var s := Exec(c, turns);
      && CountOf(s.counts, ip) == Stored(c, s, ip) + Lost(c, turns, ip)
      && (CountOf(s.counts, ip) == Stored(c, s, ip) <==> NeverClamps(c, turns, ip))
  {
    ExcessLost(c, turns, ip);
    NothingLost(c, turns, ip);
    IdleTotals(Exec(c, turns), UpIp(ip));
    IdleTotals(Exec(c, turns), DownIp(c, ip));
  }
}
