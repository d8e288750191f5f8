/** A room's entry and the work the relay does on one entry: the loops that sweep
    it, and the in-room challenges with their per-key counts. */
module RelayEntry {
  import opened Text
  import opened RelaySpec
  import opened RelayIndex

  datatype PendingReg = PendingReg(cookie: Bytes, createdAt: Time, resolvedAddr: Addr)

  datatype UdpClient = UdpClient(lastSeen: Time, limiter: Limiter, resolvedAddr: Addr)

  datatype RoomEntry = RoomEntry(udpClients: map<Addr, UdpClient>, pending: map<Addr, PendingReg>,
                                 pendingByIP: Counts, t: Time, nextPendingSweep: Time)

  // ----- abstraction -----

  function Strip(p: PendingReg): Challenge {
    Challenge(p.cookie, p.createdAt)
  }

  function ViewPending(p: map<Addr, PendingReg>): (v: map<Addr, Challenge>)
    ensures v.Keys == p.Keys
  {
    map a | a in p :: Strip(p[a])
  }

  function ViewClients(m: map<Addr, UdpClient>): (v: map<Addr, Client>)
    ensures v.Keys == m.Keys
  {
    map a | a in m :: Client(m[a].lastSeen, m[a].limiter)
  }

  function View(e: RoomEntry): Entry {
    Entry(ViewClients(e.udpClients), ViewPending(e.pending), e.t, e.nextPendingSweep)
  }

  /** The per-key counts mirror `pending`, and every stored return address is the key it is stored under. */
  ghost predicate EntryValid(c: Config, e: RoomEntry) {
    && e.pendingByIP == CountMap(c.ipKey, e.pending.Keys)
    && (forall a | a in e.udpClients :: e.udpClients[a].resolvedAddr == a)
    && (forall a | a in e.pending :: e.pending[a].resolvedAddr == a)
  }

  lemma ViewPendingPut(m: map<Addr, PendingReg>, a: Addr, p: PendingReg)
    ensures ViewPending(m[a := p]) == ViewPending(m)[a := Strip(p)]
    ensures m[a := p].Keys == m.Keys + {a}
    ensures a in m ==> m[a := p].Keys == m.Keys
  {
  }

  lemma ViewPendingDrop(m: map<Addr, PendingReg>, a: Addr)
    ensures ViewPending(m - {a}) == ViewPending(m) - {a}
    ensures (m - {a}).Keys == m.Keys - {a}
    ensures a !in m ==> m - {a} == m
  {
  }

  lemma ViewClientsPut(m: map<Addr, UdpClient>, a: Addr, u: UdpClient)
    ensures ViewClients(m[a := u]) == ViewClients(m)[a := Client(u.lastSeen, u.limiter)]
  {
  }

  // ----- in-room challenges -----

  /** Records a challenge unless the room or the relay-wide budget is full; `total` is `inRoomPendingTotal`. */
  method AddPending(c: Config, e: RoomEntry, total: int, src: Addr, ip: Ip, p: PendingReg)
    returns (ok: bool, e': RoomEntry, total': int)
    requires EntryValid(c, e) && ip == c.ipKey(src) && p.resolvedAddr == src && total >= 0
    ensures EntryValid(c, e')
    ensures ok <==> src in e.pending || (|e.pending| < c.maxPendingPerRoom && total < c.maxInRoomPending)
    ensures View(e') == if ok then View(e).(pending := View(e).pending[src := Strip(p)]) else View(e)
    ensures total' == total + |e'.pending| - |e.pending|
  {
    e', total' := e, total;
    if src !in e.pending {
      if |e.pending| >= c.maxPendingPerRoom || total >= c.maxInRoomPending {
        return false, e, total;
      }
      e' := e'.(pendingByIP := e.pendingByIP[ip := CountOf(e.pendingByIP, ip) + 1]);
      total' := AdjustTotal(total, 1);
    }
    e' := e'.(pending := e.pending[src := p]);
    assert e' == WithPending(c, e, src, p);
    WithPendingView(c, e, src, p);
    ok := true;
  }

  function WithPending(c: Config, e: RoomEntry, src: Addr, p: PendingReg): RoomEntry {
    e.(pending := e.pending[src := p],
       pendingByIP := if src in e.pending then e.pendingByIP
                      else e.pendingByIP[c.ipKey(src) := CountOf(e.pendingByIP, c.ipKey(src)) + 1])
  }

  lemma WithPendingValid(c: Config, e: RoomEntry, src: Addr, p: PendingReg)
    requires EntryValid(c, e) && p.resolvedAddr == src
    ensures EntryValid(c, WithPending(c, e, src, p))
  {
    ViewPendingPut(e.pending, src, p);
    if src !in e.pending { CountMapAdd(c.ipKey, e.pending.Keys, src); }
  }

  lemma WithPendingView(c: Config, e: RoomEntry, src: Addr, p: PendingReg)
    requires EntryValid(c, e) && p.resolvedAddr == src
    ensures EntryValid(c, WithPending(c, e, src, p))
    ensures View(WithPending(c, e, src, p)) == View(e).(pending := View(e).pending[src := Strip(p)])
    ensures |WithPending(c, e, src, p).pending| == |e.pending| + (if src in e.pending then 0 else 1)
  {
    WithPendingValid(c, e, src, p);
    ViewPendingPut(e.pending, src, p);
  }

  /** `adjustInRoomPending`: adds, clamping at zero. */
  function AdjustTotal(total: int, delta: int): int {
    if total + delta < 0 then 0 else total + delta
  }

  method RemovePending(c: Config, e: RoomEntry, total: int, src: Addr) returns (e': RoomEntry, total': int)
    requires EntryValid(c, e) && total >= |e.pending|
    ensures EntryValid(c, e')
    ensures e' == e.(pending := e.pending - {src}, pendingByIP := e'.pendingByIP)
    ensures total' == total + |e'.pending| - |e.pending|
  {
    e', total' := e, total;
    if src !in e.pending {
      ViewPendingDrop(e.pending, src);
      return;
    }
    DropValid(c, e, src);
    total' := AdjustTotal(total, -1);
    var ip := c.ipKey(src);
    var n := CountOf(e.pendingByIP, ip);
    e' := e.(pending := e.pending - {src},
             pendingByIP := if n <= 1 then e.pendingByIP - {ip} else e.pendingByIP[ip := n - 1]);
    assert e'.pendingByIP == Adjust(e.pendingByIP, ip, -1);
  }

  lemma DropValid(c: Config, e: RoomEntry, src: Addr)
    requires EntryValid(c, e) && src in e.pending
    ensures EntryValid(c, e.(pending := e.pending - {src}, pendingByIP := Adjust(e.pendingByIP, c.ipKey(src), -1)))
    ensures |e.pending - {src}| == |e.pending| - 1
  {
    ViewPendingDrop(e.pending, src);
    CountMapDrop(c.ipKey, e.pending.Keys, {src}, c.ipKey(src));
  }

  method PendingCountForIP(c: Config, e: RoomEntry, ip: Ip) returns (n: int)
    requires EntryValid(c, e)
    ensures n == |PendingOf(c, View(e).pending, ip)|
  {
    CountMapAt(c.ipKey, e.pending.Keys, ip);
    assert Of(c.ipKey, e.pending.Keys, ip) == PendingOf(c, View(e).pending, ip);
    n := CountOf(e.pendingByIP, ip);
  }

  // ----- scans of the admitted clients -----

  method CountPrefixClients(c: Config, e: RoomEntry, prefix: Ip) returns (n: nat)
    ensures n == |PrefixClients(c, View(e), prefix)|
  {
    n := 0;
    var todo := e.udpClients.Keys;
    ghost var seen: set<Addr> := {};
    while todo != {}
      invariant todo <= e.udpClients.Keys
      invariant seen == set a | a in e.udpClients.Keys - todo && c.ipKey(a) == prefix
      invariant n == |seen|
    {
      var addr :| addr in todo;
      todo := todo - {addr};
      if c.ipKey(addr) == prefix {
        n := n + 1;
        seen := seen + {addr};
      }
    }
    assert seen == PrefixClients(c, View(e), prefix);
  }

  /** Whether some admitted client other than `skip` has this key. */
  method IpInRoom(c: Config, e: RoomEntry, ip: Ip, skip: Option<Addr>) returns (found: bool)
    ensures found <==> exists a | a in e.udpClients :: Some(a) != skip && c.ipKey(a) == ip
  {
    found := false;
    var todo := e.udpClients.Keys;
    while todo != {} && !found
      invariant todo <= e.udpClients.Keys
      invariant found ==> exists a | a in e.udpClients :: Some(a) != skip && c.ipKey(a) == ip
      invariant !found ==> forall a | a in e.udpClients.Keys - todo :: !(Some(a) != skip && c.ipKey(a) == ip)
      decreases |todo|
    {
      var addr :| addr in todo;
      todo := todo - {addr};
      if Some(addr) != skip && c.ipKey(addr) == ip {
        found := true;
      }
    }
  }

  // ----- sweeps -----

  ghost predicate Filtered(p0: map<Addr, PendingReg>, p: map<Addr, PendingReg>, todo: set<Addr>, now: Time) {
    && (forall a | a in p :: a in p0 && p[a] == p0[a])
    && (forall a | a in p0 :: a in p <==> a in todo || !Expired(now, p0[a].createdAt, PENDING_REG_TTL))
  }

  lemma FilteredView(e: Entry, p0: map<Addr, PendingReg>, p: map<Addr, PendingReg>, now: Time)
    requires e.pending == ViewPending(p0) && Filtered(p0, p, {}, now)
    ensures ViewPending(p) == ExpirePending(e, now).pending
  {
  }

  method RemoveStalePending(c: Config, e: RoomEntry, total: int, now: Time) returns (e': RoomEntry, total': int)
    requires EntryValid(c, e) && total >= |e.pending|
    ensures EntryValid(c, e')
    ensures View(e') == ExpirePending(View(e), now)
    ensures total' == total + |e'.pending| - |e.pending|
  {
    e', total' := e, total;
    var todo := e.pending.Keys;
    while todo != {}
      invariant EntryValid(c, e') && total' >= |e'.pending|
      invariant todo <= e'.pending.Keys
      invariant e' == e.(pending := e'.pending, pendingByIP := e'.pendingByIP)
      invariant Filtered(e.pending, e'.pending, todo, now)
      invariant total' == total + |e'.pending| - |e.pending|
    {
      var addr :| addr in todo;
      todo := todo - {addr};
      if now - e'.pending[addr].createdAt > PENDING_REG_TTL {
        e', total' := RemovePending(c, e', total', addr);
      }
    }
    FilteredView(View(e), e.pending, e'.pending, now);
    e' := e'.(nextPendingSweep := now + PENDING_REG_TTL);
  }

  /** Removes the clients not seen for `regTTL`; the room leaves a key's list only with its last client. */
  method RemoveStaleClients(c: Config, e: RoomEntry, idx: Index, room: Room, now: Time)
    returns (e': RoomEntry, idx': Index)
    requires EntryValid(c, e) && NoEmpty(idx) && Synced(c, idx, room, View(e))
    ensures EntryValid(c, e') && NoEmpty(idx') && Synced(c, idx', room, View(e'))
    ensures OthersSame(idx, idx', room)
    ensures View(e') == ExpireClients(c, View(e), now)
    ensures e' == e.(udpClients := e'.udpClients)
  {
    e', idx' := e, idx;
    var todo := e.udpClients.Keys;
    while todo != {}
      invariant EntryValid(c, e') && NoEmpty(idx') && Synced(c, idx', room, View(e'))
      invariant OthersSame(idx, idx', room)
      invariant todo <= e'.udpClients.Keys && e' == e.(udpClients := e'.udpClients)
      invariant forall a | a in e'.udpClients :: a in e.udpClients && e'.udpClients[a] == e.udpClients[a]
      invariant forall a | a in e.udpClients ::
        a in e'.udpClients <==> a in todo || !Expired(now, e.udpClients[a].lastSeen, c.regTTL)
    {
      var addr :| addr in todo;
      todo := todo - {addr};
      if now - e'.udpClients[addr].lastSeen > c.regTTL {
        e', idx' := DropClient(c, e', idx', room, addr);
      }
    }
    assert ViewClients(e'.udpClients) == ExpireClients(c, View(e), now).clients;
  }

  method DropClient(c: Config, e: RoomEntry, idx: Index, room: Room, addr: Addr) returns (e': RoomEntry, idx': Index)
    requires EntryValid(c, e) && NoEmpty(idx) && Synced(c, idx, room, View(e)) && addr in e.udpClients
    ensures EntryValid(c, e') && NoEmpty(idx') && Synced(c, idx', room, View(e'))
    ensures OthersSame(idx, idx', room)
    ensures e' == e.(udpClients := e.udpClients - {addr})
  {
    var ip := c.ipKey(addr);
    var stillInRoom := IpInRoom(c, e, ip, Some(addr));
    RemoveIpRoomGet(idx, ip, room);
    idx' := if stillInRoom then idx else RemoveIpRoom(idx, ip, room);
    e' := e.(udpClients := e.udpClients - {addr});
    forall k ensures room in Get(idx', k) <==> HasIp(c, View(e'), k) {
      assert room in Get(idx, k) <==> HasIp(c, View(e), k);
    }
  }

  method SweepEntry(c: Config, e: RoomEntry, idx: Index, total: int, room: Room, now: Time)
    returns (e': RoomEntry, idx': Index, total': int)
    requires EntryValid(c, e) && total >= |e.pending| && NoEmpty(idx) && Synced(c, idx, room, View(e))
    ensures EntryValid(c, e') && NoEmpty(idx') && Synced(c, idx', room, View(e'))
    ensures OthersSame(idx, idx', room)
    ensures View(e') == Sweep(c, View(e), now)
    ensures total' == total + |e'.pending| - |e.pending|
  {
    e', idx' := RemoveStaleClients(c, e, idx, room, now);
    total' := total;
    if now >= e'.nextPendingSweep {
      var v := View(e');
      e', total' := RemoveStalePending(c, e', total, now);
      SyncedSameClients(c, idx', room, v, View(e'));
    }
  }
}
