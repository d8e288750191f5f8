/** The pre-cookie store with its counters, and the registration rate table. */
module RelayStore {
  import opened Text
  import opened RelaySpec
  import opened RelayIndex
  import opened RelayEntry

  type Regs = map<Room, map<Addr, PendingReg>>

  /** `v` is the nested table keyed by pairs. */
  ghost predicate Holds(regs: Regs, v: map<Key, Challenge>) {
    && (forall r, a {:trigger Key(r, a) in v} | r in regs && a in regs[r] :: Key(r, a) in v)
    && (forall k | k in v :: k.room in regs && k.src in regs[k.room] && v[k] == Strip(regs[k.room][k.src]))
  }

  ghost predicate NoEmptyRoom(regs: Regs) {
    forall r | r in regs :: regs[r] != map[]
  }

  ghost predicate OwnAddrs(regs: Regs) {
    forall r, a | r in regs && a in regs[r] :: regs[r][a].resolvedAddr == a
  }

  function Linked(regs: Regs, room: Room, src: Addr, p: PendingReg): Regs {
    regs[room := (if room in regs then regs[room] else map[])[src := p]]
  }

  lemma HoldsLinked(regs: Regs, v: map<Key, Challenge>, room: Room, src: Addr, p: PendingReg)
    requires Holds(regs, v)
    ensures Holds(Linked(regs, room, src, p), v[Key(room, src) := Strip(p)])
  {
    var regs', v' := Linked(regs, room, src, p), v[Key(room, src) := Strip(p)];
    forall k | k in v' ensures k.room in regs' && k.src in regs'[k.room] && v'[k] == Strip(regs'[k.room][k.src]) {
      assert k == Key(room, src) || k in v;
    }
  }

  lemma LinkedShape(regs: Regs, room: Room, src: Addr, p: PendingReg)
    ensures NoEmptyRoom(regs) ==> NoEmptyRoom(Linked(regs, room, src, p))
    ensures OwnAddrs(regs) && p.resolvedAddr == src ==> OwnAddrs(Linked(regs, room, src, p))
  {
    assert src in Linked(regs, room, src, p)[room];
  }

  /** Takes one registration out of the nested table, and its room's map with it if that empties. */
  function Unlinked(regs: Regs, room: Room, src: Addr): Regs
    requires room in regs
  {
    var rm := regs[room] - {src};
    if |rm| == 0 then regs - {room} else regs[room := rm]
  }

  lemma HoldsUnlinked(regs: Regs, v: map<Key, Challenge>, room: Room, src: Addr)
    requires Holds(regs, v) && room in regs
    ensures Holds(Unlinked(regs, room, src), v - {Key(room, src)})
  {
  }

  lemma UnlinkedShape(regs: Regs, room: Room, src: Addr)
    requires room in regs
    ensures NoEmptyRoom(regs) ==> NoEmptyRoom(Unlinked(regs, room, src))
    ensures OwnAddrs(regs) ==> OwnAddrs(Unlinked(regs, room, src))
  {
  }

  lemma PutKeys(v: map<Key, Challenge>, k: Key, p: Challenge)
    ensures v[k := p].Keys == v.Keys + {k}
    ensures k in v ==> v[k := p].Keys == v.Keys && |v[k := p]| == |v|
    ensures k !in v ==> |v[k := p]| == |v| + 1
  {
    assert v[k := p].Keys == v.Keys + {k};
  }

  lemma DropKeys(v: map<Key, Challenge>, k: Key)
    ensures (v - {k}).Keys == v.Keys - {k}
    ensures k in v ==> |v - {k}| == |v| - 1
    ensures k !in v ==> v - {k} == v
  {
    assert (v - {k}).Keys == v.Keys - {k};
  }

  lemma MinusOne(v: map<Key, Challenge>, gone: set<Key>, k: Key)
    ensures v - gone - {k} == v - (gone + {k})
  {
  }

  lemma KeysWithout(c: Config, gone: set<Key>, ips: set<Ip>, ip: Ip)
    requires ip in ips
    ensures KeysIn(c, gone, ips) - Of(PairIp(c), gone, ip) == KeysIn(c, gone, ips - {ip})
    ensures Of(PairIp(c), gone, ip) <= KeysIn(c, gone, ips)
  {
  }

  lemma ReturnSize(c: Config, gone: set<Key>, ips: set<Ip>, ip: Ip)
    requires ip in ips
    ensures |KeysIn(c, gone, ips - {ip})| == |KeysIn(c, gone, ips)| - CountOf(CountMap(PairIp(c), gone), ip)
  {
    KeysWithout(c, gone, ips, ip);
    CountMapAt(PairIp(c), gone, ip);
  }

  lemma ReturnStep(c: Config, keys: set<Key>, gone: set<Key>, ips: set<Ip>, ip: Ip)
    requires gone !! keys && ip in ips
    ensures CountMap(PairIp(c), keys + KeysIn(c, gone, ips - {ip})) ==
            Adjust(CountMap(PairIp(c), keys + KeysIn(c, gone, ips)), ip, -CountOf(CountMap(PairIp(c), gone), ip))
  {
    var all, back := keys + KeysIn(c, gone, ips), Of(PairIp(c), gone, ip);
    ReturnSet(c, keys, gone, ips, ip);
    CountMapAt(PairIp(c), gone, ip);
    CountMapDrop(PairIp(c), all, back, ip);
  }

  lemma ReturnSet(c: Config, keys: set<Key>, gone: set<Key>, ips: set<Ip>, ip: Ip)
    requires gone !! keys && ip in ips
    ensures Of(PairIp(c), gone, ip) <= Of(PairIp(c), keys + KeysIn(c, gone, ips), ip)
    ensures keys + KeysIn(c, gone, ips) - Of(PairIp(c), gone, ip) == keys + KeysIn(c, gone, ips - {ip})
  {
  }

  lemma AllKeys(c: Config, keys: set<Key>, gone: set<Key>)
    ensures KeysIn(c, gone, CountMap(PairIp(c), gone).Keys) == gone
    ensures KeysIn(c, gone, {}) == {} && keys + {} == keys
  {
  }

  function KeysIn(c: Config, gone: set<Key>, ips: set<Ip>): set<Key> {
    set k | k in gone && c.ipKey(k.src) in ips
  }

  class PendingStore {
    var regs: Regs
    var counts: Counts
    var total: int
    ghost var view: map<Key, Challenge>  // `regs` keyed by pairs

    ghost predicate Valid(c: Config)
      reads this
    {
      TableValid() && counts == CountMap(PairIp(c), view.Keys) && total == |view|
    }

    constructor (c: Config)
      ensures Valid(c) && view == map[]
    {
      regs, counts, total, view := map[], map[], 0, map[];
      new;
      assert counts == CountMap(PairIp(c), view.Keys);
    }

    /** Adjusts a key's count and the total; a count that reaches zero is removed. */
    method AddPendingIP(ip: Ip, delta: int)
      modifies this`counts, this`total
      ensures counts == Adjust(old(counts), ip, delta)
      ensures total == old(total) + delta
    {
      var n := CountOf(counts, ip) + delta;
      if n > 0 {
        counts := counts[ip := n];
      } else {
        counts := counts - {ip};
      }
      total := total + delta;
    }

    method CountIn(c: Config, ghost room: Room, src: Addr, ghost keys: set<Key>)
      requires counts == CountMap(PairIp(c), keys) && Key(room, src) !in keys
      modifies this`counts, this`total
      ensures counts == CountMap(PairIp(c), keys + {Key(room, src)}) && total == old(total) + 1
    {
      CountMapAdd(PairIp(c), keys, Key(room, src));
      AddPendingIP(c.ipKey(src), 1);
    }

    method CountOut(c: Config, ghost room: Room, src: Addr, ghost keys: set<Key>)
      requires counts == CountMap(PairIp(c), keys) && Key(room, src) in keys
      modifies this`counts, this`total
      ensures counts == CountMap(PairIp(c), keys - {Key(room, src)}) && total == old(total) - 1
    {
      CountMapDrop(PairIp(c), keys, {Key(room, src)}, c.ipKey(src));
      AddPendingIP(c.ipKey(src), -1);
    }

    method Store(c: Config, room: Room, src: Addr, p: PendingReg) returns (ok: bool)
      requires Valid(c) && p.resolvedAddr == src
      modifies this
      ensures Valid(c)
      ensures ok <==> Key(room, src) in old(view) || |old(view)| < c.maxPendingGlobal
      ensures view == if ok then old(view)[Key(room, src) := Strip(p)] else old(view)
    {
      var rm := if room in regs then regs[room] else map[];
      var existed := src in rm;
      if !existed && total >= c.maxPendingGlobal {
        return false;
      }
      Link(room, rm, src, p);
      PutKeys(old(view), Key(room, src), Strip(p));
      if !existed {
        CountIn(c, room, src, old(view.Keys));
      }
      ok := true;
    }

    method Lookup(c: Config, room: Room, src: Addr) returns (p: Option<PendingReg>)
      requires Valid(c)
      ensures p.Some? <==> Key(room, src) in view
      ensures p.Some? ==> view[Key(room, src)] == Strip(p.value) && p.value.resolvedAddr == src
    {
      p := if room in regs && src in regs[room] then Some(regs[room][src]) else None;
    }

    method Delete(c: Config, room: Room, src: Addr)
      requires Valid(c)
      modifies this
      ensures Valid(c)
      ensures view == old(view) - {Key(room, src)}
    {
      DropKeys(view, Key(room, src));
      if room !in regs {
        return;
      }
      var existed := src in regs[room];
      Unlink(room, src);
      if existed {
        CountOut(c, room, src, old(view.Keys));
      }
    }

    ghost predicate TableValid()
      reads this
    {
      NoEmptyRoom(regs) && OwnAddrs(regs) && Holds(regs, view)
    }

    method Link(room: Room, rm: map<Addr, PendingReg>, src: Addr, p: PendingReg)
      requires TableValid() && p.resolvedAddr == src
      requires rm == if room in regs then regs[room] else map[]
      modifies this`regs, this`view
      ensures TableValid()
      ensures view == old(view)[Key(room, src) := Strip(p)]
    {
      HoldsLinked(regs, view, room, src, p);
      LinkedShape(regs, room, src, p);
      regs := regs[room := rm[src := p]];
      view := view[Key(room, src) := Strip(p)];
    }

    /** The table part of a deletion; the counters are the caller's business. */
    method Unlink(room: Room, src: Addr)
      requires TableValid() && room in regs
      modifies this`regs, this`view
      ensures TableValid()
      ensures view == old(view) - {Key(room, src)}
    {
      HoldsUnlinked(regs, view, room, src);
      UnlinkedShape(regs, room, src);
      var rm := regs[room] - {src};
      regs := if |rm| == 0 then regs - {room} else regs[room := rm];
      view := view - {Key(room, src)};
    }

    method CountForIP(c: Config, ip: Ip) returns (n: int)
      requires Valid(c)
      ensures n == |StoreOf(c, view, ip)|
    {
      CountMapAt(PairIp(c), view.Keys, ip);
      assert Of(PairIp(c), view.Keys, ip) == StoreOf(c, view, ip);
      n := CountOf(counts, ip);
    }

    /** A fresh challenge, if the key's rooms and challenges and the store have space. */
    method Issue(c: Config, ipRooms: nat, room: Room, src: Addr, now: Time, rnd: Option<Bytes>) returns (reply: Reply)
      requires Valid(c)
      modifies this
      ensures Valid(c)
      ensures view == ChallengeStore(c, ipRooms, old(view), Key(room, src), now, rnd).0
      ensures reply == ChallengeStore(c, ipRooms, old(view), Key(room, src), now, rnd).1
    {
      if ipRooms >= c.maxRoomsPerIP {
        return Drop(RoomsPerIp);
      }
      var m := CountForIP(c, c.ipKey(src));
      if m >= c.maxPendingPerIP {
        return Drop(PendingPerIp);
      }
      if rnd.None? {
        return Silent;
      }
      var ok := Store(c, room, src, PendingReg(rnd.value, now, src));
      reply := if ok then Challenged(src, rnd.value) else Drop(StoreFull);
    }

    /** Gives a batch of deletions back to the counters. */
    method Return(c: Config, removed: Counts, ghost gone: set<Key>)
      requires removed == CountMap(PairIp(c), gone) && gone !! view.Keys
      requires counts == CountMap(PairIp(c), view.Keys + gone) && total == |view| + |gone|
      modifies this`counts, this`total
      ensures counts == CountMap(PairIp(c), view.Keys) && total == |view|
    {
      var ips := removed.Keys;
      ghost var keys := view.Keys;
      AllKeys(c, keys, gone);
      while ips != {}
        invariant ips <= removed.Keys
        invariant counts == CountMap(PairIp(c), keys + KeysIn(c, gone, ips))
        invariant total == |view| + |KeysIn(c, gone, ips)|
      {
        var ip :| ip in ips;
        ReturnOne(c, removed, keys, gone, ips, ip);
        ReturnSize(c, gone, ips, ip);
        ips := ips - {ip};
      }
    }

    method ReturnOne(c: Config, removed: Counts, ghost keys: set<Key>, ghost gone: set<Key>, ghost ips: set<Ip>, ip: Ip)
      requires removed == CountMap(PairIp(c), gone) && gone !! keys && ip in ips && ip in removed
      requires counts == CountMap(PairIp(c), keys + KeysIn(c, gone, ips))
      modifies this`counts, this`total
      ensures counts == CountMap(PairIp(c), keys + KeysIn(c, gone, ips - {ip}))
      ensures total == old(total) - removed[ip]
    {
      ReturnStep(c, keys, gone, ips, ip);
      AddPendingIP(ip, -removed[ip]);
    }

    /** Drops every expired registration.  Each shard's deletions are counted first and
        returned to the counters in one batch per key. */
    method RemoveStale(c: Config, now: Time)
      requires Valid(c)
      modifies this
      ensures Valid(c)
      ensures view == map k | k in old(view) && !Expired(now, old(view)[k].createdAt, PENDING_REG_TTL) :: old(view)[k]
    {
      for i := 0 to NUM_SHARDS
        invariant Valid(c)
        invariant forall k | k in view :: k in old(view) && view[k] == old(view)[k]
        invariant forall k | k in old(view) ::
          k in view <==> !(Shard(c, k.room) < i && Expired(now, old(view)[k].createdAt, PENDING_REG_TTL))
      {
        RemoveStaleShard(c, i, now);
      }
    }

    method RemoveStaleShard(c: Config, sh: nat, now: Time)
      requires Valid(c)
      modifies this
      ensures Valid(c)
      ensures view == old(view) - StaleKeys(c, old(view), sh, now)
    {
      ghost var gone := StaleKeys(c, view, sh, now);
      assert view.Keys == (view - gone).Keys + gone;
      var removed := DeleteStale(c, sh, now);
      Return(c, removed, gone);
    }

    method DropStale(c: Config, room: Room, src: Addr, removed: Counts, ghost gone: set<Key>)
    returns (removed': Counts)
      requires TableValid() && room in regs && removed == CountMap(PairIp(c), gone) && Key(room, src) !in gone
      modifies this`regs, this`view
      ensures TableValid() && view == old(view) - {Key(room, src)}
      ensures removed' == CountMap(PairIp(c), gone + {Key(room, src)})
    {
      Unlink(room, src);
      CountMapAdd(PairIp(c), gone, Key(room, src));
      var ip := c.ipKey(src);
      removed' := removed[ip := CountOf(removed, ip) + 1];
    }

    /** Deletes a shard's expired registrations, counting them per key. */
    method DeleteStale(c: Config, sh: nat, now: Time) returns (removed: Counts)
      requires TableValid()
      modifies this`regs, this`view
      ensures TableValid()
      ensures view == old(view) - StaleKeys(c, old(view), sh, now)
      ensures removed == CountMap(PairIp(c), StaleKeys(c, old(view), sh, now))
    {
      removed := map[];
      var todo := set r, a | r in regs && a in regs[r] && Shard(c, r) == sh :: Key(r, a);
      ghost var gone: set<Key> := {};
      assert removed == CountMap(PairIp(c), gone);
      while todo != {}
        invariant TableValid() && todo <= view.Keys
        invariant gone <= old(view).Keys && view == old(view) - gone
        invariant forall k | k in old(view) ::
          k in gone <==> Shard(c, k.room) == sh && k !in todo && Expired(now, old(view)[k].createdAt, PENDING_REG_TTL)
        invariant removed == CountMap(PairIp(c), gone)
      {
        var k :| k in todo;
        todo := todo - {k};
        if now - regs[k.room][k.src].createdAt > PENDING_REG_TTL {
          removed := DropStale(c, k.room, k.src, removed, gone);
          MinusOne(old(view), gone, k);
          gone := gone + {k};
        }
      }
      assert gone == StaleKeys(c, old(view), sh, now);
    }
  }

  function StaleKeys(c: Config, v: map<Key, Challenge>, sh: nat, now: Time): set<Key> {
    set k | k in v && Shard(c, k.room) == sh && Expired(now, v[k].createdAt, PENDING_REG_TTL)
  }

  /** The registration windows: how many REGs each key has sent and since when. */
  class RegLimiter {
    var sent: map<Ip, nat>
    var times: map<Ip, Time>

    ghost predicate Valid()
      reads this
    {
      sent.Keys == times.Keys
    }

    ghost function View(): map<Ip, RegWindow>
      reads this
      requires Valid()
    {
      map ip | ip in times :: RegWindow(sent[ip], times[ip])
    }

    constructor ()
      ensures Valid() && View() == map[]
    {
      sent, times := map[], map[];
    }

    method IsLimited(c: Config, src: Ip, now: Time) returns (limited: bool)
      requires Valid()
      modifies this
      ensures Valid()
      ensures limited == RegLimit(c, old(View()), src, now).1
      ensures View() == RegLimit(c, old(View()), src, now).0
    {
      var shard := set k | k in times.Keys && c.ipHash(k) % NUM_SHARDS == c.ipHash(src) % NUM_SHARDS;
      assert shard == set k | k in View() && c.ipHash(k) % NUM_SHARDS == c.ipHash(src) % NUM_SHARDS;
      if src !in times {
        if |shard| >= MAX_REG_SHARD_ENTRIES {
          return true;
        }
        sent, times := sent[src := 1], times[src := now];
        return false;
      }
      if now - times[src] > c.rateWindow {
        sent, times := sent[src := 1], times[src := now];
        return false;
      }
      if sent[src] >= c.maxRegRate {
        return true;
      }
      sent := sent[src := sent[src] + 1];
      limited := false;
    }

    method Clean(c: Config, now: Time)
      requires Valid()
      modifies this
      ensures Valid()
      ensures View() == map ip | ip in old(View()) && !Expired(now, old(View())[ip].start, 2 * c.rateWindow) ::
        old(View())[ip]
    {
      var todo := times.Keys;
      while todo != {}
        invariant Valid() && todo <= times.Keys
        invariant forall ip | ip in times ::
          ip in old(times) && times[ip] == old(times)[ip] && sent[ip] == old(sent)[ip]
        invariant forall ip | ip in old(times) ::
          ip in times <==> ip in todo || !Expired(now, old(times)[ip], 2 * c.rateWindow)
      {
        var src :| src in todo;
        todo := todo - {src};
        if now - times[src] > c.rateWindow * 2 {
          sent, times := sent - {src}, times - {src};
        }
      }
    }
  }
}
