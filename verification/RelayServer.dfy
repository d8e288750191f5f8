/** The relay server.  Every packet and tick moves the tables exactly as `RelaySpec`
    says, and after each of them every index and counter equals a scan. */
module RelayServer {
  import opened Text
  import opened RelaySpec
  import opened RelayIndex
  import opened RelayEntry
  import opened RelayStore
  import opened RelayRooms

  class Relay {
    const c: Config
    const store: PendingStore
    const limiter: RegLimiter
    var t: Tables

    ghost function Abs(): State
      reads this, store, limiter
      requires limiter.Valid()
    {
      State(Rooms(t.rooms), store.view, limiter.View())
    }

    ghost predicate Valid()
      reads this, store, limiter
    {
      TablesValid(c, t) && store.Valid(c) && limiter.Valid()
    }

    constructor (c: Config)
      ensures Valid() && Abs() == INIT && this.c == c && fresh(store) && fresh(limiter)
    {
      this.c := c;
      store := new PendingStore(c);
      limiter := new RegLimiter();
      EmptyValid(c);
      t := EMPTY;
    }

    // ----- REG -----

    method HandleReg(room: Room, cookie: string, src: Addr, now: Time, rnd: Option<Bytes>) returns (reply: Reply)
      requires Valid()
      modifies this, store, limiter
      ensures Valid()
      ensures Abs() == RegStep(c, old(Abs()), room, cookie, src, now, rnd).0
      ensures reply == RegStep(c, old(Abs()), room, cookie, src, now, rnd).1
    {
      var limited := limiter.IsLimited(c, c.ipKey(src), now);
      if limited {
        return Drop(RateLimited);
      }
      reply := HandleAllowed(room, cookie, src, now, rnd);
    }

    method HandleAllowed(room: Room, cookie: string, src: Addr, now: Time, rnd: Option<Bytes>) returns (reply: Reply)
      requires Valid()
      modifies this, store
      ensures Valid()
      ensures Abs() == RegAllowed(c, old(Abs()), room, cookie, src, now, rnd).0
      ensures reply == RegAllowed(c, old(Abs()), room, cookie, src, now, rnd).1
    {
      if |cookie| == 0 {
        reply := HandleInitial(room, src, now, rnd);
        return;
      }
      if !IsHex(cookie) || |cookie| != PENDING_COOKIE_BYTES * 2 {
        return Drop(BadCookie);
      }
      reply := HandleCookie(room, HexDecode(cookie).value, src, now, rnd);
    }

    method HandleInitial(room: Room, src: Addr, now: Time, rnd: Option<Bytes>) returns (reply: Reply)
      requires Valid()
      modifies this, store
      ensures Valid()
      ensures Abs() == WithoutCookie(c, old(Abs()), room, src, now, rnd).0
      ensures reply == WithoutCookie(c, old(Abs()), room, src, now, rnd).1
    {
      if room !in t.rooms {
        reply := IssueFromStore(room, src, now, rnd);
        return;
      }
      var stored := store.CountForIP(c, c.ipKey(src));
      t, reply := RevisitRoom(c, t, stored, room, src, now, rnd);
    }

    method HandleCookie(room: Room, cookie: Bytes, src: Addr, now: Time, rnd: Option<Bytes>) returns (reply: Reply)
      requires Valid()
      modifies this, store
      ensures Valid()
      ensures Abs() == WithCookie(c, old(Abs()), room, cookie, src, now, rnd).0
      ensures reply == WithCookie(c, old(Abs()), room, cookie, src, now, rnd).1
    {
      var pend := store.Lookup(c, room, src);
      if pend.Some? {
        reply := FromStore(room, cookie, src, now, pend.value);
      } else if room in t.rooms {
        t, reply := AdmitClient(c, t, room, cookie, src, now);
      } else {
        reply := IssueFromStore(room, src, now, rnd);
      }
    }

    /** A cookie for a registration in the store; a matching cookie spends it, whatever the outcome. */
    method FromStore(room: Room, cookie: Bytes, src: Addr, now: Time, pend: PendingReg) returns (reply: Reply)
      requires Valid() && Key(room, src) in store.view && Strip(pend) == store.view[Key(room, src)]
        && pend.resolvedAddr == src
      modifies this, store
      ensures Valid()
      ensures var v, st := Rooms(old(t).rooms), old(store.view);
              if pend.cookie != cookie then Rooms(t.rooms) == v && store.view == st && reply == Drop(StoreMismatch)
              else store.view == st - {Key(room, src)} &&
                   if Expired(now, pend.createdAt, PENDING_REG_TTL) then Rooms(t.rooms) == v
                     && reply == Drop(StoreExpired)
                   else Rooms(t.rooms) == Enter(c, v, room, src, now).0 && reply == Enter(c, v, room, src, now).1
    {
      if pend.cookie != cookie {
        return Drop(StoreMismatch);
      }
      reply := SpendCookie(room, src, now, pend);
    }

    method SpendCookie(room: Room, src: Addr, now: Time, pend: PendingReg) returns (reply: Reply)
      requires Valid() && pend.resolvedAddr == src
      modifies this, store
      ensures Valid() && store.view == old(store.view) - {Key(room, src)}
      ensures var v := Rooms(old(t).rooms);
              if Expired(now, pend.createdAt, PENDING_REG_TTL) then Rooms(t.rooms) == v && reply == Drop(StoreExpired)
              else Rooms(t.rooms) == Enter(c, v, room, src, now).0 && reply == Enter(c, v, room, src, now).1
    {
      store.Delete(c, room, src);
      if now - pend.createdAt > PENDING_REG_TTL {
        return Drop(StoreExpired);
      }
      reply := EnterFrom(room, src, now, pend.resolvedAddr);
    }

    method EnterFrom(room: Room, src: Addr, now: Time, resolved: Addr) returns (reply: Reply)
      requires TablesValid(c, t) && resolved == src
      modifies this
      ensures TablesValid(c, t)
      ensures Rooms(t.rooms) == Enter(c, Rooms(old(t).rooms), room, src, now).0
      ensures reply == Enter(c, Rooms(old(t).rooms), room, src, now).1
    {
      t, reply := EnterRoom(c, t, room, src, now, resolved);
    }

    /** Challenges the source of a REG for a room that does not exist. */
    method IssueFromStore(room: Room, src: Addr, now: Time, rnd: Option<Bytes>) returns (reply: Reply)
      requires Valid()
      modifies store
      ensures Valid()
      ensures var r :=
        ChallengeStore(c, |IpRooms(c, Rooms(t.rooms), c.ipKey(src))|, old(store.view), Key(room, src), now, rnd);
              store.view == r.0 && reply == r.1
    {
      var n := CountIPRooms(c, t, c.ipKey(src));
      reply := store.Issue(c, n, room, src, now, rnd);
    }

    // ----- MSG -----

    /** `targets` are the addresses the MSGD is written to, once each. */
    method HandleMsg(room: Room, src: Addr, now: Time) returns (reply: Reply, targets: seq<Addr>)
      requires Valid()
      modifies this
      ensures Valid()
      ensures Abs() == MsgStep(c, old(Abs()), room, src, now).0
      ensures reply == MsgStep(c, old(Abs()), room, src, now).1
      ensures reply.Relayed? ==> (forall a :: a in targets <==> a in reply.targets)
      ensures forall i, j | 0 <= i < j < |targets| :: targets[i] != targets[j]
    {
      t, reply, targets := RelayMessage(c, t, room, src, now);
    }

    // ----- ticks -----

    method CleanupRooms(now: Time)
      requires Valid()
      modifies this, store
      ensures Valid()
      ensures Abs() == RoomTick(c, old(Abs()), now)
    {
      var n;
      t, n := EvictStaleRoomsAll(c, t, now);
      store.RemoveStale(c, now);
    }

    method CleanupRates(now: Time)
      requires Valid()
      modifies limiter
      ensures Valid()
      ensures Abs() == RateTick(c, old(Abs()), now)
    {
      limiter.Clean(c, now);
    }

    // ----- runs -----

    method Handle(i: Input) returns (reply: Reply)
      requires Valid()
      modifies this, store, limiter
      ensures Valid()
      ensures Abs() == Step(c, old(Abs()), i).0
      ensures reply == Step(c, old(Abs()), i).1
    {
      match i.ev
      case Reg(room, cookie, src, rnd) =>
        reply := HandleReg(room, cookie, src, i.now, rnd);
      case Msg(room, src) =>
        var targets;
        reply, targets := HandleMsg(room, src, i.now);
      case CleanRooms =>
        CleanupRooms(i.now);
        reply := Tick;
      case CleanRates =>
        CleanupRates(i.now);
        reply := Tick;
    }
  }

  /** From an empty relay, any sequence of packets and ticks leaves every index equal to a
      scan and the tables where the specification's run leaves them. */
  method Serve(c: Config, ins: seq<Input>) returns (relay: Relay)
    ensures fresh(relay) && fresh(relay.store) && fresh(relay.limiter)
    ensures relay.c == c && relay.Valid() && relay.Abs() == Run(c, ins)
  {
    relay := new Relay(c);
    var k := 0;
    while k < |ins|
      invariant 0 <= k <= |ins|
      invariant fresh(relay) && fresh(relay.store) && fresh(relay.limiter)
      invariant relay.c == c && relay.Valid() && relay.Abs() == Run(c, ins[..k])
    {
      var reply := relay.Handle(ins[k]);
      RunNext(c, ins, k);
      k := k + 1;
    }
    assert ins[..k] == ins;
  }
}
