/** Datagrams in, datagrams out: what the relay does with the text it receives and the
    exact text it writes back. */
module RelayPackets {
  import opened Text
  import opened RelaySpec
  import opened Wire
  import opened RelayServer

  datatype Outgoing = Outgoing(to: Addr, text: string)

  /** The event a packet stands for; None if it is dropped unread. */
  function EventFor(p: Packet, src: Addr, rnd: Option<Bytes>): Option<Event> {
    match p
    case RegPacket(room, cookie) => Some(Reg(Room(room), cookie, src, rnd))
    case MsgPacket(room, phase, body) => Some(Msg(Room(room), src))
    case Dropped => None
  }

  function EventOf(data: string, src: Addr, rnd: Option<Bytes>): Option<Event> {
    EventFor(ParsePacket(data), src, rnd)
  }

  function AllTo(targets: set<Addr>, text: string): set<Outgoing> {
    set a | a in targets :: Outgoing(a, text)
  }

  /** What is written for a reply to packet p. */
  function Written(p: Packet, reply: Reply): set<Outgoing> {
    match reply
    case Registered(to) => if p.RegPacket? then {Outgoing(to, FormatOk(p.room, to.text))} else {}
    case Challenged(to, cookie) => if p.RegPacket? then {Outgoing(to, FormatChallenge(p.room, cookie))} else {}
    case Relayed(targets) => if p.MsgPacket? then AllTo(targets, FormatMsgd(p.phase, p.body)) else {}
    case _ => {}
  }

  /** The relay's state and output after an event that stands for packet p. */
  ghost predicate Handled(c: Config, s: State, p: Packet, src: Addr, now: Time, rnd: Option<Bytes>, s': State,
          out: set<Outgoing>) {
    var ev := EventFor(p, src, rnd);
    if ev.None? then s' == s && out == {}
    else var r := Step(c, s, At(now, ev.value)); s' == r.0 && out == Written(p, r.1)
  }

  method HandleRegPacket(relay: Relay, p: Packet, src: Addr, now: Time, rnd: Option<Bytes>) returns (out: set<Outgoing>)
    requires relay.Valid() && p.RegPacket?
    modifies relay, relay.store, relay.limiter
    ensures relay.Valid() && Handled(relay.c, old(relay.Abs()), p, src, now, rnd, relay.Abs(), out)
  {
    var reply := relay.HandleReg(Room(p.room), p.cookie, src, now, rnd);
    out := Written(p, reply);
  }

  method HandleMsgPacket(relay: Relay, p: Packet, src: Addr, now: Time, rnd: Option<Bytes>) returns (out: set<Outgoing>)
    requires relay.Valid() && p.MsgPacket?
    modifies relay
    ensures relay.Valid() && Handled(relay.c, old(relay.Abs()), p, src, now, rnd, relay.Abs(), out)
  {
    var reply, targets := relay.HandleMsg(Room(p.room), src, now);
    out := WriteReply(p, reply, targets);
  }

  method WriteReply(p: Packet, reply: Reply, targets: seq<Addr>) returns (out: set<Outgoing>)
    requires p.MsgPacket? && (reply.Relayed? ==> forall a :: a in targets <==> a in reply.targets)
    ensures out == Written(p, reply)
  {
    if reply.Relayed? {
      out := WriteAll(targets, reply.targets, FormatMsgd(p.phase, p.body));
    } else {
      out := Written(p, reply);
    }
  }

  method WriteAll(targets: seq<Addr>, ghost which: set<Addr>, text: string) returns (out: set<Outgoing>)
    requires forall a :: a in targets <==> a in which
    ensures out == AllTo(which, text)
  {
    out := {};
    for i := 0 to |targets|
      invariant forall o :: o in out <==> o.to in targets[..i] && o.text == text
    {
      out := out + {Outgoing(targets[i], text)};
    }
    assert targets[..|targets|] == targets;
  }

  method HandlePacket(relay: Relay, data: string, src: Addr, now: Time, rnd: Option<Bytes>) returns (out: set<Outgoing>)
    requires relay.Valid()
    modifies relay, relay.store, relay.limiter
    ensures relay.Valid() && Handled(relay.c, old(relay.Abs()), ParsePacket(data), src, now, rnd, relay.Abs(), out)
  {
    var p := ParsePacket(data);
    match p
    case Dropped => return {};
    case RegPacket(_, _) => out := HandleRegPacket(relay, p, src, now, rnd);
    case MsgPacket(_, _, _) => out := HandleMsgPacket(relay, p, src, now, rnd);
  }

  /** A challenge the relay writes comes back as the event that carries the same cookie. */
  lemma ChallengeEchoed(room: string, cookie: Bytes, src: Addr, rnd: Option<Bytes>)
    requires ValidRoomName(room) && |cookie| == PENDING_COOKIE_BYTES
    ensures var line := ReadLine(room, FormatChallenge(room, cookie));
      && line.ChallengeLine?
      && EventOf(FormatReg(room, line.cookie), src, rnd) == Some(Reg(Room(room), line.cookie, src, rnd))
      && GoodCookie(line.cookie) && CookieBytes(line.cookie) == cookie
  {
    ChallengeRoundTrip(room, cookie);
  }

  /** A passed-on message goes to the room's other clients. */
  lemma MsgTargets(c: Config, s: State, room: Room, src: Addr, now: Time)
    ensures var reply := MsgStep(c, s, room, src, now).1;
      reply.Relayed? ==> room in s.rooms && reply.targets == s.rooms[room].clients.Keys - {src}
    ensures !MsgStep(c, s, room, src, now).1.Registered? && !MsgStep(c, s, room, src, now).1.Challenged?
  {
  }

  /** A client of the room is written to, with text it reads as this phase and body. */
  ghost predicate Reaches(p: Packet, reply: Reply, to: Addr, room: string, line: Line) {
    exists text :: Outgoing(to, text) in Written(p, reply) && ReadLine(room, text) == line
  }

  lemma WrittenTo(p: Packet, reply: Reply, to: Addr, room: string)
    requires p.MsgPacket? && KnownPhase(p.phase) && IsHex(p.body)
    ensures Reaches(p, reply, to, room, PhaseLine(p.phase, p.body)) <==> reply.Relayed? && to in reply.targets
  {
    var text := FormatMsgd(p.phase, p.body);
    MsgdToClient(room, p.phase, p.body);
    if reply.Relayed? && to in reply.targets { assert Outgoing(to, text) in Written(p, reply); }
  }

  lemma MsgSound(data: string, p: Packet)
    requires p == ParsePacket(data) && p.MsgPacket?
    ensures ValidRoomName(p.room) && KnownPhase(p.phase) && IsHex(p.body)
  {
  }

  /** Whatever datagram the relay takes for a message: it reaches exactly the other
      admitted addresses of its room, if the sender is one and within its rate, and is
      read there as the same phase and body. */
  lemma MessageArrives(c: Config, s: State, data: string, p: Packet, src: Addr, now: Time, to: Addr, room: string)
    requires p == ParsePacket(data) && p.MsgPacket?
    ensures EventFor(p, src, None) == Some(Msg(Room(p.room), src)) && KnownPhase(p.phase)
    ensures var reply := MsgStep(c, s, Room(p.room), src, now).1;
      Reaches(p, reply, to, room, PhaseLine(p.phase, p.body)) <==>
        reply.Relayed? && to != src && Room(p.room) in s.rooms && to in s.rooms[Room(p.room)].clients
  {
    MsgSound(data, p);
    WrittenTo(p, MsgStep(c, s, Room(p.room), src, now).1, to, room);
    MsgTargets(c, s, Room(p.room), src, now);
  }
}
