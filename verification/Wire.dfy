/** The text datagrams between client and relay: how each end formats them and what
    the other end reads. */
module Wire {
  import opened Text
  import opened RelaySpec

  const MAX_DATAGRAM_LEN := 1400
  const MAX_ROOM_NAME_LEN := 64
  const MAX_MSG_BODY_LEN := 1024

  // ----- trimming and cutting -----

  predicate AsciiSpace(ch: char) {
    ch == ' ' || '\t' <= ch <= '\r'
  }

  /** The UTF-8 encodings of the other characters Unicode counts as white space. */
  predicate WideSpace(s: string) {
    var b := seq(|s|, i requires 0 <= i < |s| => s[i] as int);
    || b == [0xC2, 0x85] || b == [0xC2, 0xA0]
    || b == [0xE1, 0x9A, 0x80] || b == [0xE3, 0x80, 0x80] || b == [0xE2, 0x81, 0x9F]
    || (|b| == 3 && b[..2] == [0xE2, 0x80] && (0x80 <= b[2] <= 0x8A || b[2] in {0xA8, 0xA9, 0xAF}))
  }

  /** How many bytes of white space s starts with, looking at one character. */
  function SpaceAtStart(s: string): (n: nat)
    ensures n <= |s|
  {
    if s != "" && AsciiSpace(s[0]) then 1
    else if |s| >= 2 && WideSpace(s[..2]) then 2
    else if |s| >= 3 && WideSpace(s[..3]) then 3
    else 0
  }

  function SpaceAtEnd(s: string): (n: nat)
    ensures n <= |s|
  {
    if s != "" && AsciiSpace(s[|s| - 1]) then 1
    else if |s| >= 2 && WideSpace(s[|s| - 2..]) then 2
    else if |s| >= 3 && WideSpace(s[|s| - 3..]) then 3
    else 0
  }

  function TrimLeft(s: string): string {
    if SpaceAtStart(s) == 0 then s else TrimLeft(s[SpaceAtStart(s)..])
  }

  function TrimRight(s: string): string {
    if SpaceAtEnd(s) == 0 then s else TrimRight(s[..|s| - SpaceAtEnd(s)])
  }

  function Trim(s: string): string {
    TrimRight(TrimLeft(s))
  }

  /** Before and after the first space. */
  function Cut(s: string): Option<(string, string)> {
    if s == "" then None
    else if s[0] == ' ' then Some(("", s[1..]))
    else
      var rest := Cut(s[1..]);
      if rest.None? then None else Some(([s[0]] + rest.value.0, rest.value.1))
  }

  predicate HasPrefix(s: string, p: string) {
    |s| >= |p| && s[..|p|] == p
  }

  // ----- what the relay reads -----

  predicate Visible(s: string) {
    forall i | 0 <= i < |s| :: 33 <= s[i] as int <= 126
  }

  predicate ValidRoomName(room: string) {
    1 <= |room| <= MAX_ROOM_NAME_LEN && Visible(room)
  }

  predicate KnownPhase(phase: string) {
    phase == "spake2" || phase == "confirm"
  }

  datatype Packet = RegPacket(room: string, cookie: string) | MsgPacket(room: string, phase: string, body: string)
      | Dropped

  function ParseReg(rest: string): Packet {
    var text := Trim(rest);
    var parts := Cut(text);
    var room := if parts.Some? then parts.value.0 else text;
    if !ValidRoomName(room) then Dropped
    else RegPacket(room, if parts.Some? then Trim(parts.value.1) else "")
  }

  function ParseMsg(payload: string): Packet {
    var first := Cut(payload);
    if first.None? then Dropped else
    var second := Cut(first.value.1);
    if second.None? then Dropped else
    var (room, (phase, body)) := (first.value.0, second.value);
    if !KnownPhase(phase) || !ValidRoomName(room) || !IsHex(body) || |body| > MAX_MSG_BODY_LEN then Dropped
    else MsgPacket(room, phase, body)
  }

  function ParsePacket(data: string): Packet {
    if data == "" || |data| > MAX_DATAGRAM_LEN then Dropped else Dispatch(Trim(data))
  }

  function Dispatch(line: string): Packet {
    if HasPrefix(line, "REG ") then ParseReg(line[4..])
    else if HasPrefix(line, "MSG ") then ParseMsg(line[4..])
    else Dropped
  }

  // ----- what the relay sends -----

  function FormatOk(room: string, addr: string): string {
    "REGD " + room + " OK " + addr + "\n"
  }

  function FormatChallenge(room: string, cookie: Bytes): string {
    "REGD " + room + " " + HexEncode(cookie) + "\n"
  }

  function FormatMsgd(phase: string, body: string): string {
    "MSGD " + phase + " " + body + "\n"
  }

  // ----- what the client sends -----

  function FormatReg(room: string, cookie: string): string {
    if cookie == "" then "REG " + room + "\n" else "REG " + room + " " + cookie + "\n"
  }

  function FormatMsg(room: string, phase: string, payload: Bytes): string {
    "MSG " + room + " " + phase + " " + HexEncode(payload) + "\n"
  }

  // ----- what the client reads -----

  datatype Line =
    | OkLine(addr: string)
    | ChallengeLine(cookie: string)
    | SpakeLine(body: string)
    | ConfirmLine(body: string)
    | Ignored

  function ReadRegd(room: string, rest: string): Line {
    var parts := Cut(rest);
    if parts.None? || parts.value.0 != room then Ignored else
    var payload := Trim(parts.value.1);
    if HasPrefix(payload, "OK ") then OkLine(Trim(payload[3..]))
    else if |payload| == 32 && HexDecode(payload).Some? then ChallengeLine(payload)
    else Ignored
  }

  function ReadLine(room: string, data: string): Line {
    ReadTrimmed(room, Trim(data))
  }

  function ReadTrimmed(room: string, line: string): Line {
    if HasPrefix(line, "REGD ") then ReadRegd(room, line[5..])
    else if HasPrefix(line, "MSGD spake2 ") then SpakeLine(line[12..])
    else if HasPrefix(line, "MSGD confirm ") then ConfirmLine(line[13..])
    else Ignored
  }

  function PhaseLine(phase: string, body: string): Line
    requires KnownPhase(phase)
  {
    if phase == "spake2" then SpakeLine(body) else ConfirmLine(body)
  }

  // ----- lemmas -----

  predicate SolidChar(ch: char) {
    33 <= ch as int <= 126
  }

  /** Neither end is white space. */
  predicate Solid(s: string) {
    s != "" && SolidChar(s[0]) && SolidChar(s[|s| - 1])
  }

  lemma NotWide(s: string)
    requires s != "" && (SolidChar(s[0]) || SolidChar(s[|s| - 1]))
    ensures !WideSpace(s)
  {
    var b := seq(|s|, i requires 0 <= i < |s| => s[i] as int);
    assert b[0] < 128 || b[|s| - 1] < 128;
  }

  lemma TrimSolid(s: string)
    requires Solid(s)
    ensures Trim(s) == s && Trim(s + "\n") == s
  {
    SolidStart(s);
    SolidStart(s + "\n");
    SolidEnd(s);
    assert (s + "\n")[..|s|] == s;
    assert SpaceAtEnd(s + "\n") == 1;
  }

  lemma SolidStart(s: string)
    requires s != "" && SolidChar(s[0])
    ensures TrimLeft(s) == s
  {
    if |s| >= 2 { NotWide(s[..2]); }
    if |s| >= 3 { NotWide(s[..3]); }
  }

  lemma SolidEnd(s: string)
    requires s != "" && SolidChar(s[|s| - 1])
    ensures TrimRight(s) == s
  {
    if |s| >= 2 { NotWide(s[|s| - 2..]); }
    if |s| >= 3 { NotWide(s[|s| - 3..]); }
  }

  lemma {:induction false} CutMeaning(s: string)
    ensures Cut(s).None? <==> ' ' !in s
    ensures Cut(s).Some? ==> s == Cut(s).value.0 + " " + Cut(s).value.1 && ' ' !in Cut(s).value.0
  {
    if s != "" && s[0] != ' ' {
      CutMeaning(s[1..]);
      assert s == [s[0]] + s[1..];
    }
  }

  lemma {:induction false} CutAt(a: string, b: string)
    requires ' ' !in a
    ensures Cut(a + " " + b) == Some((a, b))
  {
    var s := a + " " + b;
    if a == "" {
      assert s[1..] == b;
    } else {
      CutAt(a[1..], b);
      assert s[1..] == a[1..] + " " + b;
      assert [a[0]] + a[1..] == a;
    }
  }

  lemma HexSolid(s: string)
    requires s != "" && AllHex(s)
    ensures Solid(s) && ' ' !in s
  {
  }

  lemma HexEncoded(b: Bytes)
    requires b != []
    ensures IsHex(HexEncode(b))
  {
    var s := HexEncode(b);
    assert |s| == 2 * |b|;
  }

  lemma PhaseSolid(phase: string)
    requires KnownPhase(phase)
    ensures Solid(phase) && ' ' !in phase
  {
  }

  lemma RoomSolid(room: string)
    requires ValidRoomName(room)
    ensures Solid(room) && ' ' !in room
  {
  }

  lemma Prefixed(p: string, rest: string)
    ensures HasPrefix(p + rest, p) && (p + rest)[|p|..] == rest
  {
  }

  lemma DispatchMsg(rest: string)
    ensures Dispatch("MSG " + rest) == ParseMsg(rest)
  {
    Prefixed("MSG ", rest);
    assert ("MSG " + rest)[..4][0] == 'M';
  }

  lemma DispatchReg(rest: string)
    ensures Dispatch("REG " + rest) == ParseReg(rest)
  {
    Prefixed("REG ", rest);
  }

  lemma ReadingRegd(room: string, rest: string)
    ensures ReadTrimmed(room, "REGD " + rest) == ReadRegd(room, rest)
  {
    Prefixed("REGD ", rest);
  }

  lemma ReadingSpake(room: string, body: string)
    ensures ReadTrimmed(room, "MSGD spake2 " + body) == SpakeLine(body)
  {
    Prefixed("MSGD spake2 ", body);
    assert ("MSGD spake2 " + body)[..5][0] == 'M';
  }

  lemma ReadingConfirm(room: string, body: string)
    ensures ReadTrimmed(room, "MSGD confirm " + body) == ConfirmLine(body)
  {
    var line := "MSGD confirm " + body;
    Prefixed("MSGD confirm ", body);
    assert line[..5][0] == 'M' && line[..12][5] == 'c';
  }

  lemma ReadingMsgd(room: string, phase: string, body: string)
    requires KnownPhase(phase)
    ensures ReadTrimmed(room, "MSGD " + phase + " " + body) == PhaseLine(phase, body)
  {
    if phase == "spake2" {
      assert "MSGD " + phase + " " == "MSGD spake2 ";
      ReadingSpake(room, body);
    } else {
      assert "MSGD " + phase + " " == "MSGD confirm ";
      ReadingConfirm(room, body);
    }
  }

  lemma PacketLine(line: string)
    requires Solid(line)
    ensures ParsePacket(line + "\n") == if |line| + 1 > MAX_DATAGRAM_LEN then Dropped else Dispatch(line)
  {
    TrimSolid(line);
  }

  /** Adding a solid text at the end leaves both ends solid. */
  lemma SolidConcat(a: string, b: string)
    requires a != "" && SolidChar(a[0]) && Solid(b)
    ensures Solid(a + b)
  {
  }

  lemma MsgParts(room: string, phase: string, body: string)
    requires ValidRoomName(room) && KnownPhase(phase)
    ensures ParseMsg(room + " " + (phase + " " + body)) ==
            if IsHex(body) && |body| <= MAX_MSG_BODY_LEN then MsgPacket(room, phase, body) else Dropped
  {
    RoomSolid(room);
    CutAt(room, phase + " " + body);
    CutAt(phase, body);
  }

  lemma MsgLine(room: string, phase: string, body: string)
    ensures "MSG " + room + " " + phase + " " + body == "MSG " + (room + " " + (phase + " " + body))
  {
  }

  lemma MsgHex(room: string, phase: string, body: string)
    requires ValidRoomName(room) && KnownPhase(phase) && IsHex(body)
    ensures ParsePacket("MSG " + room + " " + phase + " " + body + "\n") ==
            if |body| <= MAX_MSG_BODY_LEN then MsgPacket(room, phase, body) else Dropped
  {
    HexSolid(body);
    var line := "MSG " + room + " " + phase + " " + body;
    SolidConcat("MSG " + room + " " + phase + " ", body);
    PacketLine(line);
    assert Dispatch(line) == if |body| <= MAX_MSG_BODY_LEN then MsgPacket(room, phase, body) else Dropped by {
      MsgLine(room, phase, body);
      DispatchMsg(room + " " + (phase + " " + body));
      MsgParts(room, phase, body);
    }
    assert |line| == 6 + |room| + |phase| + |body|;
  }

  /** Every MSG the client formats is read by the relay as that room, phase and body, if
      and only if its payload has 1 to 512 bytes. */
  lemma MsgToRelay(room: string, phase: string, payload: Bytes)
    requires ValidRoomName(room) && KnownPhase(phase)
    ensures ParsePacket(FormatMsg(room, phase, payload)) ==
            if 1 <= |payload| <= 512 then MsgPacket(room, phase, HexEncode(payload)) else Dropped
  {
    if payload == [] {
      EmptyMsg(room, phase);
    } else {
      HexEncoded(payload);
      MsgHex(room, phase, HexEncode(payload));
    }
  }

  lemma TrimTwo(line: string)
    requires Solid(line)
    ensures Trim(line + " " + "\n") == line
  {
    var a, b := line + " ", line + " " + "\n";
    SolidStart(b);
    SolidEnd(line);
    assert b[..|b| - 1] == a && a[..|a| - 1] == line;
    assert TrimRight(b) == TrimRight(a);
    assert TrimRight(a) == TrimRight(line);
  }

  lemma EmptyMsg(room: string, phase: string)
    requires ValidRoomName(room) && KnownPhase(phase)
    ensures ParsePacket(FormatMsg(room, phase, [])) == Dropped
  {
    RoomSolid(room);
    PhaseSolid(phase);
    var rest := room + " " + phase;
    SolidConcat("MSG " + room + " ", phase);
    assert "MSG " + room + " " + phase == "MSG " + rest;
    TrimTwo("MSG " + rest);
    assert FormatMsg(room, phase, []) == "MSG " + rest + " " + "\n";
    DispatchMsg(rest);
    CutAt(room, phase);
    CutMeaning(phase);
  }

  /** What the relay passes on, the client reads as the same phase and body. */
  lemma MsgdToClient(room: string, phase: string, body: string)
    requires KnownPhase(phase) && IsHex(body)
    ensures ReadLine(room, FormatMsgd(phase, body)) == PhaseLine(phase, body)
  {
    HexSolid(body);
    SolidConcat("MSGD " + phase + " ", body);
    TrimSolid("MSGD " + phase + " " + body);
    ReadingMsgd(room, phase, body);
  }

  /** The packet holds that room, phase and payload, and a client reads them from what the relay passes on. */
  predicate Carries(p: Packet, room: string, phase: string, payload: Bytes)
    requires KnownPhase(phase)
  {
    && p.MsgPacket? && p.room == room && p.phase == phase && HexDecode(p.body) == Some(payload)
    && ReadLine(room, FormatMsgd(p.phase, p.body)) == PhaseLine(phase, HexEncode(payload))
  }

  lemma HexCarries(room: string, phase: string, payload: Bytes)
    requires KnownPhase(phase) && payload != []
    ensures Carries(MsgPacket(room, phase, HexEncode(payload)), room, phase, payload)
  {
    HexEncoded(payload);
    MsgdToClient(room, phase, HexEncode(payload));
    HexRoundTrip(payload);
  }

  /** From client to client: the same phase and the same bytes. */
  lemma MsgRoundTrip(room: string, phase: string, payload: Bytes)
    requires ValidRoomName(room) && KnownPhase(phase) && 1 <= |payload| <= 512
    ensures Carries(ParsePacket(FormatMsg(room, phase, payload)), room, phase, payload)
  {
    MsgToRelay(room, phase, payload);
    HexCarries(room, phase, payload);
  }

  /** Whatever datagram the relay accepts as a MSG, what it passes on is readable. */
  lemma AcceptedMsgReadable(data: string, room: string)
    requires ParsePacket(data).MsgPacket?
    ensures var p := ParsePacket(data);
      && KnownPhase(p.phase) && ReadLine(room, FormatMsgd(p.phase, p.body)) == PhaseLine(p.phase, p.body)
      && HexDecode(p.body).Some? && 1 <= |HexDecode(p.body).value| <= 512
      && |FormatMsgd(p.phase, p.body)| <= MAX_DATAGRAM_LEN
  {
    var p := ParsePacket(data);
    MsgdToClient(room, p.phase, p.body);
  }

  lemma ChallengeRead(room: string, cookie: Bytes)
    requires ValidRoomName(room) && |cookie| == PENDING_COOKIE_BYTES
    ensures ReadLine(room, FormatChallenge(room, cookie)) == ChallengeLine(HexEncode(cookie))
  {
    var text := HexEncode(cookie);
    RoomSolid(room);
    HexSolid(text);
    var rest := room + " " + text;
    SolidConcat("REGD " + room + " ", text);
    assert "REGD " + room + " " + text == "REGD " + rest;
    TrimSolid("REGD " + rest);
    ReadingRegd(room, rest);
    CutAt(room, text);
    TrimSolid(text);
    NoOk(text);
  }

  lemma NoOk(text: string)
    requires text != "" && AllHex(text)
    ensures !HasPrefix(text, "OK ")
  {
    assert IsHexDigit(text[0]);
    assert |text| >= 3 ==> text[..3][0] == text[0];
  }

  lemma RegParts(room: string, cookie: string)
    requires ValidRoomName(room) && AllHex(cookie)
    ensures ParseReg(if cookie == "" then room else room + " " + cookie) == RegPacket(room, cookie)
  {
    RoomSolid(room);
    if cookie == "" {
      TrimSolid(room);
      CutMeaning(room);
    } else {
      HexSolid(cookie);
      SolidConcat(room + " ", cookie);
      TrimSolid(room + " " + cookie);
      CutAt(room, cookie);
      TrimSolid(cookie);
    }
  }

  /** REG with or without a cookie, as the client formats it. */
  lemma RegRead(room: string, cookie: string)
    requires ValidRoomName(room) && AllHex(cookie) && |cookie| <= MAX_MSG_BODY_LEN
    ensures ParsePacket(FormatReg(room, cookie)) == RegPacket(room, cookie)
  {
    RoomSolid(room);
    var rest := if cookie == "" then room else room + " " + cookie;
    if cookie != "" {
      HexSolid(cookie);
      SolidConcat(room + " ", cookie);
    }
    SolidConcat("REG ", rest);
    assert FormatReg(room, cookie) == "REG " + rest + "\n";
    PacketLine("REG " + rest);
    DispatchReg(rest);
    RegParts(room, cookie);
  }

  /** A challenge is read as that cookie, never as an OK line, and comes back unchanged. */
  lemma ChallengeRoundTrip(room: string, cookie: Bytes)
    requires ValidRoomName(room) && |cookie| == PENDING_COOKIE_BYTES
    ensures ReadLine(room, FormatChallenge(room, cookie)) == ChallengeLine(HexEncode(cookie))
    ensures ParsePacket(FormatReg(room, HexEncode(cookie))) == RegPacket(room, HexEncode(cookie))
    ensures GoodCookie(HexEncode(cookie)) && CookieBytes(HexEncode(cookie)) == cookie
  {
    HexRoundTrip(cookie);
    ChallengeRead(room, cookie);
    RegRead(room, HexEncode(cookie));
  }

  /** An OK line is read as the address it carries. */
  lemma OkRead(room: string, addr: string)
    requires ValidRoomName(room) && addr != "" && Visible(addr)
    ensures ReadLine(room, FormatOk(room, addr)) == OkLine(addr)
  {
    RoomSolid(room);
    var payload := "OK " + addr;
    var rest := room + " " + payload;
    SolidConcat("OK ", addr);
    SolidConcat("REGD " + room + " ", payload);
    assert "REGD " + room + " " + payload == "REGD " + rest;
    assert FormatOk(room, addr) == "REGD " + rest + "\n";
    TrimSolid("REGD " + rest);
    ReadingRegd(room, rest);
    CutAt(room, payload);
    TrimSolid(payload);
    Prefixed("OK ", addr);
    TrimSolid(addr);
  }
}
