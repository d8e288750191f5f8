/** Which command-line requests survive the trip to the peer. */
module TunnelAccept {
  import opened Text
  import opened TunnelText
  import opened TunnelSpec

  // ----- characters -----

  predicate Only(s: string, ok: char -> bool) {
    forall i | 0 <= i < |s| :: ok(s[i])
  }

  /** The characters that splitting and joining add or drop. */
  predicate Admits(ok: char -> bool) {
    ok('[') && ok(']') && ok(':') && Only(LOOPBACK, ok)
  }

  function IsPrintable(): char -> bool {
    (c: char) => Printable(c)
  }

  function NotSpace(): char -> bool {
    (c: char) => c != ' '
  }

  lemma OnlyConcat(a: string, b: string, ok: char -> bool)
    ensures Only(a + b, ok) <==> Only(a, ok) && Only(b, ok)
  {
    assert forall i | 0 <= i < |a| :: (a + b)[i] == a[i];
    assert forall i | 0 <= i < |b| :: (a + b)[|a| + i] == b[i];
  }

  lemma {:induction false} OnlyJoin(parts: seq<string>, ok: char -> bool)
    requires parts != [] && ok(':')
    ensures Only(Join(parts), ok) <==> forall i | 0 <= i < |parts| :: Only(parts[i], ok)
  {
    if |parts| == 1 {
    } else {
      OnlyJoin(parts[1..], ok);
      OnlyConcat(parts[0], ":", ok);
      OnlyConcat(parts[0] + ":", Join(parts[1..]), ok);
      assert forall i | 1 <= i < |parts| :: parts[i] == parts[1..][i - 1];
      assert forall i | 0 <= i < |parts[1..]| :: parts[1..][i] == parts[i + 1];
    }
  }

  lemma OnlyStrip(s: string, ok: char -> bool)
    requires Admits(ok)
    ensures Only(StripBrackets(s), ok) <==> Only(s, ok)
  {
    if |s| >= 2 && s[0] == '[' && s[|s| - 1] == ']' {
      assert s == "[" + StripBrackets(s) + "]";
      OnlyConcat("[", StripBrackets(s), ok);
      OnlyConcat("[" + StripBrackets(s), "]", ok);
    }
  }

  lemma OnlyHostPort(host: string, port: string, ok: char -> bool)
    requires Admits(ok)
    ensures Only(JoinHostPort(host, port), ok) <==> Only(host, ok) && Only(port, ok)
  {
    if HasColon(host) {
      OnlyConcat("[", host, ok);
      OnlyConcat("[" + host, "]:", ok);
      OnlyConcat("[" + host + "]:", port, ok);
    } else {
      OnlyConcat(host, ":", ok);
      OnlyConcat(host + ":", port, ok);
    }
  }

  // ----- the two addresses of an accepted specification -----

  predicate Accepted(parts: seq<string>) {
    |parts| == 3 || |parts| == 4
  }

  /** The fields that name the listening end. */
  function ListenFields(parts: seq<string>): seq<string>
    requires Accepted(parts)
  {
    parts[..|parts| - 2]
  }

  function HostOrLoopback(field: string): string {
    if StripBrackets(field) == "" then LOOPBACK else StripBrackets(field)
  }

  function ListenOf(parts: seq<string>): string
    requires Accepted(parts)
  {
    if |parts| == 3 then JoinHostPort(LOOPBACK, parts[0]) else JoinHostPort(HostOrLoopback(parts[0]), parts[1])
  }

  function TargetOf(parts: seq<string>): string
    requires Accepted(parts)
  {
    JoinHostPort(StripBrackets(parts[|parts| - 2]), parts[|parts| - 1])
  }

  lemma AcceptedRequest(spec: string, kind: string)
    ensures ParseTunnelRequest(spec, kind).Some? <==> Split(spec).Some? && Accepted(Split(spec).value)
    ensures ParseTunnelRequest(spec, kind).Some? ==>
      ParseTunnelRequest(spec, kind).value == Request(kind, ListenOf(Split(spec).value), TargetOf(Split(spec).value))
  {
  }

  lemma ListenOnly(parts: seq<string>, ok: char -> bool)
    requires Accepted(parts) && Admits(ok)
    ensures Only(ListenOf(parts), ok) <==> Only(Join(ListenFields(parts)), ok)
  {
    OnlyJoin(ListenFields(parts), ok);
    if |parts| == 3 {
      OnlyHostPort(LOOPBACK, parts[0], ok);
    } else {
      OnlyStrip(parts[0], ok);
      OnlyHostPort(HostOrLoopback(parts[0]), parts[1], ok);
      assert ListenFields(parts) == [parts[0], parts[1]];
    }
  }

  lemma TargetOnly(parts: seq<string>, ok: char -> bool)
    requires Accepted(parts) && Admits(ok)
    ensures Only(TargetOf(parts), ok) <==> Only(parts[|parts| - 2], ok) && Only(parts[|parts| - 1], ok)
  {
    OnlyStrip(parts[|parts| - 2], ok);
    OnlyHostPort(StripBrackets(parts[|parts| - 2]), parts[|parts| - 1], ok);
  }

  /** All fields, said of the first ones and the last two. */
  lemma AllFields(parts: seq<string>, ok: char -> bool)
    requires Accepted(parts)
    ensures var n := |parts| - 2; var first := ListenFields(parts);
      (forall i | 0 <= i < |parts| :: Only(parts[i], ok)) <==>
        (forall i | 0 <= i < |first| :: Only(first[i], ok)) && Only(parts[n], ok) && Only(parts[n + 1], ok)
  {
    var n, first := |parts| - 2, ListenFields(parts);
    if (forall i | 0 <= i < |first| :: Only(first[i], ok)) && Only(parts[n], ok) && Only(parts[n + 1], ok) {
      forall i | 0 <= i < |parts| ensures Only(parts[i], ok) {
        if i < n { assert first[i] == parts[i]; }
      }
    }
  }

  lemma BothOnly(parts: seq<string>, ok: char -> bool)
    requires Accepted(parts) && Admits(ok)
    ensures Only(ListenOf(parts), ok) && Only(TargetOf(parts), ok) <==> Only(Join(parts), ok)
  {
    ListenOnly(parts, ok);
    TargetOnly(parts, ok);
    OnlyJoin(parts, ok);
    OnlyJoin(ListenFields(parts), ok);
    AllFields(parts, ok);
  }

  // ----- sizes -----

  /** How many characters longer a host is written than its field. */
  function HostGrowth(field: string): int {
    |StripBrackets(field)| - |field| + if HasColon(StripBrackets(field)) then 2 else 0
  }

  /** How much longer the line is than the specification. */
  function Growth(parts: seq<string>): int
    requires Accepted(parts)
  {
    if |parts| == 3 then 12 + HostGrowth(parts[1])
    else 2 + HostGrowth(parts[2]) + if StripBrackets(parts[0]) == "" then 9 - |parts[0]| else HostGrowth(parts[0])
  }

  lemma JoinSize(parts: seq<string>)
    requires Accepted(parts)
    ensures |Join(parts)| == |parts| - 1 + |parts[0]| + |parts[1]| + |parts[2]| + if |parts| == 4 then |parts[3]| else 0
  {
    assert parts[1..][1..] == parts[2..];
    if |parts| == 4 { assert parts[2..][1..] == parts[3..]; }
    Join1(parts);
    Join1(parts[1..]);
    if |parts| == 4 { Join1(parts[2..]); }
  }

  lemma Join1(parts: seq<string>)
    requires parts != []
    ensures |Join(parts)| == |parts[0]| + if |parts| == 1 then 0 else 1 + |Join(parts[1..])|
  {
  }

  lemma LineSize(parts: seq<string>, kind: string)
    requires Accepted(parts) && |kind| == 1
    ensures |Line(Request(kind, ListenOf(parts), TargetOf(parts)))| == |Join(parts)| + Growth(parts)
  {
    JoinSize(parts);
    assert !HasColon(LOOPBACK) && |LOOPBACK| == 9;
  }

  // ----- the condition -----

  /** Printable, no space in the fields of the listening end, and short enough. */
  predicate Travels(spec: string, parts: seq<string>)
    requires Accepted(parts)
  {
    AllPrintable(spec) && ' ' !in Join(ListenFields(parts)) && |spec| + Growth(parts) < SCANNER_MAX
  }

  lemma AddressesTravel(parts: seq<string>)
    requires Accepted(parts)
    ensures AllPrintable(ListenOf(parts)) && AllPrintable(TargetOf(parts)) <==> AllPrintable(Join(parts))
    ensures ' ' !in ListenOf(parts) <==> ' ' !in Join(ListenFields(parts))
  {
    assert LOOPBACK == "127.0.0.1";
    BothOnly(parts, IsPrintable());
    ListenOnly(parts, NotSpace());
    Spaces(ListenOf(parts));
    Spaces(Join(ListenFields(parts)));
    PrintableOnly(ListenOf(parts));
    PrintableOnly(TargetOf(parts));
    PrintableOnly(Join(parts));
  }

  lemma Spaces(s: string)
    ensures ' ' !in s <==> Only(s, NotSpace())
  {
  }

  lemma PrintableOnly(s: string)
    ensures AllPrintable(s) <==> Only(s, IsPrintable())
  {
  }

  /** An accepted specification gives a request the peer can be sent if and only if its
      own text says so. */
  lemma SpecSendable(spec: string, kind: string)
    requires ParseTunnelRequest(spec, kind).Some? && (kind == "L" || kind == "R")
    ensures Split(spec).Some? && Accepted(Split(spec).value)
    ensures Sendable(ParseTunnelRequest(spec, kind).value) <==> Travels(spec, Split(spec).value)
  {
    AcceptedRequest(spec, kind);
    var parts := Split(spec).value;
    SplitExact(spec, parts);
    AddressesTravel(parts);
    LineSize(parts, kind);
  }

  /** Exactly those requests does the peer read as they were meant. */
  lemma SpecArrives(spec: string, kind: string, accept: bool)
    requires ParseTunnelRequest(spec, kind).Some? && (kind == "L" || kind == "R")
    ensures var r := ParseTunnelRequest(spec, kind).value;
      && Split(spec).Some? && Accepted(Split(spec).value)
      && (Parse(Render(accept, [r])) == Ok((accept, [r])) <==> Travels(spec, Split(spec).value))
  {
    SpecSendable(spec, kind);
    ConfigRoundTrip(accept, [ParseTunnelRequest(spec, kind).value]);
  }

  /** A field without colons or brackets, of printable characters. */
  predicate Plain(s: string) {
    NoBrackets(s) && !HasColon(s) && AllPrintable(s)
  }

  lemma PlainRequest(host: string, port: string, target: string, targetPort: string, kind: string)
    requires Plain(host) && Plain(port) && Plain(target) && Plain(targetPort) && host != ""
    ensures ParseTunnelRequest(Join([host, port, target, targetPort]), kind) ==
            Some(Request(kind, host + ":" + port, target + ":" + targetPort))
  {
    SpecRoundTrip(host, port, target, targetPort, kind);
  }

  /** A specification whose listening host is two words is accepted, and the peer reads its
      line as a request to listen on the first word. */
  lemma SpaceMisread(word: string, rest: string, port: string, target: string, targetPort: string, kind: string)
    requires Plain(word) && Plain(rest) && Plain(port) && Plain(target) && Plain(targetPort) && ' ' !in word
    requires kind == "L" || kind == "R"
    ensures var r := ParseTunnelRequest(Join([word + " " + rest, port, target, targetPort]), kind);
      && r.Some? && r.value.listen == word + " " + rest + ":" + port
      && ParseLine(Line(r.value)) == Ok(Request(kind, word, rest + ":" + port + " " + target + ":" + targetPort))
  {
    var host := word + " " + rest;
    PlainRequest(host, port, target, targetPort, kind);
    var r := Request(kind, host + ":" + port, target + ":" + targetPort);
    var got := Request(kind, word, rest + ":" + port + " " + target + ":" + targetPort);
    SameLine(kind, word, rest + ":" + port, target + ":" + targetPort);
    assert host + ":" + port == word + " " + (rest + ":" + port);
    assert rest + ":" + port + " " + target + ":" + targetPort == rest + ":" + port + " " + (target + ":" + targetPort);
    PrintableParts(rest, port, target, targetPort);
    ParseOwnLine(got);
  }

  lemma SameLine(kind: string, a: string, b: string, c: string)
    ensures Line(Request(kind, a + " " + b, c)) == Line(Request(kind, a, b + " " + c))
  {
  }

  lemma PrintableParts(a: string, b: string, c: string, d: string)
    requires AllPrintable(a) && AllPrintable(b) && AllPrintable(c) && AllPrintable(d)
    ensures AllPrintable(a + ":" + b + " " + c + ":" + d)
  {
  }
}
