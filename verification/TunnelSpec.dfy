/** Tunnel specifications on the command line: fields separated by colons, where colons
    inside brackets belong to an IPv6 address. */
module TunnelSpec {
  import opened Text
  import opened TunnelText

  // ----- what a split is -----

  /** No colon outside brackets, and brackets balance, starting at depth d. */
  predicate AtomicFrom(p: string, d: nat) {
    if p == "" then d == 0
    else if p[0] == '[' then AtomicFrom(p[1..], d + 1)
    else if p[0] == ']' then d > 0 && AtomicFrom(p[1..], d - 1)
    else (p[0] == ':' ==> d > 0) && AtomicFrom(p[1..], d)
  }

  predicate Atomic(p: string) {
    AtomicFrom(p, 0)
  }

  function Join(parts: seq<string>): string
    requires parts != []
  {
    if |parts| == 1 then parts[0] else parts[0] + ":" + Join(parts[1..])
  }

  ghost predicate AllAtomic(parts: seq<string>) {
    parts != [] && forall i | 0 <= i < |parts| :: Atomic(parts[i])
  }

  // ----- how it is computed -----

  /** `d` is the bracket depth and `cur` the field so far. */
  function SplitFrom(s: string, d: nat, cur: string): (r: Option<seq<string>>)
    ensures r.Some? ==> r.value != []
  {
    if s == "" then if d == 0 then Some([cur]) else None
    else if s[0] == '[' then SplitFrom(s[1..], d + 1, cur + [s[0]])
    else if s[0] == ']' then if d == 0 then None else SplitFrom(s[1..], d - 1, cur + [s[0]])
    else if s[0] == ':' && d == 0 then
      var rest := SplitFrom(s[1..], 0, "");
      if rest.None? then None else Some([cur] + rest.value)
    else SplitFrom(s[1..], d, cur + [s[0]])
  }

  function Split(s: string): Option<seq<string>> {
    SplitFrom(s, 0, "")
  }

  function After(parts: seq<string>, r: Option<seq<string>>): Option<seq<string>> {
    if r.None? then None else Some(parts + r.value)
  }

  lemma NextChar(s: string, start: nat, i: nat)
    requires start <= i < |s|
    ensures s[i..] == [s[i]] + s[i + 1..] && s[start..i] + [s[i]] == s[start..i + 1]
    ensures s[i..] != "" && s[i..][0] == s[i] && s[i..][1..] == s[i + 1..]
  {
  }

  lemma SplitStep(s: string, start: nat, i: nat, d: nat)
    requires start <= i < |s|
    ensures var cur, cur' := s[start..i], s[start..i + 1];
      SplitFrom(s[i..], d, cur) ==
        if s[i] == '[' then SplitFrom(s[i + 1..], d + 1, cur')
        else if s[i] == ']' then if d == 0 then None else SplitFrom(s[i + 1..], d - 1, cur')
        else if s[i] == ':' && d == 0 then After([cur], SplitFrom(s[i + 1..], 0, ""))
        else SplitFrom(s[i + 1..], d, cur')
  {
    NextChar(s, start, i);
  }

  lemma AfterAssoc(a: seq<string>, b: seq<string>, r: Option<seq<string>>)
    ensures After(a, After(b, r)) == After(a + b, r)
  {
    if r.Some? { assert a + (b + r.value) == a + b + r.value; }
  }

  lemma AfterNone(r: Option<seq<string>>)
    ensures After([], r) == r
  {
    if r.Some? { assert [] + r.value == r.value; }
  }

  method SplitTunnelRequest(spec: string) returns (r: Option<seq<string>>)
    ensures r == Split(spec)
  {
    var parts, depth, start, i := [], 0, 0, 0;
    AfterNone(Split(spec));
    assert spec[0..] == spec;
    while i < |spec|
      invariant start <= i <= |spec|
      invariant Split(spec) == After(parts, SplitFrom(spec[i..], depth, spec[start..i]))
    {
      SplitStep(spec, start, i, depth);
      var c := spec[i];
      if c == '[' {
        depth := depth + 1;
      } else if c == ']' {
        if depth == 0 { return None; }
        depth := depth - 1;
      } else if c == ':' && depth == 0 {
        AfterAssoc(parts, [spec[start..i]], SplitFrom(spec[i + 1..], 0, ""));
        parts := parts + [spec[start..i]];
        start := i + 1;
        assert spec[start..i + 1] == "";
      }
      i := i + 1;
    }
    assert spec[i..] == "";
    if depth != 0 { return None; }
    assert spec[start..] == spec[start..i];
    r := Some(parts + [spec[start..]]);
  }

  // ----- the split is the only one -----

  lemma {:induction false} SplitPast(x: string, rest: string, d: nat, cur: string)
    requires AtomicFrom(x, d)
    ensures SplitFrom(x + rest, d, cur) == SplitFrom(rest, 0, cur + x)
  {
    if x == "" {
      assert x + rest == rest && cur + x == cur;
    } else {
      var d' := if x[0] == '[' then d + 1 else if x[0] == ']' then d - 1 else d;
      SplitPast(x[1..], rest, d', cur + [x[0]]);
      assert (x + rest)[1..] == x[1..] + rest && (x + rest)[0] == x[0];
      assert cur + [x[0]] + x[1..] == cur + x;
    }
  }

  lemma {:induction false} SplitJoined(parts: seq<string>)
    requires AllAtomic(parts)
    ensures Split(Join(parts)) == Some(parts)
  {
    if |parts| == 1 {
      SplitPast(parts[0], "", 0, "");
      assert parts[0] + "" == parts[0] && "" + parts[0] == parts[0] && parts == [parts[0]];
    } else {
      var rest := ":" + Join(parts[1..]);
      SplitJoined(parts[1..]);
      SplitPast(parts[0], rest, 0, "");
      assert Join(parts) == parts[0] + rest && "" + parts[0] == parts[0];
      assert rest[1..] == Join(parts[1..]) && [parts[0]] + parts[1..] == parts;
    }
  }

  /** The fields are the text: joined they give it back, each is atomic. */
  lemma {:induction false} SplitSound(s: string, d: nat, cur: string)
    requires SplitFrom(s, d, cur).Some?
    ensures var ps := SplitFrom(s, d, cur).value;
      && Join(ps) == cur + s
      && |cur| <= |ps[0]| && ps[0][..|cur|] == cur && AtomicFrom(ps[0][|cur|..], d)
      && forall i | 1 <= i < |ps| :: Atomic(ps[i])
  {
    var ps := SplitFrom(s, d, cur).value;
    if s == "" {
      assert cur + s == cur && cur[|cur|..] == "";
    } else if s[0] == ':' && d == 0 {
      SplitSound(s[1..], 0, "");
      var rest := SplitFrom(s[1..], 0, "").value;
      assert ps[1..] == rest && rest[0][0..] == rest[0];
      assert cur + ":" + s[1..] == cur + s;
      assert cur[|cur|..] == "";
      forall i | 1 <= i < |ps| ensures Atomic(ps[i]) { assert ps[i] == rest[i - 1]; }
    } else {
      var cur', d' := cur + [s[0]], if s[0] == '[' then d + 1 else if s[0] == ']' then d - 1 else d;
      SplitSound(s[1..], d', cur');
      assert cur' + s[1..] == cur + s;
      assert ps[0][..|cur|] == ps[0][..|cur'|][..|cur|] == cur;
      assert ps[0][|cur|] == s[0] && ps[0][|cur|..][1..] == ps[0][|cur'|..];
    }
  }

  /** A split is found exactly when the text is a join of atomic fields, and it is those. */
  lemma SplitExact(s: string, parts: seq<string>)
    ensures Split(s) == Some(parts) <==> AllAtomic(parts) && Join(parts) == s
  {
    if Split(s) == Some(parts) {
      SplitSound(s, 0, "");
      assert "" + s == s && parts[0][0..] == parts[0];
    }
    if AllAtomic(parts) { SplitJoined(parts); }
  }

  // ----- requests -----

  predicate HasColon(host: string) {
    ':' in host
  }

  function JoinHostPort(host: string, port: string): string {
    if HasColon(host) then "[" + host + "]:" + port else host + ":" + port
  }

  function StripBrackets(s: string): string {
    if |s| >= 2 && s[0] == '[' && s[|s| - 1] == ']' then s[1..|s| - 1] else s
  }

  const LOOPBACK := "127.0.0.1"

  /** Three fields leave the listening host to default, four name it. */
  function ParseTunnelRequest(spec: string, kind: string): Option<Request> {
    var parts := Split(spec);
    if parts.None? then None
    else if |parts.value| == 3 then
      Some(Request(kind, JoinHostPort(LOOPBACK, parts.value[0]),
        JoinHostPort(StripBrackets(parts.value[1]), parts.value[2])))
    else if |parts.value| == 4 then
      var host := StripBrackets(parts.value[0]);
      Some(Request(kind, JoinHostPort(if host == "" then LOOPBACK else host, parts.value[1]),
                   JoinHostPort(StripBrackets(parts.value[2]), parts.value[3])))
    else None
  }

  /** A host as it is written: in brackets when it has a colon. */
  function Written(host: string): string {
    if HasColon(host) then "[" + host + "]" else host
  }

  predicate NoBrackets(s: string) {
    '[' !in s && ']' !in s
  }

  lemma {:induction false} PlainAtomic(s: string, d: nat)
    requires NoBrackets(s) && (d == 0 ==> !HasColon(s))
    ensures AtomicFrom(s, d) <==> d == 0
  {
    if s == "" {
    } else {
      PlainAtomic(s[1..], d);
    }
  }

  lemma {:induction false} InBrackets(s: string)
    requires NoBrackets(s)
    ensures AtomicFrom(s + "]", 1)
  {
    if s == "" {
      assert s + "]" == "]" && "]"[1..] == "";
    } else {
      InBrackets(s[1..]);
      assert (s + "]")[1..] == s[1..] + "]" && (s + "]")[0] == s[0];
    }
  }

  lemma WrittenAtomic(host: string)
    requires NoBrackets(host)
    ensures Atomic(Written(host)) && StripBrackets(Written(host)) == host
  {
    if HasColon(host) {
      InBrackets(host);
      assert Written(host)[1..] == host + "]";
    } else {
      PlainAtomic(host, 0);
      if |host| >= 2 { assert host[0] in host; }
    }
  }

  /** A specification written from its fields is read back as those addresses. */
  lemma SpecRoundTrip(listenHost: string, listenPort: string, host: string, port: string, kind: string)
    requires NoBrackets(listenHost) && NoBrackets(host)
    requires NoBrackets(listenPort) && !HasColon(listenPort) && NoBrackets(port) && !HasColon(port)
    ensures var target := JoinHostPort(host, port);
      && ParseTunnelRequest(Join([listenPort, Written(host), port]), kind) ==
         Some(Request(kind, JoinHostPort(LOOPBACK, listenPort), target))
      && ParseTunnelRequest(Join([Written(listenHost), listenPort, Written(host), port]), kind) ==
         Some(Request(kind, JoinHostPort(if listenHost == "" then LOOPBACK else listenHost, listenPort), target))
  {
    WrittenAtomic(listenHost);
    WrittenAtomic(host);
    PlainAtomic(listenPort, 0);
    PlainAtomic(port, 0);
    SplitJoined([listenPort, Written(host), port]);
    SplitJoined([Written(listenHost), listenPort, Written(host), port]);
  }
}
