/** The tunnel configuration as text on the control stream: what is written, how lines
    are scanned, what is read back. */
module TunnelText {
  import opened Text
  import opened Wire

  const SCANNER_MAX: nat := 4096
  const MAX_REQUESTS: nat := 100

  datatype Request = Request(kind: string, listen: string, target: string)

  type Parsed<+T> = Result<T, ParseError>

  datatype ParseError = UnexpectedEof | LineTooLong | UnexpectedLine | TooManyRequests | InvalidLine | InvalidType

  // ----- writing -----

  function Line(r: Request): string {
    r.kind + " " + r.listen + " " + r.target
  }

  function RenderRequests(reqs: seq<Request>): string {
    if reqs == [] then "" else RenderRequests(reqs[..|reqs| - 1]) + Line(reqs[|reqs| - 1]) + "\n"
  }

  function Render(accept: bool, reqs: seq<Request>): string {
    (if accept then "ACCEPT true\n" else "ACCEPT false\n") + RenderRequests(reqs) + "END\n"
  }

  lemma RenderNext(reqs: seq<Request>, i: nat)
    requires i < |reqs|
    ensures RenderRequests(reqs[..i + 1]) == RenderRequests(reqs[..i]) + (Line(reqs[i]) + "\n")
  {
    assert reqs[..i + 1][..i] == reqs[..i];
  }

  method WriteTunnelConfig(accept: bool, reqs: seq<Request>) returns (out: string)
    ensures out == Render(accept, reqs)
  {
    out := if accept then "ACCEPT true\n" else "ACCEPT false\n";
    ghost var first := out;
    for i := 0 to |reqs|
      invariant out == first + RenderRequests(reqs[..i])
    {
      var line := Line(reqs[i]) + "\n";
      RenderNext(reqs, i);
      Assoc(first, RenderRequests(reqs[..i]), line);
      out := out + line;
    }
    assert reqs[..|reqs|] == reqs;
    out := out + "END\n";
  }

  // ----- scanning lines -----

  datatype Scan = Token(line: string, rest: string) | Eof | TooLong

  function DropCR(s: string): string {
    if s != "" && s[|s| - 1] == '\r' then s[..|s| - 1] else s
  }

  /** The number of characters before the first newline. */
  function LineLength(s: string): (n: nat)
    ensures n <= |s|
  {
    if s == "" || s[0] == '\n' then 0 else 1 + LineLength(s[1..])
  }

  /** A line of 4096 bytes or more does not fit the buffer; the end of the stream ends a
      last line without newline. */
  function ScanLine(s: string): Scan {
    var n := LineLength(s);
    if n >= SCANNER_MAX then TooLong
    else if n < |s| then Token(DropCR(s[..n]), s[n + 1..])
    else if s == "" then Eof
    else Token(DropCR(s), "")
  }

  // ----- reading -----

  function ReadAccept(s: string): Parsed<(bool, string)> {
    match ScanLine(s)
    case TooLong => Err(LineTooLong)
    case Eof => Err(UnexpectedEof)
    case Token(line, rest) =>
      if line == "ACCEPT true" then Ok((true, rest))
      else if line == "ACCEPT false" then Ok((false, rest))
      else Err(UnexpectedLine)
  }

  predicate Printable(ch: char) {
    32 <= ch as int < 127
  }

  /** The printable ASCII characters of s. */
  function Filter(s: string): string {
    if s == "" then "" else
    var rest := Filter(s[..|s| - 1]);
    if Printable(s[|s| - 1]) then rest + [s[|s| - 1]] else rest
  }

  method ParseAddr(s: string) returns (b: string)
    ensures b == Filter(s)
  {
    b := "";
    for i := 0 to |s|
      invariant b == Filter(s[..i])
    {
      if Printable(s[i]) { b := b + [s[i]]; }
      assert s[..i + 1][..i] == s[..i];
    }
    assert s[..|s|] == s;
  }

  function ParseLine(line: string): Parsed<Request> {
    var first := Cut(line);
    if first.None? then Err(InvalidLine) else
    var second := Cut(first.value.1);
    if second.None? then Err(InvalidLine)
    else if first.value.0 != "L" && first.value.0 != "R" then Err(InvalidType)
    else Ok(Request(first.value.0, Filter(second.value.0), Filter(second.value.1)))
  }

  /** The requests up to END, given how many were read before. */
  function ReadFrom(s: string, before: nat): Parsed<seq<Request>>
    decreases |s|
  {
    match ScanLine(s)
    case TooLong => Err(LineTooLong)
    case Eof => Ok([])
    case Token(line, rest) =>
      if line == "END" then Ok([])
      else if before >= MAX_REQUESTS then Err(TooManyRequests)
      else
        var r := ParseLine(line);
        if r.Err? then Err(r.error) else
        var more := ReadFrom(rest, before + 1);
        if more.Err? then more else Ok([r.value] + more.value)
  }

  function ReadRequests(s: string): Parsed<seq<Request>> {
    ReadFrom(s, 0)
  }

  function Prefixed(reqs: seq<Request>, r: Parsed<seq<Request>>): Parsed<seq<Request>> {
    if r.Err? then r else Ok(reqs + r.value)
  }

  /** One more request in front of what was read. */
  function Cons(r: Request, more: Parsed<seq<Request>>): Parsed<seq<Request>> {
    if more.Err? then more else Ok([r] + more.value)
  }

  lemma ReadStep(s: string, before: nat, scan: Scan)
    requires scan == ScanLine(s)
    ensures scan.TooLong? ==> ReadFrom(s, before) == Err(LineTooLong)
    ensures scan.Eof? || (scan.Token? && scan.line == "END") ==> ReadFrom(s, before) == Ok([])
    ensures scan.Token? && scan.line != "END" ==>
      && |scan.rest| < |s|
      && ReadFrom(s, before) ==
         if before >= MAX_REQUESTS then Err(TooManyRequests)
         else if ParseLine(scan.line).Err? then Err(ParseLine(scan.line).error)
         else Cons(ParseLine(scan.line).value, ReadFrom(scan.rest, before + 1))
  {
  }

  lemma PrefixStep(reqs: seq<Request>, r: Request, more: Parsed<seq<Request>>)
    ensures Prefixed(reqs, Cons(r, more)) == Prefixed(reqs + [r], more)
  {
    if more.Ok? { assert reqs + ([r] + more.value) == reqs + [r] + more.value; }
  }

  lemma PrefixEnds(reqs: seq<Request>, r: Parsed<seq<Request>>)
    ensures Prefixed([], r) == r && Prefixed(reqs, Ok([])) == Ok(reqs)
  {
    if r.Ok? { assert [] + r.value == r.value; }
    assert reqs + [] == reqs;
  }

  /** What is left to read, in front of what has been read. */
  function Total(reqs: seq<Request>, s: string): Parsed<seq<Request>> {
    Prefixed(reqs, ReadFrom(s, |reqs|))
  }

  lemma TotalStep(reqs: seq<Request>, s: string, scan: Scan)
    requires scan == ScanLine(s)
    ensures scan.TooLong? ==> Total(reqs, s) == Err(LineTooLong)
    ensures scan.Eof? || (scan.Token? && scan.line == "END") ==> Total(reqs, s) == Ok(reqs)
    ensures scan.Token? && scan.line != "END" ==>
      && |scan.rest| < |s|
      && Total(reqs, s) ==
         if |reqs| >= MAX_REQUESTS then Err(TooManyRequests)
         else if ParseLine(scan.line).Err? then Err(ParseLine(scan.line).error)
         else Total(reqs + [ParseLine(scan.line).value], scan.rest)
  {
    PrefixEnds(reqs, Ok([]));
    if scan.Token? && scan.line != "END" {
      TotalNext(reqs, s, scan);
    } else {
      ReadStep(s, |reqs|, scan);
    }
  }

  lemma TotalNext(reqs: seq<Request>, s: string, scan: Scan)
    requires scan == ScanLine(s) && scan.Token? && scan.line != "END"
    ensures |scan.rest| < |s|
    ensures Total(reqs, s) ==
         if |reqs| >= MAX_REQUESTS then Err(TooManyRequests)
         else if ParseLine(scan.line).Err? then Err(ParseLine(scan.line).error)
         else Total(reqs + [ParseLine(scan.line).value], scan.rest)
  {
    ReadStep(s, |reqs|, scan);
    PrefixRead(reqs, ParseLine(scan.line), ReadFrom(scan.rest, |reqs| + 1));
  }

  lemma PrefixRead(reqs: seq<Request>, p: Parsed<Request>, more: Parsed<seq<Request>>)
    ensures forall e: ParseError :: Prefixed(reqs, Err(e)) == Err(e)
    ensures p.Ok? ==> Prefixed(reqs, Cons(p.value, more)) == Prefixed(reqs + [p.value], more)
  {
    if p.Ok? { PrefixStep(reqs, p.value, more); }
  }

  method ReadRequestsFromStream(stream: string) returns (r: Parsed<seq<Request>>)
    ensures r == ReadRequests(stream)
  {
    var s, reqs := stream, [];
    ghost var goal := Total([], stream);
    PrefixEnds([], ReadRequests(stream));
    while true
      invariant goal == Total(reqs, s) && goal == ReadRequests(stream)
      decreases |s|
    {
      var scan := ScanLine(s);
      TotalStep(reqs, s, scan);
      if scan.TooLong? { return Err(LineTooLong); }
      if scan.Eof? || scan.line == "END" { return Ok(reqs); }
      if |reqs| >= MAX_REQUESTS { return Err(TooManyRequests); }
      var req := ParseLine(scan.line);
      if req.Err? { return Err(req.error); }
      reqs, s := reqs + [req.value], scan.rest;
    }
  }

  /** The whole configuration. */
  function Parse(s: string): Parsed<(bool, seq<Request>)> {
    var a := ReadAccept(s);
    if a.Err? then Err(a.error) else
    var r := ReadRequests(a.value.1);
    if r.Err? then Err(r.error) else Ok((a.value.0, r.value))
  }

  // ----- what survives -----

  predicate AllPrintable(s: string) {
    forall i | 0 <= i < |s| :: Printable(s[i])
  }

  /** What the reader can produce at all. */
  predicate Clean(r: Request) {
    (r.kind == "L" || r.kind == "R") && AllPrintable(r.listen) && ' ' !in r.listen && AllPrintable(r.target)
  }

  predicate Sendable(r: Request) {
    Clean(r) && |Line(r)| < SCANNER_MAX
  }

  lemma {:induction false} FilterKeeps(s: string)
    ensures AllPrintable(Filter(s)) && (' ' !in s ==> ' ' !in Filter(s))
  {
    if s == "" {
    } else {
      FilterKeeps(s[..|s| - 1]);
      assert s[|s| - 1] in s;
    }
  }

  lemma {:induction false} FilterSame(s: string)
    requires AllPrintable(s)
    ensures Filter(s) == s
  {
    if s == "" {
    } else {
      FilterSame(s[..|s| - 1]);
      assert s == s[..|s| - 1] + [s[|s| - 1]];
    }
  }

  lemma ParsedIsClean(line: string)
    ensures ParseLine(line).Ok? ==> Clean(ParseLine(line).value)
  {
    var first := Cut(line);
    if first.Some? && Cut(first.value.1).Some? {
      CutMeaning(first.value.1);
      FilterKeeps(Cut(first.value.1).value.0);
      FilterKeeps(Cut(first.value.1).value.1);
    }
  }

  predicate CleanList(r: Parsed<seq<Request>>, before: nat) {
    r.Ok? ==> before + |r.value| <= MAX_REQUESTS && forall i | 0 <= i < |r.value| :: Clean(r.value[i])
  }

  lemma ConsClean(r: Request, more: Parsed<seq<Request>>, before: nat)
    requires Clean(r) && CleanList(more, before + 1)
    ensures CleanList(Cons(r, more), before)
  {
  }

  /** The result of reading one scanned line, given the result of reading on. */
  function StepResult(scan: Scan, before: nat, more: Parsed<seq<Request>>): Parsed<seq<Request>> {
    match scan
    case TooLong => Err(LineTooLong)
    case Eof => Ok([])
    case Token(line, rest) =>
      if line == "END" then Ok([])
      else if before >= MAX_REQUESTS then Err(TooManyRequests)
      else if ParseLine(line).Err? then Err(ParseLine(line).error)
      else Cons(ParseLine(line).value, more)
  }

  lemma StepClean(scan: Scan, before: nat, more: Parsed<seq<Request>>)
    requires before <= MAX_REQUESTS && CleanList(more, before + 1)
    ensures CleanList(StepResult(scan, before, more), before)
  {
    if scan.Token? && ParseLine(scan.line).Ok? {
      ParsedIsClean(scan.line);
      ConsClean(ParseLine(scan.line).value, more, before);
    }
  }

  lemma ReadIsStep(s: string, before: nat)
    ensures var scan := ScanLine(s);
      ReadFrom(s, before) ==
        StepResult(scan, before, if scan.Token? then ReadFrom(scan.rest, before + 1) else Err(UnexpectedEof))
  {
  }

  /** Whatever the peer writes, what is read is clean, and within the limit. */
  lemma {:induction false} ReadIsClean(s: string, before: nat)
    requires before <= MAX_REQUESTS
    ensures CleanList(ReadFrom(s, before), before)
    decreases |s|
  {
    var scan := ScanLine(s);
    ReadIsStep(s, before);
    if scan.Token? && before < MAX_REQUESTS {
      ReadIsClean(scan.rest, before + 1);
      StepClean(scan, before, ReadFrom(scan.rest, before + 1));
    } else {
      StepClean(scan, before, Err(UnexpectedEof));
    }
  }

  lemma ParseOwnLine(r: Request)
    requires Clean(r)
    ensures ParseLine(Line(r)) == Ok(r)
  {
    assert Line(r) == r.kind + " " + (r.listen + " " + r.target);
    assert ' ' !in r.kind;
    CutAt(r.kind, r.listen + " " + r.target);
    CutAt(r.listen, r.target);
    FilterSame(r.listen);
    FilterSame(r.target);
  }

  lemma {:induction false} LineLengthAt(a: string, b: string)
    requires '\n' !in a
    ensures LineLength(a + "\n" + b) == |a|
  {
    var s := a + "\n" + b;
    if a != "" {
      assert s[1..] == a[1..] + "\n" + b;
      LineLengthAt(a[1..], b);
    }
  }

  lemma ScanOwnLine(line: string, rest: string)
    requires AllPrintable(line)
    ensures ScanLine(line + "\n" + rest) == if |line| < SCANNER_MAX then Token(line, rest) else TooLong
  {
    var s := line + "\n" + rest;
    LineLengthAt(line, rest);
    assert s[..|line|] == line && s[|line| + 1..] == rest;
  }

  lemma Slices<T>(s: seq<T>, n: nat)
    requires 0 < n == |s| - 1
    ensures s[..n][1..] == s[1..][..n - 1] && s[1..][n - 1] == s[n] && s[..n][0] == s[0]
  {
  }

  lemma {:induction false} RenderHead(reqs: seq<Request>)
    requires reqs != []
    ensures RenderRequests(reqs) == Line(reqs[0]) + "\n" + RenderRequests(reqs[1..])
  {
    var n := |reqs| - 1;
    if n == 0 {
      RenderLast(reqs);
    } else {
      Slices(reqs, n);
      RenderLast(reqs);
      RenderHead(reqs[..n]);
      RenderLast(reqs[1..]);
      Assoc(Line(reqs[0]) + "\n", RenderRequests(reqs[..n][1..]), Line(reqs[n]) + "\n");
    }
  }

  lemma Assoc(a: string, b: string, c: string)
    ensures (a + b) + c == a + (b + c)
  {
  }

  lemma RenderLast(reqs: seq<Request>)
    requires reqs != []
    ensures var n := |reqs| - 1; RenderRequests(reqs) == RenderRequests(reqs[..n]) + (Line(reqs[n]) + "\n")
  {
    var n := |reqs| - 1;
    assert RenderRequests(reqs[..n]) + Line(reqs[n]) + "\n" == RenderRequests(reqs[..n]) + (Line(reqs[n]) + "\n");
  }

  /** What reading a printed list of clean requests gives. */
  function Expected(reqs: seq<Request>, before: nat): Parsed<seq<Request>> {
    if reqs == [] then Ok([])
    else if |Line(reqs[0])| >= SCANNER_MAX then Err(LineTooLong)
    else if before >= MAX_REQUESTS then Err(TooManyRequests)
    else Cons(reqs[0], Expected(reqs[1..], before + 1))
  }

  lemma CleanLine(r: Request)
    requires Clean(r)
    ensures AllPrintable(Line(r)) && Line(r) != "END"
  {
    assert Line(r)[1] == ' ';
  }

  lemma ReadOne(r: Request, rest: string, before: nat)
    requires Clean(r)
    ensures ReadFrom(Line(r) + "\n" + rest, before) ==
            if |Line(r)| >= SCANNER_MAX then Err(LineTooLong)
            else if before >= MAX_REQUESTS then Err(TooManyRequests)
            else Cons(r, ReadFrom(rest, before + 1))
  {
    var s := Line(r) + "\n" + rest;
    CleanLine(r);
    ScanOwnLine(Line(r), rest);
    ReadStep(s, before, ScanLine(s));
    ParseOwnLine(r);
  }

  lemma ReadEnd(before: nat)
    ensures ReadFrom("END\n", before) == Ok([])
  {
    assert "END\n" == "END" + "\n" + "";
    ScanOwnLine("END", "");
    ReadStep("END\n", before, ScanLine("END\n"));
  }

  lemma {:induction false} ReadRendered(reqs: seq<Request>, before: nat)
    requires forall i | 0 <= i < |reqs| :: Clean(reqs[i])
    ensures ReadFrom(RenderRequests(reqs) + "END\n", before) == Expected(reqs, before)
  {
    if reqs == [] {
      ReadEnd(before);
      assert "" + "END\n" == "END\n";
    } else {
      RenderHead(reqs);
      var line, more := Line(reqs[0]) + "\n", RenderRequests(reqs[1..]);
      assert line + more + "END\n" == line + (more + "END\n");
      ReadOne(reqs[0], more + "END\n", before);
      ReadRendered(reqs[1..], before + 1);
    }
  }

  ghost predicate AllShort(reqs: seq<Request>) {
    forall i | 0 <= i < |reqs| :: |Line(reqs[i])| < SCANNER_MAX
  }

  lemma {:induction false} ExpectedExact(reqs: seq<Request>, before: nat)
    ensures Expected(reqs, before).Ok? <==> AllShort(reqs) && (reqs == [] || before + |reqs| <= MAX_REQUESTS)
    ensures Expected(reqs, before).Ok? ==> Expected(reqs, before).value == reqs
  {
    if reqs == [] {
    } else {
      ExpectedExact(reqs[1..], before + 1);
      assert reqs == [reqs[0]] + reqs[1..];
      ShortCons(reqs);
    }
  }

  lemma ShortCons(reqs: seq<Request>)
    requires reqs != []
    ensures AllShort(reqs) <==> |Line(reqs[0])| < SCANNER_MAX && AllShort(reqs[1..])
  {
    assert forall i | 0 < i < |reqs| :: reqs[i] == reqs[1..][i - 1];
    assert forall i | 0 <= i < |reqs[1..]| :: reqs[1..][i] == reqs[i + 1];
  }

  lemma ReadAcceptLine(accept: bool, rest: string)
    ensures ReadAccept((if accept then "ACCEPT true\n" else "ACCEPT false\n") + rest) == Ok((accept, rest))
  {
    var line := if accept then "ACCEPT true" else "ACCEPT false";
    assert (if accept then "ACCEPT true\n" else "ACCEPT false\n") == line + "\n";
    ScanOwnLine(line, rest);
    assert line[7] == if accept then 't' else 'f';
  }

  /** Reading undoes writing exactly for up to 100 sendable requests. */
  lemma ConfigRoundTrip(accept: bool, reqs: seq<Request>)
    ensures Parse(Render(accept, reqs)) == Ok((accept, reqs)) <==>
            |reqs| <= MAX_REQUESTS && forall i | 0 <= i < |reqs| :: Sendable(reqs[i])
  {
    var first := if accept then "ACCEPT true\n" else "ACCEPT false\n";
    var body := RenderRequests(reqs) + "END\n";
    assert Render(accept, reqs) == first + body;
    ReadAcceptLine(accept, body);
    ReadIsClean(body, 0);
    if forall i | 0 <= i < |reqs| :: Clean(reqs[i]) {
      ReadRendered(reqs, 0);
      ExpectedExact(reqs, 0);
    }
  }
}
