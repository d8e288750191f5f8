/** Splitting a command line into arguments, with single and double quotes. */
module SplitCommand {
  import opened Text

  /** Where the scan is: inside no quotes, single quotes or double quotes. */
  datatype Quote = Plain | Single | Double

  predicate Blank(c: char) {
    c == ' ' || c == '\t'
  }

  /** One character of an argument or between arguments: where the scan is then. */
  function Step(q: Quote, c: char): Quote {
    match q
    case Single => if c == '\'' then Plain else Single
    case Double => if c == '"' then Plain else Double
    case Plain => if c == '\'' then Single else if c == '"' then Double else Plain
  }

  /** Where a scan ends. */
  function EndsIn(s: string, q: Quote): Quote {
    if s == "" then q else EndsIn(s[1..], Step(q, s[0]))
  }

  /** The arguments; `cur` is the argument so far, None between arguments. */
  function ArgsFrom(s: string, q: Quote, cur: Option<string>): seq<string>
    requires q != Plain ==> cur.Some?
  {
    if s == "" then if cur.None? then [] else [cur.value]
    else
      var c, rest, sofar := s[0], s[1..], if cur.None? then "" else cur.value;
      if q != Plain then ArgsFrom(rest, Step(q, c), Some(if Step(q, c) == Plain then sofar else sofar + [c]))
      else if c == '\'' || c == '"' then ArgsFrom(rest, Step(q, c), Some(sofar))
      else if Blank(c) then (if cur.None? then [] else [cur.value]) + ArgsFrom(rest, Plain, None)
      else ArgsFrom(rest, Plain, Some(sofar + [c]))
  }

  /** None (a nil slice) is also what an empty list of arguments is. */
  function Split(s: string): seq<string> {
    if EndsIn(s, Plain) != Plain then [] else ArgsFrom(s, Plain, None)
  }

  function Quoted(inSingle: bool, inDouble: bool): Quote {
    if inSingle then Single else if inDouble then Double else Plain
  }

  function Current(started: bool, current: string): Option<string> {
    if started then Some(current) else None
  }

  /** The byte loop. */
  method SplitCommand(s: string) returns (args: seq<string>)
    ensures args == Split(s)
  {
    args := [];
    var current, started, inSingle, inDouble := "", false, false, false;
    assert s[0..] == s;
    for i := 0 to |s|
      invariant !(inSingle && inDouble) && (inSingle || inDouble ==> started) && (!started ==> current == "")
      invariant EndsIn(s, Plain) == EndsIn(s[i..], Quoted(inSingle, inDouble))
      invariant ArgsFrom(s, Plain, None) ==
        args + ArgsFrom(s[i..], Quoted(inSingle, inDouble), Current(started, current))
    {
      var c := s[i];
      assert s[i..][0] == c && s[i..][1..] == s[i + 1..];
      if inSingle {
        if c == '\'' { inSingle := false; } else { current := current + [c]; }
        continue;
      }
      if inDouble {
        if c == '"' { inDouble := false; } else { current := current + [c]; }
        continue;
      }
      if c == '\'' {
        inSingle, started := true, true;
        continue;
      }
      if c == '"' {
        inDouble, started := true, true;
        continue;
      }
      if Blank(c) {
        if started {
          assert args + ([current] + ArgsFrom(s[i + 1..], Plain, None)) ==
            args + [current] + ArgsFrom(s[i + 1..], Plain, None);
          args, current, started := args + [current], "", false;
        }
        continue;
      }
      current, started := current + [c], true;
    }
    assert s[|s|..] == "";
    if inSingle || inDouble {
      return [];
    } else if started {
      args := args + [current];
    }
  }

  // ----- quoting -----

  /** One argument in single quotes; a single quote inside goes into double quotes of its own. */
  function QuoteBody(a: string): string {
    if a == "" then "" else (if a[0] == '\'' then "'\"'\"'" else [a[0]]) + QuoteBody(a[1..])
  }

  function QuoteArg(a: string): string {
    "'" + QuoteBody(a) + "'"
  }

  function QuoteAll(args: seq<string>): string {
    if args == [] then "" else QuoteArg(args[0]) + " " + QuoteAll(args[1..])
  }

  lemma {:induction false} BodyScanned(a: string, rest: string, cur: string)
    ensures EndsIn(QuoteBody(a) + rest, Single) == EndsIn(rest, Single)
    ensures ArgsFrom(QuoteBody(a) + rest, Single, Some(cur)) == ArgsFrom(rest, Single, Some(cur + a))
  {
    if a == "" {
      assert QuoteBody(a) + rest == rest && cur + a == cur;
    } else {
      var more := QuoteBody(a[1..]) + rest;
      BodyScanned(a[1..], rest, cur + [a[0]]);
      assert cur + [a[0]] + a[1..] == cur + a;
      if a[0] == '\'' {
        QuoteScanned(more, cur);
        assert QuoteBody(a) + rest == "'\"'\"'" + more;
      } else {
        var s := QuoteBody(a) + rest;
        assert s == [a[0]] + more && s[1..] == more;
      }
    }
  }

  /** The five characters for an embedded quote. */
  lemma QuoteScanned(more: string, cur: string)
    ensures EndsIn("'\"'\"'" + more, Single) == EndsIn(more, Single)
    ensures ArgsFrom("'\"'\"'" + more, Single, Some(cur)) == ArgsFrom(more, Single, Some(cur + "'"))
  {
    var s0 := "'\"'\"'" + more;
    var s1, s2, s3, s4 := "\"'\"'" + more, "'\"'" + more, "\"'" + more, "'" + more;
    assert s0[1..] == s1 && s1[1..] == s2 && s2[1..] == s3 && s3[1..] == s4 && s4[1..] == more;
    assert ArgsFrom(s0, Single, Some(cur)) == ArgsFrom(s1, Plain, Some(cur));
    assert ArgsFrom(s1, Plain, Some(cur)) == ArgsFrom(s2, Double, Some(cur));
    assert ArgsFrom(s2, Double, Some(cur)) == ArgsFrom(s3, Double, Some(cur + ['\'']));
    assert ArgsFrom(s3, Double, Some(cur + ['\''])) == ArgsFrom(s4, Plain, Some(cur + ['\'']));
    assert ArgsFrom(s4, Plain, Some(cur + ['\''])) == ArgsFrom(more, Single, Some(cur + ['\'']));
    assert EndsIn(s0, Single) == EndsIn(s1, Plain) == EndsIn(s2, Double);
    assert EndsIn(s2, Double) == EndsIn(s3, Double) == EndsIn(s4, Plain) == EndsIn(more, Single);
  }

  lemma ArgScanned(a: string, rest: string)
    ensures EndsIn(QuoteArg(a) + " " + rest, Plain) == EndsIn(rest, Plain)
    ensures ArgsFrom(QuoteArg(a) + " " + rest, Plain, None) == [a] + ArgsFrom(rest, Plain, None)
  {
    var s, tail := QuoteArg(a) + " " + rest, "'" + " " + rest;
    assert s[1..] == QuoteBody(a) + tail;
    BodyScanned(a, tail, "");
    assert "" + a == a;
    assert tail[1..] == " " + rest && (" " + rest)[1..] == rest;
    assert ArgsFrom(tail, Single, Some(a)) == ArgsFrom(" " + rest, Plain, Some(a));
    assert EndsIn(tail, Single) == EndsIn(" " + rest, Plain) == EndsIn(rest, Plain);
  }

  /** Every list of arguments can be written down so that it is split into exactly that list. */
  lemma {:induction false} QuoteRoundTrip(args: seq<string>)
    ensures EndsIn(QuoteAll(args), Plain) == Plain && Split(QuoteAll(args)) == args
  {
    if args == [] {
    } else {
      QuoteRoundTrip(args[1..]);
      ArgScanned(args[0], QuoteAll(args[1..]));
      assert [args[0]] + args[1..] == args;
    }
  }

  // ----- rejection -----

  /** Something other than blanks. */
  predicate HasArgument(s: string) {
    exists i | 0 <= i < |s| :: !Blank(s[i])
  }

  lemma {:induction false} ArgsNonEmpty(s: string, q: Quote, cur: Option<string>)
    requires q != Plain ==> cur.Some?
    ensures ArgsFrom(s, q, cur) != [] <==> cur.Some? || HasArgument(s)
  {
    if s != "" {
      var c, rest, sofar := s[0], s[1..], if cur.None? then "" else cur.value;
      assert HasArgument(s) <==> !Blank(c) || HasArgument(rest) by {
        assert forall i | 1 <= i < |s| :: s[i] == rest[i - 1];
        assert forall i | 0 <= i < |rest| :: rest[i] == s[i + 1];
      }
      if q != Plain { ArgsNonEmpty(rest, Step(q, c), Some(if Step(q, c) == Plain then sofar else sofar + [c])); }
      else if c == '\'' || c == '"' { ArgsNonEmpty(rest, Step(q, c), Some(sofar)); }
      else if Blank(c) { ArgsNonEmpty(rest, Plain, None); }
      else { ArgsNonEmpty(rest, Plain, Some(sofar + [c])); }
    }
  }

  /** Nothing comes out exactly when the scan ends inside a quote or there are only blanks. */
  lemma RejectedExactly(s: string)
    ensures Split(s) == [] <==> EndsIn(s, Plain) != Plain || !HasArgument(s)
  {
    ArgsNonEmpty(s, Plain, None);
  }
}
