/**
 Quoting of a Windows command line (cli/src/device_service.rs), checked against
 the rules of Microsoft's "Parsing C command-line arguments" for the arguments
 that follow the program name.
 */
module WindowsQuoting {

  const QUOTE := '\"'
  const BACKSLASH := '\\'

  predicate IsBlank(c: char) {
    c == ' ' || c == '\t'
  }

  function Backslashes(n: nat): (r: string)
    ensures |r| == n
    ensures forall i :: 0 <= i < n ==> r[i] == BACKSLASH
  {
    seq(n, i => BACKSLASH)
  }

  // ---------------------------------------------------------------- printer

  predicate NeedsQuotes(arg: string) {
    arg == "" || exists i :: 0 <= i < |arg| && (IsBlank(arg[i]) || arg[i] == QUOTE)
  }

  /** What the quoting loop still has to emit when `pending` backslashes are held back. */
  function QuotedBody(rest: string, pending: nat): string {
    if rest == "" then
      Backslashes(2 * pending)
    else if rest[0] == BACKSLASH then
      QuotedBody(rest[1..], pending + 1)
    else if rest[0] == QUOTE then
      Backslashes(2 * pending + 1) + [QUOTE] + QuotedBody(rest[1..], 0)
    else
      Backslashes(pending) + [rest[0]] + QuotedBody(rest[1..], 0)
  }

  function Quoted(arg: string): string {
    if NeedsQuotes(arg) then [QUOTE] + QuotedBody(arg, 0) + [QUOTE] else arg
  }

  function CommandLine(args: seq<string>): string {
    if args == [] then ""
    else if |args| == 1 then Quoted(args[0])
    else Quoted(args[0]) + " " + CommandLine(args[1..])
  }

  /** The backslash-counting loop, in the form the source gives it. */
  method QuoteArgument(arg: string) returns (r: string)
    ensures r == Quoted(arg)
  {
    if NeedsQuotes(arg) {
      var quoted := [QUOTE];
      var backslashes := 0;
      for i := 0 to |arg|
        invariant quoted + QuotedBody(arg[i..], backslashes) == [QUOTE] + QuotedBody(arg, 0)
      {
        var ch := arg[i];
        ghost var before := quoted + QuotedBody(arg[i..], backslashes);
        assert arg[i..][1..] == arg[i + 1..];
        if ch == BACKSLASH {
          backslashes := backslashes + 1;
        } else if ch == QUOTE {
          quoted := quoted + Backslashes(backslashes * 2 + 1);
          quoted := quoted + [QUOTE];
          backslashes := 0;
        } else {
          if backslashes > 0 {
            quoted := quoted + Backslashes(backslashes);
            backslashes := 0;
          }
          quoted := quoted + [ch];
        }
        assert quoted + QuotedBody(arg[i + 1..], backslashes) == before;
      }
      assert arg[|arg|..] == "";
      if backslashes > 0 {
        quoted := quoted + Backslashes(backslashes * 2);
      }
      quoted := quoted + [QUOTE];
      return quoted;
    }
    return arg;
  }

  // ----------------------------------------------------------------- parser

  /** One argument as the C runtime reads it, and what follows it. */
  datatype Scan = Scan(arg: string, rest: string)

  function Prefixed(p: string, s: Scan): Scan {
    Scan(p + s.arg, s.rest)
  }

  /** Reads the remainder of an argument; `slashes` backslashes were just read. */
  function ScanArgument(s: string, inQuotes: bool, slashes: nat): (r: Scan)
    ensures |r.rest| <= |s|
    ensures s != "" && (inQuotes || !IsBlank(s[0])) ==> |r.rest| < |s|
    decreases |s|
  {
    if s == "" then
      Scan(Backslashes(slashes), "")
    else if s[0] == BACKSLASH then
      ScanArgument(s[1..], inQuotes, slashes + 1)
    else if s[0] == QUOTE && slashes % 2 == 1 then
      // odd run: half of it is literal and the quote is escaped
      Prefixed(Backslashes(slashes / 2) + [QUOTE], ScanArgument(s[1..], inQuotes, 0))
    else if s[0] == QUOTE && inQuotes && |s| > 1 && s[1] == QUOTE then
      // a doubled quote inside a quoted string is one literal quote
      Prefixed(Backslashes(slashes / 2) + [QUOTE], ScanArgument(s[2..], inQuotes, 0))
    else if s[0] == QUOTE then
      Prefixed(Backslashes(slashes / 2), ScanArgument(s[1..], !inQuotes, 0))
    else if IsBlank(s[0]) && !inQuotes then
      Scan(Backslashes(slashes), s)
    else
      Prefixed(Backslashes(slashes) + [s[0]], ScanArgument(s[1..], inQuotes, 0))
  }

  function ParseCommandLine(s: string): seq<string>
    decreases |s|
  {
    if s == "" then []
    else if IsBlank(s[0]) then ParseCommandLine(s[1..])
    else
      var scan := ScanArgument(s, false, 0);
      [scan.arg] + ParseCommandLine(scan.rest)
  }

  // ------------------------------------------------------------- round trip

  /** What may follow an argument on a command line. */
  predicate Separated(tail: string) {
    tail == "" || tail[0] == ' '
  }

  lemma {:induction false} ScanBackslashRun(n: nat, tail: string, inQuotes: bool, slashes: nat)
    ensures ScanArgument(Backslashes(n) + tail, inQuotes, slashes)
         == ScanArgument(tail, inQuotes, slashes + n)
  {
    var s := Backslashes(n) + tail;
    if n == 0 {
      assert s == tail;
    } else {
      assert s[1..] == Backslashes(n - 1) + tail;
      ScanBackslashRun(n - 1, tail, inQuotes, slashes + 1);
    }
  }

  /** How many backslashes the loop emits for a run of `pending` of them before `c`. */
  function Emitted(c: char, pending: nat): nat {
    if c == QUOTE then 2 * pending + 1 else pending
  }

  lemma QuotedBodyStep(rest: string, pending: nat, tail: string)
    requires rest != "" && rest[0] != BACKSLASH
    ensures QuotedBody(rest, pending) + [QUOTE] + tail
         == Backslashes(Emitted(rest[0], pending)) + [rest[0]] + (QuotedBody(rest[1..], 0) + [QUOTE] + tail)
  {
  }

  /** A held-back run and the character that ends it scan back to what the loop read. */
  lemma ScanFlushedRun(c: char, pending: nat, next: string)
    requires c != BACKSLASH
    ensures ScanArgument(Backslashes(Emitted(c, pending)) + [c] + next, true, 0)
         == Prefixed(Backslashes(pending) + [c], ScanArgument(next, true, 0))
  {
    var n := Emitted(c, pending);
    var t := [c] + next;
    assert Backslashes(n) + [c] + next == Backslashes(n) + t;
    ScanBackslashRun(n, t, true, 0);
    assert t[1..] == next;
  }

  /** The doubled run before the closing quote scans back to the run itself. */
  lemma ScanClosing(pending: nat, tail: string)
    requires Separated(tail)
    ensures ScanArgument(Backslashes(2 * pending) + [QUOTE] + tail, true, 0)
         == Scan(Backslashes(pending), tail)
  {
    var t := [QUOTE] + tail;
    assert Backslashes(2 * pending) + [QUOTE] + tail == Backslashes(2 * pending) + t;
    ScanBackslashRun(2 * pending, t, true, 0);
    assert t[1..] == tail;
    assert ScanArgument(tail, false, 0) == Scan("", tail);
    assert Backslashes(pending) + "" == Backslashes(pending);
  }

  lemma HeldBack(rest: string, pending: nat)
    requires rest != ""
    ensures rest[0] == BACKSLASH ==>
              Backslashes(pending + 1) + rest[1..] == Backslashes(pending) + rest
    ensures Backslashes(pending) + [rest[0]] + (Backslashes(0) + rest[1..]) == Backslashes(pending) + rest
  {
  }

  /** From inside the quotes, the printed body scans back to the text it was printed from. */
  lemma {:induction false} ScanQuotedBody(rest: string, pending: nat, tail: string)
    requires Separated(tail)
    ensures ScanArgument(QuotedBody(rest, pending) + [QUOTE] + tail, true, 0)
         == Scan(Backslashes(pending) + rest, tail)
    decreases |rest|
  {
    if rest == "" {
      ScanClosing(pending, tail);
      assert Backslashes(pending) + rest == Backslashes(pending);
    } else if rest[0] == BACKSLASH {
      ScanQuotedBody(rest[1..], pending + 1, tail);
      HeldBack(rest, pending);
    } else {
      var c, body := rest[0], QuotedBody(rest[1..], 0);
      ScanQuotedBody(rest[1..], 0, tail);
      ScanFlushedRun(c, pending, body + [QUOTE] + tail);
      HeldBack(rest, pending);
      QuotedBodyStep(rest, pending, tail);
    }
  }

  /** Without blanks and quotes every backslash is literal. */
  lemma {:induction false} ScanPlain(arg: string, slashes: nat, tail: string)
    requires Separated(tail)
    requires forall i :: 0 <= i < |arg| ==> !IsBlank(arg[i]) && arg[i] != QUOTE
    ensures ScanArgument(arg + tail, false, slashes) == Scan(Backslashes(slashes) + arg, tail)
    decreases |arg|
  {
    var s := arg + tail;
    if arg == "" {
      assert s == tail;
    } else {
      assert s[1..] == arg[1..] + tail;
      if arg[0] == BACKSLASH {
        ScanPlain(arg[1..], slashes + 1, tail);
        assert Backslashes(slashes + 1) + arg[1..] == Backslashes(slashes) + arg;
      } else {
        ScanPlain(arg[1..], 0, tail);
        assert Backslashes(slashes) + [arg[0]] + (Backslashes(0) + arg[1..]) == Backslashes(slashes) + arg;
      }
    }
  }

  lemma ScanOpening(inside: string)
    ensures ScanArgument([QUOTE] + inside, false, 0) == ScanArgument(inside, true, 0)
  {
    assert ([QUOTE] + inside)[1..] == inside;
    assert Backslashes(0) + ScanArgument(inside, true, 0).arg == ScanArgument(inside, true, 0).arg;
  }

  lemma ScanQuoted(arg: string, tail: string)
    requires Separated(tail)
    ensures Quoted(arg) != "" && !IsBlank(Quoted(arg)[0])
    ensures ScanArgument(Quoted(arg) + tail, false, 0) == Scan(arg, tail)
  {
    hide ScanArgument, QuotedBody;
    assert Backslashes(0) + arg == arg;
    if NeedsQuotes(arg) {
      var inside := QuotedBody(arg, 0) + [QUOTE] + tail;
      assert Quoted(arg) + tail == [QUOTE] + inside;
      ScanOpening(inside);
      ScanQuotedBody(arg, 0, tail);
    } else {
      ScanPlain(arg, 0, tail);
    }
  }

  /** Whatever the arguments are, the C runtime reads back exactly those arguments. */
  lemma {:induction false} CommandLineRoundTrip(args: seq<string>)
    ensures ParseCommandLine(CommandLine(args)) == args
  {
    if args != [] {
      var tail := if |args| == 1 then "" else " " + CommandLine(args[1..]);
      var line := CommandLine(args);
      assert line == Quoted(args[0]) + tail;
      ScanQuoted(args[0], tail);
      assert line[0] == Quoted(args[0])[0];
      CommandLineRoundTrip(args[1..]);
      if |args| > 1 {
        assert tail[1..] == CommandLine(args[1..]);
      }
      assert ParseCommandLine(tail) == args[1..];
    }
  }

  /** Two different argument lists never share a command line. */
  lemma CommandLineInjective(a: seq<string>, b: seq<string>)
    requires CommandLine(a) == CommandLine(b)
    ensures a == b
  {
    CommandLineRoundTrip(a);
    CommandLineRoundTrip(b);
  }

  /** An argument is printed as it is exactly when it is not empty and has neither a blank nor a
      quote; any other is put between quotes. */
  lemma PlainExactly(arg: string)
    ensures Quoted(arg) == arg <==> arg != "" && forall i :: 0 <= i < |arg| ==> arg[i] !in {' ', '\t', '\"'}
    ensures Quoted(arg) != arg ==>
              |Quoted(arg)| >= 2 && Quoted(arg)[0] == QUOTE && Quoted(arg)[|Quoted(arg)| - 1] == QUOTE
  {
    BodyIsLonger(arg, 0);
  }

  lemma {:induction false} BodyIsLonger(rest: string, pending: nat)
    ensures |QuotedBody(rest, pending)| >= |rest| + pending
    decreases |rest|
  {
    if rest != "" {
      BodyIsLonger(rest[1..], if rest[0] == BACKSLASH then pending + 1 else 0);
    }
  }

  predicate Quoteless(s: string) {
    forall i :: 0 <= i < |s| ==> s[i] != QUOTE
  }

  /** Backslashes are doubled only before a quote or at the end: a text without quotes and not
      ending in a backslash is put between quotes unchanged. */
  lemma {:induction false} InnerBackslashesStay(rest: string, pending: nat)
    requires Quoteless(rest) && rest != "" && rest[|rest| - 1] != BACKSLASH
    ensures QuotedBody(rest, pending) == Backslashes(pending) + rest
    decreases |rest|
  {
    HeldBack(rest, pending);
    if |rest| > 1 {
      assert rest[1..][|rest[1..]| - 1] == rest[|rest| - 1];
      InnerBackslashesStay(rest[1..], if rest[0] == BACKSLASH then pending + 1 else 0);
    } else {
      assert rest[1..] == "";
      assert QuotedBody("", 0) == Backslashes(0) == "";
    }
  }

  /** Quoted arguments are joined by one space each. */
  lemma {:induction false} CommandLineJoins(a: seq<string>, b: seq<string>)
    requires a != [] && b != []
    ensures CommandLine(a + b) == CommandLine(a) + " " + CommandLine(b)
    ensures |a| == 1 ==> CommandLine(a) == Quoted(a[0])
  {
    if |a| == 1 {
      assert (a + b)[1..] == b;
    } else {
      assert (a + b)[1..] == a[1..] + b;
      CommandLineJoins(a[1..], b);
      assert CommandLine(a + b) == Quoted(a[0]) + " " + (CommandLine(a[1..]) + " " + CommandLine(b));
    }
  }
}
