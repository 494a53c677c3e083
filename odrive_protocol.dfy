/** The ASCII line protocol spoken to the ODrive motor controller
    (src/subsystem_classes/actuator_class.cpp): the command lines the actuator
    writes, how a reply line is read off the incoming stream, and the
    specifications of the idle poll of `run_state` and of `dump_errors`. */
module OdriveProtocol {
  import opened Text

  /** Axis states the actuator requests (the TODO at actuator_class.cpp:67 names them). */
  const AxisIdle := 1
  const VelocityControl := 8

  /** What the serial port yields to a reader: one received character, or
      the read's 1000 ms deadline, counted from the start of the read,
      passing before the next character arrives. */
  datatype RxEvent = Char(c: char) | Timeout

  /** One entry of the record of what crossed the link: a command line
      written, or a reply line handed to the caller by `read_string`. */
  datatype Traffic = Sent(text: string) | Received(line: string)

  datatype LineRead = LineRead(line: string, rest: seq<RxEvent>)

  // ---------------------------------------------------------------- commands

  /** `w axis<axis>.requested_state <state>\n` */
  function RequestStateLine(axis: int, state: int): string {
    "w axis" + IntToString(axis) + ".requested_state " + IntToString(state) + "\n"
  }

  /** `r axis<axis>.current_state\n` */
  function CurrentStateQuery(axis: int): string {
    "r axis" + IntToString(axis) + ".current_state\n"
  }

  /** `v <motor> <velocity> 0.0f\n`; `velocity` is the text the float prints as,
      and the feed-forward field is the literal text "0.0f". */
  function VelocityLine(motor: int, velocity: string): string {
    "v " + IntToString(motor) + " " + velocity + " " + "0.0f" + "\n"
  }

  const SystemErrorQuery := "r error\n"

  /** The five per-axis error registers `dump_errors` reads, in its order,
      and the label it prints before each. */
  const ErrorFieldPaths: seq<string> :=
    [".error", ".motor.error", ".sensorless_estimator.error", ".encoder.error", ".controller.error"]
  const ErrorFieldLabels: seq<string> :=
    ["axis", "motor", "sensorless_estimator", "encoder", "controller"]

  function AxisErrorQuery(axis: int, field: nat): string
    requires field < 5
  {
    "r axis" + IntToString(axis) + ErrorFieldPaths[field] + "\n"
  }

  function AxisErrorQueries(axis: int): seq<string> {
    [AxisErrorQuery(axis, 0), AxisErrorQuery(axis, 1), AxisErrorQuery(axis, 2),
     AxisErrorQuery(axis, 3), AxisErrorQuery(axis, 4)]
  }

  /** Every query `dump_errors` sends, in order. */
  function ErrorQueries(): seq<string> {
    [SystemErrorQuery] + AxisErrorQueries(0) + AxisErrorQueries(1)
  }

  /** A line of the protocol: ends in '\n' and holds no other '\n'. */
  predicate IsCommandLine(s: string) {
    |s| >= 1 && s[|s| - 1] == '\n' && '\n' !in s[..|s| - 1]
  }

  lemma IntToStringExcludes(i: int, c: char)
    requires c != '-' && !IsDigit(c)
    ensures c !in IntToString(i)
  {
  }

  lemma TerminatedLine(body: string)
    requires '\n' !in body
    ensures IsCommandLine(body + "\n")
  {
    var s := body + "\n";
    assert s[..|s| - 1] == body;
  }

  /** Every command the actuator writes is exactly one protocol line. */
  lemma RequestStateIsOneLine(axis: int, state: int)
    ensures IsCommandLine(RequestStateLine(axis, state))
  {
    IntToStringExcludes(axis, '\n');
    IntToStringExcludes(state, '\n');
    var body := "w axis" + IntToString(axis) + ".requested_state " + IntToString(state);
    assert '\n' !in ".requested_state ";
    TerminatedLine(body);
  }

  lemma StateQueryIsOneLine(axis: int)
    ensures IsCommandLine(CurrentStateQuery(axis))
  {
    IntToStringExcludes(axis, '\n');
    var body := "r axis" + IntToString(axis) + ".current_state";
    assert CurrentStateQuery(axis) == body + "\n";
    TerminatedLine(body);
  }

  lemma VelocityIsOneLine(motor: int, velocity: string)
    requires '\n' !in velocity
    ensures IsCommandLine(VelocityLine(motor, velocity))
  {
    IntToStringExcludes(motor, '\n');
    TerminatedLine("v " + IntToString(motor) + " " + velocity + " " + "0.0f");
  }

  lemma ErrorPathsHaveNoNewline()
    ensures forall k :: 0 <= k < 5 ==> '\n' !in ErrorFieldPaths[k]
  {
  }

  lemma ErrorQueryIsOneLine(axis: int, k: nat)
    requires k < 5
    ensures IsCommandLine(AxisErrorQuery(axis, k))
  {
    IntToStringExcludes(axis, '\n');
    ErrorPathsHaveNoNewline();
    var body := "r axis" + IntToString(axis) + ErrorFieldPaths[k];
    assert '\n' !in body;
    TerminatedLine(body);
  }

  lemma ErrorQueriesAreOneLine(axis: int)
    ensures IsCommandLine(SystemErrorQuery)
    ensures forall k :: 0 <= k < 5 ==> IsCommandLine(AxisErrorQuery(axis, k))
  {
    TerminatedLine("r error");
    forall k | 0 <= k < 5
      ensures IsCommandLine(AxisErrorQuery(axis, k))
    {
      ErrorQueryIsOneLine(axis, k);
    }
  }

  /** The label printed before each register names that register: the axis's
      own `.error`, and `.<label>.error` for the four sub-components. */
  lemma ErrorLabelsMatchQueries()
    ensures |ErrorFieldPaths| == |ErrorFieldLabels| == 5
    ensures ErrorFieldPaths[0] == ".error" && ErrorFieldLabels[0] == "axis"
    ensures forall k :: 1 <= k < 5 ==> ErrorFieldPaths[k] == "." + ErrorFieldLabels[k] + ".error"
  {
    forall k | 1 <= k < 5
      ensures ErrorFieldPaths[k] == "." + ErrorFieldLabels[k] + ".error"
    {
      if k == 1 {
        assert ErrorFieldPaths[k] == "." + "motor" + ".error";
      } else if k == 2 {
        assert ErrorFieldPaths[k] == "." + "sensorless_estimator" + ".error";
      } else if k == 3 {
        assert ErrorFieldPaths[k] == "." + "encoder" + ".error";
      } else {
        assert ErrorFieldPaths[k] == "." + "controller" + ".error";
      }
    }
  }

  // --------------------------------------------------- parsing a state request

  const RequestPrefix := "w axis"
  const RequestMiddle := ".requested_state "

  /** Reads the axis and the state back out of a `requested_state` command. */
  function ParseRequestStateLine(s: string): Option<(int, int)> {
    if |s| < |RequestPrefix| + 1 || s[..|RequestPrefix|] != RequestPrefix || s[|s| - 1] != '\n' then None
    else
      var body := s[|RequestPrefix|..|s| - 1];
      var dot := IndexOf(body, '.');
      var tail := body[dot..];
      if |tail| < |RequestMiddle| || tail[..|RequestMiddle|] != RequestMiddle then None
      else match (ParseInt(body[..dot]), ParseInt(tail[|RequestMiddle|..]))
        case (Some(a), Some(st)) => Some((a, st))
        case _ => None
  }

  /** The body of a state request splits at its first '.' into the axis text
      and the middle followed by the state text. */
  lemma RequestBodyParts(body: string, a: string, st: string)
    requires body == a + RequestMiddle + st && '.' !in a
    ensures IndexOf(body, '.') == |a| && body[..|a|] == a
    ensures body[|a|..] == RequestMiddle + st
  {
    var rest := RequestMiddle + st;
    assert rest[0] == '.' && body == a + rest;
    IndexOfAfterPrefix(body, a, rest, '.');
  }

  /** A line made of the prefix, an axis text without '.', the middle, a state
      text and '\n' parses to the values of the two texts. */
  lemma ParseRequestStateParts(s: string, a: string, st: string, axis: int, state: int)
    requires |s| >= |RequestPrefix| + 1 && s[..|RequestPrefix|] == RequestPrefix && s[|s| - 1] == '\n'
    requires s[|RequestPrefix|..|s| - 1] == a + RequestMiddle + st
    requires '.' !in a && ParseInt(a) == Some(axis) && ParseInt(st) == Some(state)
    ensures ParseRequestStateLine(s) == Some((axis, state))
  {
    RequestBodyParts(s[|RequestPrefix|..|s| - 1], a, st);
    AppendSlices(RequestMiddle, st);
  }

  /** The state request is decodable: it names exactly the axis and state it was built from. */
  lemma RequestStateLineRoundTrip(axis: int, state: int)
    ensures ParseRequestStateLine(RequestStateLine(axis, state)) == Some((axis, state))
  {
    var a := IntToString(axis);
    var st := IntToString(state);
    var s := RequestStateLine(axis, state);
    assert s == RequestPrefix + (a + RequestMiddle + st) + "\n";
    assert s[..|RequestPrefix|] == RequestPrefix;
    assert s[|RequestPrefix|..|s| - 1] == a + RequestMiddle + st;
    IntToStringExcludes(axis, '.');
    IntToStringRoundTrip(axis);
    IntToStringRoundTrip(state);
    ParseRequestStateParts(s, a, st, axis, state);
  }

  // ------------------------------------------------------------ reading a line

  /** `read_string`: the characters before the first '\n'; the '\n' is consumed
      and dropped. A timeout (or a stream that has run dry) ends the line early
      and the characters collected so far are returned. */
  function ReadLine(p: seq<RxEvent>): (r: LineRead)
    ensures '\n' !in r.line
    ensures |r.rest| <= |p|
    ensures p != [] ==> |r.rest| < |p|
    decreases |p|
  {
    if p == [] then LineRead("", [])
    else match p[0]
      case Timeout => LineRead("", p[1..])
      case Char(c) =>
        if c == '\n' then LineRead("", p[1..])
        else
          var r := ReadLine(p[1..]);
          LineRead([c] + r.line, r.rest)
  }

  /** The characters of `s` arriving one after another. */
  function Chars(s: string): (p: seq<RxEvent>)
    ensures |p| == |s|
  {
    if s == [] then [] else [Char(s[0])] + Chars(s[1..])
  }

  /** Characters free of '\n' are all collected, and reading carries on behind them. */
  lemma {:induction false} ReadLineThroughChars(s: string, tail: seq<RxEvent>)
    requires '\n' !in s
    ensures ReadLine(Chars(s) + tail) == LineRead(s + ReadLine(tail).line, ReadLine(tail).rest)
    decreases |s|
  {
    if s != [] {
      var p := Chars(s) + tail;
      assert p[0] == Char(s[0]) && s[0] != '\n';
      assert p[1..] == Chars(s[1..]) + tail;
      ReadLineThroughChars(s[1..], tail);
      var r := ReadLine(p[1..]);
      assert r.line == s[1..] + ReadLine(tail).line && r.rest == ReadLine(tail).rest;
      assert ReadLine(p) == LineRead([s[0]] + r.line, r.rest);
      assert [s[0]] + (s[1..] + ReadLine(tail).line) == s + ReadLine(tail).line;
    } else {
      assert Chars(s) + tail == tail;
      assert s + ReadLine(tail).line == ReadLine(tail).line;
    }
  }

  /** A line sent with its terminator is read back whole, and nothing behind it is touched. */
  lemma ReadLineFramed(line: string, rest: seq<RxEvent>)
    requires '\n' !in line
    ensures ReadLine(Chars(line) + [Char('\n')] + rest) == LineRead(line, rest)
  {
    var tail := [Char('\n')] + rest;
    ReadLineThroughChars(line, tail);
    assert tail[1..] == rest;
    assert ReadLine(tail) == LineRead("", rest);
    assert Chars(line) + [Char('\n')] + rest == Chars(line) + tail;
  }

  /** A timeout mid-line hands back the partial line; it is not discarded. */
  lemma ReadLineTimedOut(partial: string, rest: seq<RxEvent>)
    requires '\n' !in partial
    ensures ReadLine(Chars(partial) + [Timeout] + rest) == LineRead(partial, rest)
  {
    var tail := [Timeout] + rest;
    ReadLineThroughChars(partial, tail);
    assert tail[1..] == rest;
    assert ReadLine(tail) == LineRead("", rest);
    assert Chars(partial) + [Timeout] + rest == Chars(partial) + tail;
  }

  /** What a read consumes: the returned characters, then the '\n' or the timeout
      that ended them (nothing, when the stream ran dry). */
  lemma {:induction false} ReadLineConsumes(p: seq<RxEvent>)
    ensures var r := ReadLine(p);
      || p == Chars(r.line) + [Char('\n')] + r.rest
      || p == Chars(r.line) + [Timeout] + r.rest
      || (p == Chars(r.line) && r.rest == [])
    decreases |p|
  {
    if p != [] && p[0].Char? && p[0].c != '\n' {
      var r := ReadLine(p[1..]);
      ReadLineConsumes(p[1..]);
      var line := [p[0].c] + r.line;
      assert line[1..] == r.line;
      assert Chars(line) == [p[0]] + Chars(r.line);
    } else if p != [] {
      assert p == [] + [p[0]] + p[1..];
    }
  }

  // ------------------------------------------------------ successive replies

  /** The stream left after `n` successive line reads. */
  function Skip(p: seq<RxEvent>, n: nat): seq<RxEvent> {
    if n == 0 then p else ReadLine(Skip(p, n - 1)).rest
  }

  /** The reply line returned by the `j`-th read (from 0). */
  function Reply(p: seq<RxEvent>, j: nat): string {
    ReadLine(Skip(p, j)).line
  }

  /** The first `n` reply lines. */
  function Replies(p: seq<RxEvent>, n: nat): (rs: seq<string>)
    ensures |rs| == n
  {
    if n == 0 then [] else Replies(p, n - 1) + [Reply(p, n - 1)]
  }

  lemma {:induction false} RepliesAt(p: seq<RxEvent>, n: nat, j: nat)
    requires j < n
    ensures Replies(p, n)[j] == Reply(p, j)
    decreases n
  {
    if j < n - 1 {
      RepliesAt(p, n - 1, j);
    }
  }

  /** The first `n` of `queries` written one at a time, each followed by the
      read of its reply from the stream `p`. */
  function Exchanges(queries: seq<string>, p: seq<RxEvent>, n: nat): (t: seq<Traffic>)
    requires n <= |queries|
    ensures |t| == 2 * n
  {
    if n == 0 then [] else Exchanges(queries, p, n - 1) + [Sent(queries[n - 1]), Received(Reply(p, n - 1))]
  }

  /** `k` current-state queries of `axis`, each followed by the read of its reply. */
  function PollExchanges(axis: int, p: seq<RxEvent>, k: nat): (t: seq<Traffic>)
    ensures |t| == 2 * k
  {
    if k == 0 then [] else PollExchanges(axis, p, k - 1) + [Sent(CurrentStateQuery(axis)), Received(Reply(p, k - 1))]
  }

  // ------------------------------------------------ waiting for the idle state

  /** How many current-state polls the do-while of `run_state` makes when polls
      before the `j`-th saw no idle reply, for a counter start value `n`. */
  function PollsFrom(p: seq<RxEvent>, n: int, toInt: string -> int, j: nat): (k: nat)
    requires j < n
    ensures j < k <= n
    ensures forall i :: j <= i < k - 1 ==> toInt(Reply(p, i)) != 1
    ensures k < n ==> toInt(Reply(p, k - 1)) == 1
    decreases n - j
  {
    if toInt(Reply(p, j)) == 1 || j + 1 == n then j + 1 else PollsFrom(p, n, toInt, j + 1)
  }

  datatype IdleWait = IdleWait(polls: nat, reached: bool)

  /** The outcome of `run_state(.., wait_for_idle = true, ..)` with `timeout_ctr = n`
      against the reply stream `p`: the number of polls and the value returned. */
  function WaitForIdle(p: seq<RxEvent>, n: int, toInt: string -> int): (w: IdleWait)
    ensures 1 <= w.polls
  {
    if n <= 0 then IdleWait(1, false)
    else
      var k := PollsFrom(p, n, toInt, 0);
      IdleWait(k, toInt(Reply(p, k - 1)) == 1)
  }

  /** The state of the do-while of `run_state` after `j` polls that saw no
      idle reply, with the counter still positive: the remaining polls decide. */
  predicate PollingAt(p: seq<RxEvent>, n: int, toInt: string -> int, j: nat) {
    (j == 0 || j < n) && (0 < j ==> PollsFrom(p, n, toInt, 0) == PollsFrom(p, n, toInt, j))
  }

  lemma PollingStep(p: seq<RxEvent>, n: int, toInt: string -> int, j: nat)
    requires PollingAt(p, n, toInt, j)
    ensures toInt(Reply(p, j)) == 1 ==> WaitForIdle(p, n, toInt) == IdleWait(j + 1, n - j > 0)
    ensures toInt(Reply(p, j)) != 1 && n - j - 1 <= 0 ==> WaitForIdle(p, n, toInt) == IdleWait(j + 1, false)
    ensures toInt(Reply(p, j)) != 1 && n - j - 1 > 0 ==> PollingAt(p, n, toInt, j + 1)
  {
  }

  /** With a positive budget at most `n` polls are sent; otherwise exactly one,
      and the call reports failure even if that one reply was idle. */
  lemma WaitForIdleBounds(p: seq<RxEvent>, n: int, toInt: string -> int)
    ensures n >= 1 ==> 1 <= WaitForIdle(p, n, toInt).polls <= n
    ensures n <= 0 ==> WaitForIdle(p, n, toInt) == IdleWait(1, false)
  {
  }

  /** Polling stops at the first idle reply, and only a budget running out stops it otherwise. */
  lemma WaitForIdleStopsAtFirstIdle(p: seq<RxEvent>, n: int, toInt: string -> int)
    ensures var w := WaitForIdle(p, n, toInt);
      && (forall i :: 0 <= i < w.polls - 1 ==> toInt(Reply(p, i)) != 1)
      && (w.reached ==> toInt(Reply(p, w.polls - 1)) == 1)
      && (n >= 1 && !w.reached ==> w.polls == n)
  {
  }

  /** `run_state` reports success iff one of the first `n` replies reads as idle (1). */
  lemma WaitForIdleReachedIff(p: seq<RxEvent>, n: int, toInt: string -> int)
    ensures WaitForIdle(p, n, toInt).reached <==>
      n >= 1 && exists i :: 0 <= i < n && toInt(Reply(p, i)) == 1
  {
    var w := WaitForIdle(p, n, toInt);
    if n >= 1 && w.reached {
      assert toInt(Reply(p, w.polls - 1)) == 1;
    }
    if n >= 1 && exists i :: 0 <= i < n && toInt(Reply(p, i)) == 1 {
      var i :| 0 <= i < n && toInt(Reply(p, i)) == 1;
      var k := PollsFrom(p, n, toInt, 0);
      assert k < n || i <= k - 1;
    }
  }

  // ------------------------------------------------------------ error dump

  /** One register line of the report: its label, then the reply. */
  function ErrorLine(name: string, reply: string): string {
    "  " + name + ": " + reply
  }

  /** The lines of the report for one axis: a heading, then one labelled line
      per register, from that axis's five replies in query order. */
  function AxisLines(axis: int, r: seq<string>): (ls: seq<string>)
    requires |r| == 5
    ensures |ls| == 6
  {
    ["axis" + IntToString(axis),
     ErrorLine(ErrorFieldLabels[0], r[0]), ErrorLine(ErrorFieldLabels[1], r[1]),
     ErrorLine(ErrorFieldLabels[2], r[2]), ErrorLine(ErrorFieldLabels[3], r[3]),
     ErrorLine(ErrorFieldLabels[4], r[4])]
  }

  /** The lines of the report: the system error, then axis 0 and axis 1. */
  function ReportLines(rs: seq<string>): (ls: seq<string>)
    requires |rs| == 11
    ensures |ls| == 13
  {
    ["system: " + rs[0]] + AxisLines(0, rs[1..6]) + AxisLines(1, rs[6..11])
  }

  /** The text `dump_errors` returns, from its eleven replies in query order. */
  function ErrorReport(rs: seq<string>): string
    requires |rs| == 11
  {
    JoinLines(ReportLines(rs))
  }

  /** Given newline-free replies (which is all `read_string` returns), the report
      splits into exactly its thirteen lines: the system error, then per axis a
      heading and its five labelled registers in query order. */
  lemma ErrorReportLines(rs: seq<string>)
    requires |rs| == 11
    requires forall j :: 0 <= j < 11 ==> '\n' !in rs[j]
    ensures SplitLines(ErrorReport(rs)) == ReportLines(rs)
  {
    IntToStringExcludes(0, '\n');
    IntToStringExcludes(1, '\n');
    var ls := ReportLines(rs);
    forall k | 0 <= k < 13
      ensures '\n' !in ls[k]
    {
    }
    SplitJoinLines(ls);
  }

  /** Query `1 + 5a + k` reads register `k` of axis `a`, and its reply is
      printed on report line `2 + 6a + k` under that register's label. */
  lemma ErrorReportPairsQueriesWithReplies(rs: seq<string>, a: nat, k: nat)
    requires |rs| == 11 && a < 2 && k < 5
    ensures ErrorQueries()[0] == SystemErrorQuery && ReportLines(rs)[0] == "system: " + rs[0]
    ensures ErrorQueries()[1 + 5 * a + k] == AxisErrorQuery(a, k)
    ensures ReportLines(rs)[1 + 6 * a] == "axis" + IntToString(a)
    ensures ReportLines(rs)[2 + 6 * a + k] == ErrorLine(ErrorFieldLabels[k], rs[1 + 5 * a + k])
  {
    if a == 0 {
      assert ErrorQueries()[1 + k] == AxisErrorQueries(0)[k];
      assert ReportLines(rs)[2 + k] == AxisLines(0, rs[1..6])[1 + k];
    } else {
      assert ErrorQueries()[6 + k] == AxisErrorQueries(1)[k];
      assert ReportLines(rs)[8 + k] == AxisLines(1, rs[6..11])[1 + k];
    }
  }

  /** Register `k` of axis `a` in the report built from the stream `p`: its
      query, and its line holding the reply to that query. */
  lemma ErrorReportRegister(p: seq<RxEvent>, a: nat, k: nat)
    requires a < 2 && k < 5
    ensures ErrorQueries()[1 + 5 * a + k] == AxisErrorQuery(a, k)
    ensures ReportLines(Replies(p, 11))[1 + 6 * a] == "axis" + IntToString(a)
    ensures ReportLines(Replies(p, 11))[2 + 6 * a + k] == ErrorLine(ErrorFieldLabels[k], Reply(p, 1 + 5 * a + k))
  {
    ErrorReportPairsQueriesWithReplies(Replies(p, 11), a, k);
    RepliesAt(p, 11, 1 + 5 * a + k);
  }

  lemma ErrorQueriesAt(a: nat)
    requires a < 2
    ensures forall k :: 0 <= k < 5 ==> ErrorQueries()[1 + 5 * a + k] == AxisErrorQuery(a, k)
  {
    forall k | 0 <= k < 5
      ensures ErrorQueries()[1 + 5 * a + k] == AxisErrorQuery(a, k)
    {
      ErrorReportPairsQueriesWithReplies(seq(11, i => ""), a, k);
    }
  }

  /** The label literals `dump_errors` appends, one per register. */
  const LabelLiterals: seq<string> :=
    ["\n  axis: ", "\n  motor: ", "\n  sensorless_estimator: ", "\n  encoder: ", "\n  controller: "]

  lemma LabelLiteralsAreLabels(k: nat)
    requires k < 5
    ensures LabelLiterals[k] == "\n  " + ErrorFieldLabels[k] + ": "
  {
  }

  /** Appending a label literal and a reply, as `dump_errors` does, adds one report line. */
  lemma AppendReportLine(output: string, literal: string, name: string, reply: string)
    requires literal == "\n  " + name + ": "
    ensures output + literal + reply == output + "\n" + ErrorLine(name, reply)
  {
  }

  /** Appending "\naxis" and the axis number, as `dump_errors` does, adds the heading line. */
  lemma AppendHeadingLine(output: string, axis: int)
    ensures output + "\naxis" + IntToString(axis) == output + "\n" + ("axis" + IntToString(axis))
  {
  }

  lemma JoinLinesSnoc(ls: seq<string>, m: nat)
    requires 1 <= m < |ls|
    ensures JoinLines(ls[..m + 1]) == JoinLines(ls[..m]) + "\n" + ls[m]
  {
    assert ls[..m + 1][..m] == ls[..m];
  }
}
