/** The `Actuator` class of src/subsystem_classes/actuator_class.cpp: a client
    of the ODrive text protocol over a serial port, with the homing sequence,
    the link wait of `init`, the periodic control function and the error dump. */
module ActuatorClass {
  import opened Text
  import opened OdriveProtocol
  import opened Homing

  /** Status codes, written as octal literals in the source. */
  const HomingTimeoutStatus := 33  // 0041
  const LinkTimeoutStatus := 41    // 0051

  /** The text the two homing velocities print as (floats print with 4 decimals). */
  const SeekVelocity := "0.5000"
  const StopVelocity := "0.0000"

  /** What `init` hands back. Once the link is up it reaches the end of the
      function without a `return`, so no value is defined. */
  datatype InitResult = Returned(code: int) | NoReturnValue

  /** The serial port to the ODrive: the record of what crossed it, and the
      events still to be delivered to the reader. */
  class SerialLink {
    var transcript: seq<Traffic>
    var pending: seq<RxEvent>

    constructor (incoming: seq<RxEvent>)
      ensures transcript == [] && pending == incoming
    {
      transcript := [];
      pending := incoming;
    }

    method Write(text: string)
      modifies this
      ensures transcript == old(transcript) + [Sent(text)]
      ensures pending == old(pending)
    {
      transcript := transcript + [Sent(text)];
    }

    /** Takes the next receive event; a port with nothing left to deliver stays
        silent, so the read's deadline passes. */
    method Next() returns (e: RxEvent)
      modifies this
      ensures transcript == old(transcript)
      ensures old(pending) == [] ==> e == Timeout && pending == []
      ensures old(pending) != [] ==> e == old(pending)[0] && pending == old(pending)[1..]
    {
      if pending == [] {
        e := Timeout;
      } else {
        e := pending[0];
        pending := pending[1..];
      }
    }

    method Deliver(line: string)
      modifies this
      ensures transcript == old(transcript) + [Received(line)]
      ensures pending == old(pending)
    {
      transcript := transcript + [Received(line)];
    }
  }

  class Actuator {
    const link: SerialLink
    /** Arduino's `String::toInt`, whose source is not part of this model. */
    const toInt: string -> int

    const egTooth: int
    const gbTooth: int
    const hallInbound: int
    const hallOutbound: int
    const motorNumber: int
    const homingTimeout: int
    const cyclePeriod: int

    var hasRun: bool
    var status: int
    var controlFunctionCount: int
    var start: Millis
    var encoderOutbound: int
    var encoderInbound: int

    /** Saves the pins and the constants. The object is a global, so every
        other field starts zero-initialised. */
    constructor (serial: SerialLink, toInt: string -> int, egTooth: int, gbTooth: int,
                 hallInbound: int, hallOutbound: int, motorNumber: int,
                 homingTimeout: int, cyclePeriod: int)
      ensures link == serial && this.toInt == toInt
      ensures this.egTooth == egTooth && this.gbTooth == gbTooth
      ensures this.hallInbound == hallInbound && this.hallOutbound == hallOutbound
      ensures this.motorNumber == motorNumber && this.homingTimeout == homingTimeout
      ensures this.cyclePeriod == cyclePeriod
      ensures !hasRun && status == 0 && controlFunctionCount == 0 && start == 0
      ensures encoderOutbound == 0 && encoderInbound == 0
    {
      link := serial;
      this.toInt := toInt;
      this.egTooth := egTooth;
      this.gbTooth := gbTooth;
      this.hallInbound := hallInbound;
      this.hallOutbound := hallOutbound;
      this.motorNumber := motorNumber;
      this.homingTimeout := homingTimeout;
      this.cyclePeriod := cyclePeriod;
      hasRun := false;
      status, controlFunctionCount, start := 0, 0, 0;
      encoderOutbound, encoderInbound := 0, 0;
    }

    /** `read_string`: collects characters until a '\n' (consumed, not kept) or
        a timeout (the characters so far are returned). */
    method ReadString() returns (line: string)
      modifies link
      ensures line == ReadLine(old(link.pending)).line
      ensures link.pending == ReadLine(old(link.pending)).rest
      ensures link.transcript == old(link.transcript) + [Received(line)]
    {
      line := "";
      while true
        invariant ReadLine(old(link.pending)) ==
          LineRead(line + ReadLine(link.pending).line, ReadLine(link.pending).rest)
        invariant link.transcript == old(link.transcript)
        decreases |link.pending|
      {
        ghost var before := link.pending;
        var e := link.Next();
        if e.Timeout? {
          break;
        }
        if e.c == '\n' {
          break;
        }
        assert ReadLine(before).line == [e.c] + ReadLine(link.pending).line;
        line := line + [e.c];
      }
      link.Deliver(line);
    }

    /** `read_int`: the next reply line, converted by `String::toInt`. */
    method ReadInt() returns (value: int)
      modifies link
      ensures value == toInt(ReadLine(old(link.pending)).line)
      ensures link.pending == ReadLine(old(link.pending)).rest
      ensures link.transcript == old(link.transcript) + [Received(ReadLine(old(link.pending)).line)]
    {
      var line := ReadString();
      value := toInt(line);
    }

    /** One pass of the `run_state` poll: the current-state query, then
        `read_int`, as the `polls`-th exchange against the stream `p0`. */
    method PollCurrentState(axis: int, ghost p0: seq<RxEvent>, ghost t0: seq<Traffic>, ghost polls: nat)
      returns (state: int)
      requires link.pending == Skip(p0, polls)
      requires link.transcript == t0 + PollExchanges(axis, p0, polls)
      modifies link
      ensures state == toInt(Reply(p0, polls))
      ensures link.pending == Skip(p0, polls + 1)
      ensures link.transcript == t0 + PollExchanges(axis, p0, polls + 1)
    {
      link.Write(CurrentStateQuery(axis));
      state := ReadInt();
    }

    /** `run_state`: requests `requestedState` on `axis`; when asked to wait, polls
        the current state until it reads idle (1) or the counter runs out.
        `timeoutCtr` is the poll budget, `(int)(timeout * 10)` in the source. */
    method RunState(axis: int, requestedState: int, waitForIdle: bool, timeoutCtr: int)
      returns (reached: bool)
      modifies link
      ensures !waitForIdle ==>
        && reached == (timeoutCtr > 0)
        && link.transcript == old(link.transcript) + [Sent(RequestStateLine(axis, requestedState))]
        && link.pending == old(link.pending)
      ensures waitForIdle ==>
        var w := WaitForIdle(old(link.pending), timeoutCtr, toInt);
        && reached == w.reached
        && link.transcript == old(link.transcript) + [Sent(RequestStateLine(axis, requestedState))]
             + PollExchanges(axis, old(link.pending), w.polls)
        && link.pending == Skip(old(link.pending), w.polls)
    {
      var ctr := timeoutCtr;
      link.Write(RequestStateLine(axis, requestedState));
      if waitForIdle {
        ghost var p0 := link.pending;
        ghost var t0 := link.transcript;
        ghost var w := WaitForIdle(p0, timeoutCtr, toInt);
        ghost var polls: nat := 0;
        // The do-while, with its loop test `read_int() != 1 && --timeout_ctr > 0`
        // evaluated at the end of the body into `polling`.
        var polling := true;
        while polling
          invariant polling ==> ctr == timeoutCtr - polls && PollingAt(p0, timeoutCtr, toInt, polls)
          invariant !polling ==> polls == w.polls && (ctr > 0) == w.reached
          invariant link.pending == Skip(p0, polls)
          invariant link.transcript == t0 + PollExchanges(axis, p0, polls)
          decreases polling, timeoutCtr - polls
        {
          var state := PollCurrentState(axis, p0, t0, polls);
          PollingStep(p0, timeoutCtr, toInt, polls);
          polls := polls + 1;
          if state == 1 {
            polling := false;
          } else {
            ctr := ctr - 1;
            polling := ctr > 0;
          }
        }
      }
      reached := ctr > 0;
    }

    /** `set_velocity`: the velocity command for this actuator's motor. */
    method SetVelocity(velocity: string)
      modifies link
      ensures link.transcript == old(link.transcript) + [Sent(VelocityLine(motorNumber, velocity))]
      ensures link.pending == old(link.pending)
    {
      link.Write(VelocityLine(motorNumber, velocity));
    }

    /** `init`, from the clock reading taken as `start` and one sample per pass
        of the wait for the serial link. */
    method Init(startTime: Millis, linkSamples: seq<LinkSample>) returns (result: InitResult)
      requires exists j :: 0 <= j < |linkSamples| && EndsLinkWait(linkSamples[j], startTime, homingTimeout)
      modifies this, link
      ensures var k := LinkWaitEnd(linkSamples, startTime, homingTimeout);
        var up := linkSamples[k].ready;
        && controlFunctionCount == 0 && start == startTime
        && status == (if up then 0 else LinkTimeoutStatus)
        && result == (if up then NoReturnValue else Returned(-LinkTimeoutStatus))
        && link.transcript == old(link.transcript)
             + (if up then [Sent(RequestStateLine(motorNumber, AxisIdle)), Sent(CurrentStateQuery(motorNumber)),
                            Received(Reply(old(link.pending), 0))]
                else [])
        && link.pending == (if up then Skip(old(link.pending), 1) else old(link.pending))
      ensures hasRun == old(hasRun) && encoderOutbound == old(encoderOutbound)
      ensures encoderInbound == old(encoderInbound)
    {
      status := 0;
      controlFunctionCount := 0;
      start := startTime;
      ghost var k := LinkWaitEnd(linkSamples, startTime, homingTimeout);
      var i := 0;
      while !linkSamples[i].ready
        invariant 0 <= i <= k
        invariant status == 0 && start == startTime && controlFunctionCount == 0
        invariant hasRun == old(hasRun) && encoderOutbound == old(encoderOutbound)
        invariant encoderInbound == old(encoderInbound)
        invariant link.transcript == old(link.transcript) && link.pending == old(link.pending)
        decreases k - i
      {
        if Elapsed(linkSamples[i].now, start) > AsUnsigned(homingTimeout) {
          status := LinkTimeoutStatus;
          return Returned(-status);
        }
        i := i + 1;
      }
      ghost var p0 := link.pending;
      var _ := RunState(motorNumber, AxisIdle, true, 0);
      // `if (status != 0) return status;` cannot fire: status is still 0 here.
      result := NoReturnValue;
    }

    /** `homing_sequence`: drives outbound until the outbound hall switch stops
        reading 1, or gives up when the time limit is passed. `startTime` is the
        clock reading taken as `start`; `samples` holds one entry per pass. */
    method HomingSequence(startTime: Millis, samples: seq<HallSample>) returns (code: int)
      requires exists j :: 0 <= j < |samples| && EndsSeek(samples[j], startTime, homingTimeout)
      modifies this, link
      ensures var k := SeekEnd(samples, startTime, homingTimeout);
        var timedOut := samples[k].hall == 1;
        && code == (if timedOut then HomingTimeoutStatus else 0)
        && status == (if timedOut then HomingTimeoutStatus else old(status))
        && encoderOutbound ==
             (if timedOut then samples[k].encoder
              else if k == 0 then old(encoderOutbound)
              else samples[k - 1].encoder)
        && link.transcript == old(link.transcript)
             + [Sent(RequestStateLine(motorNumber, VelocityControl)), Sent(VelocityLine(motorNumber, SeekVelocity))]
             + (if timedOut then []
                else [Sent(VelocityLine(motorNumber, StopVelocity)), Sent(RequestStateLine(motorNumber, AxisIdle))])
      ensures link.pending == old(link.pending)
      ensures encoderInbound == old(encoderInbound) && controlFunctionCount == old(controlFunctionCount)
      ensures start == old(start) && hasRun == old(hasRun)
    {
      var _ := RunState(motorNumber, VelocityControl, false, 0);
      ghost var k := SeekEnd(samples, startTime, homingTimeout);
      SetVelocity(SeekVelocity);
      var i := 0;
      while samples[i].hall == 1
        invariant 0 <= i <= k
        invariant encoderOutbound == if i == 0 then old(encoderOutbound) else samples[i - 1].encoder
        invariant status == old(status) && encoderInbound == old(encoderInbound)
        invariant controlFunctionCount == old(controlFunctionCount) && start == old(start) && hasRun == old(hasRun)
        invariant link.transcript == old(link.transcript)
          + [Sent(RequestStateLine(motorNumber, VelocityControl)), Sent(VelocityLine(motorNumber, SeekVelocity))]
        invariant link.pending == old(link.pending)
        decreases k - i
      {
        encoderOutbound := samples[i].encoder;
        if Elapsed(samples[i].now, startTime) > AsUnsigned(homingTimeout) {
          status := HomingTimeoutStatus;
          return status;
        }
        i := i + 1;
      }
      SetVelocity(StopVelocity);
      var _ := RunState(motorNumber, AxisIdle, false, 0);
      return 0;
    }

    /** `control_function`: counts the call and requests idle, waiting one poll. */
    method ControlFunction()
      modifies this, link
      ensures controlFunctionCount == old(controlFunctionCount) + 1
      ensures link.transcript == old(link.transcript)
        + [Sent(RequestStateLine(motorNumber, AxisIdle)), Sent(CurrentStateQuery(motorNumber)),
           Received(Reply(old(link.pending), 0))]
      ensures link.pending == Skip(old(link.pending), 1)
      ensures status == old(status) && encoderOutbound == old(encoderOutbound)
      ensures encoderInbound == old(encoderInbound) && start == old(start) && hasRun == old(hasRun)
    {
      controlFunctionCount := controlFunctionCount + 1;
      ghost var p0 := link.pending;
      var _ := RunState(motorNumber, AxisIdle, true, 0);
    }

    /** One register of the error dump: the label, the query, the reply. As a
        step of `DumpErrors`, it extends the report and the exchanges by one. */
    method AppendErrorRegister(output: string, literal: string, axis: nat, field: nat,
                               ghost p0: seq<RxEvent>, ghost t0: seq<Traffic>, ghost lines: seq<string>,
      ghost queries: seq<string>)
      returns (extended: string)
      requires axis < 2 && field < 5 && literal == "\n  " + ErrorFieldLabels[field] + ": "
      requires |lines| == 13
      requires lines[2 + 6 * axis + field] == ErrorLine(ErrorFieldLabels[field], Reply(p0, 1 + 5 * axis + field))
      requires |queries| == 11 && queries[1 + 5 * axis + field] == AxisErrorQuery(axis, field)
      requires link.pending == Skip(p0, 1 + 5 * axis + field)
      requires link.transcript == t0 + Exchanges(queries, p0, 1 + 5 * axis + field)
      requires output == JoinLines(lines[..2 + 6 * axis + field])
      modifies link
      ensures extended == JoinLines(lines[..3 + 6 * axis + field])
      ensures link.transcript == t0 + Exchanges(queries, p0, 2 + 5 * axis + field)
      ensures link.pending == Skip(p0, 2 + 5 * axis + field)
    {
      JoinLinesSnoc(lines, 2 + 6 * axis + field);
      extended := output + literal;
      link.Write(AxisErrorQuery(axis, field));
      var reply := ReadString();
      AppendReportLine(output, literal, ErrorFieldLabels[field], reply);
      extended := extended + reply;
    }

    /** One pass of the `dump_errors` axis loop: the heading and the five registers. */
    method AppendAxisErrors(output: string, axis: nat,
                            ghost p0: seq<RxEvent>, ghost t0: seq<Traffic>, ghost lines: seq<string>,
      ghost queries: seq<string>)
      returns (extended: string)
      requires axis < 2
      requires |queries| == 11 && forall k :: 0 <= k < 5 ==> queries[1 + 5 * axis + k] == AxisErrorQuery(axis, k)
      requires |lines| == 13 && lines[1 + 6 * axis] == "axis" + IntToString(axis)
      requires forall k :: 0 <= k < 5 ==>
        lines[2 + 6 * axis + k] == ErrorLine(ErrorFieldLabels[k], Reply(p0, 1 + 5 * axis + k))
      requires link.pending == Skip(p0, 1 + 5 * axis)
      requires link.transcript == t0 + Exchanges(queries, p0, 1 + 5 * axis)
      requires output == JoinLines(lines[..1 + 6 * axis])
      modifies link
      ensures extended == JoinLines(lines[..7 + 6 * axis])
      ensures link.transcript == t0 + Exchanges(queries, p0, 6 + 5 * axis)
      ensures link.pending == Skip(p0, 6 + 5 * axis)
    {
      JoinLinesSnoc(lines, 1 + 6 * axis);
      AppendHeadingLine(output, axis);
      extended := output + "\naxis";
      extended := extended + IntToString(axis);
      LabelLiteralsAreLabels(0);
      extended := AppendErrorRegister(extended, LabelLiterals[0], axis, 0, p0, t0, lines, queries);
      LabelLiteralsAreLabels(1);
      extended := AppendErrorRegister(extended, LabelLiterals[1], axis, 1, p0, t0, lines, queries);
      LabelLiteralsAreLabels(2);
      extended := AppendErrorRegister(extended, LabelLiterals[2], axis, 2, p0, t0, lines, queries);
      LabelLiteralsAreLabels(3);
      extended := AppendErrorRegister(extended, LabelLiterals[3], axis, 3, p0, t0, lines, queries);
      LabelLiteralsAreLabels(4);
      extended := AppendErrorRegister(extended, LabelLiterals[4], axis, 4, p0, t0, lines, queries);
    }

    /** `dump_errors`: eleven queries, each followed by reading its reply, and
        the report built from the replies. */
    method DumpErrors() returns (output: string)
      modifies link
      ensures output == ErrorReport(Replies(old(link.pending), 11))
      ensures link.transcript == old(link.transcript) + Exchanges(ErrorQueries(), old(link.pending), 11)
      ensures link.pending == Skip(old(link.pending), 11)
    {
      ghost var p0 := link.pending;
      ghost var t0 := link.transcript;
      ghost var lines := ReportLines(Replies(p0, 11));
      output := "";
      output := output + "system: ";
      link.Write(SystemErrorQuery);
      var reply := ReadString();
      output := output + reply;
      ErrorReportPairsQueriesWithReplies(Replies(p0, 11), 0, 0);
      RepliesAt(p0, 11, 0);
      assert output == "system: " + Reply(p0, 0);
      assert output == JoinLines(lines[..1]);
      assert link.transcript == t0 + Exchanges(ErrorQueries(), p0, 1);
      var axis := 0;
      while axis < 2
        invariant 0 <= axis <= 2
        invariant link.pending == Skip(p0, 1 + 5 * axis)
        invariant link.transcript == t0 + Exchanges(ErrorQueries(), p0, 1 + 5 * axis)
        invariant output == JoinLines(lines[..1 + 6 * axis])
      {
        forall k | 0 <= k < 5
          ensures lines[2 + 6 * axis + k] == ErrorLine(ErrorFieldLabels[k], Reply(p0, 1 + 5 * axis + k))
        {
          ErrorReportRegister(p0, axis, k);
        }
        ErrorReportRegister(p0, axis, 0);
        ErrorQueriesAt(axis);
        output := AppendAxisErrors(output, axis, p0, t0, lines, ErrorQueries());
        axis := axis + 1;
      }
      assert lines[..13] == lines;
    }
  }
}
