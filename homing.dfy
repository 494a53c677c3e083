/** The clock arithmetic and the two sensor-driven waits of
    src/subsystem_classes/actuator_class.cpp, as functions of input traces:
    the wait for the serial link in `init` and the outbound seek of
    `homing_sequence`. */
module Homing {

  /** `millis()` readings: a 32-bit `unsigned long` on the Teensy. */
  const ClockModulus := 0x1_0000_0000
  type Millis = n: nat | n < 0x1_0000_0000

  /** `millis() - start` in unsigned arithmetic: wraps around. */
  function Elapsed(now: Millis, start: Millis): (e: Millis)
    ensures start <= now ==> e == now - start
    ensures now < start ==> e == now + ClockModulus - start
  {
    (now - start) % ClockModulus
  }

  /** The `int` timeout converted to `unsigned long` for the comparison. */
  function AsUnsigned(i: int): (u: Millis)
    ensures 0 <= i < ClockModulus ==> u == i
  {
    i % ClockModulus
  }

  /** One pass of the outbound-seek loop: the hall input read by the loop test,
      and, when that reads 1, the encoder position and the clock read in the body. */
  datatype HallSample = HallSample(hall: int, encoder: int, now: Millis)

  /** The seek ends at this pass: the hall no longer reads 1, or it does and the
      clock read in the body is more than `limit` past `start`. */
  predicate EndsSeek(s: HallSample, start: Millis, limit: int) {
    s.hall != 1 || Elapsed(s.now, start) > AsUnsigned(limit)
  }

  /** The pass at which the seek ends. */
  function SeekEnd(samples: seq<HallSample>, start: Millis, limit: int): (k: nat)
    requires exists j :: 0 <= j < |samples| && EndsSeek(samples[j], start, limit)
    ensures k < |samples| && EndsSeek(samples[k], start, limit)
    ensures forall j :: 0 <= j < k ==> !EndsSeek(samples[j], start, limit)
  {
    if EndsSeek(samples[0], start, limit) then 0
    else
      var k := 1 + SeekEnd(samples[1..], start, limit);
      assert forall j :: 1 <= j < k ==> samples[j] == samples[1..][j - 1];
      k
  }

  /** Homing succeeds (the hall reads 0 at the end) iff some pass reads the hall
      as not 1 while every earlier pass was within the time limit. */
  lemma SeekSucceedsIff(samples: seq<HallSample>, start: Millis, limit: int)
    requires exists j :: 0 <= j < |samples| && EndsSeek(samples[j], start, limit)
    ensures samples[SeekEnd(samples, start, limit)].hall != 1 <==>
      exists j :: 0 <= j < |samples| && samples[j].hall != 1 &&
        forall i :: 0 <= i < j ==> Elapsed(samples[i].now, start) <= AsUnsigned(limit)
  {
    var k := SeekEnd(samples, start, limit);
    if samples[k].hall != 1 {
      assert forall i :: 0 <= i < k ==> Elapsed(samples[i].now, start) <= AsUnsigned(limit);
    } else {
      forall j | 0 <= j < |samples| && samples[j].hall != 1
        ensures exists i :: 0 <= i < j && Elapsed(samples[i].now, start) > AsUnsigned(limit)
      {
        assert k < j;
        assert Elapsed(samples[k].now, start) > AsUnsigned(limit);
      }
    }
  }

  /** One pass of the wait for the serial link: whether the port reports ready
      and, when it does not, the clock read in the body. */
  datatype LinkSample = LinkSample(ready: bool, now: Millis)

  predicate EndsLinkWait(s: LinkSample, start: Millis, limit: int) {
    s.ready || Elapsed(s.now, start) > AsUnsigned(limit)
  }

  function LinkWaitEnd(samples: seq<LinkSample>, start: Millis, limit: int): (k: nat)
    requires exists j :: 0 <= j < |samples| && EndsLinkWait(samples[j], start, limit)
    ensures k < |samples| && EndsLinkWait(samples[k], start, limit)
    ensures forall j :: 0 <= j < k ==> !EndsLinkWait(samples[j], start, limit)
  {
    if EndsLinkWait(samples[0], start, limit) then 0
    else
      var k := 1 + LinkWaitEnd(samples[1..], start, limit);
      assert forall j :: 1 <= j < k ==> samples[j] == samples[1..][j - 1];
      k
  }
}
