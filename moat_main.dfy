/** The firmware entry of src/main.cpp: the gear-tooth and estop interrupt
    handlers, the search for a free log file name in `setup`, and the
    operating-mode `loop` that logs one record per control cycle and saves the
    log every so many cycles. */
module MoatMain {
  import opened Text
  import opened OdriveProtocol
  import opened ActuatorClass

  /** `unsigned long` on the Teensy is 32 bits wide. */
  type U32 = n: nat | n < 0x1_0000_0000

  /** Slots of the `o_control` array. */
  const Status := 0
  const ActVel := 1
  const EncIn := 2
  const EncOut := 3
  const TStart := 4
  const TStop := 5
  const EncPos := 6
  const OdrvVolt := 7
  const OdrvCur := 8
  const Rpm := 9
  const HallIn := 10
  const HallOut := 11
  const WhlRpm := 12
  const WhlCount := 13
  const RpmCount := 14
  const Dt := 15
  const RollingFrame := 16
  const ExpDecay := 17
  const RefRpm := 18

  const Slots: seq<nat> := [Status, ActVel, EncIn, EncOut, TStart, TStop, EncPos, OdrvVolt,
    OdrvCur, Rpm, HallIn, HallOut, WhlRpm, WhlCount, RpmCount, Dt, RollingFrame, ExpDecay, RefRpm]

  /** `int o_control[30]`. */
  const ControlSlots := 30

  /** The log saves once `save_count` is past this. */
  const SaveThreshold := 1000

  /** Every slot name stands for its own slot, and every slot lies inside `o_control`. */
  lemma SlotsDistinctAndInBounds()
    ensures |Slots| == 19
    ensures forall i :: 0 <= i < |Slots| ==> Slots[i] == i && Slots[i] < ControlSlots
  {
  }

  /** The column names of the header line `setup` logs, in order. */
  const HeaderColumns: seq<string> := ["status", "rpm", "rpm_count", "dt", "act_vel", "enc_pos",
    "hall_in", "hall_out", "s_time", "f_time", "o_vol", "o_curr", "roll_frame", "exp_decay",
    "ref_rpm", "estop"]

  /** The slot each header column is read from; `estop` is read from the pin instead. */
  const ColumnSlot: map<string, nat> := map[
    "status" := Status, "rpm" := Rpm, "rpm_count" := RpmCount, "dt" := Dt, "act_vel" := ActVel,
    "enc_pos" := EncPos, "hall_in" := HallIn, "hall_out" := HallOut, "s_time" := TStart,
    "f_time" := TStop, "o_vol" := OdrvVolt, "o_curr" := OdrvCur, "roll_frame" := RollingFrame,
    "exp_decay" := ExpDecay, "ref_rpm" := RefRpm]

  /** The sixteen numbers `loop` logs for one cycle: `o_control` projected in
      the order of the `Log.notice` arguments, then the estop pin level. */
  function Record(o: seq<int>, estop: int): (r: seq<int>)
    requires |o| == ControlSlots
    ensures |r| == |HeaderColumns| == 16
    ensures forall c :: 0 <= c < 15 ==>
      HeaderColumns[c] in ColumnSlot && r[c] == o[ColumnSlot[HeaderColumns[c]]]
    ensures HeaderColumns[15] == "estop" && HeaderColumns[15] !in ColumnSlot && r[15] == estop
  {
    [o[Status], o[Rpm], o[RpmCount], o[Dt], o[ActVel], o[EncPos], o[HallIn], o[HallOut],
     o[TStart], o[TStop], o[OdrvVolt], o[OdrvCur], o[RollingFrame], o[ExpDecay], o[RefRpm], estop]
  }

  /** The input of one `loop` pass: what `o_control` holds after the control
      function, and the level read from the estop pin. */
  datatype Frame = Frame(control: seq<int>, estop: int)

  predicate WellFormed(f: Frame) {
    |f.control| == ControlSlots
  }

  /** Whether `loop` logs a pass: status 3 passes are skipped. */
  predicate Logged(f: Frame) {
    WellFormed(f) && f.control[Status] != 3
  }

  /** The records a run of passes logs. */
  function LoggedRecords(fs: seq<Frame>): (rs: seq<seq<int>>)
    requires forall i :: 0 <= i < |fs| ==> WellFormed(fs[i])
    ensures |rs| <= |fs|
  {
    if fs == [] then []
    else
      var last := fs[|fs| - 1];
      LoggedRecords(fs[..|fs| - 1]) + (if Logged(last) then [Record(last.control, last.estop)] else [])
  }

  /** Every logged record has sixteen fields and a status other than 3, and a
      run logs as many records as it has passes iff no pass has status 3. */
  lemma {:induction false} LoggedRecordsFilter(fs: seq<Frame>)
    requires forall i :: 0 <= i < |fs| ==> WellFormed(fs[i])
    ensures forall k :: 0 <= k < |LoggedRecords(fs)| ==>
      |LoggedRecords(fs)[k]| == 16 && LoggedRecords(fs)[k][0] != 3
    ensures |LoggedRecords(fs)| == |fs| <==> forall i :: 0 <= i < |fs| ==> Logged(fs[i])
  {
    if fs != [] {
      var init := fs[..|fs| - 1];
      LoggedRecordsFilter(init);
      assert forall i :: 0 <= i < |init| ==> init[i] == fs[i];
    }
  }

  /** One pass of the save bookkeeping: (`save_count`, saves made so far). */
  function SaveStep(count: int, saves: nat): (int, nat) {
    if count > SaveThreshold then (1, saves + 1) else (count + 1, saves)
  }

  /** The save bookkeeping after `t` passes of `loop`, from its initial state. */
  function AfterPasses(t: nat): (int, nat) {
    if t == 0 then (0, 0) else var (c, s) := AfterPasses(t - 1); SaveStep(c, s)
  }

  /** After pass `t`, `save_count` is `((t - 1) mod 1001) + 1` and the log was
      saved `(t - 1) div 1001` times. */
  lemma {:induction false} SaveCadence(t: nat)
    requires 1 <= t
    ensures AfterPasses(t) == (((t - 1) % 1001) + 1, (t - 1) / 1001)
  {
    if t > 1 {
      SaveCadence(t - 1);
    }
  }

  /** A pass saves the log iff it is pass `1 + 1001 m` for some m >= 1: the
      first save comes on pass 1002, and each one after 1001 passes more. */
  lemma SavesAt(t: nat)
    requires 2 <= t
    ensures AfterPasses(t).1 != AfterPasses(t - 1).1 <==> (t - 1) % 1001 == 0
    ensures AfterPasses(t).1 == AfterPasses(t - 1).1 || AfterPasses(t).1 == AfterPasses(t - 1).1 + 1
  {
    SaveCadence(t);
    SaveCadence(t - 1);
  }

  /** `save_count` stays within [1, 1001] once `loop` has run. */
  lemma SaveStepBounds(count: int, saves: nat)
    requires 0 <= count <= SaveThreshold + 1
    ensures 1 <= SaveStep(count, saves).0 <= SaveThreshold + 1
  {
  }

  /** The name of log file number `n`. */
  function LogFileName(n: nat): (name: string)
    ensures |name| == |IntToString(n)| + 8
    ensures name[..4] == "log_" && name[4..|name| - 4] == IntToString(n)
  {
    "log_" + IntToString(n) + ".txt"
  }

  lemma LogFileNameInjective(a: nat, b: nat)
    requires LogFileName(a) == LogFileName(b)
    ensures a == b
  {
    IntToStringInjective(a, b);
  }

  function LogNamesBelow(n: nat): set<string> {
    set i | 0 <= i < n :: LogFileName(i)
  }

  lemma LogNamesBelowSnoc(n: nat)
    ensures LogNamesBelow(n + 1) == LogNamesBelow(n) + {LogFileName(n)}
    ensures LogFileName(n) !in LogNamesBelow(n)
  {
    forall name | name in LogNamesBelow(n + 1)
      ensures name in LogNamesBelow(n) + {LogFileName(n)}
    {
      var i :| 0 <= i < n + 1 && name == LogFileName(i);
      if i < n {
        assert name in LogNamesBelow(n);
      }
    }
    if LogFileName(n) in LogNamesBelow(n) {
      var i :| 0 <= i < n && LogFileName(i) == LogFileName(n);
      LogFileNameInjective(i, n);
    }
  }

  lemma {:induction false} LogNamesBelowCount(n: nat)
    ensures |LogNamesBelow(n)| == n
  {
    if n > 0 {
      LogNamesBelowCount(n - 1);
      LogNamesBelowSnoc(n - 1);
    }
  }

  lemma {:induction false} SubsetCardinality(a: set<string>, b: set<string>)
    requires a <= b
    ensures |a| <= |b|
    decreases |a|
  {
    if a != {} {
      var x :| x in a;
      SubsetCardinality(a - {x}, b - {x});
    }
  }

  /** When the names of logs 0 to n all exist, there are more than n existing names. */
  lemma ExistingNamesBound(existing: set<string>, n: nat)
    requires forall i :: 0 <= i <= n ==> LogFileName(i) in existing
    ensures n < |existing|
  {
    LogNamesBelowCount(n + 1);
    SubsetCardinality(LogNamesBelow(n + 1), existing);
  }

  /** The least log number at or above `n` whose file does not exist. */
  function FreeLogNumberFrom(existing: set<string>, n: nat): (k: nat)
    requires forall i :: 0 <= i < n ==> LogFileName(i) in existing
    ensures n <= k && LogFileName(k) !in existing
    ensures forall i :: 0 <= i < k ==> LogFileName(i) in existing
    decreases |existing| - n
  {
    if LogFileName(n) !in existing then n
    else
      ExistingNamesBound(existing, n);
      FreeLogNumberFrom(existing, n + 1)
  }

  /** The least log number whose file does not exist. */
  function FreeLogNumber(existing: set<string>): nat {
    FreeLogNumberFrom(existing, 0)
  }

  /** A free number with every smaller one taken is the least free number. */
  lemma FreeLogNumberUnique(existing: set<string>, k: nat)
    requires LogFileName(k) !in existing
    requires forall i :: 0 <= i < k ==> LogFileName(i) in existing
    ensures k == FreeLogNumber(existing)
  {
    var f := FreeLogNumber(existing);
    assert !(f < k) && !(k < f);
  }

  /** The globals of src/main.cpp. */
  class Firmware {
    const actuator: Actuator
    var egToothCount: U32
    var gbToothCount: U32
    var estopPressed: bool
    var logName: string
    var saveCount: int
    /** How many times `loop` has saved the log. */
    var saves: nat
    /** The records `loop` has logged, oldest first. */
    var log: seq<seq<int>>

    /** The globals' initial values. */
    constructor (actuator: Actuator)
      ensures this.actuator == actuator
      ensures egToothCount == 0 && gbToothCount == 0 && !estopPressed
      ensures logName == "log.txt" && saveCount == 0 && saves == 0 && log == []
    {
      this.actuator := actuator;
      egToothCount, gbToothCount := 0, 0;
      estopPressed := false;
      logName := "log.txt";
      saveCount, saves := 0, 0;
      log := [];
    }

    /** `external_count_eg_tooth`: one engine tooth; the counter wraps at 2^32. */
    method CountEngineTooth()
      modifies this
      ensures egToothCount == (old(egToothCount) + 1) % 0x1_0000_0000
      ensures old(egToothCount) < 0xFFFF_FFFF ==> egToothCount == old(egToothCount) + 1
      ensures gbToothCount == old(gbToothCount) && estopPressed == old(estopPressed)
      ensures logName == old(logName) && saveCount == old(saveCount) && saves == old(saves) && log == old(log)
    {
      egToothCount := (egToothCount + 1) % 0x1_0000_0000;
    }

    /** `external_count_gb_tooth`: one gearbox tooth; the counter wraps at 2^32. */
    method CountGearboxTooth()
      modifies this
      ensures gbToothCount == (old(gbToothCount) + 1) % 0x1_0000_0000
      ensures old(gbToothCount) < 0xFFFF_FFFF ==> gbToothCount == old(gbToothCount) + 1
      ensures egToothCount == old(egToothCount) && estopPressed == old(estopPressed)
      ensures logName == old(logName) && saveCount == old(saveCount) && saves == old(saves) && log == old(log)
    {
      gbToothCount := (gbToothCount + 1) % 0x1_0000_0000;
    }

    /** `odrive_estop`: latches the flag (the LED write is hardware output). */
    method OdriveEstop()
      modifies this
      ensures estopPressed
      ensures egToothCount == old(egToothCount) && gbToothCount == old(gbToothCount)
      ensures logName == old(logName) && saveCount == old(saveCount) && saves == old(saves) && log == old(log)
    {
      estopPressed := true;
    }

    /** The log-name search of `setup`: counts up from 0 while `log_<n>.txt`
        is one of the `existing` files, and names the log after the first
        number that is not. */
    method Setup(existing: set<string>)
      modifies this
      ensures logName == LogFileName(FreeLogNumber(existing))
      ensures logName !in existing
      ensures egToothCount == old(egToothCount) && gbToothCount == old(gbToothCount)
      ensures estopPressed == old(estopPressed)
      ensures saveCount == old(saveCount) && saves == old(saves) && log == old(log)
    {
      var logFileNumber: nat := 0;
      while LogFileName(logFileNumber) in existing
        invariant forall i :: 0 <= i < logFileNumber ==> LogFileName(i) in existing
        invariant egToothCount == old(egToothCount) && gbToothCount == old(gbToothCount)
        invariant estopPressed == old(estopPressed)
        invariant saveCount == old(saveCount) && saves == old(saves) && log == old(log)
        decreases |existing| - logFileNumber
      {
        ExistingNamesBound(existing, logFileNumber);
        logFileNumber := logFileNumber + 1;
      }
      FreeLogNumberUnique(existing, logFileNumber);
      logName := LogFileName(logFileNumber);
    }

    /** One operating-mode `loop` pass. `control` is what `o_control` holds
        after the control function runs and `estopLevel` the estop pin level. */
    method Loop(control: seq<int>, estopLevel: int)
      requires |control| == ControlSlots
      modifies this, actuator, actuator.link
      ensures log == old(log) + LoggedRecords([Frame(control, estopLevel)])
      ensures (saveCount, saves) == SaveStep(old(saveCount), old(saves))
      ensures actuator.controlFunctionCount == old(actuator.controlFunctionCount) + 1
      ensures actuator.link.transcript == old(actuator.link.transcript)
        + [Sent(RequestStateLine(actuator.motorNumber, AxisIdle)), Sent(CurrentStateQuery(actuator.motorNumber)),
           Received(Reply(old(actuator.link.pending), 0))]
      ensures egToothCount == old(egToothCount) && gbToothCount == old(gbToothCount)
      ensures estopPressed == old(estopPressed) && logName == old(logName)
      ensures actuator.link.pending == Skip(old(actuator.link.pending), 1)
      ensures actuator.status == old(actuator.status) && actuator.hasRun == old(actuator.hasRun)
      ensures actuator.encoderOutbound == old(actuator.encoderOutbound)
      ensures actuator.encoderInbound == old(actuator.encoderInbound) && actuator.start == old(actuator.start)
    {
      actuator.ControlFunction();
      if control[Status] != 3 {
        log := log + [Record(control, estopLevel)];
      }
      if saveCount > SaveThreshold {
        saves := saves + 1;
        saveCount := 0;
      }
      saveCount := saveCount + 1;
    }
  }
}
