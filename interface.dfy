/** interface.cpp: the command dispatcher handleCommand (with
    handleIncomingCommand, which feeds it), the split-step detector's
    module globals, and processData's routing and hysteresis step. The
    dispatcher acts on the App object only through the App methods it
    calls; `Dispatch` and `OnSample` say what it does on the value level. */
module Interface {
  import opened Platform
  import opened Codec
  import opened Subscriptions
  import opened Sequencer
  import opened Detector
  import opened MyApp

  /** Command ids (the `Commands` enum). */
  const HELLO: byte := 0
  const BEGIN_SUB: byte := 1
  const END_SUB: byte := 2
  const BLINK: byte := 3

  /** `IMUPath` with its terminator, as `sizeof(IMUPath)` passes it. */
  const IMU_PATH: seq<byte> := Ascii("/Meas/IMU6/52") + [0]
  const DEFAULT_REFERENCE: byte := 99
  const IMU_REF: byte := 20
  const IMU_TAG: byte := 5
  const HELLO_TAG: byte := 1

  /** The payloads as `sizeof` passes them: the char-list `helloMsg` has no
      terminator, the string literals keep theirs. */
  const HELLO_MSG: seq<byte> := Ascii("Hello")
  const SUBSCRIBE_MSG: seq<byte> := Ascii("subscribe") + [0]
  const UNSUBSCRIBE_MSG: seq<byte> := Ascii("unsubscribe") + [0]
  const EXCELLENT_MSG: seq<byte> := Ascii("You perform an excellent split step") + [0]
  const TOO_HIGH_MSG: seq<byte> := Ascii("You jumped too high for your split step") + [0]

  const BLINK_ON_MS: nat := 1000
  const BLINK_OFF_MS: nat := 2000
  const BLINK_REPETITIONS: size_t := 3

  /** handleCommand on the object's state. `lookup` is what getResource
      answers for IMU_PATH in BEGIN_SUB; `issued` is the timer id BLINK
      gets from startTimer. Unknown ids fall through the switch. */
  function Dispatch(c: AppState, cmd: byte, lookup: Lookup, issued: TimerId): AppState {
    if cmd == HELLO then
      c.(log := c.log + [SendFrame(Frame(COMMAND_RESULT, HELLO_TAG, HELLO_MSG))])
    else if cmd == BEGIN_SUB then
      var u := Unsubscribe(c.slots, DEFAULT_REFERENCE);
      var s := Subscribe(u.slots, IMU_PATH, IMU_REF, lookup);
      AppState(s.slots, c.led, c.log + u.effects + [SendFrame(Frame(COMMAND_RESULT, IMU_TAG, SUBSCRIBE_MSG))] + s.effects)
    else if cmd == END_SUB then
      var u := Unsubscribe(c.slots, IMU_REF);
      AppState(u.slots, c.led, c.log + [SendFrame(Frame(COMMAND_RESULT, IMU_TAG, UNSUBSCRIBE_MSG))] + u.effects)
    else if cmd == BLINK then
      var b := SetRepeatingPattern(c.led, BLINK_ON_MS, BLINK_OFF_MS, BLINK_REPETITIONS, true, issued);
      AppState(c.slots, b.state, c.log + b.effects)
    else
      c
  }

  /** myApp::handleCommand. */
  method HandleCommand(app: App, cmd: byte, lookup: Lookup, issued: TimerId)
    requires app.Valid()
    modifies app, app.subs, app.msgBuffer, app.repeatingPattern
    ensures app.Valid()
    ensures app.State() == Dispatch(old(app.State()), cmd, lookup, issued)
  {
    if cmd == HELLO {
      app.SendPacket(HELLO_MSG, HELLO_TAG, COMMAND_RESULT);
    } else if cmd == BEGIN_SUB {
      app.Unsubscribe(DEFAULT_REFERENCE);
      app.SendPacket(SUBSCRIBE_MSG, IMU_TAG, COMMAND_RESULT);
      var _ := app.Subscribe(IMU_PATH, IMU_REF, lookup);
    } else if cmd == END_SUB {
      app.SendPacket(UNSUBSCRIBE_MSG, IMU_TAG, COMMAND_RESULT);
      app.Unsubscribe(IMU_REF);
    } else if cmd == BLINK {
      app.LedSetRepeatingPattern(BLINK_ON_MS, BLINK_OFF_MS, BLINK_REPETITIONS, true, issued);
    }
  }

  /** myApp::handleIncomingCommand: the first byte is the command; an empty
      frame is dropped (see the findings in README). */
  method HandleIncomingCommand(app: App, frame: seq<byte>, lookup: Lookup, issued: TimerId)
    requires app.Valid()
    modifies app, app.subs, app.msgBuffer, app.repeatingPattern
    ensures app.Valid()
    ensures app.State() == match SplitCommand(frame)
                           case None => old(app.State())
                           case Some(c) => Dispatch(old(app.State()), c.id, lookup, issued)
  {
    var command := SplitCommand(frame);
    if command.Some? {
      HandleCommand(app, command.value.id, lookup, issued);
    }
  }

  /** HELLO sends exactly `[1, 1, 'H', 'e', 'l', 'l', 'o']` and changes
      nothing else. */
  lemma HelloReplies(c: AppState, lookup: Lookup, issued: TimerId)
    ensures Dispatch(c, HELLO, lookup, issued) == c.(log := c.log + [SendFrame([1, 1, 72, 101, 108, 108, 111])])
  {
    assert HELLO_MSG == [72, 101, 108, 108, 111];
    ShortPayloadRoundTrip(COMMAND_RESULT, HELLO_TAG, HELLO_MSG);
    assert Frame(COMMAND_RESULT, HELLO_TAG, HELLO_MSG) == [1, 1] + HELLO_MSG == [1, 1, 72, 101, 108, 108, 111];
  }

  /** A command id outside 0-3 sends nothing and changes nothing. */
  lemma UnknownCommandIgnored(c: AppState, cmd: byte, lookup: Lookup, issued: TimerId)
    requires cmd > BLINK
    ensures Dispatch(c, cmd, lookup, issued) == c
  {
  }

  /** BEGIN_SUB, in order: unsubscribe(99), the `subscribe\0` frame (a
      10-byte payload, so 12 bytes on the wire), then subscribe of the IMU
      path under reference 20. */
  lemma BeginSubOrder(c: AppState, lookup: Lookup, issued: TimerId)
    ensures var u := Unsubscribe(c.slots, DEFAULT_REFERENCE);
      var s := Subscribe(u.slots, IMU_PATH, IMU_REF, lookup);
      && |SUBSCRIBE_MSG| == 10
      && Dispatch(c, BEGIN_SUB, lookup, issued)
         == AppState(s.slots, c.led, c.log + u.effects + [SendFrame([1, 5] + SUBSCRIBE_MSG)] + s.effects)
  {
    ShortPayloadRoundTrip(COMMAND_RESULT, IMU_TAG, SUBSCRIBE_MSG);
    assert Frame(COMMAND_RESULT, IMU_TAG, SUBSCRIBE_MSG) == [1, 5] + SUBSCRIBE_MSG;
  }

  /** One BEGIN_SUB in a table with no slot for reference 99 adds one
      holder of reference 20 and uses up one free slot, whatever
      getResource answers. */
  lemma BeginSubAddsImuHolder(slots: seq<DataSub>, lookup: Lookup)
    requires TableOk(slots)
    requires Count(slots, ReferenceIs(DEFAULT_REFERENCE)) == 0 && Count(slots, Unused) > 0
    ensures var u := Unsubscribe(slots, DEFAULT_REFERENCE);
      var s := Subscribe(u.slots, IMU_PATH, IMU_REF, lookup).slots;
      && u.effects == []
      && TableOk(s)
      && Count(s, ReferenceIs(IMU_REF)) == Count(slots, ReferenceIs(IMU_REF)) + 1
      && Count(s, ReferenceIs(DEFAULT_REFERENCE)) == 0
      && Count(s, Unused) == Count(slots, Unused) - 1
  {
    CountZero(slots, ReferenceIs(DEFAULT_REFERENCE));
    CountZero(slots, Unused);
    assert IMU_PATH[|IMU_PATH| - 1] == 0;
    var i := Find(slots, Unused).value;
    var d := DataSub(IMU_REF, lookup.resource, true, false);
    assert Subscribe(slots, IMU_PATH, IMU_REF, lookup).slots == slots[i := d];
    CountUpdate(slots, i, d, ReferenceIs(IMU_REF));
    CountUpdate(slots, i, d, ReferenceIs(DEFAULT_REFERENCE));
    CountUpdate(slots, i, d, Unused);
  }

  /** BEGIN_SUB releases reference 99, not 20: two BEGIN_SUB commands
      without END_SUB in between leave two slots held by reference 20. */
  lemma BeginSubTwiceHoldsTwoSlots(c: AppState, lookup1: Lookup, lookup2: Lookup, t1: TimerId, t2: TimerId)
    requires TableOk(c.slots)
    requires Count(c.slots, ReferenceIs(IMU_REF)) == 0 && Count(c.slots, ReferenceIs(DEFAULT_REFERENCE)) == 0
    requires Count(c.slots, Unused) >= 2
    ensures Count(Dispatch(Dispatch(c, BEGIN_SUB, lookup1, t1), BEGIN_SUB, lookup2, t2).slots, ReferenceIs(IMU_REF)) == 2
  {
    BeginSubAddsImuHolder(c.slots, lookup1);
    var once := Dispatch(c, BEGIN_SUB, lookup1, t1);
    BeginSubAddsImuHolder(once.slots, lookup2);
  }

  /** END_SUB sends the `unsubscribe\0` frame and then removes one holder
      of reference 20, if there is one. */
  lemma EndSubReleasesImuHolder(c: AppState, lookup: Lookup, issued: TimerId)
    ensures var r := Dispatch(c, END_SUB, lookup, issued);
      && r.slots == Unsubscribe(c.slots, IMU_REF).slots
      && r.log == c.log + [SendFrame([1, 5] + UNSUBSCRIBE_MSG)] + Unsubscribe(c.slots, IMU_REF).effects
      && Count(r.slots, ReferenceIs(IMU_REF))
         == if Count(c.slots, ReferenceIs(IMU_REF)) == 0 then 0 else Count(c.slots, ReferenceIs(IMU_REF)) - 1
  {
    ShortPayloadRoundTrip(COMMAND_RESULT, IMU_TAG, UNSUBSCRIBE_MSG);
    assert Frame(COMMAND_RESULT, IMU_TAG, UNSUBSCRIBE_MSG) == [1, 5] + UNSUBSCRIBE_MSG;
    UnsubscribeDropsOneHolder(c.slots, IMU_REF);
  }

  /** BLINK switches the LED on and arms 1000 ms; fired through, the
      sequence toggles off, on, off, on, off, re-arming 2000, 1000, 2000,
      1000 and 2000 ms, and the sixth fire stops the timer with the LED off. */
  lemma BlinkSequence(c: AppState, lookup: Lookup, first: TimerId, issued: seq<TimerId>)
    requires first != InvalidTimer && |issued| >= 6
    requires forall i | 0 <= i < |issued| :: issued[i] != InvalidTimer
    ensures var r := Dispatch(c, BLINK, lookup, first);
      var f := Fires(r.led, issued);
      && r.slots == c.slots
      && r.log == c.log + [StopTimer(c.led.timer), LedPut(true), StartTimer(1000, first)]
      && r.led.on
      && |f| == 6
      && [f[0].on, f[1].on, f[2].on, f[3].on, f[4].on, f[5].on] == [false, true, false, true, false, false]
      && (forall k | 0 <= k < 5 :: f[k].pattern == [1000, 2000, 0] && f[k].cursor < 2)
      && [f[0].pattern[f[0].cursor], f[1].pattern[f[1].cursor], f[2].pattern[f[2].cursor],
          f[3].pattern[f[3].cursor], f[4].pattern[f[4].cursor]] == [2000, 1000, 2000, 1000, 2000]
      && f[5].timer == InvalidTimer
  {
    RepeatingPatternRuns(c.led, BLINK_ON_MS, BLINK_OFF_MS, BLINK_REPETITIONS, true, first, issued);
  }

  /** The detector's module globals. */
  class SplitStep {
    var begin: bool
    var beginTime: u32
    var maxZGyro: real
    var beginZAcc: real
    var endZAcc: real

    ghost function View(): Detector.State
      reads this
    {
      Detector.State(begin, beginTime, maxZGyro, beginZAcc, endZAcc)
    }

    constructor ()
      ensures View() == INITIAL
    {
      begin, beginTime, maxZGyro, beginZAcc, endZAcc := false, 0, 0.0, 0.0, 0.0;
    }
  }

  /** Where a sample notification goes. */
  datatype Routing = Deliver | Ignore | NullDereference

  /** Line 91 as written: `findDataSub(resourceId)->clientReference`
      dereferences the lookup without checking it. */
  function RouteAsWritten(slots: seq<DataSub>, resource: ResourceId): Routing {
    match Find(slots, ResourceIs(resource))
    case None => NullDereference
    case Some(i) => if slots[i].clientReference != IMU_REF then Ignore else Deliver
  }

  /** Line 91 with the missing check: data from a resource the table does
      not hold is ignored like data from any other reference. */
  function Route(slots: seq<DataSub>, resource: ResourceId): (r: Routing)
    ensures r != NullDereference
    ensures r == Deliver <==> exists i | 0 <= i < |slots| :: Find(slots, ResourceIs(resource)) == Some(i) && slots[i].clientReference == IMU_REF
  {
    match Find(slots, ResourceIs(resource))
    case None => Ignore
    case Some(i) => if slots[i].clientReference != IMU_REF then Ignore else Deliver
  }

  /** The corrected routing differs from the literal one only where the
      literal one dereferences null. */
  lemma RouteAgreesAsWritten(slots: seq<DataSub>, resource: ResourceId)
    ensures RouteAsWritten(slots, resource) == NullDereference <==> Find(slots, ResourceIs(resource)).None?
    ensures RouteAsWritten(slots, resource) != NullDereference ==> Route(slots, resource) == RouteAsWritten(slots, resource)
  {
  }

  /** A sample still in flight when unsubscribeAllStreams (or END_SUB for
      the only slot of its stream) has freed the table reaches line 91 with
      no slot for its resource: as written it dereferences null. */
  lemma LateSampleDereferencesNull(slots: seq<DataSub>, resource: ResourceId)
    requires resource != InvalidResource
    ensures RouteAsWritten(ReleaseAll(slots).slots, resource) == NullDereference
    ensures Route(ReleaseAll(slots).slots, resource) == Ignore
  {
    ReleaseAllForgetsResources(slots, resource);
  }

  function VerdictMessage(v: Verdict): seq<byte> {
    if v == Excellent then EXCELLENT_MSG else TOO_HIGH_MSG
  }

  datatype SampleOutcome = SampleOutcome(detector: Detector.State, sent: seq<Effect>)

  /** processData for one batch summary arriving from `resource`. */
  function OnSample(slots: seq<DataSub>, d: Detector.State, resource: ResourceId, batch: Batch): SampleOutcome {
    if Route(slots, resource) != Deliver then SampleOutcome(d, [])
    else
      var u := Step(d, batch);
      SampleOutcome(u.state, if u.verdict.Some? then [SendFrame(Frame(COMMAND_RESULT, IMU_TAG, VerdictMessage(u.verdict.value)))] else [])
  }

  /** myApp::processData from line 118 on, after the averaging. */
  method ProcessData(app: App, det: SplitStep, resource: ResourceId, batch: Batch)
    requires app.Valid()
    modifies det, app`log, app.msgBuffer
    ensures app.Valid()
    ensures var r := OnSample(old(app.subs[..]), old(det.View()), resource, batch);
      det.View() == r.detector && app.log == old(app.log) + r.sent
  {
    var found := app.FindDataSub(resource);
    if found.None? || app.subs[found.value].clientReference != IMU_REF {
      return;
    }
    if batch.accMagnitude < BEGIN_THRESHOLD {
      if !det.begin {
        det.begin := true;
        det.maxZGyro := 0.0;
        det.beginZAcc := batch.zAcc;
        det.beginTime := batch.timestamp;
      } else {
        det.endZAcc := batch.zAcc;
      }
      det.maxZGyro := Max(det.maxZGyro, batch.zGyro);
      return;
    }
    if det.begin && batch.accMagnitude > END_THRESHOLD {
      det.begin := false;
      if det.maxZGyro < SPLIT_STEP_THRESHOLD {
        var duration := Elapsed(det.beginTime, batch.timestamp);
        if duration <= GOOD_STEP_LENGTH {
          app.SendPacket(EXCELLENT_MSG, IMU_TAG, COMMAND_RESULT);
        } else {
          app.SendPacket(TOO_HIGH_MSG, IMU_TAG, COMMAND_RESULT);
        }
      }
    }
  }

  /** Data from a slot whose reference is not 20 (or from no slot) leaves
      the detector alone and sends nothing. */
  lemma ForeignDataIgnored(slots: seq<DataSub>, d: Detector.State, resource: ResourceId, batch: Batch)
    requires Route(slots, resource) != Deliver
    ensures OnSample(slots, d, resource, batch) == SampleOutcome(d, [])
  {
  }

  /** A batch below the begin threshold never sends a frame. */
  lemma DipNeverSends(slots: seq<DataSub>, d: Detector.State, resource: ResourceId, batch: Batch)
    requires batch.accMagnitude < BEGIN_THRESHOLD
    ensures OnSample(slots, d, resource, batch).sent == []
  {
  }

  /** A closing batch sends exactly one verdict frame, carrying the whole
      message, when the peak gyro stayed below 80, and none otherwise. */
  lemma ClosingBatchVerdictFrame(slots: seq<DataSub>, d: Detector.State, resource: ResourceId, batch: Batch)
    requires Route(slots, resource) == Deliver
    requires d.begin && batch.accMagnitude > END_THRESHOLD
    ensures var r := OnSample(slots, d, resource, batch);
      && !r.detector.begin
      && r.sent == if d.maxZGyro < SPLIT_STEP_THRESHOLD
                   then [SendFrame([1, 5] + (if Elapsed(d.beginTime, batch.timestamp) <= GOOD_STEP_LENGTH
                                             then EXCELLENT_MSG else TOO_HIGH_MSG))]
                   else []
  {
    ShortPayloadRoundTrip(COMMAND_RESULT, IMU_TAG, EXCELLENT_MSG);
    ShortPayloadRoundTrip(COMMAND_RESULT, IMU_TAG, TOO_HIGH_MSG);
    assert Frame(COMMAND_RESULT, IMU_TAG, EXCELLENT_MSG) == [1, 5] + EXCELLENT_MSG;
    assert Frame(COMMAND_RESULT, IMU_TAG, TOO_HIGH_MSG) == [1, 5] + TOO_HIGH_MSG;
  }
}
