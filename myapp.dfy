/** The myApp object (myApp.cpp): the subscription table `mDataSubs`,
    the outgoing frame buffer `mDataMsgBuffer`, the LED sequencer fields
    and the buffer `mRepeatingPattern`, updated in place by the methods
    below. Every request the object makes of the framework is appended
    to `log`. Each method is proved to perform the transition that the
    value-level modules Codec, Subscriptions and Sequencer define. */
module MyApp {
  import opened Platform
  import opened Codec
  import opened Subscriptions
  import opened Sequencer

  /** myApp.h (not part of this model) sizes mDataMsgBuffer; a full frame
      is the 2 header bytes and at most 64 payload bytes. */
  const MSG_BUFFER_SIZE: nat := 2 + MAX_PAYLOAD

  /** The observable state of the object: the table, the sequencer and
      what it has asked of the framework. */
  datatype AppState = AppState(slots: seq<DataSub>, led: LedState, log: seq<Effect>)

  class App {
    const subs: array<DataSub>
    const msgBuffer: array<byte>
    const repeatingPattern: array<nat>

    var ledStatus: bool
    var ledRemaining: size_t
    var ledPattern: seq<nat>
    var ledCursor: nat
    var ledRepeat: Option<nat>
    var ledTimer: TimerId

    var log: seq<Effect>

    /** The buffers have the sizes myApp.h gives them; mRepeatingPattern
        keeps its 0 terminator in its third entry. */
    ghost predicate Allocated()
      reads this, repeatingPattern
    {
      && subs.Length == MAX_DATASUB_COUNT
      && msgBuffer.Length == MSG_BUFFER_SIZE
      && repeatingPattern.Length == 3 && repeatingPattern[2] == 0
    }

    ghost predicate Valid()
      reads this, subs, repeatingPattern
    {
      Allocated() && TableOk(subs[..]) && Consistent(Led())
    }

    ghost function Led(): LedState
      reads this
    {
      LedState(ledStatus, ledRemaining, ledPattern, ledCursor, ledRepeat, ledTimer)
    }

    ghost function State(): AppState
      reads this, subs
    {
      AppState(subs[..], Led(), log)
    }

    constructor ()
      ensures Valid()
      ensures State() == AppState(seq(MAX_DATASUB_COUNT, _ => FREE), LedState(false, 0, [], 0, None, InvalidTimer), [])
    {
      subs := new DataSub[MAX_DATASUB_COUNT](_ => FREE);
      msgBuffer := new byte[MSG_BUFFER_SIZE](_ => 0);
      repeatingPattern := new nat[3](_ => 0);
      ledStatus, ledRemaining, ledPattern, ledCursor, ledRepeat, ledTimer := false, 0, [], 0, None, InvalidTimer;
      log := [];
    }

    /** The slot clearing of startModule: every slot becomes free,
        whatever it held before. */
    method StartModule()
      requires Allocated() && Consistent(Led())
      modifies subs
      ensures Valid()
      ensures subs[..] == seq(MAX_DATASUB_COUNT, _ => FREE)
    {
      for i := 0 to subs.Length
        invariant forall j | 0 <= j < i :: subs[j] == FREE
      {
        subs[i] := FREE;
      }
    }

    /** findDataSub: the first slot whose handle is `resource`. */
    method FindDataSub(resource: ResourceId) returns (r: Option<nat>)
      ensures r == Find(subs[..], ResourceIs(resource))
    {
      for i := 0 to subs.Length
        invariant forall j | 0 <= j < i :: !Matches(subs[j], ResourceIs(resource))
      {
        if subs[i].resourceId == resource {
          return Some(i);
        }
      }
      return None;
    }

    /** findDataSubByRef: the first slot whose client reference is `reference`. */
    method FindDataSubByRef(reference: byte) returns (r: Option<nat>)
      ensures r == Find(subs[..], ReferenceIs(reference))
    {
      for i := 0 to subs.Length
        invariant forall j | 0 <= j < i :: !Matches(subs[j], ReferenceIs(reference))
      {
        if subs[i].clientReference == reference {
          return Some(i);
        }
      }
      return None;
    }

    /** getFreeDataSubSlot: the first slot with reference 0 and no handle. */
    method GetFreeDataSubSlot() returns (r: Option<nat>)
      ensures r == Find(subs[..], Unused)
    {
      for i := 0 to subs.Length
        invariant forall j | 0 <= j < i :: !Matches(subs[j], Unused)
      {
        if subs[i].clientReference == 0 && subs[i].resourceId == InvalidResource {
          return Some(i);
        }
      }
      return None;
    }

    /** sendPacket: the frame is assembled in mDataMsgBuffer and that
        buffer's first `len + 2` bytes are sent. */
    method SendPacket(data: seq<byte>, tag: byte, kind: byte)
      requires Valid()
      modifies this`log, msgBuffer
      ensures Valid()
      ensures log == old(log) + [SendFrame(Frame(kind, tag, data))]
      ensures msgBuffer[..|Frame(kind, tag, data)|] == Frame(kind, tag, data)
      ensures msgBuffer[|Frame(kind, tag, data)|..] == old(msgBuffer[|Frame(kind, tag, data)|..])
    {
      var len := if |data| < MAX_PAYLOAD then |data| else MAX_PAYLOAD;
      msgBuffer[0] := kind;
      msgBuffer[1] := tag;
      for i := 0 to len
        invariant log == old(log)
        invariant msgBuffer[0] == kind && msgBuffer[1] == tag
        invariant forall j | 0 <= j < i :: msgBuffer[j + 2] == data[j]
        invariant forall j | i + 2 <= j < msgBuffer.Length :: msgBuffer[j] == old(msgBuffer[j])
      {
        msgBuffer[i + 2] := data[i];
      }
      var frame := msgBuffer[..len + 2];
      ghost var expected := Frame(kind, tag, data);
      assert |expected| == len + 2;
      forall j | 2 <= j < len + 2 ensures frame[j] == expected[j] {
        assert expected[(j - 2) + 2] == data[j - 2];
      }
      assert frame == expected;
      log := log + [SendFrame(frame)];
    }

    /** subscribe: the guards, then a capacity error frame or a slot
        reservation; the stream is requested only when getResource (whose
        answer is `lookup`) succeeds. */
    method Subscribe(path: seq<byte>, reference: byte, lookup: Lookup) returns (ok: bool)
      requires Valid() && |path| > 0
      modifies this`log, subs, msgBuffer
      ensures Valid()
      ensures var r := Subscriptions.Subscribe(old(subs[..]), path, reference, lookup);
        ok == r.ok && subs[..] == r.slots && log == old(log) + r.effects
    {
      if reference == 0 || path[|path| - 1] != 0 {
        return false;
      }
      var slot := GetFreeDataSubSlot();
      if slot.None? {
        SendPacket(CAPACITY_ERROR, reference, COMMAND_RESULT);
        return false;
      }
      var i := slot.value;
      subs[i] := subs[i].(subStarted := true, subCompleted := false, clientReference := reference);
      subs[i] := subs[i].(resourceId := lookup.resource);
      if lookup.code < 200 || lookup.code > 210 {
        return false;
      }
      log := log + [AsyncSubscribe(subs[i].resourceId)];
      return true;
    }

    /** unsubscribe: free the first slot holding `reference`, if any. */
    method Unsubscribe(reference: byte)
      requires Valid()
      modifies this`log, subs
      ensures Valid()
      ensures var r := Subscriptions.Unsubscribe(old(subs[..]), reference);
        subs[..] == r.slots && log == old(log) + r.effects
    {
      var found := FindDataSubByRef(reference);
      if found.Some? {
        var i := found.value;
        log := log + [AsyncUnsubscribe(subs[i].resourceId)];
        subs[i] := FREE;
      }
    }

    /** The default branch of onSubscribeResult, for a stream handle. */
    method OnSubscribeResult(resource: ResourceId, code: int)
      requires Valid() && resource != InvalidResource
      modifies subs
      ensures Valid()
      ensures subs[..] == Subscriptions.OnSubscribeResult(old(subs[..]), resource, code)
    {
      var found := FindDataSub(resource);
      if found.None? {
        return;
      }
      var i := found.value;
      assert subs[i].subStarted;
      if subs[i].subCompleted {
        return;
      }
      if code >= 400 {
        subs[i] := FREE;
      } else {
        subs[i] := subs[i].(subCompleted := true);
      }
    }

    /** unsubscribeAllStreams: free every slot that holds a handle. */
    method UnsubscribeAllStreams()
      requires Valid()
      modifies this`log, subs
      ensures Valid()
      ensures var r := ReleaseAll(old(subs[..]));
        subs[..] == r.slots && log == old(log) + r.effects
    {
      ghost var before := subs[..];
      for i := 0 to subs.Length
        invariant subs[..i] == ReleaseAll(before[..i]).slots
        invariant subs[i..] == before[i..]
        invariant log == old(log) + ReleaseAll(before[..i]).effects
      {
        assert before[..i + 1][..i] == before[..i];
        assert subs[i] == before[i];
        if subs[i].resourceId != InvalidResource {
          log := log + [AsyncUnsubscribe(subs[i].resourceId)];
          subs[i] := FREE;
        }
        assert subs[..i + 1] == subs[..i] + [subs[i]];
      }
      assert before[..subs.Length] == before;
      assert subs[..subs.Length] == subs[..];
      ReleaseAllKeepsTableOk(before);
    }

    /** The stream and timer part of stopModule. */
    method StopModule()
      requires Valid()
      modifies this`log, subs
      ensures Valid()
      ensures var r := ReleaseAll(old(subs[..]));
        subs[..] == r.slots && log == old(log) + r.effects + [StopTimer(ledTimer)]
    {
      UnsubscribeAllStreams();
      log := log + [StopTimer(ledTimer)];
    }

    /** ledSet, reduced to the LED bit and the write it requests. */
    method LedSet(on: bool)
      modifies this`ledStatus, this`log
      ensures ledStatus == on && log == old(log) + [LedPut(on)]
    {
      log := log + [LedPut(on)];
      ledStatus := on;
    }

    /** ledSetPattern_n; `issued` is the id startTimer hands back. */
    method LedSetPatternN(pattern: seq<nat>, length: size_t, startOn: bool, issued: TimerId)
      requires Valid() && Terminated(pattern)
      modifies this
      ensures Valid()
      ensures var r := SetPatternN(old(Led()), pattern, length, startOn, issued);
        Led() == r.state && log == old(log) + r.effects
    {
      log := log + [StopTimer(ledTimer)];
      LedSet(startOn || !ledStatus);
      ledRemaining := length;
      ledRepeat := None;
      ledPattern := pattern;
      ledCursor := 0;
      ledTimer := issued;
      log := log + [StartTimer(ledPattern[ledCursor], issued)];
    }

    /** ledSetPattern(pattern, startOn): a 0-terminated pattern. */
    method LedSetPattern(pattern: seq<nat>, startOn: bool, issued: TimerId)
      requires Valid() && Terminated(pattern)
      modifies this
      ensures Valid()
      ensures var r := SetPattern(old(Led()), pattern, startOn, issued);
        Led() == r.state && log == old(log) + r.effects
    {
      LedSetPatternN(pattern, SIZE_T_MAX, startOn, issued);
    }

    /** ledSetPattern(onDuration, offDuration, repetitions, startOn): the
        two durations are written into mRepeatingPattern in place. */
    method LedSetRepeatingPattern(onMs: nat, offMs: nat, repetitions: size_t, startOn: bool, issued: TimerId)
      requires Valid()
      modifies this, repeatingPattern
      ensures Valid()
      ensures repeatingPattern[..] == RepeatingBuffer(onMs, offMs)
      ensures var r := SetRepeatingPattern(old(Led()), onMs, offMs, repetitions, startOn, issued);
        Led() == r.state && log == old(log) + r.effects
    {
      repeatingPattern[0] := onMs;
      repeatingPattern[1] := offMs;
      assert repeatingPattern[..] == RepeatingBuffer(onMs, offMs);
      LedSetPatternN(repeatingPattern[..], (repetitions * 2) % SIZE_T_MODULUS, startOn, issued);
      ledRepeat := Some(0);
    }

    /** onTimer; `issued` is the id startTimer hands back if the
        sequencer re-arms. */
    method OnTimer(fired: TimerId, issued: TimerId)
      requires Valid() && fired != InvalidTimer
      modifies this
      ensures Valid()
      ensures var r := Tick(old(Led()), fired, issued);
        Led() == r.state && log == old(log) + r.effects
    {
      if fired == ledTimer {
        ledRemaining := (ledRemaining - 1) % SIZE_T_MODULUS;
        if ledRemaining == 0 {
          ledTimer := InvalidTimer;
          return;
        }
        ledCursor := ledCursor + 1;
        if ledPattern[ledCursor] == 0 && ledRepeat.None? {
          ledTimer := InvalidTimer;
          return;
        }
        if ledPattern[ledCursor] == 0 {
          ledCursor := ledRepeat.value;
        }
        LedSet(!ledStatus);
        ledTimer := issued;
        log := log + [StartTimer(ledPattern[ledCursor], issued)];
      }
    }
  }
}
