# Split-step trainer firmware: a Dafny model

The firmware is a Movesense sensor application. A phone writes frames whose first byte is the command id
(`[command, data...]`) to a GATT "command" characteristic; only that first byte is read. The application answers on a "data"
characteristic with frames `[kind, tag, payload]`. It keeps a fixed-size table of
the sensor streams it has subscribed to (`MAX_DATASUB_COUNT` slots; the model
takes four). It drives the device LED through a
small timer-driven pattern sequencer. While the IMU stream is subscribed it runs
a hysteresis detector over every batch of samples. The detector recognises a
tennis "split step": a short near-zero-g dip followed by a landing. It reports
whether the step was short enough.

The model has two layers.

- Value-level modules define each behaviour as functions over immutable data:
  - `Codec`: the outgoing frame of `sendPacket` and the split of an incoming command frame.
  - `Subscriptions`: the `mDataSubs` table and its transitions.
  - `Sequencer`: the LED pattern state machine.
  - `Detector`: the split-step hysteresis.
- The imperative layer follows the program's own shape:
  - `MyApp.App` is a class. It keeps the table, the frame buffer and the repeating-pattern buffer in arrays, and the LED sequencer in fields. Each table, frame and sequencer method is proved to perform exactly the transition the value-level function defines; `StartModule`, `StopModule` and `LedSet` state their effect directly.
  - `Interface` holds `HandleCommand`, `HandleIncomingCommand` and `ProcessData`. It also holds the class `SplitStep`, which stands for the detector's module globals.

The framework is not modelled. Every call the application makes into it is
appended to a log of `Effect`s: a sent frame, an asynchronous subscribe or
unsubscribe, an LED write, a timer start or a timer stop. What the framework
answers is a parameter:

- the result code and handle returned by `getResource` (`Lookup`);
- the id returned by `startTimer` (`issued`);
- the batch summary handed to `processData`.

Machine widths are written out where they matter:

- `size_t` arithmetic wraps modulo 2^32, the width on the device's 32-bit ARM core (an assumption, listed under "## Left out"). This covers the LED step counter, `(size_t)-1` and `repetitions * 2`.
- The split-step duration is a `uint32` difference.
- `dataLen` in `handleIncomingCommand` is a `uint16`.

Three details of the code the model keeps as written:

- BEGIN_SUB first unsubscribes reference 99, not the IMU reference 20, although its comment says it "unsubscribes to prevent duplicate subscriptions" (interface.cpp:62-63). A second BEGIN_SUB without END_SUB therefore reserves a second slot for reference 20 (`Interface.BeginSubTwiceHoldsTwoSlots`).
- `ledSetPattern(on, off, 0)` does not leave the LED alone. The step counter starts at 0, and the first fire wraps it to `(size_t)-1` (`Sequencer.ZeroRepetitionsKeepRunning`). With 3 repetitions, BLINK does what its comment describes, "3 times with 2 second pauses" (interface.cpp:81-83; `Interface.BlinkSequence`).
- Sending "subscribe" and "unsubscribe" passes `sizeof`. Their payloads therefore include the terminating NUL, as do the two verdict messages. The `helloMsg` char list has no terminator.

## Model

| member | source | states |
|---|---|---|
| Codec.ClampedLength | myApp.cpp:165 | the kept payload length is the length itself below 64, and 64 otherwise |
| Codec.Frame | myApp.cpp:164-173 | the frame is the kind byte, the tag byte and the first `min(len, 64)` payload bytes, in order |
| Codec.ShortPayloadRoundTrip | myApp.cpp:164-173 | a payload of at most 64 bytes is recovered intact from its frame |
| Codec.LongPayloadTruncated | myApp.cpp:165-172 | a longer payload gives a 66-byte frame carrying only its first 64 bytes |
| Codec.SplitCommand | myApp.cpp:176-183 | a non-empty frame splits into a command byte and the rest, which re-encode to the frame; an empty frame yields no command |
| Codec.SplitEncodeRoundTrip | myApp.cpp:176-182 | splitting an encoded command gives the command back |
| Codec.SplitCommandAsWritten | myApp.cpp:178-180 | the literal reading yields a uint16 `dataLen` |
| Codec.EmptyFrameAsWritten | myApp.cpp:178-180 | on an empty frame the literal code reads outside the array, passes a null payload pointer and `dataLen` 65535 |
| Codec.SplitCommandAgreesAsWritten | myApp.cpp:178-180 | on every non-empty frame of at most 65536 bytes the literal reading agrees with `SplitCommand`: the byte 0 is in bounds, `dataLen` is the payload length, and the payload pointer is set exactly when there is a payload |
| Subscriptions.FindFrom | myApp.cpp:132-162 | the result is the first slot from the start index that matches, or none when no slot from there matches |
| Subscriptions.Find | myApp.cpp:132-162 | findDataSub, findDataSubByRef and getFreeDataSubSlot return the first matching slot, and no slot exactly when none matches |
| Subscriptions.UnusedIsFree | myApp.cpp:158 | in a consistent table the free-slot test selects exactly the slots in the cleared state |
| Subscriptions.Subscribe | myApp.cpp:185-211 | the table keeps its size and every slot stays free or reserved with `subStarted` and a non-zero reference |
| Subscriptions.SubscribeRejectsBadRequest | myApp.cpp:186-188 | a zero reference or an unterminated path fails with no change and no effect |
| Subscriptions.SubscribeWhenFull | myApp.cpp:190-198 | with no free slot the call fails, the table is unchanged, and exactly the frame `[1, reference, 0x01, 0xFB]` is sent |
| Subscriptions.SubscribeReservesFirstFreeSlot | myApp.cpp:199-210 | otherwise exactly the first free slot is reserved (started, not completed, the reference, the looked-up handle); an asynchronous subscribe is issued exactly when the result code lies in 200-210, and the call succeeds exactly then |
| Subscriptions.Unsubscribe | myApp.cpp:213-223 | the table keeps its size and its consistency |
| Subscriptions.UnsubscribeFreesFirstMatch | myApp.cpp:213-223 | the first slot holding the reference is cleared after one asynchronous unsubscribe of its handle; with no such slot nothing changes |
| Subscriptions.UnsubscribeDropsOneHolder | myApp.cpp:213-223 | a non-zero reference loses exactly one holder, when it had one |
| Subscriptions.OnSubscribeResult | myApp.cpp:342-369 | the table keeps its size and its consistency |
| Subscriptions.OnSubscribeResultTransitions | myApp.cpp:345-368 | an unknown resource or an already completed slot leaves the table alone; a code of 400 or more clears the slot; any other code marks it completed and changes nothing else |
| Subscriptions.AcknowledgedSlotStarted | myApp.cpp:351 | the ASSERT holds: in a consistent table the slot an answer is for has `subStarted` |
| Subscriptions.ReleaseAll | myApp.cpp:374-387 | the table keeps its size |
| Subscriptions.ReleaseAllSlot | myApp.cpp:376-386 | a slot with a valid handle is cleared, and every other slot keeps all its fields |
| Subscriptions.ReleaseAllForgetsResources | myApp.cpp:374-387 | afterwards no slot holds any valid handle |
| Subscriptions.ReleaseAllEffectCount | myApp.cpp:378-380 | exactly one asynchronous unsubscribe of a valid handle is issued per slot that held one |
| Subscriptions.Unsubscribes | myApp.cpp:376-380 | no contract of its own: the unsubscribes a table owes, one per slot with a valid handle, naming that handle, in slot order; `ReleaseAllEffectsInOrder` ties it to `ReleaseAll` |
| Subscriptions.ReleaseAllEffectsInOrder | myApp.cpp:376-380 | the unsubscribes issued are exactly `Unsubscribes` of the table: each freed slot's own handle, in slot order |
| Subscriptions.ReleaseAllUnsubscribesEachHandle | myApp.cpp:378-380 | every slot holding a valid handle gets an unsubscribe of that handle |
| Subscriptions.ReleaseAllKeepsTableOk | myApp.cpp:374-387 | a consistent table stays consistent |
| Sequencer.SetPatternN | myApp.cpp:232-239 | the armed timer is stopped, the LED is set to `startOn or not ledStatus`, the counter is `length`, the pattern walked is the one passed in, the cursor is at the first duration, there is no repeat start, and that duration is armed under the new timer id |
| Sequencer.SetPattern | myApp.cpp:240-242 | no contract of its own: `SetPatternN` with `length` equal to `(size_t)-1`; `PlainPatternRuns` states what that counter means |
| Sequencer.SetRepeatingPattern | myApp.cpp:243-248 | the buffer is `[on, off, 0]` with its start as the repeat point, and the counter is `repetitions * 2` in size_t |
| Sequencer.Tick | myApp.cpp:249-258 | the sequencer stays consistent, so the cursor never leaves the buffer; the pattern and the repeat start never change |
| Sequencer.TickIgnoresOtherTimers | myApp.cpp:250 | a fire of a timer other than the armed one changes nothing |
| Sequencer.TickStopsOrToggles | myApp.cpp:250-257 | a fire of the armed timer decrements the counter; it stops with the LED untouched when the counter reaches 0, or when the next entry is the terminator and there is no repeat start; otherwise the cursor moves to the next entry, or to the repeat start when the next entry is the terminator, the LED toggles, and the entry under the cursor is armed |
| Sequencer.FiresKeepPattern | myApp.cpp:249-258 | every state of a run keeps the pattern buffer and the repeat start |
| Sequencer.RepeatingTick | myApp.cpp:249-258 | with a repeat start, a fire at counter 1 stops the timer, and a fire at a higher counter toggles and re-arms |
| Sequencer.RepeatingRunFrom | myApp.cpp:249-258 | with a repeat start and a counter of n, exactly n fires happen; every fire but the last toggles and re-arms, and the last stops the timer |
| Sequencer.RepeatingCursorsFrom | myApp.cpp:251-257 | over `[on, off, 0]` with its start as the repeat point, the cursor of each re-arming fire alternates between the two entries; a 0 `off` entry reads as the terminator, so the cursor then stays on `on` |
| Sequencer.RepeatingPatternRuns | myApp.cpp:243-258 | `ledSetPattern(on, off, n)` with n at least 1 runs exactly 2n fires, alternating the LED from its start value; fire k re-arms `off` for even k and `on` for odd k (always `on` when `off` is 0); the last fire stops with the LED opposite its start value |
| Sequencer.PlainTick | myApp.cpp:250-257 | on a plain pattern with the counter above 1, a fire advances the cursor; it stops with the LED untouched at the terminator, and otherwise toggles and re-arms |
| Sequencer.PlainRunFrom | myApp.cpp:249-258 | on a plain pattern with enough counter left, the run makes one fire per entry up to the next terminator, toggling and re-arming on all but the last, which stops on the terminator with the LED untouched |
| Sequencer.PlainPatternRuns | myApp.cpp:240-258 | `ledSetPattern(pattern)` with its first terminator at index m (m at least 1 and below `(size_t)-1`) makes exactly m fires; fire k re-arms entry k + 1 and toggles the LED, and the last fire stops the timer on the terminator with the LED untouched, so the `(size_t)-1` counter never ends the pattern early |
| Sequencer.ZeroRepetitionsKeepRunning | myApp.cpp:243-251 | with 0 repetitions the first fire wraps the counter to `(size_t)-1`, toggles the LED and re-arms |
| Detector.Max | interface.cpp:135 | the result is the larger of the two values |
| Detector.Elapsed | interface.cpp:146-147 | the uint32 difference of the two times, wrapping when the end time is smaller |
| Detector.Step | interface.cpp:118-171 | no contract of its own: one batch through the hysteresis; `StepInsideWindow`, `StepClosesWindow` and `StepOutsideWindow` together state every case |
| Detector.StepInsideWindow | interface.cpp:119-137 | a batch below 6 sends nothing and leaves the window open; opening a window records the start time and start z-acceleration and restarts the peak gyro; inside an open window only the end z-acceleration and the peak change |
| Detector.StepClosesWindow | interface.cpp:140-171 | a batch above 10 closes the open window; it yields a verdict exactly when the peak gyro is below 80, and the verdict is "excellent" exactly when the uint32 duration is at most 200 |
| Detector.StepOutsideWindow | interface.cpp:118-171 | any other batch changes nothing and sends nothing |
| Detector.NoDipNoVerdict | interface.cpp:118-171 | a stream that never drops below 6, with no window open, yields no verdict and no change |
| Detector.OpenWindowThenClose | interface.cpp:119-171 | from an open window, dip batches then one closing batch yield one verdict exactly when the running peak stays below 80; the recorded start is kept |
| Detector.SplitStepVerdict | interface.cpp:118-171 | a split step end to end: from no window, a dip then a landing yields one verdict exactly when the dip's peak gyro is below 80, timed from the first dip batch to the landing |
| Detector.PeakIsMaximum | interface.cpp:135 | the running peak is the maximum of its start value and the window's gyro averages |
| Detector.LowRotationWindow | interface.cpp:134-144 | a dip counts as a split step exactly when each of its batches rotated less than 80 |
| MyApp.App.StartModule | myApp.cpp:56-67 | every slot becomes free |
| MyApp.App.FindDataSub | myApp.cpp:132-141 | the loop returns the first slot holding the handle, or none |
| MyApp.App.FindDataSubByRef | myApp.cpp:142-151 | the loop returns the first slot holding the reference, or none |
| MyApp.App.GetFreeDataSubSlot | myApp.cpp:153-162 | the loop returns the first free slot, or none |
| MyApp.App.SendPacket | myApp.cpp:164-174 | `Frame(kind, tag, data)` is written to the start of the buffer, the rest of the buffer is unchanged, and exactly that frame is sent |
| MyApp.App.Subscribe | myApp.cpp:185-211 | the table and the log change exactly as `Subscriptions.Subscribe` says, and its result is returned |
| MyApp.App.Unsubscribe | myApp.cpp:213-223 | the table and the log change exactly as `Subscriptions.Unsubscribe` says |
| MyApp.App.OnSubscribeResult | myApp.cpp:342-369 | the table changes exactly as `Subscriptions.OnSubscribeResult` says |
| MyApp.App.UnsubscribeAllStreams | myApp.cpp:374-387 | the table and the log change exactly as `Subscriptions.ReleaseAll` says |
| MyApp.App.StopModule | myApp.cpp:78-82 | all streams are released, then the LED timer is stopped |
| MyApp.App.LedSet | myApp.cpp:225-230 | the LED bit is set, and one LED write is issued |
| MyApp.App.LedSetPatternN | myApp.cpp:232-239 | the LED fields and the log change exactly as `Sequencer.SetPatternN` says |
| MyApp.App.LedSetPattern | myApp.cpp:240-242 | the LED fields and the log change exactly as `Sequencer.SetPattern` says |
| MyApp.App.LedSetRepeatingPattern | myApp.cpp:243-248 | the repeating buffer holds `[on, off, 0]`, and the LED fields and the log change exactly as `Sequencer.SetRepeatingPattern` says |
| MyApp.App.OnTimer | myApp.cpp:249-259 | the LED fields and the log change exactly as `Sequencer.Tick` says |
| Interface.Dispatch | interface.cpp:46-87 | no contract of its own: the four command cases on the object's state; `HelloReplies`, `BeginSubOrder`, `EndSubReleasesImuHolder`, `BlinkSequence` and `UnknownCommandIgnored` state each case |
| Interface.HandleCommand | interface.cpp:46-87 | the object's table, LED and log change exactly as `Dispatch` says for the command |
| Interface.HandleIncomingCommand | myApp.cpp:176-183 | a non-empty frame is dispatched on its first byte; an empty frame changes nothing |
| Interface.HelloReplies | interface.cpp:49-58 | HELLO sends exactly `[1, 1, 'H', 'e', 'l', 'l', 'o']` and changes nothing else |
| Interface.UnknownCommandIgnored | interface.cpp:47-86 | a command id above 3 sends nothing and changes nothing |
| Interface.BeginSubOrder | interface.cpp:60-70 | BEGIN_SUB unsubscribes 99, sends `[1, 5]` followed by "subscribe" and its NUL (a 10-byte payload), then subscribes the IMU path under 20, in that order |
| Interface.BeginSubAddsImuHolder | interface.cpp:60-70 | in a consistent table with a free slot and no holder of 99, BEGIN_SUB issues no unsubscribe and uses up one free slot for one more holder of 20, whatever getResource answers |
| Interface.BeginSubTwiceHoldsTwoSlots | interface.cpp:62-68 | two BEGIN_SUBs in a row leave two slots held by 20 |
| Interface.EndSubReleasesImuHolder | interface.cpp:71-78 | END_SUB sends `[1, 5]` followed by "unsubscribe" and its NUL, then removes one holder of 20 if there is one |
| Interface.BlinkSequence | interface.cpp:79-85 | BLINK stops the old timer, switches the LED on and arms 1000 ms; six fires then set the LED off, on, off, on, off, re-arming 2000, 1000, 2000, 1000 and 2000 ms, and the sixth fire stops the timer with the LED off |
| Interface.SplitStep.constructor | interface.cpp:40-44 | the detector globals start in the initial state with no window open |
| Interface.RouteAsWritten | interface.cpp:91 | no contract of its own: line 91 read literally, dereferencing null when no slot holds the resource; `RouteAgreesAsWritten` and `LateSampleDereferencesNull` state it |
| Interface.Route | interface.cpp:91-92 | a sample is delivered exactly when the first slot holding its resource carries reference 20; otherwise it is ignored, and a missing slot is never dereferenced |
| Interface.RouteAgreesAsWritten | interface.cpp:91 | the literal routing dereferences null exactly when no slot holds the resource; everywhere else it agrees with `Route` |
| Interface.LateSampleDereferencesNull | interface.cpp:91 | a sample arriving after every stream was released meets the null dereference as written, and is ignored by `Route` |
| Interface.OnSample | interface.cpp:89-171 | no contract of its own: routing, then one `Step`, then the verdict frame; `ForeignDataIgnored`, `DipNeverSends` and `ClosingBatchVerdictFrame` state it |
| Interface.ProcessData | interface.cpp:89-171 | the detector globals and the log change exactly as `OnSample` says |
| Interface.ForeignDataIgnored | interface.cpp:90-92 | data not routed to the detector leaves the globals alone and sends nothing |
| Interface.DipNeverSends | interface.cpp:119-137 | a batch below 6 never sends a frame |
| Interface.ClosingBatchVerdictFrame | interface.cpp:140-157 | a closing batch closes the window; it sends exactly one verdict frame with the whole message, "excellent" or "too high" by the uint32 duration, when the peak gyro is below 80, and nothing otherwise |

## Left out

- GATT service bring-up (`configGattSvc`, `onPostResult`, `onGetResult`) is not modelled. `sendPacket` puts every frame on the data characteristic handle `mDataCharResource` that `onGetResult` looks up (myApp.cpp:173, 308); the `SendFrame` effect abstracts away which characteristic a frame goes to.
- The peer-connection branch of `onNotify` (myApp.cpp:398) is not modelled. It assigns instead of comparing, and the value the assignment tests (`DISCONNECTED`) is defined in a framework header that is not part of this model. The model only shows what it triggers, `UnsubscribeAllStreams`.
- The module lifecycle state (`initModule`, `deinitModule`, `mModuleState`) is not modelled. Neither is the GATT clean-up in `stopModule`. Both are framework bookkeeping.
- `startModule`'s subscription to BLE peers is not modelled, for the same reason.
- `serializeData` and the data-characteristic branch of `onNotify` are not modelled. They are not used by the split-step path.
- The averaging loops of `processData` (interface.cpp:96-116) are not modelled. Floating-point sums, `sqrt` and division become the `Batch` summary the detector receives. NaN, and `fmax`'s NaN handling, are not modelled.
- `sendWithNumber` and the `TEST` branches are not modelled. `TEST` is the constant `false`.
- `ledSet`'s `getResource("Component/Led")` lookup is not modelled. The LED write becomes a `LedPut` effect.
- When the framework delivers the answers to subscribes, and for which handles, is not modelled: `OnSubscribeResult` takes any handle and code, at any point. The answers to unsubscribes and puts are not modelled at all, nor are concurrency and the order in which notifications arrive.
- myApp.h is not part of this model. Four assumptions are made about it:
  - `MAX_DATASUB_COUNT` is 4;
  - the frame buffer holds 66 bytes;
  - `mRepeatingPattern` has three entries and ends in 0;
  - `mLedPatternRemaining` is a `size_t`.
- MyApp.App.constructor: the starting values it gives (every slot free, the LED off, a step counter of 0, no timer armed) are an assumption. The C++ constructor (myApp.cpp:29-39) does not set `mDataSubs`, `ledStatus`, `mLedPatternRemaining` or `mLedTimer`; the model takes them as in-class initialisers in myApp.h or zero-initialised static storage would give them. No contract relies on them beyond `Valid()`, and `StartModule` clears the table whatever it held.
- The width of `size_t` is not fixed by the sources. The model takes 32 bits, as on the device's ARM Cortex-M core, so `(size_t)-1` is 2^32 - 1 and `repetitions * 2` wraps from 2^31 repetitions on.
- Sequencer.SetPatternN: durations are unbounded naturals rather than `uint16_t`. The pattern is copied into the sequencer as a value, so a caller writing into its buffer while a pattern runs is not modelled. Only `mRepeatingPattern` is kept as an array.
- Subscriptions.OnSubscribeResult: keeps its consistency guarantee only for a valid handle. `MyApp.App.OnSubscribeResult` requires one, because the framework never answers for `ID_INVALID_RESOURCE`.
- The first two switch branches of `onSubscribeResult` (peers and GATT characteristics) are not modelled. They only log.

## Findings

| source | as written | input that shows it | evidently intended | confidence | as-written member | corrected member |
|---|---|---|---|---|---|---|
| interface.cpp:91 | `findDataSub(resourceId)->clientReference` dereferences the lookup without a null check | a sample notification that arrives after `unsubscribeAllStreams` or END_SUB has freed the stream's slot | data from a resource the table no longer holds is ignored | not executed; follows from the code | Interface.LateSampleDereferencesNull | Interface.Route |
| myApp.cpp:178-180 | `commandData[0]` is read and `dataLen = size() - 1` is computed with no emptiness check | an empty write to the command characteristic: byte 0 is read outside the array, and `dataLen` becomes 65535 with a null payload | an empty frame carries no command and is dropped | not executed; follows from the code | Codec.EmptyFrameAsWritten | Codec.SplitCommand |
