/** The LED pattern sequencer (ledSetPattern_n, both ledSetPattern
    overloads, onTimer) as a value: the pattern buffer the instruction
    pointer walks, that pointer as an index, the optional repeat start as
    an index into the same buffer, the remaining-step counter, the LED bit
    and the armed timer. The class App in module MyApp holds these in
    fields and is proved to perform exactly these transitions. */
module Sequencer {
  import opened Platform

  datatype LedState = LedState(
    on: bool,              // ledStatus
    remaining: size_t,     // mLedPatternRemaining
    pattern: seq<nat>,     // the buffer mLedInstructionPtr points into
    cursor: nat,           // mLedInstructionPtr as an index
    repeat: Option<nat>,   // mLedRepeatPtr as an index, None for nullptr
    timer: TimerId)        // mLedTimer

  /** A duration buffer the sequencer may walk: at least one entry and
      a 0 terminator in its last place. */
  predicate Terminated(pattern: seq<nat>) {
    |pattern| >= 2 && pattern[|pattern| - 1] == 0
  }

  /** While a timer is armed, the cursor and the repeat start stay before
      the terminator, so the pre-increment `*++mLedInstructionPtr` stays
      inside the buffer. */
  predicate Consistent(s: LedState) {
    s.timer != InvalidTimer ==>
      && Terminated(s.pattern)
      && s.cursor < |s.pattern| - 1
      && (s.repeat.Some? ==> s.repeat.value < |s.pattern| - 1)
  }

  datatype LedStep = LedStep(state: LedState, effects: seq<Effect>)

  /** ledSetPattern_n: cancel the armed timer, switch the LED to
      `startOn || !ledStatus`, point at the first duration and arm it.
      `issued` is the id startTimer hands back. */
  function SetPatternN(s: LedState, pattern: seq<nat>, length: size_t, startOn: bool, issued: TimerId): (r: LedStep)
    requires Terminated(pattern)
    ensures Consistent(r.state)
    ensures r.state.pattern == pattern
    ensures r.state.on == (startOn || !s.on) && r.state.remaining == length
    ensures r.state.cursor == 0 && r.state.repeat == None && r.state.timer == issued
    ensures r.effects == [StopTimer(s.timer), LedPut(r.state.on), StartTimer(pattern[0], issued)]
  {
    var on := startOn || !s.on;
    LedStep(LedState(on, length, pattern, 0, None, issued),
            [StopTimer(s.timer), LedPut(on), StartTimer(pattern[0], issued)])
  }

  /** ledSetPattern(pattern, startOn): the 0-terminated pattern is run
      with `length = (size_t)-1`; PlainPatternRuns says what that means. */
  function SetPattern(s: LedState, pattern: seq<nat>, startOn: bool, issued: TimerId): LedStep
    requires Terminated(pattern)
  {
    SetPatternN(s, pattern, SIZE_T_MAX, startOn, issued)
  }

  /** The three-entry mRepeatingPattern buffer after ledSetPattern(on, off, n)
      wrote its first two entries; its 0 terminator comes from myApp.h. */
  function RepeatingBuffer(onMs: nat, offMs: nat): seq<nat> {
    [onMs, offMs, 0]
  }

  /** ledSetPattern(onDuration, offDuration, repetitions, startOn):
      `repetitions * 2` steps (a size_t product) over the buffer, and the
      repeat start set to its first entry afterwards. */
  function SetRepeatingPattern(s: LedState, onMs: nat, offMs: nat, repetitions: size_t, startOn: bool, issued: TimerId): (r: LedStep)
    ensures Consistent(r.state)
    ensures r.state.pattern == RepeatingBuffer(onMs, offMs) && r.state.repeat == Some(0)
    ensures r.state.remaining == (2 * repetitions) % SIZE_T_MODULUS
  {
    var n := SetPatternN(s, RepeatingBuffer(onMs, offMs), (2 * repetitions) % SIZE_T_MODULUS, startOn, issued);
    LedStep(n.state.(repeat := Some(0)), n.effects)
  }

  /** onTimer: a fire of the armed timer decrements the step counter
      (size_t, so 0 wraps) and either stops, leaving the LED as it is, or
      advances the cursor (wrapping to the repeat start at the terminator),
      toggles the LED and arms the next duration. */
  function Tick(s: LedState, fired: TimerId, issued: TimerId): (r: LedStep)
    requires Consistent(s) && fired != InvalidTimer
    ensures Consistent(r.state)
    ensures r.state.pattern == s.pattern && r.state.repeat == s.repeat
  {
    if fired != s.timer then LedStep(s, [])
    else
      var remaining := (s.remaining - 1) % SIZE_T_MODULUS;
      if remaining == 0 then
        LedStep(s.(remaining := 0, timer := InvalidTimer), [])
      else
        var next := s.cursor + 1;
        if s.pattern[next] == 0 && s.repeat.None? then
          LedStep(s.(remaining := remaining, cursor := next, timer := InvalidTimer), [])
        else
          var cursor := if s.pattern[next] == 0 then s.repeat.value else next;
          LedStep(s.(on := !s.on, remaining := remaining, cursor := cursor, timer := issued),
                  [LedPut(!s.on), StartTimer(s.pattern[cursor], issued)])
  }

  /** A fire of any other timer is ignored. */
  lemma TickIgnoresOtherTimers(s: LedState, fired: TimerId, issued: TimerId)
    requires Consistent(s) && fired != InvalidTimer && fired != s.timer
    ensures Tick(s, fired, issued) == LedStep(s, [])
  {
  }

  /** A fire of the armed timer either stops without touching the LED
      (the decremented counter is 0, or the next entry is the terminator
      and there is no repeat start), or toggles the LED and re-arms. */
  lemma TickStopsOrToggles(s: LedState, issued: TimerId)
    requires Consistent(s) && s.timer != InvalidTimer
    ensures var r := Tick(s, s.timer, issued);
      var remaining := (s.remaining - 1) % SIZE_T_MODULUS;
      var stops := remaining == 0 || (s.pattern[s.cursor + 1] == 0 && s.repeat.None?);
      && r.state.remaining == remaining
      && (stops ==> r.state.timer == InvalidTimer && r.state.on == s.on && r.effects == [])
      && (!stops ==>
            && r.state.cursor == (if s.pattern[s.cursor + 1] == 0 then s.repeat.value else s.cursor + 1)
            && r.state.on == !s.on && r.state.timer == issued
            && r.effects == [LedPut(!s.on), StartTimer(s.pattern[r.state.cursor], issued)])
  {
  }

  /** The successive states while the armed timer keeps firing; `issued`
      holds the ids startTimer hands back, one per fire, and the run ends
      when the sequencer stops or the ids run out. */
  function Fires(s: LedState, issued: seq<TimerId>): (r: seq<LedState>)
    requires Consistent(s)
    ensures |r| <= |issued|
    decreases |issued|
  {
    if issued == [] || s.timer == InvalidTimer then []
    else
      var n := Tick(s, s.timer, issued[0]).state;
      [n] + Fires(n, issued[1..])
  }

  /** Every state of a run keeps the pattern and the repeat start. */
  lemma {:induction false} FiresKeepPattern(s: LedState, issued: seq<TimerId>)
    requires Consistent(s)
    ensures forall k | 0 <= k < |Fires(s, issued)| ::
      Fires(s, issued)[k].pattern == s.pattern && Fires(s, issued)[k].repeat == s.repeat
    decreases |issued|
  {
    if issued != [] && s.timer != InvalidTimer {
      var n := Tick(s, s.timer, issued[0]).state;
      FiresKeepPattern(n, issued[1..]);
      var f := Fires(s, issued);
      assert f == [n] + Fires(n, issued[1..]);
      forall k | 1 <= k < |f| ensures f[k] == Fires(n, issued[1..])[k - 1] { }
    }
  }

  /** One fire of the armed timer when a repeat start is set: the last
      step stops, every other step toggles and re-arms. */
  lemma RepeatingTick(m: LedState, issued: TimerId)
    requires Consistent(m) && m.timer != InvalidTimer && m.repeat.Some? && m.remaining >= 1
    ensures var n := Tick(m, m.timer, issued).state;
      && Consistent(n) && n.repeat.Some?
      && (m.remaining == 1 ==> n.timer == InvalidTimer && n.on == m.on)
      && (m.remaining > 1 ==> n.timer == issued && n.on == !m.on && n.remaining == m.remaining - 1)
  {
  }

  /** With a repeat start set, a run of `remaining` steps toggles the LED on
      every fire but the last, re-arming each time, and the last fire stops
      the timer and leaves the LED as it was. */
  lemma {:induction false} RepeatingRunFrom(m: LedState, issued: seq<TimerId>)
    requires Consistent(m) && m.timer != InvalidTimer && m.repeat.Some?
    requires 1 <= m.remaining <= |issued|
    requires forall i | 0 <= i < |issued| :: issued[i] != InvalidTimer
    ensures var f := Fires(m, issued);
      && |f| == m.remaining
      && (forall k | 0 <= k < m.remaining - 1 :: f[k].on == (m.on != (k % 2 == 0)) && f[k].timer == issued[k])
      && f[m.remaining - 1].timer == InvalidTimer
      && f[m.remaining - 1].on == (m.on != (m.remaining % 2 == 0))
    decreases m.remaining
  {
    var n := Tick(m, m.timer, issued[0]).state;
    RepeatingTick(m, issued[0]);
    var g := Fires(n, issued[1..]);
    var f := Fires(m, issued);
    assert f == [n] + g;
    if m.remaining == 1 {
      assert g == [];
    } else {
      RepeatingRunFrom(n, issued[1..]);
      forall k | 1 <= k < m.remaining
        ensures f[k] == g[k - 1]
      {
      }
      forall k | 1 <= k < m.remaining - 1
        ensures f[k].on == (m.on != (k % 2 == 0)) && f[k].timer == issued[k]
      {
        assert f[k] == g[k - 1] && issued[1..][k - 1] == issued[k];
        Parity(k);
      }
      Parity(m.remaining);
    }
  }

  /** Over the buffer `[on, off, 0]` with its start as the repeat point, the
      cursor of every re-arming fire alternates between the two entries; a
      0 `off` entry reads as the terminator, so the cursor then stays on
      the first entry. */
  lemma {:induction false} RepeatingCursorsFrom(m: LedState, onMs: nat, offMs: nat, issued: seq<TimerId>)
    requires Consistent(m) && m.timer != InvalidTimer
    requires m.repeat == Some(0) && m.pattern == RepeatingBuffer(onMs, offMs)
    requires 1 <= m.remaining <= |issued|
    requires forall i | 0 <= i < |issued| :: issued[i] != InvalidTimer
    ensures var f := Fires(m, issued);
      && |f| == m.remaining
      && forall k | 0 <= k < m.remaining - 1 :: f[k].cursor == (if offMs != 0 then (m.cursor + k + 1) % 2 else 0)
    decreases m.remaining
  {
    RepeatingRunFrom(m, issued);
    var n := Tick(m, m.timer, issued[0]).state;
    RepeatingTick(m, issued[0]);
    var g := Fires(n, issued[1..]);
    var f := Fires(m, issued);
    assert f == [n] + g;
    if m.remaining > 1 {
      assert n.cursor == (if offMs != 0 then (m.cursor + 1) % 2 else 0);
      RepeatingCursorsFrom(n, onMs, offMs, issued[1..]);
      forall k | 1 <= k < m.remaining - 1
        ensures f[k].cursor == (if offMs != 0 then (m.cursor + k + 1) % 2 else 0)
      {
        assert f[k] == g[k - 1];
        ShiftParity(m.cursor, k);
      }
    }
  }

  lemma ShiftParity(c: nat, k: nat)
    requires c < 2 && k >= 1
    ensures ((c + 1) % 2 + (k - 1) + 1) % 2 == (c + k + 1) % 2
  {
  }

  lemma Parity(k: int)
    ensures ((k - 1) % 2 == 0) <==> (k % 2 != 0)
  {
  }

  /** ledSetPattern(on, off, n) with n >= 1 runs exactly 2n timer fires:
      the LED starts at `startOn || !ledStatus`, toggles on each of the
      first 2n - 1 fires, and the last fire stops the timer with the LED
      left as the last toggle set it. The first duration armed is `on`;
      fire k re-arms the entry under the cursor, which is `off` after an
      even number of earlier fires and `on` after an odd one. */
  lemma RepeatingPatternRuns(s: LedState, onMs: nat, offMs: nat, repetitions: size_t, startOn: bool,
                             first: TimerId, issued: seq<TimerId>)
    requires 1 <= repetitions && 2 * repetitions < SIZE_T_MODULUS
    requires first != InvalidTimer && 2 * repetitions <= |issued|
    requires forall i | 0 <= i < |issued| :: issued[i] != InvalidTimer
    ensures var start := SetRepeatingPattern(s, onMs, offMs, repetitions, startOn, first).state;
      var f := Fires(start, issued);
      && start.on == (startOn || !s.on)
      && |f| == 2 * repetitions
      && (forall k | 0 <= k < 2 * repetitions - 1 :: f[k].on == (start.on != (k % 2 == 0)) && f[k].timer == issued[k])
      && (forall k | 0 <= k < 2 * repetitions - 1 ::
            && f[k].pattern == RepeatingBuffer(onMs, offMs) && f[k].cursor < 2
            && f[k].pattern[f[k].cursor] == if k % 2 == 0 && offMs != 0 then offMs else onMs)
      && f[2 * repetitions - 1].timer == InvalidTimer
      && f[2 * repetitions - 1].on == !start.on
  {
    var start := SetRepeatingPattern(s, onMs, offMs, repetitions, startOn, first).state;
    RepeatingRunFrom(start, issued);
    FiresKeepPattern(start, issued);
    RepeatingCursorsFrom(start, onMs, offMs, issued);
  }

  /** One fire of the armed timer on a plain pattern, while the counter
      is above 1: the cursor advances, and at the terminator the run stops
      with the LED as it was; otherwise it toggles and re-arms. */
  lemma PlainTick(s: LedState, issued: TimerId)
    requires Consistent(s) && s.timer != InvalidTimer && s.repeat.None? && s.remaining >= 2
    ensures var n := Tick(s, s.timer, issued).state;
      && n.cursor == s.cursor + 1 && n.remaining == s.remaining - 1
      && (s.pattern[s.cursor + 1] == 0 ==> n.timer == InvalidTimer && n.on == s.on)
      && (s.pattern[s.cursor + 1] != 0 ==> n.timer == issued && n.on == !s.on)
  {
  }

  /** On a plain pattern whose next terminator is at `end`, with enough
      steps left on the counter, the run makes one fire per entry up to
      the terminator, toggling on all but the last, which stops the timer
      on the terminator and leaves the LED as it was. */
  lemma {:induction false} PlainRunFrom(c: LedState, issued: seq<TimerId>, end: nat)
    requires Consistent(c) && c.timer != InvalidTimer && c.repeat.None?
    requires c.cursor < end < |c.pattern| && c.pattern[end] == 0
    requires forall j | c.cursor < j < end :: c.pattern[j] != 0
    requires end - c.cursor < c.remaining && end - c.cursor <= |issued|
    requires forall i | 0 <= i < |issued| :: issued[i] != InvalidTimer
    ensures var f := Fires(c, issued);
      var d := end - c.cursor;
      && |f| == d
      && (forall k | 0 <= k < d - 1 :: f[k].on == (c.on != (k % 2 == 0)) && f[k].timer == issued[k] && f[k].cursor == c.cursor + k + 1)
      && f[d - 1].timer == InvalidTimer && f[d - 1].cursor == end
      && f[d - 1].on == (c.on != (d % 2 == 0))
    decreases end - c.cursor
  {
    var d := end - c.cursor;
    var n := Tick(c, c.timer, issued[0]).state;
    PlainTick(c, issued[0]);
    var g := Fires(n, issued[1..]);
    var f := Fires(c, issued);
    assert f == [n] + g;
    if c.cursor + 1 == end {
      assert g == [];
    } else {
      PlainRunFrom(n, issued[1..], end);
      forall k | 1 <= k < d
        ensures f[k] == g[k - 1]
      {
      }
      forall k | 1 <= k < d - 1
        ensures f[k].on == (c.on != (k % 2 == 0)) && f[k].timer == issued[k] && f[k].cursor == c.cursor + k + 1
      {
        assert f[k] == g[k - 1] && issued[1..][k - 1] == issued[k];
        Parity(k);
      }
      Parity(d);
    }
  }

  /** ledSetPattern(pattern, startOn) on a pattern whose first terminator
      after the start is at `end`: the `(size_t)-1` counter never cuts the
      run short, so it makes exactly `end` fires, fire k re-arming entry
      k + 1 and toggling the LED, except the last, which stops the timer
      on the terminator with the LED left as it was. */
  lemma PlainPatternRuns(s: LedState, pattern: seq<nat>, end: nat, startOn: bool, first: TimerId, issued: seq<TimerId>)
    requires Terminated(pattern)
    requires 1 <= end < |pattern| && pattern[end] == 0
    requires forall j | 0 < j < end :: pattern[j] != 0
    requires end < SIZE_T_MAX
    requires first != InvalidTimer && end <= |issued|
    requires forall i | 0 <= i < |issued| :: issued[i] != InvalidTimer
    ensures var start := SetPattern(s, pattern, startOn, first).state;
      var f := Fires(start, issued);
      && start.on == (startOn || !s.on)
      && |f| == end
      && (forall k | 0 <= k < end - 1 ::
            && f[k].on == (start.on != (k % 2 == 0)) && f[k].timer == issued[k]
            && f[k].pattern == pattern && f[k].cursor == k + 1)
      && f[end - 1].timer == InvalidTimer && f[end - 1].cursor == end
      && f[end - 1].on == (start.on != (end % 2 == 0))
  {
    var start := SetPattern(s, pattern, startOn, first).state;
    PlainRunFrom(start, issued, end);
    FiresKeepPattern(start, issued);
  }

  /** With 0 repetitions the step counter starts at 0, so the first fire
      wraps it to (size_t)-1 and the sequence keeps toggling instead of
      doing nothing. */
  lemma ZeroRepetitionsKeepRunning(s: LedState, onMs: nat, offMs: nat, startOn: bool, first: TimerId, next: TimerId)
    requires first != InvalidTimer
    ensures var start := SetRepeatingPattern(s, onMs, offMs, 0, startOn, first);
      var r := Tick(start.state, first, next);
      && start.effects == [StopTimer(s.timer), LedPut(startOn || !s.on), StartTimer(onMs, first)]
      && r.state.remaining == SIZE_T_MAX
      && r.state.on == !start.state.on
      && r.state.timer == next
  {
  }
}
