/**
 The two-row step sequencer: per row, a pitch and a velocity per step; an
 edit mode in which the knobs write the current step of the selected row
 and the buttons play, advance or change row; a play mode in which the
 clock steps through the sequence. The button task and the clock wait are
 modelled elsewhere; here the four button callbacks are events and a loop
 pass is a pure transition.
 */
module Sequencer {
  import opened Common
  import EuroPi
  import Quantizer
  import Pushbuttons

  /** Bits dropped from a velocity reading (`_shift`). */
  const Shift: nat := 9

  /** A velocity keeps only multiples of this (2 to the power Shift). */
  const VelocityQuantum: nat := 512

  const Rows: nat := 2

  /** Initial velocity of every step. */
  const FullVelocity: int := 65535

  datatype Sequencer = Sequencer(
    seqLen: nat,
    run: bool,
    edit: bool,
    counter: nat,
    row: nat,
    previousPitch: int,
    previousVelocity: int,
    pitch: seq<seq<int>>,
    velocity: seq<seq<int>>,
    led3: Bit,
    led4: Bit)

  /** Both grids are Rows by seqLen; counter and row index into them; edit
      mode is never running. */
  predicate Valid(s: Sequencer)
  {
    && s.seqLen >= 1
    && s.counter < s.seqLen
    && s.row < Rows
    && |s.pitch| == Rows && |s.velocity| == Rows
    && (forall r :: 0 <= r < Rows ==> |s.pitch[r]| == s.seqLen && |s.velocity[r]| == s.seqLen)
    && (s.edit ==> !s.run)
  }

  /** digital_3 and digital_4 show the edited row in edit mode and are dark
      in play mode. */
  predicate LedsShowMode(s: Sequencer)
  {
    if s.edit then s.led3 == (if s.row == 0 then 1 else 0) && s.led4 == (if s.row == 1 then 1 else 0)
    else s.led3 == 0 && s.led4 == 0
  }

  /** The constructor: edit mode, paused, step 0 of row 0, pitches 0 and
      velocities at full scale. */
  function Init(seqLen: nat): (s: Sequencer)
    requires seqLen >= 1
    ensures Valid(s) && LedsShowMode(s) && s.seqLen == seqLen
    ensures s.edit && !s.run && s.counter == 0 && s.row == 0
    ensures Filled(s.pitch, 0) && Filled(s.velocity, FullVelocity)
  {
    Sequencer(seqLen, false, true, 0, 0, 0, 0,
              [Repeat(0, seqLen), Repeat(0, seqLen)],
              [Repeat(FullVelocity, seqLen), Repeat(FullVelocity, seqLen)],
              1, 0)
  }

  /** Every cell of the grid holds x. */
  predicate Filled(grid: seq<seq<int>>, x: int)
  {
    forall r, c :: 0 <= r < |grid| && 0 <= c < |grid[r]| ==> grid[r][c] == x
  }

  /** toggle_run: play or pause. */
  function ToggleRun(s: Sequencer): (r: Sequencer)
    ensures r.run == !s.run
    ensures r.(run := s.run) == s
  {
    s.(run := !s.run)
  }

  /** toggle_row: the other of the two rows, with the row LEDs following. */
  function ToggleRow(s: Sequencer): (r: Sequencer)
    requires s.row < Rows
    ensures r.row < Rows && r.row != s.row
    ensures r.led3 == (if r.row == 0 then 1 else 0) && r.led4 == (if r.row == 1 then 1 else 0)
    ensures r.(row := s.row, led3 := s.led3, led4 := s.led4) == s
  {
    var row := (s.row + 1) % 2;
    s.(row := row, led3 := if row == 0 then 1 else 0, led4 := if row == 1 then 1 else 0)
  }

  /** toggle_edit: leaving edit mode starts playing; entering it pauses and
      rewinds to step 0. The row LEDs go dark in play mode. */
  function ToggleEdit(s: Sequencer): (r: Sequencer)
    ensures r.edit == !s.edit
    ensures r.run == s.edit
    ensures s.edit ==> r.counter == s.counter && r.led3 == 0 && r.led4 == 0
    ensures !s.edit ==> r.counter == 0 && r.led3 == (if s.row == 0 then 1 else 0) && r.led4 == (if s.row == 1 then 1 else 0)
    ensures r.(edit := s.edit, run := s.run, counter := s.counter, led3 := s.led3, led4 := s.led4) == s
  {
    if s.edit then s.(edit := false, run := true, led3 := 0, led4 := 0)
    else s.(edit := true, run := false, counter := 0,
            led3 := if s.row == 0 then 1 else 0, led4 := if s.row == 1 then 1 else 0)
  }

  /** The four analogue outputs of play_step (the trigger on digital_1
      accompanies every one). */
  datatype Output = Output(pitch1: int, velocity1: int, pitch2: int, velocity2: int)

  /** play_step: both rows' pitch and velocity at the current step. */
  function PlayStep(s: Sequencer): (o: Output)
    requires Valid(s)
    ensures o.pitch1 == s.pitch[0][s.counter] && o.velocity1 == s.velocity[0][s.counter]
    ensures o.pitch2 == s.pitch[1][s.counter] && o.velocity2 == s.velocity[1][s.counter]
  {
    Output(s.pitch[0][s.counter], s.velocity[0][s.counter], s.pitch[1][s.counter], s.velocity[1][s.counter])
  }

  /** digital_2's blink in edit mode: long when the pattern starts again. */
  datatype Blink = ShortBlink | LongBlink

  /** next_step: advance the counter modulo the sequence length; in edit
      mode blink, long on the wrap to step 0. */
  function NextStep(s: Sequencer): (r: (Sequencer, Option<Blink>))
    requires Valid(s)
    ensures Valid(r.0)
    ensures r.0 == s.(counter := r.0.counter)
    ensures r.0.counter == (if s.counter + 1 == s.seqLen then 0 else s.counter + 1)
    ensures r.1.Some? <==> s.edit
    ensures r.1 == Some(LongBlink) <==> s.edit && r.0.counter == 0
  {
    var c := (s.counter + 1) % s.seqLen;
    WrapIncrement(s.counter, s.seqLen);
    var blink := if !s.edit then None else if c == 0 then Some(LongBlink) else Some(ShortBlink);
    (s.(counter := c), blink)
  }

  /** Incrementing below n modulo n wraps only at n. */
  lemma WrapIncrement(c: nat, n: nat)
    requires c < n
    ensures (c + 1) % n == (if c + 1 == n then 0 else c + 1)
  {
    if c + 1 == n {
      DivModUnique(c + 1, n, 1, 0);
    } else {
      DivModUnique(c + 1, n, 0, c + 1);
    }
  }

  /** n steps with the blinks they give. */
  function NextSteps(s: Sequencer, n: nat): (r: (Sequencer, seq<Option<Blink>>))
    requires Valid(s)
    ensures Valid(r.0) && |r.1| == n
  {
    if n == 0 then (s, [])
    else
      var (s1, bs) := NextSteps(s, n - 1);
      var (s2, b) := NextStep(s1);
      (s2, bs + [b])
  }

  /** After n steps the counter has moved n places modulo the length, the
      rest is untouched, and step t blinks long exactly when it lands on 0. */
  lemma NextStepsWrap(s: Sequencer, n: nat)
    requires Valid(s)
    ensures NextSteps(s, n).0 == s.(counter := (s.counter + n) % s.seqLen)
    ensures forall t :: 0 <= t < n ==>
      (NextSteps(s, n).1[t] == Some(LongBlink) <==> s.edit && (s.counter + t + 1) % s.seqLen == 0)
    ensures forall t :: 0 <= t < n ==> (NextSteps(s, n).1[t].Some? <==> s.edit)
  {
    NextStepsState(s, n);
    NextStepsBlinks(s, n);
  }

  lemma {:induction false} NextStepsState(s: Sequencer, n: nat)
    requires Valid(s)
    ensures NextSteps(s, n).0 == s.(counter := (s.counter + n) % s.seqLen)
  {
    if n == 0 {
      DivModUnique(s.counter, s.seqLen, 0, s.counter);
    } else {
      NextStepsState(s, n - 1);
      DivModStep(s.counter + n - 1, s.seqLen);
    }
  }

  lemma {:induction false} NextStepsBlinks(s: Sequencer, n: nat)
    requires Valid(s)
    ensures forall t :: 0 <= t < n ==>
      (NextSteps(s, n).1[t] == Some(LongBlink) <==> s.edit && (s.counter + t + 1) % s.seqLen == 0)
    ensures forall t :: 0 <= t < n ==> (NextSteps(s, n).1[t].Some? <==> s.edit)
  {
    if n > 0 {
      NextStepsBlinks(s, n - 1);
      var s1 := NextSteps(s, n - 1).0;
      NextStepsState(s, n - 1);
      DivModStep(s.counter + n - 1, s.seqLen);
      assert NextSteps(s, n).1 == NextSteps(s, n - 1).1 + [NextStep(s1).1];
    }
  }

  /** In edit mode, seqLen presses of button 2 from step 0 visit every step
      and return to 0, blinking long once, on the last press. */
  lemma EditCycle(s: Sequencer)
    requires Valid(s) && s.edit && s.counter == 0
    ensures NextSteps(s, s.seqLen).0 == s
    ensures forall t :: 0 <= t < s.seqLen ==>
      (NextSteps(s, s.seqLen).1[t] == Some(LongBlink) <==> t == s.seqLen - 1)
  {
    NextStepsWrap(s, s.seqLen);
    DivModUnique(s.seqLen, s.seqLen, 1, 0);
    forall t | 0 <= t < s.seqLen
      ensures NextSteps(s, s.seqLen).1[t] == Some(LongBlink) <==> t == s.seqLen - 1
    {
      WrapIncrement(t, s.seqLen);
    }
  }

  /** get_pitch's index `int((percent - 0.001) * 37)` into the chromatic
      table: always a valid index. */
  function PitchIndex(p: Fraction): (i: nat)
    ensures i < EuroPi.ScaleSpan
  {
    EuroPi.ChromaticEntries(1);
    Quantizer.QuantizedIndexInRange(p, EuroPi.ScaleTable(EuroPi.Chromatic, 1));
    Quantizer.QuantizedIndex(p, EuroPi.ScaleSpan)
  }

  /** get_pitch: the chromatic table's entry at PitchIndex, i.e. a whole
      number of semitone steps from 0 to 36. */
  function GetPitch(p: Fraction, unit: int): (r: int)
    ensures r in EuroPi.ScaleTable(EuroPi.Chromatic, unit)
    ensures r == EuroPi.Pitch(PitchIndex(p), unit)
  {
    EuroPi.ChromaticEntries(unit);
    EuroPi.ScaleTable(EuroPi.Chromatic, unit)[PitchIndex(p)]
  }

  /** A further knob position never gives a lower pitch. */
  lemma GetPitchMonotone(p: Fraction, q: Fraction, unit: int)
    requires p <= q && unit > 0
    ensures GetPitch(p, unit) <= GetPitch(q, unit)
  {
    Quantizer.QuantizedIndexMonotone(p, q, EuroPi.ScaleSpan);
    if PitchIndex(p) < PitchIndex(q) {
      EuroPi.PitchMono(PitchIndex(p), PitchIndex(q), unit);
    }
  }

  /** get_velocity: `(value >> 9) << 9`, the reading with its low nine bits
      cleared: the multiple of 512 at or just below it. */
  function GetVelocity(v: U16): (r: U16)
    ensures r % VelocityQuantum == 0
    ensures r <= v < r + VelocityQuantum
  {
    (v / VelocityQuantum) * VelocityQuantum
  }

  /** Clearing the low bits twice is clearing them once, and a larger
      reading never gives a smaller velocity. */
  lemma GetVelocityProperties(v: U16, w: U16)
    ensures GetVelocity(GetVelocity(v)) == GetVelocity(v)
    ensures v <= w ==> GetVelocity(v) <= GetVelocity(w)
  {
    var r := GetVelocity(v);
    DivModUnique(r, VelocityQuantum, r / VelocityQuantum, 0);
    if v <= w {
      assert v / VelocityQuantum <= w / VelocityQuantum;
    }
  }

  /** The grid with cell [row][col] set to x. */
  function SetCell(grid: seq<seq<int>>, row: nat, col: nat, x: int): (g: seq<seq<int>>)
    requires row < |grid| && col < |grid[row]|
    ensures |g| == |grid|
    ensures forall r :: 0 <= r < |grid| ==> |g[r]| == |grid[r]|
    ensures g[row][col] == x
    ensures forall r, c :: 0 <= r < |grid| && 0 <= c < |grid[r]| && (r != row || c != col) ==> g[r][c] == grid[r][c]
  {
    grid[row := grid[row][col := x]]
  }

  /** adjust_step: write the knob's pitch into the current step of the
      current row if it differs from the last pitch written, and likewise the
      velocity. */
  function AdjustStep(s: Sequencer, p: Fraction, v: U16, unit: int): (r: Sequencer)
    requires Valid(s)
    ensures Valid(r)
    ensures r.(pitch := s.pitch, velocity := s.velocity, previousPitch := s.previousPitch,
               previousVelocity := s.previousVelocity) == s
    ensures r.previousPitch == GetPitch(p, unit) && r.previousVelocity == GetVelocity(v)
    ensures r.pitch[s.row][s.counter] ==
      (if GetPitch(p, unit) != s.previousPitch then GetPitch(p, unit) else s.pitch[s.row][s.counter])
    ensures r.velocity[s.row][s.counter] ==
      (if GetVelocity(v) != s.previousVelocity then GetVelocity(v) else s.velocity[s.row][s.counter])
    ensures forall row, col :: 0 <= row < Rows && 0 <= col < s.seqLen && (row != s.row || col != s.counter) ==>
      r.pitch[row][col] == s.pitch[row][col] && r.velocity[row][col] == s.velocity[row][col]
  {
    WriteVelocity(WritePitch(s, GetPitch(p, unit)), GetVelocity(v))
  }

  /** The pitch half of adjust_step. */
  function WritePitch(s: Sequencer, pitch: int): (r: Sequencer)
    requires Valid(s)
    ensures Valid(r)
    ensures r.(pitch := s.pitch, previousPitch := s.previousPitch) == s
    ensures r.previousPitch == pitch
    ensures r.pitch[s.row][s.counter] == (if pitch != s.previousPitch then pitch else s.pitch[s.row][s.counter])
    ensures forall row, col :: 0 <= row < Rows && 0 <= col < s.seqLen && (row != s.row || col != s.counter) ==>
      r.pitch[row][col] == s.pitch[row][col]
  {
    if pitch != s.previousPitch then
      s.(pitch := SetCell(s.pitch, s.row, s.counter, pitch), previousPitch := pitch)
    else s
  }

  /** The velocity half of adjust_step. */
  function WriteVelocity(s: Sequencer, velocity: int): (r: Sequencer)
    requires Valid(s)
    ensures Valid(r)
    ensures r.(velocity := s.velocity, previousVelocity := s.previousVelocity) == s
    ensures r.previousVelocity == velocity
    ensures r.velocity[s.row][s.counter] ==
      (if velocity != s.previousVelocity then velocity else s.velocity[s.row][s.counter])
    ensures forall row, col :: 0 <= row < Rows && 0 <= col < s.seqLen && (row != s.row || col != s.counter) ==>
      r.velocity[row][col] == s.velocity[row][col]
  {
    if velocity != s.previousVelocity then
      s.(velocity := SetCell(s.velocity, s.row, s.counter, velocity), previousVelocity := velocity)
    else s
  }

  /** With the knobs unmoved since the last adjustment, adjusting writes
      nothing, even after moving to another step. */
  lemma AdjustStepStill(s: Sequencer, p: Fraction, v: U16, unit: int)
    requires Valid(s)
    requires s.previousPitch == GetPitch(p, unit) && s.previousVelocity == GetVelocity(v)
    ensures AdjustStep(s, p, v, unit) == s
  {
  }

  /** The button callbacks: `_short1` and `_short2` are registered as the
      press callbacks, so they run at the start of every press, long or
      short; `_long1` and `_long2` run once a press is held. */
  datatype Event = Short1 | Long1 | Short2 | Long2

  /** The callback registrations of both buttons: press and long press. */
  const Registered: Pushbuttons.Handlers := Pushbuttons.Handlers(true, false, true)

  /** The event a launched callback of button 1 (or 2) raises. */
  function EventOf(button1: bool, c: Pushbuttons.Callback): (e: Option<Event>)
    ensures e.Some? <==> Pushbuttons.Registered(Registered, c)
  {
    match c
    case Press => Some(if button1 then Short1 else Short2)
    case LongPress => Some(if button1 then Long1 else Long2)
    case Release => None
  }

  /** The events a run of polls raises, in order. */
  function Events(button1: bool, cs: seq<Option<Pushbuttons.Callback>>): (es: seq<Event>)
    ensures |es| <= |cs|
  {
    if |cs| == 0 then []
    else
      var launched := Pushbuttons.Launch(Registered, cs[0]);
      var e := if launched.Some? then EventOf(button1, launched.value) else None;
      (if e.Some? then [e.value] else []) + Events(button1, cs[1..])
  }

  /** Holding a button for a long press raises its short event and then
      its long event. */
  lemma HoldRaisesShortThenLong(b: Pushbuttons.Pushbutton, level: Bit, t0: int, t1: int, button1: bool)
    requires Pushbuttons.Inv(b) && !b.oldState && Pushbuttons.Pressed(b.sense, level)
    requires t1 - t0 >= Pushbuttons.LongPressMs
    ensures Events(button1, Pushbuttons.Polls(b, [Pushbuttons.Sample(level, t0), Pushbuttons.Sample(level, t1)]).value.1)
      == if button1 then [Short1, Long1] else [Short2, Long2]
  {
    Pushbuttons.HoldIsPressThenLong(b, level, t0, t1);
    var cs: seq<Option<Pushbuttons.Callback>> := [Some(Pushbuttons.Press), Some(Pushbuttons.LongPress)];
    assert cs[1..][1..] == [];
  }

  /** What a callback does besides changing state. */
  datatype Effect = NoEffect | Played(out: Output) | Blinked(blink: Blink)

  /** The four callbacks. In edit mode: button 1 plays the step (short) or
      changes row (long), button 2 advances (short); in play mode button 1
      plays or pauses. A long press of button 2 always switches mode. */
  function Handle(s: Sequencer, e: Event): (r: (Sequencer, Effect))
    requires Valid(s)
    ensures Valid(r.0)
    ensures LedsShowMode(s) ==> LedsShowMode(r.0)
    ensures r.0.pitch == s.pitch && r.0.velocity == s.velocity
    ensures r.0.edit != s.edit <==> e == Long2
    ensures r.0.run != s.run <==> (e == Short1 && !s.edit) || (e == Long2 && (s.edit || s.run))
    ensures r.1.Played? <==> e == Short1 && s.edit
    ensures r.1.Blinked? <==> e == Short2 && s.edit
    ensures r.0.row != s.row <==> e == Long1 && s.edit
  {
    match e
    case Short1 => if s.edit then (s, Played(PlayStep(s))) else (ToggleRun(s), NoEffect)
    case Long1 => if s.edit then (ToggleRow(s), NoEffect) else (s, NoEffect)
    case Short2 =>
      if s.edit then
        var (s1, b) := NextStep(s);
        (s1, Blinked(b.value))
      else (s, NoEffect)
    case Long2 => (ToggleEdit(s), NoEffect)
  }

  /** A long press of button 2 in edit mode advances the step before it
      switches to play mode, so playing starts one step later than a bare
      mode switch would. */
  lemma LongPress2InEditAdvancesFirst(s: Sequencer)
    requires Valid(s) && s.edit
    ensures var r := Handle(Handle(s, Short2).0, Long2).0;
      && !r.edit && r.run
      && r.counter == (s.counter + 1) % s.seqLen
      && Handle(s, Long2).0.counter == s.counter
  {
    WrapIncrement(s.counter, s.seqLen);
  }

  /** A long press of button 1 in play mode plays or pauses on the press
      and then does nothing more. */
  lemma LongPress1InPlayToggles(s: Sequencer)
    requires Valid(s) && !s.edit
    ensures Handle(Handle(s, Short1).0, Long1).0 == ToggleRun(s)
  {
  }

  /** One pass of start(): when running, a clock pulse plays the step and
      advances; otherwise the knobs edit the current step. The clock wait is
      the clock's own model. */
  function LoopPass(s: Sequencer, p: Fraction, v: U16, unit: int): (r: (Sequencer, Option<Output>))
    requires Valid(s)
    ensures Valid(r.0)
    ensures r.1.Some? <==> s.run
    ensures s.run ==> r.1 == Some(PlayStep(s)) && r.0 == NextStep(s).0
    ensures !s.run ==> r.0 == AdjustStep(s, p, v, unit)
  {
    if s.run then (NextStep(s).0, Some(PlayStep(s)))
    else (AdjustStep(s, p, v, unit), None)
  }

  /** Paused in play mode, the loop still writes the knobs into the grid:
      editing depends only on the sequencer not running. */
  lemma PausedPlayModeEdits(s: Sequencer, p: Fraction, v: U16, unit: int)
    requires Valid(s) && !s.edit && !s.run
    requires GetPitch(p, unit) != s.previousPitch
    ensures LoopPass(s, p, v, unit).0.pitch[s.row][s.counter] == GetPitch(p, unit)
  {
  }

  /** Playing never changes the grids: the pass only advances the counter. */
  lemma PlayingKeepsGrids(s: Sequencer, p: Fraction, v: U16, unit: int)
    requires Valid(s) && s.run
    ensures LoopPass(s, p, v, unit).0.pitch == s.pitch
    ensures LoopPass(s, p, v, unit).0.velocity == s.velocity
    ensures LoopPass(s, p, v, unit).0.counter == (s.counter + 1) % s.seqLen
  {
  }
}
