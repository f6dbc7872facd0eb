/**
 The master clock used by the scripts: either an internal tempo read from a
 knob and smoothed over a window of the last ten readings, or an external
 pulse input whose falling edges release the wait. Two variants exist: the
 library clock (which may pulse a bus pin after each internal tick and
 whose external input is that optional bus pin) and the expander clock
 (always starts internal, never pulses, always has its external pin).
 Sleeping is not modelled: an internal tick reports the tempo its sleep
 period is computed from.
 */
module MasterClock {
  import opened Common
  import Edges

  /** Length of the smoothing window (`_run_len`). */
  const RunLen: nat := 10

  datatype Variant = Library(hasBus: bool) | Expander

  datatype Clock = Clock(
    variant: Variant,
    internal: bool,
    prevClock: Bit,
    minBpm: int,
    maxBpm: int,
    tempo: real,
    run: seq<real>)

  predicate Valid(c: Clock)
  {
    |c.run| == RunLen
  }

  /** get_internal_tempo: the knob fraction mapped linearly onto
      [min_bpm, max_bpm]. */
  function InternalTempo(minBpm: int, maxBpm: int, p: Fraction): (t: real)
    ensures minBpm <= maxBpm ==> minBpm as real <= t <= maxBpm as real
    ensures p == 0.0 ==> t == minBpm as real
    ensures p == 1.0 ==> t == maxBpm as real
  {
    FractionOfSpan(p, (maxBpm - minBpm) as real);
    p * (maxBpm - minBpm) as real + minBpm as real
  }

  /** Turning the knob up never lowers the tempo. */
  lemma InternalTempoMonotone(minBpm: int, maxBpm: int, p: Fraction, q: Fraction)
    requires minBpm <= maxBpm && p <= q
    ensures InternalTempo(minBpm, maxBpm, p) <= InternalTempo(minBpm, maxBpm, q)
  {
    RealMulNonneg(q - p, (maxBpm - minBpm) as real);
  }

  /** The library constructor. It fills the window with ten copies of one
      knob reading even when no tempo knob was given, which raises an
      AttributeError (None) -- as in the docstring's external-clock example. */
  function NewLibraryClock(knob: Option<Fraction>, hasBus: bool, minBpm: int, maxBpm: int,
                           internal: bool): (r: Option<Clock>)
    ensures r.Some? <==> knob.Some?
    ensures r.Some? ==> (Valid(r.value) && r.value.internal == internal
      && r.value.prevClock == 0 && r.value.tempo == 0.0 && r.value.variant == Library(hasBus))
    ensures r.Some? ==> forall i :: 0 <= i < RunLen ==>
      r.value.run[i] == InternalTempo(minBpm, maxBpm, knob.value)
  {
    match knob
    case None => None
    case Some(p) =>
      Some(Clock(Library(hasBus), internal, 0, minBpm, maxBpm, 0.0,
                 Repeat(InternalTempo(minBpm, maxBpm, p), RunLen)))
  }

  /** The expander constructor: starts internal, window pre-filled with ten
      copies of the first reading. */
  function NewExpanderClock(knob: Fraction, minBpm: int, maxBpm: int): (c: Clock)
    ensures Valid(c) && c.internal && c.prevClock == 0 && c.variant == Expander
    ensures forall i :: 0 <= i < RunLen ==> c.run[i] == InternalTempo(minBpm, maxBpm, knob)
  {
    Clock(Expander, true, 0, minBpm, maxBpm, 0.0, Repeat(InternalTempo(minBpm, maxBpm, knob), RunLen))
  }

  /** The window's average, the unrounded `sum(_run) / _run_len`. */
  function Mean(run: seq<real>): real
  {
    Sum(run) / RunLen as real
  }

  /** A freshly built clock averages to its first reading: no cold-start
      transient. */
  lemma FreshWindowMean(knob: Fraction, minBpm: int, maxBpm: int)
    ensures Mean(NewExpanderClock(knob, minBpm, maxBpm).run) == InternalTempo(minBpm, maxBpm, knob)
  {
    SumRepeat(InternalTempo(minBpm, maxBpm, knob), RunLen);
  }

  /** switch_clock_source: flips the source and touches nothing else. */
  function SwitchClockSource(c: Clock): (r: Clock)
    ensures r.internal == !c.internal
    ensures r.(internal := c.internal) == c
  {
    c.(internal := !c.internal)
  }

  /** Two presses of the clock switch restore the clock. */
  lemma SwitchTwice(c: Clock)
    ensures SwitchClockSource(SwitchClockSource(c)) == c
  {
  }

  /** The two knob samples of one internal tick: one feeds the window, the
      other (a second read) sets the sleep period. */
  datatype Reads = Reads(smoothed: Fraction, period: Fraction)

  /** What an internal tick produces besides the new state: the tempo its
      sleep period `(60 / tempo) / 4` is computed from, and whether a pulse
      goes out on the bus. */
  datatype Tick = Tick(periodTempo: real, pulse: bool)

  /** internal_clock_wait: drop the oldest sample, append a fresh reading,
      store the window mean; sleep on a second raw reading, not on the mean;
      pulse the bus pin only when the library clock has one. */
  function InternalClockWait(c: Clock, knob: Reads): (r: (Clock, Tick))
    requires Valid(c)
    ensures Valid(r.0)
    ensures r.0.run[..RunLen - 1] == c.run[1..]
    ensures r.0.run[RunLen - 1] == InternalTempo(c.minBpm, c.maxBpm, knob.smoothed)
    ensures r.0.tempo == Mean(r.0.run)
    ensures r.0.(tempo := c.tempo, run := c.run) == c
    ensures r.1.periodTempo == InternalTempo(c.minBpm, c.maxBpm, knob.period)
    ensures r.1.pulse <==> c.variant == Library(true)
  {
    var run := c.run[1..] + [InternalTempo(c.minBpm, c.maxBpm, knob.smoothed)];
    (c.(run := run, tempo := Sum(run) / RunLen as real),
     Tick(InternalTempo(c.minBpm, c.maxBpm, knob.period), c.variant == Library(true)))
  }

  /** A run of internal ticks. */
  function InternalTicks(c: Clock, samples: seq<Reads>): (r: Clock)
    requires Valid(c)
    ensures Valid(r)
  {
    if |samples| == 0 then c else InternalClockWait(InternalTicks(c, samples[..|samples| - 1]), samples[|samples| - 1]).0
  }

  /** The tempos a run of samples feeds into the window. */
  function Tempos(minBpm: int, maxBpm: int, samples: seq<Reads>): (ts: seq<real>)
    ensures |ts| == |samples|
    ensures forall i :: 0 <= i < |samples| ==> ts[i] == InternalTempo(minBpm, maxBpm, samples[i].smoothed)
  {
    if |samples| == 0 then []
    else Tempos(minBpm, maxBpm, samples[..|samples| - 1]) + [InternalTempo(minBpm, maxBpm, samples[|samples| - 1].smoothed)]
  }

  /** The window is a FIFO of length ten: after n ticks it holds the last ten
      of (initial window ++ new tempos), and the bpm range never changes. */
  lemma {:induction false} WindowIsFifo(c: Clock, samples: seq<Reads>)
    requires Valid(c)
    ensures InternalTicks(c, samples).run == (c.run + Tempos(c.minBpm, c.maxBpm, samples))[|samples|..]
    ensures InternalTicks(c, samples).minBpm == c.minBpm && InternalTicks(c, samples).maxBpm == c.maxBpm
  {
    if |samples| > 0 {
      var n := |samples|;
      WindowIsFifo(c, samples[..n - 1]);
      var before := InternalTicks(c, samples[..n - 1]);
      var after := InternalClockWait(before, samples[n - 1]).0;
      var t := InternalTempo(c.minBpm, c.maxBpm, samples[n - 1].smoothed);
      var prev := c.run + Tempos(c.minBpm, c.maxBpm, samples[..n - 1]);
      assert InternalTicks(c, samples) == after;
      assert after.run == before.run[1..] + [t] by {
        assert after.run == after.run[..RunLen - 1] + [after.run[RunLen - 1]];
      }
      assert c.run + Tempos(c.minBpm, c.maxBpm, samples) == prev + [t];
      ShiftIn(prev, t, n - 1);
    }
  }

  /** Shifting a window over `prev` one place and appending `t` gives the
      same window over `prev + [t]` one place further on. */
  lemma ShiftIn(prev: seq<real>, t: real, k: nat)
    requires k < |prev|
    ensures prev[k..][1..] + [t] == (prev + [t])[k + 1..]
  {
    assert prev[k..][1..] == prev[k + 1..];
  }

  /** After at least ten ticks the window holds exactly the last ten tempo
      readings, and the stored tempo is their mean. */
  lemma WindowAfterTenTicks(c: Clock, samples: seq<Reads>)
    requires Valid(c) && |samples| >= RunLen
    ensures InternalTicks(c, samples).run == Tempos(c.minBpm, c.maxBpm, samples)[|samples| - RunLen..]
    ensures InternalTicks(c, samples).tempo == Mean(Tempos(c.minBpm, c.maxBpm, samples)[|samples| - RunLen..])
  {
    WindowIsFifo(c, samples);
    var ts := Tempos(c.minBpm, c.maxBpm, samples);
    assert (c.run + ts)[|samples|..] == ts[|samples| - RunLen..];
  }

  /** One poll of the external wait loop: whether the clock switch fired
      since the previous check, and the level read from the clock pin. */
  datatype Poll = Poll(switched: bool, level: Bit)

  datatype WaitEnd =
    | FallingEdge      // the tracked level went back to 0
    | BackToInternal   // the mode became internal; no edge
    | StillWaiting     // the polls ran out
    | NoClockPin       // library clock without a bus pin: AttributeError

  /** external_clock_wait: while the mode is external, poll the clock pin and
      track its level; return when the tracked level changes back to 0. */
  function ExternalClockWait(c: Clock, polls: seq<Poll>): (r: (Clock, WaitEnd, nat))
    ensures r.2 <= |polls|
    ensures r.1 == StillWaiting ==> r.2 == |polls|
    ensures r.1 == FallingEdge ==> 1 <= r.2 && polls[r.2 - 1].level == 0 && r.0.prevClock == 0
    ensures r.1 == BackToInternal ==> r.0.internal
    ensures r.1 in {FallingEdge, StillWaiting, NoClockPin} ==> !r.0.internal
    ensures r.0.run == c.run && r.0.tempo == c.tempo && r.0.variant == c.variant
    ensures r.0.minBpm == c.minBpm && r.0.maxBpm == c.maxBpm
    decreases |polls|
  {
    if |polls| == 0 then
      if c.internal then (c, BackToInternal, 0) else (c, StillWaiting, 0)
    else
      var c1 := if polls[0].switched then SwitchClockSource(c) else c;
      if c1.internal then (c1, BackToInternal, 1)
      else if c1.variant == Library(false) then (c1, NoClockPin, 1)
      else
        var (p, changed) := Edges.Track(c1.prevClock, polls[0].level);
        var c2 := c1.(prevClock := p);
        if changed && p == 0 then (c2, FallingEdge, 1)
        else
          var rest := ExternalClockWait(c2, polls[1..]);
          (rest.0, rest.1, rest.2 + 1)
  }

  /** The tracked level starts at 0 at construction, so the first external
      wait spans a whole pulse: a falling edge needs the tracked level to have
      been 1, and the wait cannot return on its first poll. */
  lemma NoEdgeFromLowOnFirstPoll(c: Clock, polls: seq<Poll>)
    requires !c.internal && c.prevClock == 0 && |polls| > 0 && !polls[0].switched
    ensures ExternalClockWait(c, polls).1 != FallingEdge || ExternalClockWait(c, polls).2 > 1
  {
  }

  /** With the source held external and a clock pin present, the wait is the
      falling-edge wait over the pin levels. */
  lemma ExternalWaitIsFallingEdge(c: Clock, polls: seq<Poll>)
    requires !c.internal && c.variant != Library(false)
    requires forall i :: 0 <= i < |polls| ==> !polls[i].switched
    ensures var w := Edges.WaitFalling(c.prevClock, Levels(polls));
      && ExternalClockWait(c, polls).2 == w.consumed
      && ExternalClockWait(c, polls).0.prevClock == w.prev
      && (ExternalClockWait(c, polls).1 == FallingEdge <==> w.returned)
    decreases |polls|
  {
    if |polls| > 0 {
      var p := Edges.Track(c.prevClock, polls[0].level).0;
      assert Levels(polls)[1..] == Levels(polls[1..]);
      ExternalWaitIsFallingEdge(c.(prevClock := p), polls[1..]);
    }
  }

  function Levels(polls: seq<Poll>): (ls: seq<Bit>)
    ensures |ls| == |polls|
    ensures forall i :: 0 <= i < |polls| ==> ls[i] == polls[i].level
  {
    if |polls| == 0 then [] else [polls[0].level] + Levels(polls[1..])
  }

  datatype WaitResult = Ticked(tick: Tick) | Waited(end: WaitEnd, polled: nat)

  /** wait: an internal tick in internal mode, the external wait otherwise. */
  function Wait(c: Clock, knob: Reads, polls: seq<Poll>): (r: (Clock, WaitResult))
    requires Valid(c)
    ensures Valid(r.0)
    ensures c.internal <==> r.1.Ticked?
    ensures c.internal ==> (r.0.run[RunLen - 1] == InternalTempo(c.minBpm, c.maxBpm, knob.smoothed)
      && r.0.prevClock == c.prevClock && r.0.internal)
    ensures !c.internal ==> r.0.run == c.run && r.0.tempo == c.tempo
  {
    if c.internal then
      var (c2, tick) := InternalClockWait(c, knob);
      (c2, Ticked(tick))
    else
      var (c2, end, n) := ExternalClockWait(c, polls);
      (c2, Waited(end, n))
  }
}
