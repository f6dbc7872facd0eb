/**
 The arpeggiator: nine scales built with create_scale, each walked by a
 step counter with a direction flag. Every clock step the script advances
 the step, restarts the scale when the octave-range knob moved, and writes
 four voices (ascending, descending, up-and-down, random) and four gates.
 The random choice is an input: `pick` selects `pick mod len`.
 */
module Arpeggiator {
  import opened Common
  import EuroPi
  import QuantizerScales
  import MasterClock

  const MinBpm: int := 20
  const MaxBpm: int := 500

  /** The EuroPi's outputs span three octaves. */
  const OctaveRange: int := 3

  /** A selectable octave range. */
  type Octaves = r: int | 1 <= r <= OctaveRange witness 1

  /** Step patterns of the nine scales, in button order. The chromatic
      entry is `range(1, 12)`, steps 1 to 11. */
  const ArpPatterns: seq<seq<int>> := [
    [1, 3, 5, 6, 8, 10, 12],                // Major scale
    [1, 3, 4, 6, 8, 9, 11],                 // Minor scale
    [1, 5, 8],                              // Major triad
    [1, 4, 8],                              // Minor triad
    [1, 3, 5, 6, 8],                        // Major pentatonic
    [1, 4, 5, 6, 9],                        // Minor pentatonic
    [1, 2, 3, 4, 5, 6, 7, 8, 9, 10, 11],    // Chromatic scale
    [1],                                    // Octave
    [1, 12]                                 // Octave + 7th
  ]

  /** Which of the nine scales add the octave note to a shortened range. */
  const IncludeOctave: seq<bool> := [true, true, false, false, false, false, true, true, false]

  const ScaleCount: nat := 9

  /** A scale: its notes, whether to add the octave note, and its
      sequence position (step and the direction of the up-and-down voice). */
  datatype Scale = Scale(notes: seq<int>, includeOctave: bool, step: nat, biForward: bool)

  /** `(len(notes) / 3) * octave_range`. The range is 1, 2 or 3, so the
      product is spelled out as a sum of thirds. */
  function OctavesOf(third: real, r: Octaves): real
  {
    if r == 1 then third else if r == 2 then third + third else third + third + third
  }

  /** `__len__`: the notes of `octave_range` octaves out of three, plus the
      octave note when the scale asks for it, never more than all notes. */
  function Len(s: Scale, r: Octaves): (n: nat)
    ensures n <= |s.notes|
    ensures r == OctaveRange ==> n == |s.notes|
  {
    var length := Trunc(OctavesOf(|s.notes| as real / 3.0, r)) + (if s.includeOctave then 1 else 0);
    if length < |s.notes| then length else |s.notes|
  }

  /** A wider range never plays fewer notes. */
  lemma LenMonotone(s: Scale, r1: Octaves, r2: Octaves)
    requires r1 <= r2
    ensures Len(s, r1) <= Len(s, r2)
  {
    var x := |s.notes| as real / 3.0;
    TruncMonotone(OctavesOf(x, r1), OctavesOf(x, r2));
  }

  /** A table of 3L + 1 notes (three octaves of L steps and the top octave
      note) plays r L notes, plus the octave note if asked, over r < 3
      octaves, and all of them over three. */
  lemma LenOfThreeOctaves(s: Scale, l: nat, r: Octaves)
    requires |s.notes| == 3 * l + 1
    ensures Len(s, r) == if r == OctaveRange then 3 * l + 1
                          else r * l + (if s.includeOctave then 1 else 0)
  {
    var x := |s.notes| as real / 3.0;
    assert x == l as real + 1.0 / 3.0;
    if r == 1 {
      assert Trunc(x) == l;
    } else if r == 2 {
      assert Trunc(x + x) == 2 * l;
    }
  }

  /** The table create_scale builds for a pattern starting on step 1 has
      three octaves of the pattern and the top octave note. */
  lemma PatternTableLength(pattern: seq<int>, unit: int)
    requires QuantizerScales.ValidPattern(pattern) && pattern[0] == 1
    ensures |EuroPi.ScaleTable(pattern, unit)| == 3 * |pattern| + 1
  {
    EuroPi.TableLength(pattern, unit, EuroPi.ScaleSpan);
    QuantizerScales.CountByOctaves(pattern, EuroPi.ScaleSpan);
    QuantizerScales.BelowNext(pattern, 0);
    QuantizerScales.BelowNone(pattern, 0);
  }

  /** The nine scales as the script builds them, at their initial position. */
  function ArpScale(i: nat, unit: int): (s: Scale)
    requires i < ScaleCount
    ensures |s.notes| == 3 * |ArpPatterns[i]| + 1
    ensures s.step == 0 && s.biForward
  {
    assert QuantizerScales.ValidPattern(ArpPatterns[i]);
    PatternTableLength(ArpPatterns[i], unit);
    Scale(EuroPi.ScaleTable(ArpPatterns[i], unit), IncludeOctave[i], 0, true)
  }

  /** Each of the nine scales plays at least two notes at every range. */
  lemma ArpScaleLen(i: nat, unit: int, r: Octaves)
    requires i < ScaleCount
    ensures 2 <= Len(ArpScale(i, unit), r)
  {
    LenOfThreeOctaves(ArpScale(i, unit), |ArpPatterns[i]|, r);
  }

  /** restart: back to the first step, ascending. */
  function Restart(s: Scale): (r: Scale)
    ensures r.step == 0 && r.biForward
    ensures r.notes == s.notes && r.includeOctave == s.includeOctave
  {
    s.(step := 0, biForward := true)
  }

  /** next_step over a played length of n: advance; on reaching n start
      over and reverse the up-and-down direction. */
  function Advance(s: Scale, n: nat): (t: Scale)
    ensures t.notes == s.notes && t.includeOctave == s.includeOctave
    ensures s.step < n ==> t.step < n
  {
    if s.step + 1 == n then s.(step := 0, biForward := !s.biForward)
    else s.(step := s.step + 1)
  }

  /** k calls of next_step over a played length of n. */
  function Walk(s: Scale, n: nat, k: nat): (t: Scale)
    ensures t.notes == s.notes && t.includeOctave == s.includeOctave
  {
    if k == 0 then s else Advance(Walk(s, n, k - 1), n)
  }

  /** next_step with the played length of the octave range in use. */
  function NextStep(s: Scale, r: Octaves): (t: Scale)
    ensures t.notes == s.notes && t.includeOctave == s.includeOctave
    ensures Len(t, r) == Len(s, r)
    ensures s.step + 1 == Len(s, r) ==> t.step == 0 && t.biForward == !s.biForward
    ensures s.step + 1 != Len(s, r) ==> t.step == s.step + 1 && t.biForward == s.biForward
    ensures s.step < Len(s, r) ==> t.step < Len(t, r)
  {
    Advance(s, Len(s, r))
  }

  function NextSteps(s: Scale, r: Octaves, k: nat): (t: Scale)
    ensures t.notes == s.notes && t.includeOctave == s.includeOctave
    ensures Len(t, r) == Len(s, r)
  {
    if k == 0 then s else NextStep(NextSteps(s, r, k - 1), r)
  }

  /** Steps under a fixed range walk over the length that range plays. */
  lemma {:induction false} NextStepsIsWalk(s: Scale, r: Octaves, k: nat)
    ensures NextSteps(s, r, k) == Walk(s, Len(s, r), k)
  {
    if k > 0 {
      NextStepsIsWalk(s, r, k - 1);
    }
  }

  /** From a restart, k steps of a walk over n reach step k mod n, ascending
      in even rounds of n steps and descending in odd ones. */
  lemma {:induction false} WalkPosition(s: Scale, n: nat, k: nat)
    requires s.step == 0 && s.biForward && n >= 1
    ensures Walk(s, n, k).step == k % n
    ensures Walk(s, n, k).biForward <==> (k / n) % 2 == 0
  {
    if k == 0 {
      DivModUnique(0, n, 0, 0);
      DivModUnique(0, 2, 0, 0);
    } else {
      WalkPosition(s, n, k - 1);
      DivModStep(k - 1, n);
      if (k - 1) % n + 1 == n {
        DivModStep((k - 1) / n, 2);
      }
    }
  }

  /** From a restart, k steps reach step k mod len, ascending in even rounds
      of len steps and descending in odd ones. */
  lemma NextStepsPosition(s: Scale, r: Octaves, k: nat)
    requires s.step == 0 && s.biForward && Len(s, r) >= 1
    ensures NextSteps(s, r, k).step == k % Len(s, r)
    ensures NextSteps(s, r, k).biForward <==> (k / Len(s, r)) % 2 == 0
  {
    NextStepsIsWalk(s, r, k);
    WalkPosition(s, Len(s, r), k);
  }

  /** The four voices of play. */
  datatype Voices = Voices(fwd: int, bwd: int, bi: int, rnd: int)

  /** play over a played length of n. */
  function PlayOver(s: Scale, n: nat, pick: nat): (v: Option<Voices>)
    requires n <= |s.notes|
    ensures v.Some? <==> s.step < n
    ensures v.Some? ==> v.value.fwd == s.notes[s.step]
    ensures v.Some? ==> v.value.bwd == s.notes[n - 1 - s.step]
    ensures v.Some? ==> v.value.bi == (if s.biForward then v.value.fwd else v.value.bwd)
    ensures v.Some? ==> v.value.rnd in s.notes[..n]
  {
    var played := s.notes[..n];
    var fwd := PyIndex(s.notes, s.step);
    var bwd := PyIndex(played, 0 - s.step - 1);
    if fwd.None? || bwd.None? || n == 0 then None
    else
      var bi := if s.biForward then fwd.value else bwd.value;
      Some(Voices(fwd.value, bwd.value, bi, played[pick % n]))
  }

  /** play: the note at the step, the note as far from the end of the
      played notes, one of the two by direction, and a chosen played note.
      None is the IndexError of a step at or past the length. */
  function Play(s: Scale, r: Octaves, pick: nat): (v: Option<Voices>)
    ensures v.Some? <==> s.step < Len(s, r)
    ensures v.Some? ==> v.value.fwd == s.notes[s.step]
    ensures v.Some? ==> v.value.bwd == s.notes[Len(s, r) - 1 - s.step]
    ensures v.Some? ==> v.value.bi == (if s.biForward then v.value.fwd else v.value.bwd)
    ensures v.Some? ==> v.value.rnd in s.notes[..Len(s, r)]
  {
    PlayOver(s, Len(s, r), pick)
  }

  /** Indexing the two-round voice patterns: position k of the first two
      rounds is element j of a round, j = k or k - |up|. */
  lemma TwoRoundsIndex(up: seq<int>, k: nat)
    requires k < 2 * |up|
    ensures var j := if k < |up| then k else k - |up|;
      && (up + up)[k] == up[j]
      && (Reverse(up) + Reverse(up))[k] == up[|up| - 1 - j]
      && (up + Reverse(up))[k] == (if k < |up| then up[j] else up[|up| - 1 - j])
  {
    RoundsIndex(up, Reverse(up), k);
  }

  /** The same over any `down` that lists `up` backwards, kept apart from
      Reverse's recursive definition. */
  lemma RoundsIndex(up: seq<int>, down: seq<int>, k: nat)
    requires |down| == |up| && k < 2 * |up|
    requires forall i :: 0 <= i < |up| ==> down[i] == up[|up| - 1 - i]
    ensures var j := if k < |up| then k else k - |up|;
      && (up + up)[k] == up[j]
      && (down + down)[k] == up[|up| - 1 - j]
      && (up + down)[k] == (if k < |up| then up[j] else up[|up| - 1 - j])
  {
    var j := if k < |up| then k else k - |up|;
    assert down[j] == up[|up| - 1 - j];
  }

  /** Position k of the first two rounds of a walk from a restart: step k
      ascending in the first round, step k - n descending in the second. */
  lemma WalkFirstRounds(s: Scale, n: nat, k: nat)
    requires s.step == 0 && s.biForward && n >= 1
    requires k < 2 * n
    ensures Walk(s, n, k).step == (if k < n then k else k - n)
    ensures Walk(s, n, k).biForward <==> k < n
  {
    WalkPosition(s, n, k);
    if k < n {
      DivModUnique(k, n, 0, k);
      DivModUnique(0, 2, 0, 0);
    } else {
      DivModUnique(k, n, 1, k - n);
      DivModUnique(1, 2, 0, 1);
    }
  }

  /** The voices of a scale standing at position k of the first two rounds
      over n: step k ascending, or step k - n descending. */
  lemma PlayInRounds(t: Scale, n: nat, pick: nat, k: nat)
    requires 1 <= n <= |t.notes| && k < 2 * n
    requires t.step == (if k < n then k else k - n) && (t.biForward <==> k < n)
    ensures var up := t.notes[..n];
      && PlayOver(t, n, pick).Some?
      && PlayOver(t, n, pick).value.bi == (up + Reverse(up))[k]
      && PlayOver(t, n, pick).value.fwd == (up + up)[k]
      && PlayOver(t, n, pick).value.bwd == (Reverse(up) + Reverse(up))[k]
  {
    var up := t.notes[..n];
    TwoRoundsIndex(up, k);
    var j := t.step;
    assert up[j] == t.notes[j] && up[n - 1 - j] == t.notes[n - 1 - j];
  }

  /** The voices at position k of the first two rounds of a walk over n
      from a restart. */
  lemma WalkPlay(s: Scale, n: nat, pick: nat, k: nat)
    requires s.step == 0 && s.biForward && 1 <= n <= |s.notes|
    requires k < 2 * n
    ensures var up := s.notes[..n];
      && PlayOver(Walk(s, n, k), n, pick).Some?
      && PlayOver(Walk(s, n, k), n, pick).value.bi == (up + Reverse(up))[k]
      && PlayOver(Walk(s, n, k), n, pick).value.fwd == (up + up)[k]
      && PlayOver(Walk(s, n, k), n, pick).value.bwd == (Reverse(up) + Reverse(up))[k]
  {
    WalkFirstRounds(s, n, k);
    PlayInRounds(Walk(s, n, k), n, pick, k);
  }

  /** The voices at position k of the first two rounds after a restart. */
  lemma PlayInFirstRounds(s: Scale, r: Octaves, pick: nat, k: nat)
    requires s.step == 0 && s.biForward && Len(s, r) >= 1
    requires k < 2 * Len(s, r)
    ensures var n := Len(s, r);
      var up := s.notes[..n];
      && Play(NextSteps(s, r, k), r, pick).Some?
      && Play(NextSteps(s, r, k), r, pick).value.bi == (up + Reverse(up))[k]
      && Play(NextSteps(s, r, k), r, pick).value.fwd == (up + up)[k]
      && Play(NextSteps(s, r, k), r, pick).value.bwd == (Reverse(up) + Reverse(up))[k]
  {
    NextStepsIsWalk(s, r, k);
    WalkPlay(s, Len(s, r), pick, k);
  }

  /** Over the 2 len positions after a restart, the up-and-down voice plays
      the played notes up and then down again (1 2 3 3 2 1), the ascending
      voice plays them up twice and the descending voice down twice. */
  lemma BiPattern(s: Scale, r: Octaves, pick: nat)
    requires s.step == 0 && s.biForward && Len(s, r) >= 1
    ensures var n := Len(s, r);
      var up := s.notes[..n];
      forall k :: 0 <= k < 2 * n ==>
        && Play(NextSteps(s, r, k), r, pick).Some?
        && Play(NextSteps(s, r, k), r, pick).value.bi == (up + Reverse(up))[k]
        && Play(NextSteps(s, r, k), r, pick).value.fwd == (up + up)[k]
        && Play(NextSteps(s, r, k), r, pick).value.bwd == (Reverse(up) + Reverse(up))[k]
  {
    forall k | 0 <= k < 2 * Len(s, r)
      ensures Play(NextSteps(s, r, k), r, pick).Some?
    {
      PlayInFirstRounds(s, r, pick, k);
    }
    forall k | 0 <= k < 2 * Len(s, r)
      ensures var up := s.notes[..Len(s, r)];
        && Play(NextSteps(s, r, k), r, pick).value.bi == (up + Reverse(up))[k]
        && Play(NextSteps(s, r, k), r, pick).value.fwd == (up + up)[k]
        && Play(NextSteps(s, r, k), r, pick).value.bwd == (Reverse(up) + Reverse(up))[k]
    {
      PlayInFirstRounds(s, r, pick, k);
    }
  }

  /** After two rounds the scale is back at its restart state. */
  lemma TwoRoundsRestart(s: Scale, r: Octaves)
    requires s.step == 0 && s.biForward && Len(s, r) >= 1
    ensures NextSteps(s, r, 2 * Len(s, r)) == s
  {
    var n := Len(s, r);
    NextStepsPosition(s, r, 2 * n);
    DivModUnique(2 * n, n, 2, 0);
    DivModUnique(2, 2, 1, 0);
  }

  /** get_octave_range: `int(percent * 3 - 0.0001) + 1`. */
  function GetOctaveRange(p: Fraction): (r: Octaves)
    ensures (r - 1) as real <= p * 3.0
    ensures p * 3.0 - 0.0001 < r as real
  {
    Trunc(p * 3.0 - 0.0001) + 1
  }

  /** A larger knob reading never selects fewer octaves, and the extremes
      select one and three octaves. */
  lemma OctaveRangeMonotone(p: Fraction, q: Fraction)
    ensures p <= q ==> GetOctaveRange(p) <= GetOctaveRange(q)
    ensures GetOctaveRange(0.0) == 1 && GetOctaveRange(1.0) == OctaveRange
  {
    if p <= q {
      TruncMonotone(p * 3.0 - 0.0001, q * 3.0 - 0.0001);
    }
  }

  /** The four gates of a step: digital 1 always; digital 2 on step 0;
      digitals 3 and 4 on multiples of 3 and 4. */
  datatype Gates = Gates(d1: bool, d2: bool, d3: bool, d4: bool)

  function StepGates(step: nat): (g: Gates)
    ensures g.d1
    ensures g.d2 <==> step == 0
    ensures g.d3 <==> step % 3 == 0
    ensures g.d4 <==> step % 4 == 0
    ensures g.d2 ==> g.d3 && g.d4
    ensures g.d3 && g.d4 <==> step % 12 == 0
  {
    var q := step / 12;
    DivModUnique(step, 3, 4 * q + (step % 12) / 3, (step % 12) % 3);
    DivModUnique(step, 4, 3 * q + (step % 12) / 4, (step % 12) % 4);
    Gates(true, step == 0, step % 3 == 0, step % 4 == 0)
  }

  /** The script's state: the nine scales, the selected one, and the octave
      range in use (`octave_range`, equal to `prev_octave_range` between
      passes). */
  datatype Arp = Arp(scales: seq<Scale>, current: nat, octaves: Octaves)

  /** The scales are the nine built ones (positions aside), one is
      selected, and the selected one's step is inside its length. */
  predicate Valid(a: Arp, unit: int)
  {
    && |a.scales| == ScaleCount
    && a.current < ScaleCount
    && (forall i :: 0 <= i < ScaleCount ==>
          a.scales[i].notes == ArpScale(i, unit).notes && a.scales[i].includeOctave == IncludeOctave[i])
    && a.scales[a.current].step < Len(a.scales[a.current], a.octaves)
  }

  /** Start-up: the major scale at its first step, the range from knob 2. */
  function Init(unit: int, rangeKnob: Fraction): (a: Arp)
    ensures Valid(a, unit)
    ensures a.current == 0 && a.octaves == GetOctaveRange(rangeKnob)
    ensures forall i :: 0 <= i < ScaleCount ==> a.scales[i].step == 0 && a.scales[i].biForward
  {
    var a := Arp(seq(ScaleCount, i requires 0 <= i < ScaleCount => ArpScale(i, unit)), 0, GetOctaveRange(rangeKnob));
    ArpScaleLen(0, unit, a.octaves);
    a
  }

  /** The button handler next_scale: select the next of the nine scales,
      cyclically, and restart it. */
  function NextScale(a: Arp, unit: int): (b: Arp)
    requires Valid(a, unit)
    ensures Valid(b, unit)
    ensures b.current == (a.current + 1) % ScaleCount
    ensures b.scales[b.current].step == 0 && b.scales[b.current].biForward
    ensures b.octaves == a.octaves
  {
    var next := (a.current + 1) % ScaleCount;
    ArpScaleLen(next, unit, a.octaves);
    a.(scales := a.scales[next := Restart(a.scales[next])], current := next)
  }

  /** What one pass writes: the tempo it sleeps by, the voices, the gates. */
  datatype Pass = Pass(tempo: real, voices: Voices, gates: Gates)

  /** One pass of the main loop: advance the selected scale with the range in
      use, read the range knob and restart on a change, then play. */
  function Iteration(a: Arp, unit: int, tempoKnob: Fraction, rangeKnob: Fraction, pick: nat): (r: (Arp, Pass))
    requires Valid(a, unit)
    ensures Valid(r.0, unit)
    ensures r.0.current == a.current && r.0.octaves == GetOctaveRange(rangeKnob)
    ensures GetOctaveRange(rangeKnob) != a.octaves ==>
      r.0.scales[a.current].step == 0 && r.0.scales[a.current].biForward
    ensures GetOctaveRange(rangeKnob) == a.octaves ==>
      r.0.scales[a.current] == NextStep(a.scales[a.current], a.octaves)
    ensures MinBpm as real <= r.1.tempo <= MaxBpm as real
    ensures Play(r.0.scales[a.current], r.0.octaves, pick) == Some(r.1.voices)
    ensures r.1.gates == StepGates(r.0.scales[a.current].step)
  {
    var s := NextStep(a.scales[a.current], a.octaves);
    var tempo := MasterClock.InternalTempo(MinBpm, MaxBpm, tempoKnob);
    var octaves := GetOctaveRange(rangeKnob);
    var s' := if octaves != a.octaves then Restart(s) else s;
    ArpScaleLen(a.current, unit, octaves);
    var voices := Play(s', octaves, pick).value;
    (a.(scales := a.scales[a.current := s'], octaves := octaves), Pass(tempo, voices, StepGates(s'.step)))
  }
}
