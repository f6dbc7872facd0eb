/**
 The EuroPi library's scale-table construction and strum helper.

 A scale table is built by scanning the 37 chromatic positions of three
 octaves plus the closing octave note; position i has pitch i * unit and the
 1-based in-octave step (i mod 12) + 1. The table keeps, in scan order, the
 pitches of the positions whose step is in the pattern. The chromatic step
 is a float in the library; here it is an abstract positive integer `unit`.
 */
module EuroPi {
  import opened Common

  /** Chromatic positions scanned by create_scale: three octaves and the top note. */
  const ScaleSpan: nat := 37

  /** create_scale's `step` counter at chromatic position i: it cycles 1..12. */
  function StepOf(i: nat): (s: int)
    ensures 1 <= s <= 12
  {
    i % 12 + 1
  }

  /** The step counter advances by one and wraps from 13 back to 1. */
  lemma StepOfNext(i: nat)
    ensures StepOf(i + 1) == (if StepOf(i) + 1 == 13 then 1 else StepOf(i) + 1)
  {
  }

  /** create_scale's `pitch` after i chromatic increments of `unit`. */
  function Pitch(i: nat, unit: int): int
  {
    if i == 0 then 0 else Pitch(i - 1, unit) + unit
  }

  /** Position i has pitch i * unit. */
  lemma {:induction false} PitchIsMultiple(i: nat, unit: int)
    ensures Pitch(i, unit) == i * unit
  {
    if i > 0 {
      PitchIsMultiple(i - 1, unit);
      assert (i - 1) * unit + unit == i * unit;
    }
  }

  /** Pitches grow strictly with the position. */
  lemma {:induction false} PitchMono(i: nat, j: nat, unit: int)
    requires unit > 0
    ensures 0 <= Pitch(i, unit)
    ensures i < j ==> Pitch(i, unit) < Pitch(j, unit)
  {
    if i > 0 {
      PitchMono(i - 1, j, unit);
    }
    if i < j {
      PitchMono(i, j - 1, unit);
    }
  }

  predicate Included(pattern: seq<int>, i: nat)
  {
    StepOf(i) in pattern
  }

  /** Pitches of the kept positions among the first n, in scan order. */
  function Table(pattern: seq<int>, unit: int, n: nat): seq<int>
  {
    if n == 0 then []
    else Table(pattern, unit, n - 1) + (if Included(pattern, n - 1) then [Pitch(n - 1, unit)] else [])
  }

  /** The finished scale table for a step pattern. */
  function ScaleTable(pattern: seq<int>, unit: int): seq<int>
  {
    Table(pattern, unit, ScaleSpan)
  }

  /** Number of kept positions among the first n. */
  function CountIncluded(pattern: seq<int>, n: nat): (c: nat)
    ensures c <= n
  {
    if n == 0 then 0 else CountIncluded(pattern, n - 1) + (if Included(pattern, n - 1) then 1 else 0)
  }

  predicate StrictlyIncreasing(s: seq<int>)
  {
    forall a, b :: 0 <= a < b < |s| ==> s[a] < s[b]
  }

  /** create_scale's while loop: pitch advances by the chromatic step, the
      step counter wraps from 13 to 1, and a pitch is kept when its step is
      in the pattern. */
  method CreateScale(pattern: seq<int>, unit: int) returns (scale: seq<int>)
    requires unit > 0
    ensures scale == ScaleTable(pattern, unit)
    ensures |scale| == CountIncluded(pattern, ScaleSpan)
  {
    scale := [];
    var pitch := 0;
    var step := 1;
    ghost var i: nat := 0;
    PitchMono(i, ScaleSpan, unit);
    while pitch < Pitch(ScaleSpan, unit)
      invariant i <= ScaleSpan
      invariant pitch == Pitch(i, unit)
      invariant step == StepOf(i)
      invariant scale == Table(pattern, unit, i)
      invariant |scale| == CountIncluded(pattern, i)
      decreases ScaleSpan - i
    {
      if i == ScaleSpan {
        assert false;
      }
      if step in pattern {
        scale := scale + [pitch];
      }
      pitch := pitch + unit;
      step := step + 1;
      if step == 13 {
        step := 1;
      }
      StepOfNext(i);
      i := i + 1;
      PitchMono(i, ScaleSpan, unit);
      PitchMono(ScaleSpan, i, unit);
    }
    if i < ScaleSpan {
      PitchMono(i, ScaleSpan, unit);
    }
  }

  /** x is the pitch of a kept position below n. */
  ghost predicate KeptPitch(pattern: seq<int>, unit: int, n: nat, x: int)
  {
    exists i: nat :: i < n && Included(pattern, i) && x == Pitch(i, unit)
  }

  /** Every entry of the first-n table is the pitch of a kept position below n. */
  lemma {:induction false} TableEntries(pattern: seq<int>, unit: int, n: nat)
    ensures forall k :: 0 <= k < |Table(pattern, unit, n)| ==>
      KeptPitch(pattern, unit, n, Table(pattern, unit, n)[k])
  {
    if n > 0 {
      TableEntries(pattern, unit, n - 1);
      var t := Table(pattern, unit, n);
      var p := Table(pattern, unit, n - 1);
      forall k | 0 <= k < |t|
        ensures KeptPitch(pattern, unit, n, t[k])
      {
        if k < |p| {
          assert t[k] == p[k];
          assert KeptPitch(pattern, unit, n - 1, p[k]);
          var i: nat :| i < n - 1 && Included(pattern, i) && p[k] == Pitch(i, unit);
          assert i < n && Included(pattern, i) && t[k] == Pitch(i, unit);
        } else {
          assert Included(pattern, n - 1) && t[k] == Pitch(n - 1, unit);
        }
      }
    }
  }

  /** Entries of the first-n table lie in [0, Pitch(n)). */
  lemma TableBounds(pattern: seq<int>, unit: int, n: nat)
    requires unit > 0
    ensures forall k :: 0 <= k < |Table(pattern, unit, n)| ==>
      0 <= Table(pattern, unit, n)[k] < Pitch(n, unit)
  {
    TableEntries(pattern, unit, n);
    var t := Table(pattern, unit, n);
    forall k | 0 <= k < |t|
      ensures 0 <= t[k] < Pitch(n, unit)
    {
      assert KeptPitch(pattern, unit, n, t[k]);
      var i: nat :| i < n && Included(pattern, i) && t[k] == Pitch(i, unit);
      PitchMono(i, n, unit);
    }
  }

  /** The table is strictly increasing: positions are scanned in increasing
      order and pitch grows with the position. */
  lemma {:induction false} TableIncreasing(pattern: seq<int>, unit: int, n: nat)
    requires unit > 0
    ensures StrictlyIncreasing(Table(pattern, unit, n))
  {
    if n > 0 {
      TableIncreasing(pattern, unit, n - 1);
      TableBounds(pattern, unit, n - 1);
    }
  }

  /** Position i (i < n) is in the table iff its in-octave step is in the pattern. */
  lemma {:induction false} TableMembership(pattern: seq<int>, unit: int, n: nat, i: nat)
    requires unit > 0
    requires i < n
    ensures Pitch(i, unit) in Table(pattern, unit, n) <==> Included(pattern, i)
  {
    var p := Table(pattern, unit, n - 1);
    TableBounds(pattern, unit, n - 1);
    if i < n - 1 {
      TableMembership(pattern, unit, n - 1, i);
      PitchMono(i, n - 1, unit);
      assert Table(pattern, unit, n) == p || Table(pattern, unit, n) == p + [Pitch(n - 1, unit)];
    } else {
      assert Pitch(n - 1, unit) !in p;
    }
  }

  /** The finished table: strictly increasing, position i (pitch i * unit)
      kept iff (i mod 12) + 1 is in the pattern, and one entry per kept
      position. */
  lemma ScaleTableShape(pattern: seq<int>, unit: int)
    requires unit > 0
    ensures StrictlyIncreasing(ScaleTable(pattern, unit))
    ensures |ScaleTable(pattern, unit)| == CountIncluded(pattern, ScaleSpan)
    ensures forall i: nat :: i < ScaleSpan ==>
      (i * unit in ScaleTable(pattern, unit) <==> (i % 12) + 1 in pattern)
  {
    TableIncreasing(pattern, unit, ScaleSpan);
    TableLength(pattern, unit, ScaleSpan);
    forall i: nat | i < ScaleSpan
      ensures i * unit in ScaleTable(pattern, unit) <==> (i % 12) + 1 in pattern
    {
      TableMembership(pattern, unit, ScaleSpan, i);
      PitchIsMultiple(i, unit);
    }
  }

  lemma {:induction false} TableLength(pattern: seq<int>, unit: int, n: nat)
    ensures |Table(pattern, unit, n)| == CountIncluded(pattern, n)
  {
    if n > 0 {
      TableLength(pattern, unit, n - 1);
    }
  }

  /** With every step 1..12 in the pattern, every position is kept. */
  lemma {:induction false} FullPatternCount(pattern: seq<int>, n: nat)
    requires forall s :: 1 <= s <= 12 ==> s in pattern
    ensures CountIncluded(pattern, n) == n
  {
    if n > 0 {
      FullPatternCount(pattern, n - 1);
      assert Included(pattern, n - 1);
    }
  }

  /** The step pattern that keeps every position (`range(1, 13)`). */
  const Chromatic: seq<int> := [1, 2, 3, 4, 5, 6, 7, 8, 9, 10, 11, 12]

  /** A pattern holding every step keeps position i at index i. */
  lemma {:induction false} FullTableEntries(pattern: seq<int>, unit: int, n: nat)
    requires forall s :: 1 <= s <= 12 ==> s in pattern
    ensures |Table(pattern, unit, n)| == n
    ensures forall i :: 0 <= i < n ==> Table(pattern, unit, n)[i] == Pitch(i, unit)
  {
    if n > 0 {
      FullTableEntries(pattern, unit, n - 1);
      assert Included(pattern, n - 1);
    }
  }

  /** The chromatic table is every position's pitch, in order. */
  lemma ChromaticEntries(unit: int)
    ensures |ScaleTable(Chromatic, unit)| == ScaleSpan
    ensures forall i :: 0 <= i < ScaleSpan ==> ScaleTable(Chromatic, unit)[i] == Pitch(i, unit)
  {
    forall s | 1 <= s <= 12
      ensures s in Chromatic
    {
      assert Chromatic[s - 1] == s;
    }
    FullTableEntries(Chromatic, unit, ScaleSpan);
  }

  /** A prefix table is a prefix of every longer one. */
  lemma {:induction false} TablePrefix(pattern: seq<int>, unit: int, m: nat, n: nat)
    requires m <= n
    ensures Table(pattern, unit, m) <= Table(pattern, unit, n)
  {
    if m < n {
      TablePrefix(pattern, unit, m, n - 1);
    }
  }

  /** A pattern holding step 1 starts its table at pitch 0. */
  lemma FirstEntryIsZero(pattern: seq<int>, unit: int)
    requires 1 in pattern
    ensures |ScaleTable(pattern, unit)| > 0 && ScaleTable(pattern, unit)[0] == 0
  {
    assert Table(pattern, unit, 1) == [0];
    TablePrefix(pattern, unit, 1, ScaleSpan);
  }

  /** strum as written: with one note per pluck it plays `range(0, count-1)`,
      i.e. every note but the last; with a count mismatch it only reports an
      error (None). */
  function StrumAsWritten(count: int, notes: seq<int>): (plucks: Option<seq<int>>)
    ensures plucks.Some? <==> |notes| == count
    ensures plucks.Some? && count > 0 ==> |plucks.value| == count - 1
    ensures plucks.Some? ==> plucks.value <= notes
  {
    if |notes| != count then None
    else if count == 0 then Some([])
    else Some(notes[..count - 1])
  }

  /** The input that shows the dropped pluck: three notes, two plucks. */
  lemma StrumDropsLastNote()
    ensures StrumAsWritten(3, [10, 20, 30]) == Some([10, 20])
    ensures 30 !in StrumAsWritten(3, [10, 20, 30]).value
  {
    assert [10, 20, 30][..2] == [10, 20];
  }

  /** strum as intended by its error message ("a note pitch per pluck"):
      one pluck per note, in order. */
  function Strum(count: int, notes: seq<int>): (plucks: Option<seq<int>>)
    ensures plucks.Some? <==> |notes| == count
    ensures plucks.Some? ==> |plucks.value| == count
    ensures plucks.Some? ==> forall i :: 0 <= i < count ==> plucks.value[i] == notes[i]
  {
    if |notes| != count then None else Some(notes)
  }
}
