/**
 The quantizer scripts' `Scale` helpers: the rotation through the nine
 scales, the in-octave step of a quantized note (`get_step`) and its octave
 (`get_octave`). The expander quantizer's `Scale.get_step` is the same code
 as the contrib quantizer's and is modelled once, here.
 */
module QuantizerScales {
  import opened Common
  import opened EuroPi

  /** Step patterns of the nine quantizer scales, in rotation order. */
  const Patterns: seq<seq<int>> := [
    [1, 3, 5, 6, 8, 10, 12],                   // Major scale
    [1, 3, 4, 6, 8, 9, 11],                    // Minor scale
    [1, 5, 8],                                 // Major triad
    [1, 4, 8],                                 // Minor triad
    [1, 3, 5, 6, 8],                           // Major pentatonic
    [1, 4, 5, 6, 9],                           // Minor pentatonic
    [1, 2, 3, 4, 5, 6, 7, 8, 9, 10, 11, 12],   // Chromatic scale
    [1],                                       // Octave
    [1, 12]                                    // Octave + 7th
  ]

  const ScaleCount: nat := 9

  /** The button handler's `(scales.index(scale) + 1) % len(scales)`. */
  function NextScale(index: nat): (r: nat)
    requires index < ScaleCount
    ensures r < ScaleCount
    ensures r == 0 <==> index == ScaleCount - 1
    ensures r != 0 ==> r == index + 1
  {
    (index + 1) % ScaleCount
  }

  function NextScaleN(index: nat, k: nat): (r: nat)
    requires index < ScaleCount
    ensures r < ScaleCount
  {
    if k == 0 then index else NextScale(NextScaleN(index, k - 1))
  }

  /** k presses from scale `index` select scale (index + k) mod 9; nine
      presses return to the starting scale. */
  lemma {:induction false} NextScaleRotates(index: nat, k: nat)
    requires index < ScaleCount
    ensures NextScaleN(index, k) == (index + k) % ScaleCount
  {
    if k > 0 {
      NextScaleRotates(index, k - 1);
    }
  }

  /** Python's `list.index`: the first position of x, None for ValueError. */
  function IndexOf(s: seq<int>, x: int): (r: Option<nat>)
    ensures r.None? <==> x !in s
    ensures r.Some? ==> r.value < |s| && s[r.value] == x
    ensures r.Some? ==> forall j :: 0 <= j < r.value ==> s[j] != x
  {
    if |s| == 0 then None
    else if s[0] == x then Some(0)
    else match IndexOf(s[1..], x)
      case None => None
      case Some(k) => Some(k + 1)
  }

  /** get_step as written: note 0 gives steps[0]; otherwise, for the note at
      index k, steps[(k mod len(steps)) - 1] with Python's negative wrap.
      A note not in the table raises ValueError (None). */
  function GetStepAsWritten(steps: seq<int>, notes: seq<int>, note: int): (r: Option<int>)
    ensures note == 0 && |steps| > 0 ==> r == Some(steps[0])
    ensures note != 0 && note in notes && |steps| > 0 ==> r.Some?
    ensures note != 0 && note !in notes ==> r.None?
  {
    if note == 0 then
      if |steps| > 0 then Some(steps[0]) else None
    else match IndexOf(notes, note)
      case None => None
      case Some(k) =>
        if |steps| == 0 then None else PyIndex(steps, k % |steps| - 1)
  }

  /** For a non-zero note at index k, get_step returns steps[k mod L - 1],
      which is steps[L - 1] when k is a multiple of L. */
  lemma GetStepAsWrittenIndex(steps: seq<int>, notes: seq<int>, k: nat)
    requires |steps| > 0
    requires k < |notes| && notes[k] != 0
    requires forall j :: 0 <= j < k ==> notes[j] != notes[k]
    ensures k % |steps| != 0 ==>
      GetStepAsWritten(steps, notes, notes[k]) == Some(steps[k % |steps| - 1])
    ensures k % |steps| == 0 ==>
      GetStepAsWritten(steps, notes, notes[k]) == Some(steps[|steps| - 1])
  {
    var r := IndexOf(notes, notes[k]);
    assert r.Some?;
  }

  /** get_step as intended: the note at index k of the table lies on scale
      step steps[k mod L]; note 0 keeps its shortcut to steps[0]. */
  function GetStep(steps: seq<int>, notes: seq<int>, note: int): (r: Option<int>)
    ensures note == 0 && |steps| > 0 ==> r == Some(steps[0])
    ensures note != 0 && note in notes && |steps| > 0 ==> r.Some? && r.value in steps
    ensures note != 0 && note !in notes ==> r.None?
  {
    if note == 0 then
      if |steps| > 0 then Some(steps[0]) else None
    else match IndexOf(notes, note)
      case None => None
      case Some(k) =>
        if |steps| == 0 then None else Some(steps[k % |steps|])
  }

  /** A valid step pattern: strictly increasing steps within one octave. */
  predicate ValidPattern(steps: seq<int>)
  {
    && |steps| > 0
    && StrictlyIncreasing(steps)
    && (forall j :: 0 <= j < |steps| ==> 1 <= steps[j] <= 12)
  }

  /** Number of pattern steps that are <= r. */
  function Below(steps: seq<int>, r: int): (c: nat)
    ensures c <= |steps|
  {
    if |steps| == 0 then 0
    else Below(steps[..|steps| - 1], r) + (if steps[|steps| - 1] <= r then 1 else 0)
  }

  lemma {:induction false} BelowAll(steps: seq<int>, r: int)
    requires forall j :: 0 <= j < |steps| ==> steps[j] <= r
    ensures Below(steps, r) == |steps|
  {
    if |steps| > 0 {
      BelowAll(steps[..|steps| - 1], r);
    }
  }

  lemma {:induction false} BelowNone(steps: seq<int>, r: int)
    requires forall j :: 0 <= j < |steps| ==> steps[j] > r
    ensures Below(steps, r) == 0
  {
    if |steps| > 0 {
      BelowNone(steps[..|steps| - 1], r);
    }
  }

  /** Raising the bound by one adds the step equal to the new bound, if any. */
  lemma {:induction false} BelowNext(steps: seq<int>, r: int)
    requires StrictlyIncreasing(steps)
    ensures Below(steps, r + 1) == Below(steps, r) + (if r + 1 in steps then 1 else 0)
  {
    if |steps| > 0 {
      var init := steps[..|steps| - 1];
      BelowNext(init, r);
      var last := steps[|steps| - 1];
      if last == r + 1 {
        assert r + 1 !in init by {
          forall j | 0 <= j < |init|
            ensures init[j] != r + 1
          {
            assert init[j] == steps[j] < last;
          }
        }
      } else {
        assert r + 1 in steps <==> r + 1 in init by {
          if r + 1 in steps {
            var j :| 0 <= j < |steps| && steps[j] == r + 1;
            assert j < |init| && init[j] == r + 1;
          }
        }
      }
    }
  }

  /** In a sorted pattern, exactly j steps lie below the j-th step. */
  lemma {:induction false} BelowIndex(steps: seq<int>, j: nat)
    requires StrictlyIncreasing(steps)
    requires j < |steps|
    ensures Below(steps, steps[j] - 1) == j
  {
    var init := steps[..|steps| - 1];
    if j == |steps| - 1 {
      BelowAll(init, steps[j] - 1);
    } else {
      BelowIndex(init, j);
      assert init[j] == steps[j];
    }
  }

  /** The number of kept positions among the first n is
      L * (n / 12) + Below(n mod 12). */
  lemma {:induction false} CountByOctaves(steps: seq<int>, n: nat)
    requires ValidPattern(steps)
    ensures CountIncluded(steps, n) == |steps| * (n / 12) + Below(steps, n % 12)
  {
    if n == 0 {
      BelowNone(steps, 0);
    } else {
      var m := n - 1;
      CountByOctaves(steps, m);
      CountStep(steps, m);
    }
  }

  /** The step of CountByOctaves from m to m + 1 positions. */
  lemma CountStep(steps: seq<int>, m: nat)
    requires ValidPattern(steps)
    requires CountIncluded(steps, m) == |steps| * (m / 12) + Below(steps, m % 12)
    ensures CountIncluded(steps, m + 1) == |steps| * ((m + 1) / 12) + Below(steps, (m + 1) % 12)
  {
    var q := m / 12;
    var r := m % 12;
    var l := |steps|;
    var c := CountIncluded(steps, m + 1);
    assert c == l * q + Below(steps, r) + (if r + 1 in steps then 1 else 0);
    BelowNext(steps, r);
    DivModStep(m, 12);
    if r == 11 {
      BelowAll(steps, 12);
      BelowNone(steps, 0);
      assert c == l * q + l;
      MulSucc(l, q);
      assert (m + 1) / 12 == q + 1 && (m + 1) % 12 == 0;
    } else {
      assert c == l * q + Below(steps, r + 1);
      assert (m + 1) / 12 == q && (m + 1) % 12 == r + 1;
    }
  }

  lemma MulSucc(l: int, q: int)
    ensures l * (q + 1) == l * q + l
  {
  }

  lemma ModOfMulAdd(l: int, q: int, j: int)
    requires l > 0 && 0 <= j < l
    ensures (l * q + j) % l == j
  {
    var a := l * q + j;
    var d := a / l;
    var r := a % l;
    assert a == l * d + r;
    assert l * (q - d) == r - j by {
      assert l * (q - d) == l * q - l * d;
    }
    SmallMultiple(l, q - d);
  }

  /** The pitch of a kept position i sits in the table right after the
      pitches of the kept positions below i. */
  lemma PositionInTable(steps: seq<int>, unit: int, i: nat)
    requires i < ScaleSpan && Included(steps, i)
    ensures |Table(steps, unit, i)| < |ScaleTable(steps, unit)|
    ensures ScaleTable(steps, unit)[|Table(steps, unit, i)|] == Pitch(i, unit)
  {
    var pre := Table(steps, unit, i);
    TablePrefix(steps, unit, i + 1, ScaleSpan);
    assert Table(steps, unit, i + 1) == pre + [Pitch(i, unit)];
  }

  /** The kept positions below i number L (i div 12) + j, where steps[j]
      is the step of i: so that count is j modulo L. */
  lemma PositionCount(steps: seq<int>, unit: int, i: nat, j: nat)
    requires ValidPattern(steps)
    requires j < |steps| && steps[j] == StepOf(i)
    ensures |Table(steps, unit, i)| % |steps| == j
  {
    TableLength(steps, unit, i);
    CountByOctaves(steps, i);
    BelowIndex(steps, j);
    assert CountIncluded(steps, i) == |steps| * (i / 12) + j;
    ModOfMulAdd(|steps|, i / 12, j);
  }

  /** The corrected get_step names the in-octave step of every table note:
      the note at index k is the pitch of a chromatic position whose step is
      steps[k mod L]. */
  lemma StepOfTableEntry(steps: seq<int>, unit: int, k: nat)
    requires ValidPattern(steps)
    requires unit > 0
    requires k < |ScaleTable(steps, unit)|
    ensures exists i: nat :: (i < ScaleSpan && ScaleTable(steps, unit)[k] == Pitch(i, unit)
      && StepOf(i) == steps[k % |steps|])
  {
    var notes := ScaleTable(steps, unit);
    TableEntries(steps, unit, ScaleSpan);
    assert KeptPitch(steps, unit, ScaleSpan, notes[k]);
    var i: nat :| i < ScaleSpan && Included(steps, i) && notes[k] == Pitch(i, unit);
    PositionInTable(steps, unit, i);
    var c := |Table(steps, unit, i)|;
    TableIncreasing(steps, unit, ScaleSpan);
    assert c == k;
    var j :| 0 <= j < |steps| && steps[j] == StepOf(i);
    PositionCount(steps, unit, i, j);
  }

  /** The corrected get_step, applied to any non-zero table note, returns the
      note's own in-octave step. */
  lemma GetStepIsNoteStep(steps: seq<int>, unit: int, k: nat)
    requires ValidPattern(steps)
    requires unit > 0
    requires k < |ScaleTable(steps, unit)|
    requires ScaleTable(steps, unit)[k] != 0
    ensures exists i: nat :: (i < ScaleSpan && ScaleTable(steps, unit)[k] == Pitch(i, unit)
      && GetStep(steps, ScaleTable(steps, unit), ScaleTable(steps, unit)[k]) == Some(StepOf(i)))
  {
    var notes := ScaleTable(steps, unit);
    StepOfTableEntry(steps, unit, k);
    var i: nat :| i < ScaleSpan && notes[k] == Pitch(i, unit) && StepOf(i) == steps[k % |steps|];
    TableIncreasing(steps, unit, ScaleSpan);
    var r := IndexOf(notes, notes[k]);
  }

  /** The input that shows get_step's off-by-one: in the major scale the
      second table note (position 2, step 3) is reported as step 1. */
  lemma GetStepAsWrittenIsOffByOne(unit: int)
    requires unit > 0
    ensures |ScaleTable(Patterns[0], unit)| > 1
    ensures ScaleTable(Patterns[0], unit)[1] == Pitch(2, unit)
    ensures StepOf(2) == 3
    ensures GetStepAsWritten(Patterns[0], ScaleTable(Patterns[0], unit), Pitch(2, unit)) == Some(1)
    ensures GetStep(Patterns[0], ScaleTable(Patterns[0], unit), Pitch(2, unit)) == Some(3)
  {
    var major := Patterns[0];
    var notes := ScaleTable(major, unit);
    assert Included(major, 0) && !Included(major, 1) && Included(major, 2);
    assert Table(major, unit, 1) == [Pitch(0, unit)];
    assert Table(major, unit, 2) == [Pitch(0, unit)];
    assert Table(major, unit, 3) == [Pitch(0, unit), Pitch(2, unit)];
    TablePrefix(major, unit, 3, ScaleSpan);
    PitchMono(0, 2, unit);
    assert notes[0] != Pitch(2, unit);
    assert IndexOf(notes, Pitch(2, unit)) == Some(1) by {
      assert notes[1] == Pitch(2, unit);
    }
  }

  /** get_octave: with octaves = len(notes) / 3, the note at index k is in
      octave int((k - 0.1) / octaves) + 1; a note not in the table raises
      ValueError (None). Every table note lands in octave 1, 2 or 3. */
  function GetOctave(notes: seq<int>, note: int): (r: Option<int>)
    ensures r.Some? <==> note in notes
    ensures r.Some? ==> 1 <= r.value <= 3
  {
    match IndexOf(notes, note)
    case None => None
    case Some(k) =>
      var octaves := |notes| as real / 3.0;
      OctaveBounds(k, |notes|);
      Some(Trunc((k as real - 0.1) / octaves) + 1)
  }

  lemma OctaveBounds(k: nat, len: nat)
    requires k < len
    ensures 0 <= Trunc((k as real - 0.1) / (len as real / 3.0)) <= 2
  {
    var octaves := len as real / 3.0;
    QuotientBelow(k as real - 0.1, octaves, 3.0);
    QuotientAbove(k as real - 0.1, octaves, -1.0);
  }

  lemma QuotientBelow(a: real, b: real, c: real)
    requires b > 0.0 && a < c * b
    ensures a / b < c
  {
    var x := a / b;
    assert x * b == a;
  }

  lemma QuotientAbove(a: real, b: real, c: real)
    requires b > 0.0 && a > c * b
    ensures a / b > c
  {
    var x := a / b;
    assert x * b == a;
  }
}
