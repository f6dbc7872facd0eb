/**
 The CV quantizer script: an analog input read as a fraction of full scale
 is mapped to an index into the active scale table by
 `int((value - 0.001) * len(notes))`, and the note at that index is output.
 */
module Quantizer {
  import opened Common

  const Epsilon: real := 0.001

  /** AnalogInput.percent: a 16-bit reading as a fraction of 65535. */
  function Percent(reading: U16): (p: Fraction)
    ensures reading == 0 <==> p == 0.0
    ensures reading == 0xFFFF <==> p == 1.0
  {
    reading as real / 65535.0
  }

  /** A higher reading never gives a lower fraction. */
  lemma PercentMonotone(a: U16, b: U16)
    requires a <= b
    ensures Percent(a) <= Percent(b)
  {
  }

  /** The table index for a reading: truncation toward zero, so a value just
      above the epsilon still maps to index 0. */
  function QuantizedIndex(value: real, len: nat): int
  {
    Trunc((value - Epsilon) * len as real)
  }

  /** quantized_note: the table entry at the mapped index with Python's
      indexing (a negative index counts from the end; out of range raises
      IndexError, here None). */
  function QuantizedNote(value: real, notes: seq<int>): (r: Option<int>)
    ensures r.Some? ==> r.value in notes
    ensures notes == [] ==> r.None?
  {
    PyIndex(notes, QuantizedIndex(value, |notes|))
  }

  /** For a reading in [0, 1] and a table of 1..999 entries the index lies in
      [0, len - 1], so the note is the entry at that index. */
  lemma QuantizedIndexInRange(value: Fraction, notes: seq<int>)
    requires 0 < |notes| < 1000
    ensures 0 <= QuantizedIndex(value, |notes|) < |notes|
    ensures QuantizedNote(value, notes) == Some(notes[QuantizedIndex(value, |notes|)])
  {
    var len := |notes| as real;
    var x := (value - Epsilon) * len;
    assert x == value * len - Epsilon * len;
    assert value * len <= len by {
      RealMulMonotone(value, 1.0, len);
    }
    assert x > -1.0;
    assert x < len;
  }

  /** A larger value never selects an earlier table entry. */
  lemma QuantizedIndexMonotone(a: real, b: real, len: nat)
    requires a <= b
    ensures QuantizedIndex(a, len) <= QuantizedIndex(b, len)
  {
    var x := (a - Epsilon) * len as real;
    var y := (b - Epsilon) * len as real;
    RealMulMonotone(a - Epsilon, b - Epsilon, len as real);
    TruncMonotone(x, y);
    assert QuantizedIndex(a, len) == Trunc(x) && QuantizedIndex(b, len) == Trunc(y);
  }

  /** With a table of 1000 to 1999 entries the index for a zero reading is
      -1, and Python's wrap selects the LAST entry. */
  lemma QuantizedNoteLargeTable(notes: seq<int>)
    requires 1000 <= |notes| < 2000
    ensures QuantizedIndex(0.0, |notes|) == -1
    ensures QuantizedNote(0.0, notes) == Some(notes[|notes| - 1])
  {
    var x := (0.0 - Epsilon) * |notes| as real;
    assert -2.0 < x <= -1.0;
  }

  /** Readings on a three-entry table: 0.0 and 0.33 give the first entry,
      0.34 the second and 0.99999 the third. */
  lemma QuantizedNoteExamples()
    ensures QuantizedNote(0.0, [0, 100, 200]) == Some(0)
    ensures QuantizedNote(0.33, [0, 100, 200]) == Some(0)
    ensures QuantizedNote(0.34, [0, 100, 200]) == Some(100)
    ensures QuantizedNote(0.99999, [0, 100, 200]) == Some(200)
  {
    assert (0.33 - Epsilon) * 3.0 == 0.987;
    assert (0.34 - Epsilon) * 3.0 == 1.017;
    assert (0.99999 - Epsilon) * 3.0 == 2.99697;
  }
}
