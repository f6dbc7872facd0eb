/**
 The expander quantizer: a raw 16-bit CV reading is snapped onto the active
 scale table by a recursive binary search over half-open index ranges.
 Despite its "nearest" description the search returns the greatest table
 note not above the reading (or the first note when every note is above).
 */
module BinaryQuantizer {
  import opened Common

  /** Non-decreasing, as every scale table is. */
  predicate Sorted(notes: seq<int>)
  {
    forall a, b :: 0 <= a <= b < |notes| ==> notes[a] <= notes[b]
  }

  /** search's pivot `int(((end - start) / 2) + start)` on a non-empty range. */
  function Pivot(start: nat, end: nat): (p: int)
    requires start <= end
    ensures end - start >= 2 ==> start < p < end
    ensures p == start + (end - start) / 2
  {
    Trunc((end - start) as real / 2.0 + start as real)
  }

  /** The index `search(start, end)` returns. On a sorted table, given that
      the range's left end is not above the value (or is the table start) and
      its right end is above the value (or is the table end), the result is
      the last index whose note is not above the value. */
  function Search(notes: seq<int>, value: int, start: nat, end: nat): (k: nat)
    requires start < end <= |notes|
    ensures start <= k < end
    ensures Sorted(notes) && (start == 0 || notes[start] <= value)
              && (end == |notes| || value < notes[end]) ==>
            (k == 0 || notes[k] <= value) && (k + 1 == |notes| || value < notes[k + 1])
    decreases end - start
  {
    if start + 1 == end then start
    else
      var pivot := Pivot(start, end);
      if value < notes[pivot] then Search(notes, value, start, pivot)
      else Search(notes, value, pivot, end)
  }

  /** quantized_note: search over the whole table. An empty table makes the
      first comparison index past the end (IndexError, here None). */
  function QuantizedNote(value: int, notes: seq<int>): (r: Option<int>)
    ensures r.Some? <==> |notes| > 0
    ensures r.Some? ==> r.value in notes
  {
    if |notes| == 0 then None else Some(notes[Search(notes, value, 0, |notes|)])
  }

  /** On a sorted table the result is the greatest note not above the value
      when one exists, and the first note otherwise: it never rounds up. */
  lemma QuantizedNoteIsFloor(value: int, notes: seq<int>)
    requires Sorted(notes) && |notes| > 0
    ensures notes[0] <= value ==> QuantizedNote(value, notes).value <= value
    ensures notes[0] <= value ==> forall j :: 0 <= j < |notes| && notes[j] <= value ==>
      notes[j] <= QuantizedNote(value, notes).value
    ensures value < notes[0] ==> QuantizedNote(value, notes) == Some(notes[0])
  {
    var k := Search(notes, value, 0, |notes|);
  }

  /** A reading one below the upper note still yields the lower note. */
  lemma NeverRoundsUp()
    ensures QuantizedNote(99, [0, 100]) == Some(0)
  {
    assert Search([0, 100], 99, 0, 2) == Search([0, 100], 99, 0, 1);
  }
}
