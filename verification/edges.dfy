/**
 Edge tracking on a polled digital input, as the clock waits and the
 expander's clock pass-through do it: a remembered level `prev` that flips
 whenever a poll reads a different level.
 */
module Edges {
  import opened Common

  /** One poll: `if level != prev: prev = 1 if prev == 0 else 0`. Returns the
      new remembered level and whether it changed. Since levels are 0 or 1,
      the remembered level always ends equal to the level read. */
  function Track(prev: Bit, level: Bit): (r: (Bit, bool))
    ensures r.0 == level
    ensures r.1 <==> level != prev
  {
    if level != prev then (Flip(prev), true) else (prev, false)
  }

  /** The remembered level before poll i of `levels`, starting from `prev`. */
  function PrevAt(prev: Bit, levels: seq<Bit>, i: nat): Bit
    requires i <= |levels|
  {
    if i == 0 then prev else levels[i - 1]
  }

  /** Poll i observes a falling edge: the remembered level was 1 and the pin reads 0. */
  predicate FallingAt(prev: Bit, levels: seq<Bit>, i: nat)
    requires i < |levels|
  {
    PrevAt(prev, levels, i) == 1 && levels[i] == 0
  }

  /** The outcome of a wait loop over a finite run of polls. */
  datatype Wait = Wait(prev: Bit, consumed: nat, returned: bool)

  /** clock_wait: poll until a change makes the remembered level 0, i.e.
      until the first falling edge. If the polls run out first, the wait is
      still pending. */
  function WaitFalling(prev: Bit, levels: seq<Bit>): (r: Wait)
    ensures r.consumed <= |levels|
    ensures r.returned ==> 1 <= r.consumed && FallingAt(prev, levels, r.consumed - 1)
    ensures forall i :: 0 <= i < r.consumed - 1 ==> !FallingAt(prev, levels, i)
    ensures !r.returned ==> r.consumed == |levels| && forall i :: 0 <= i < |levels| ==> !FallingAt(prev, levels, i)
    ensures r.prev == PrevAt(prev, levels, r.consumed)
    decreases |levels|
  {
    if |levels| == 0 then Wait(prev, 0, false)
    else
      var (p, changed) := Track(prev, levels[0]);
      if changed && p == 0 then Wait(p, 1, true)
      else
        var rest := WaitFalling(p, levels[1..]);
        ShiftFalling(prev, p, levels);
        Wait(rest.prev, rest.consumed + 1, rest.returned)
  }

  /** Dropping the first poll shifts the remembered levels by one. */
  lemma ShiftFalling(prev: Bit, p: Bit, levels: seq<Bit>)
    requires |levels| > 0 && p == levels[0]
    ensures forall i :: 1 <= i < |levels| ==>
      (FallingAt(prev, levels, i) <==> FallingAt(p, levels[1..], i - 1))
    ensures forall i :: 1 <= i <= |levels| ==>
      PrevAt(prev, levels, i) == PrevAt(p, levels[1..], i - 1)
  {
  }
}
