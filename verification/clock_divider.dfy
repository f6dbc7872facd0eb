/**
 The clock divider on the EuroPi side of the expander link: four digital
 outputs, each firing on every n-th pulse of the expander's bus clock for its
 own division n, a button that moves a selection cursor over the outputs, a
 knob that sets the selected output's division from a fixed list, and a
 five-byte state message sent over the serial link after every change.
 */
module ClockDivider {
  import opened Common
  import Edges

  /** The divisions a knob position can select. */
  const Choices: seq<int> := [1, 2, 3, 4, 5, 6, 7, 8, 12, 16]

  const MaxDivision: int := 16

  /** Number of digital outputs. */
  const Outputs: nat := 4

  /** One division per output, the selection cursor (-1: no output selected),
      the last knob choice applied (-1: none yet) and the pulse counter. */
  datatype Divisions = Divisions(divisions: seq<int>, selectedOutput: int, previousChoice: int, counter: nat)

  /** Every division is one of the choices, the cursor is -1 or an output
      index, and the remembered choice is -1 or a choice index. */
  predicate Valid(d: Divisions)
  {
    && |d.divisions| == Outputs
    && (forall i :: 0 <= i < |d.divisions| ==> IsChoice(d.divisions[i]))
    && -1 <= d.selectedOutput < |d.divisions|
    && -1 <= d.previousChoice < |Choices|
  }

  /** One of the choices; the bound 1 .. 16 that every choice meets is
      spelled out so the byte range of a state message is immediate. */
  predicate IsChoice(x: int)
  {
    1 <= x <= MaxDivision && x in Choices
  }

  /** The bound IsChoice adds rules out no choice: a division is valid
      exactly when the knob can select it, and 16, the largest, is the last
      choice. */
  lemma ChoicesWithinBound()
    ensures forall x :: IsChoice(x) <==> x in Choices
    ensures MaxDivision == Choices[|Choices| - 1]
  {
  }

  /** The script's divider: /1, /2, /4, /8, nothing selected, counter at 0. */
  function Init(): (d: Divisions)
    ensures Valid(d)
    ensures d.selectedOutput == -1 && d.previousChoice == -1 && d.counter == 0
  {
    Divisions([1, 2, 4, 8], -1, -1, 0)
  }

  /** A value the "b" format (signed char) can pack. */
  predicate SignedByte(x: int)
  {
    -128 <= x < 128
  }

  /** Two's-complement byte of a signed char. */
  function EncodeSigned(x: int): (b: Byte)
    requires SignedByte(x)
    ensures x >= 0 ==> b == x
    ensures x < 0 ==> b == x + 256
    ensures (b < 128 ==> b == x) && (b >= 128 ==> b - 256 == x)
  {
    if x >= 0 then x else x + 256
  }

  /** The fields of a state message: selected output then d1..d4. */
  function Fields(d: Divisions): (f: seq<int>)
    requires |d.divisions| == Outputs
    ensures |f| == 5 && f[0] == d.selectedOutput && f[1..] == d.divisions
  {
    [d.selectedOutput] + d.divisions
  }

  /** `_state`: pack("5b", selected_output, *divisions). */
  function StateMessage(d: Divisions): (m: seq<Byte>)
    requires Valid(d)
    ensures |m| == 5
    ensures forall i :: 0 <= i < 5 ==> m[i] == EncodeSigned(Fields(d)[i])
  {
    var f := Fields(d);
    assert f == [d.selectedOutput, d.divisions[0], d.divisions[1], d.divisions[2], d.divisions[3]];
    [EncodeSigned(f[0]), EncodeSigned(f[1]), EncodeSigned(f[2]), EncodeSigned(f[3]), EncodeSigned(f[4])]
  }

  /** The cursor after one press: the next output, or -1 after the last. */
  function NextCursor(s: int): int
  {
    if s + 1 == Outputs then -1 else s + 1
  }

  /** The state change of select_next_division. */
  function Select(d: Divisions): (r: Divisions)
    requires Valid(d)
    ensures Valid(r)
  {
    var s := d.selectedOutput + 1;
    d.(selectedOutput := if s == |d.divisions| then -1 else s)
  }

  /** select_next_division: advance the cursor, wrapping from the last
      output back to -1, and send the new state. */
  function SelectNextDivision(d: Divisions): (r: (Divisions, seq<Byte>))
    requires Valid(d)
    ensures Valid(r.0)
    ensures r.0 == d.(selectedOutput := NextCursor(d.selectedOutput))
    ensures r.1 == StateMessage(r.0)
  {
    (Select(d), StateMessage(Select(d)))
  }

  /** k presses of the button (the messages they send aside). */
  function SelectTimes(d: Divisions, k: nat): (r: Divisions)
    requires Valid(d)
    ensures Valid(r)
  {
    if k == 0 then d else Select(SelectTimes(d, k - 1))
  }

  function CursorAfter(s: int, k: nat): int
  {
    if k == 0 then s else NextCursor(CursorAfter(s, k - 1))
  }

  /** From any cursor position in -1 .. 3, k presses move it k places round
      the cycle -1, 0, 1, 2, 3. */
  lemma {:induction false} CursorCycle(s: int, k: nat)
    requires -1 <= s < Outputs
    ensures CursorAfter(s, k) == (s + 1 + k) % 5 - 1
  {
    if k == 0 {
      DivModUnique(s + 1, 5, 0, s + 1);
    } else {
      CursorCycle(s, k - 1);
      var a := s + k;
      var q := a / 5;
      var m := a % 5;
      if m == 4 {
        DivModUnique(a + 1, 5, q + 1, 0);
      } else {
        DivModUnique(a + 1, 5, q, m + 1);
      }
    }
  }

  /** Repeated presses change nothing but the cursor, which goes round a
      cycle of five. */
  lemma SelectCycle(d: Divisions, k: nat)
    requires Valid(d)
    ensures SelectTimes(d, k) == d.(selectedOutput := (d.selectedOutput + 1 + k) % 5 - 1)
  {
    SelectTimesCursor(d, k);
    CursorCycle(d.selectedOutput, k);
  }

  /** Five presses restore the state. */
  lemma FivePressesRestore(d: Divisions)
    requires Valid(d)
    ensures SelectTimes(d, 5) == d
  {
    SelectTimesCursor(d, 5);
    CursorCycle(d.selectedOutput, 5);
    DivModUnique(d.selectedOutput + 6, 5, 1, d.selectedOutput + 1);
  }

  lemma {:induction false} SelectTimesCursor(d: Divisions, k: nat)
    requires Valid(d)
    ensures SelectTimes(d, k) == d.(selectedOutput := CursorAfter(d.selectedOutput, k))
  {
    if k > 0 {
      SelectTimesCursor(d, k - 1);
    }
  }

  /** get_division_choice: `int(percent * len(choices) - 0.0001)`. The small
      offset keeps full scale inside the list; near zero the truncation
      toward zero gives 0. */
  function GetDivisionChoice(p: Fraction): (c: int)
    ensures 0 <= c < |Choices|
    ensures c as real <= p * 10.0
    ensures p * 10.0 - 0.0001 < c as real + 1.0
  {
    Trunc(p * 10.0 - 0.0001)
  }

  /** A larger knob reading never selects a smaller choice, and the two
      extremes reach the ends of the list. */
  lemma DivisionChoiceRange(p: Fraction, q: Fraction)
    ensures p <= q ==> GetDivisionChoice(p) <= GetDivisionChoice(q)
    ensures GetDivisionChoice(0.0) == 0 && GetDivisionChoice(1.0) == |Choices| - 1
  {
    if p <= q {
      TruncMonotone(p * 10.0 - 0.0001, q * 10.0 - 0.0001);
    }
  }

  /** adjust_division: with an output selected and a knob choice different
      from the last one applied, set that output's division, remember the
      choice and send the state; otherwise change nothing and send nothing. */
  function AdjustDivision(d: Divisions, p: Fraction): (r: (Divisions, Option<seq<Byte>>))
    requires Valid(d)
    ensures Valid(r.0)
    ensures r.1.Some? <==> d.selectedOutput >= 0 && GetDivisionChoice(p) != d.previousChoice
    ensures r.1.None? ==> r.0 == d
    ensures r.1.Some? ==>
      && r.0.divisions[d.selectedOutput] == Choices[GetDivisionChoice(p)]
      && (forall i :: 0 <= i < Outputs && i != d.selectedOutput ==> r.0.divisions[i] == d.divisions[i])
      && r.0.previousChoice == GetDivisionChoice(p)
      && r.0.selectedOutput == d.selectedOutput && r.0.counter == d.counter
      && r.1 == Some(StateMessage(r.0))
  {
    var choice := GetDivisionChoice(p);
    if d.selectedOutput >= 0 && choice != d.previousChoice then
      var d' := d.(divisions := d.divisions[d.selectedOutput := Choices[choice]], previousChoice := choice);
      (d', Some(StateMessage(d')))
    else (d, None)
  }

  /** Holding the knob still, a second adjustment sends nothing. */
  lemma AdjustSendsOnce(d: Divisions, p: Fraction)
    requires Valid(d)
    ensures AdjustDivision(AdjustDivision(d, p).0, p).1.None?
    ensures AdjustDivision(AdjustDivision(d, p).0, p).0 == AdjustDivision(d, p).0
  {
  }

  /** trigger: output i goes high when the counter is a multiple of its
      division; then the counter advances. The counter is never wrapped. */
  function Trigger(d: Divisions): (r: (Divisions, seq<bool>))
    requires Valid(d)
    ensures Valid(r.0)
    ensures r.0 == d.(counter := d.counter + 1)
    ensures |r.1| == Outputs
    ensures forall i :: 0 <= i < Outputs ==> (r.1[i] <==> d.counter % d.divisions[i] == 0)
  {
    var fire := seq(Outputs, i requires 0 <= i < Outputs => d.counter % d.divisions[i] == 0);
    (d.(counter := d.counter + 1), fire)
  }

  /** n consecutive triggers with the divisions left alone: the final state
      and, per tick, which outputs fired. */
  function Triggers(d: Divisions, n: nat): (r: (Divisions, seq<seq<bool>>))
    requires Valid(d)
    ensures r.0 == d.(counter := d.counter + n)
    ensures |r.1| == n
    ensures forall t :: 0 <= t < n ==> |r.1[t]| == Outputs
    ensures forall t, i :: 0 <= t < n && 0 <= i < Outputs ==>
      (r.1[t][i] <==> (d.counter + t) % d.divisions[i] == 0)
  {
    if n == 0 then (d, [])
    else
      var (d1, fs) := Triggers(d, n - 1);
      var (d2, f) := Trigger(d1);
      (d2, fs + [f])
  }

  /** Output i's column of a firing record. */
  function Column(fs: seq<seq<bool>>, i: nat): (c: seq<bool>)
    requires forall t :: 0 <= t < |fs| ==> i < |fs[t]|
    ensures |c| == |fs|
    ensures forall t :: 0 <= t < |fs| ==> c[t] == fs[t][i]
  {
    seq(|fs|, t requires 0 <= t < |fs| => fs[t][i])
  }

  /** Number of multiples of `div` in 0 .. n-1. */
  function Multiples(div: int, n: nat): nat
    requires div >= 1
  {
    if n == 0 then 0 else Multiples(div, n - 1) + (if (n - 1) % div == 0 then 1 else 0)
  }

  /** There are ceil(n / div) multiples of div below n. */
  lemma {:induction false} MultiplesIsCeiling(div: int, n: nat)
    requires div >= 1
    ensures Multiples(div, n) == (n + div - 1) / div
  {
    if n == 0 {
      DivModUnique(div - 1, div, 0, div - 1);
    } else {
      MultiplesIsCeiling(div, n - 1);
      var m := n - 1;
      var q := m / div;
      var r := m % div;
      assert m == div * q + r;
      assert div * (q + 1) == div * q + div;
      if r == 0 {
        DivModUnique(m + div - 1, div, q, div - 1);
        DivModUnique(m + div, div, q + 1, 0);
      } else {
        DivModUnique(m + div - 1, div, q + 1, r - 1);
        DivModUnique(m + div, div, q + 1, r);
      }
    }
  }

  /** A column that fires exactly on the multiples of div counts them. */
  lemma {:induction false} ColumnCount(c: seq<bool>, div: int)
    requires div >= 1
    requires forall t :: 0 <= t < |c| ==> (c[t] <==> t % div == 0)
    ensures CountTrue(c) == Multiples(div, |c|)
  {
    if |c| > 0 {
      ColumnCount(c[..|c| - 1], div);
    }
  }

  /** From a zero counter, output i fires ceil(n / d_i) times in n pulses. */
  lemma FireCount(d: Divisions, n: nat, i: nat)
    requires Valid(d) && d.counter == 0 && i < Outputs
    ensures CountTrue(Column(Triggers(d, n).1, i)) == (n + d.divisions[i] - 1) / d.divisions[i]
  {
    var c := Column(Triggers(d, n).1, i);
    assert forall t :: 0 <= t < |c| ==> (c[t] <==> t % d.divisions[i] == 0);
    ColumnCount(c, d.divisions[i]);
    MultiplesIsCeiling(d.divisions[i], n);
  }

  /** The script's /1, /2, /4, /8 from a zero counter fire 8, 4, 2 and 1
      times over eight pulses. */
  lemma EightPulses(d: Divisions)
    requires Valid(d) && d.divisions == [1, 2, 4, 8] && d.counter == 0
    ensures var fs := Triggers(d, 8).1;
      CountTrue(Column(fs, 0)) == 8 && CountTrue(Column(fs, 1)) == 4
      && CountTrue(Column(fs, 2)) == 2 && CountTrue(Column(fs, 3)) == 1
  {
    FireCount(d, 8, 0);
    FireCount(d, 8, 1);
    FireCount(d, 8, 2);
    FireCount(d, 8, 3);
    assert (8 + 1 - 1) / 1 == 8 && (8 + 2 - 1) / 2 == 4 && (8 + 4 - 1) / 4 == 2 && (8 + 8 - 1) / 8 == 1;
  }

  /** One pass of the main loop over the bus-clock polls available: wait for
      a falling edge, trigger, then adjust the selected division. */
  datatype Pass = Pass(state: Divisions, prevClock: Bit, fired: seq<bool>, sent: Option<seq<Byte>>)

  function LoopPass(d: Divisions, prevClock: Bit, levels: seq<Bit>, knob: Fraction): (r: Option<Pass>)
    requires Valid(d)
    ensures r.Some? <==> Edges.WaitFalling(prevClock, levels).returned
    ensures r.Some? ==>
      && Valid(r.value.state)
      && r.value.prevClock == 0
      && r.value.fired == Trigger(d).1
      && r.value.state.counter == d.counter + 1
      && (r.value.sent.Some? <==> d.selectedOutput >= 0 && GetDivisionChoice(knob) != d.previousChoice)
    ensures r.Some? && r.value.sent.None? ==> r.value.state == Trigger(d).0
    ensures r.Some? && r.value.sent.Some? ==>
      && r.value.sent == Some(StateMessage(r.value.state))
      && r.value.state.divisions == d.divisions[d.selectedOutput := Choices[GetDivisionChoice(knob)]]
      && r.value.state.previousChoice == GetDivisionChoice(knob)
      && r.value.state.selectedOutput == d.selectedOutput
  {
    var w := Edges.WaitFalling(prevClock, levels);
    if !w.returned then None
    else
      var (d1, fired) := Trigger(d);
      var (d2, sent) := AdjustDivision(d1, knob);
      Some(Pass(d2, w.prev, fired, sent))
  }
}
