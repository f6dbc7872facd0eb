/**
 The Turing machine script: a looping sequence of at most sixteen notes and
 rests. While the sequence is shorter than sixteen every pass appends a
 fresh element and plays it; once full, every pass may replace the element
 at the play position (with a probability set by knob 2) before playing it.
 The random draws are inputs.
 */
module TuringMachine {
  import opened Common
  import EuroPi

  const SequenceLength: nat := 16

  /** The D major table the notes draw their pitches from. */
  function DMajor(unit: int): seq<int>
  {
    EuroPi.ScaleTable([3, 5, 7, 8, 10, 12], unit)
  }

  /** A played element: a rest, or a note with two pitches and a timbre,
      both lasting one clock period. */
  datatype Element =
    | Rest(length: real)
    | TuringNote(length: real, pitch1: int, pitch2: int, timbre: U16)

  /** The library knob's percent(): `int(read_u16 / 655.35)`, 0 to 100. */
  function Percent(reading: U16): (p: int)
    ensures 0 <= p <= 100
    ensures reading == 0 ==> p == 0
    ensures reading == 0xFFFF ==> p == 100
  {
    Trunc(reading as real / 655.35)
  }

  /** `clock = 1 - percent / 100`: the period, from one second down to zero
      as the knob turns up. */
  function ClockPeriod(reading: U16): (c: real)
    ensures 0.0 <= c <= 1.0
  {
    1.0 - Percent(reading) as real / 100.0
  }

  /** The random draws of one pass. */
  datatype Draws = Draws(
    restRoll: int,     // randint(0, 10)
    pick1: nat,        // choice(d_maj) for pitch 1
    pick2: nat,        // choice(d_maj) for pitch 2
    timbre: U16,       // randint(0, 65535)
    chanceRoll: int,   // randint(0, 100) inside random_chance
    cv: U16)           // randint(0, 65535) for analogue 4

  /** The new element of a pass: a rest when the roll is below 3, else a
      note with pitches chosen from D major. None when the table is empty
      (choice on an empty sequence). */
  function NewElement(clock: real, d: Draws, unit: int): (e: Option<Element>)
    ensures e.Some? <==> d.restRoll < 3 || |DMajor(unit)| > 0
    ensures e.Some? ==> (e.value.Rest? <==> d.restRoll < 3) && e.value.length == clock
    ensures e.Some? && e.value.TuringNote? ==> e.value.pitch1 in DMajor(unit) && e.value.pitch2 in DMajor(unit)
  {
    var notes := DMajor(unit);
    if d.restRoll < 3 then Some(Rest(clock))
    else if |notes| == 0 then None
    else Some(TuringNote(clock, notes[d.pick1 % |notes|], notes[d.pick2 % |notes|], d.timbre))
  }

  /** The new element as the script is written against the library it
      imports: that library brings in `random` and `randint` but not
      `choice`, so building a note raises NameError (None) and only a rest
      can be built. */
  function NewElementAsWritten(clock: real, d: Draws): (e: Option<Element>)
    ensures e.Some? <==> d.restRoll < 3
    ensures e.Some? ==> e.value.Rest? && e.value.length == clock
  {
    if d.restRoll < 3 then Some(Rest(clock)) else None
  }

  /** The two agree on rests, and every draw that the intended script turns
      into a note stops the script as written. */
  lemma NoteDrawStopsAsWritten(clock: real, d: Draws, unit: int)
    requires |DMajor(unit)| > 0
    ensures d.restRoll < 3 ==> NewElementAsWritten(clock, d) == NewElement(clock, d, unit)
    ensures d.restRoll >= 3 ==> NewElementAsWritten(clock, d).None? && NewElement(clock, d, unit).value.TuringNote?
  {
  }

  /** random_chance: `randint(0, 100) < percentage`. */
  predicate RandomChance(roll: int, percentage: int)
  {
    roll < percentage
  }

  datatype Machine = Machine(sequence: seq<Element>, note: nat)

  /** Filling: the play position is the next free slot. Full: sixteen
      elements and the position inside them. */
  predicate Valid(m: Machine)
  {
    || (|m.sequence| < SequenceLength && m.note == |m.sequence|)
    || (|m.sequence| == SequenceLength && m.note < SequenceLength)
  }

  function Start(): (m: Machine)
    ensures Valid(m) && |m.sequence| == 0
  {
    Machine([], 0)
  }

  /** What one pass plays: the element at the play position, and the
      random voltage on analogue 4. */
  datatype Played = Played(element: Element, cv: U16)

  /** Where a pass puts its new element: appended while filling; once full,
      written over the play position at the knob's chance. The position then
      advances modulo sixteen and the element there is played. */
  function Place(m: Machine, e: Element, knob2: U16, d: Draws): (r: (Machine, Played))
    requires Valid(m)
    ensures Valid(r.0)
    ensures r.0.note == (m.note + 1) % SequenceLength
    ensures |m.sequence| < SequenceLength ==> r.0.sequence == m.sequence + [e] && r.1.element == e
    ensures |m.sequence| == SequenceLength ==>
      && |r.0.sequence| == SequenceLength
      && (forall i :: 0 <= i < SequenceLength && i != m.note ==> r.0.sequence[i] == m.sequence[i])
      && r.0.sequence[m.note] == (if RandomChance(d.chanceRoll, Percent(knob2)) then e else m.sequence[m.note])
      && r.1.element == r.0.sequence[m.note]
    ensures r.1.cv == d.cv
  {
    var sequence :=
      if |m.sequence| == SequenceLength then
        if RandomChance(d.chanceRoll, Percent(knob2)) then m.sequence[m.note := e] else m.sequence
      else m.sequence + [e];
    var note := if m.note + 1 == SequenceLength then 0 else m.note + 1;
    DivModUnique(m.note + 1, SequenceLength, if m.note + 1 == SequenceLength then 1 else 0, note);
    (Machine(sequence, note), Played(sequence[m.note], d.cv))
  }

  /** Every element of the sequence is a rest. */
  predicate AllRests(m: Machine)
  {
    forall i :: 0 <= i < |m.sequence| ==> m.sequence[i].Rest?
  }

  /** One pass of the loop as written: it stops (None) at the first draw of
      a note, so a sequence of rests (the empty start included) stays one
      and only rests are ever played. */
  function StepAsWritten(m: Machine, knob1: U16, knob2: U16, d: Draws): (r: Option<(Machine, Played)>)
    requires Valid(m)
    ensures r.Some? <==> d.restRoll < 3
    ensures r.Some? && AllRests(m) ==> AllRests(r.value.0) && r.value.1.element.Rest?
  {
    match NewElementAsWritten(ClockPeriod(knob1), d)
    case None => None
    case Some(e) => Some(Place(m, e, knob2, d))
  }

  /** As written, a pass survives exactly the draws that make a rest, and
      then does what the intended pass does; so the script as written stops
      at the first note it tries to build. */
  lemma StepAsWrittenStopsOnNotes(m: Machine, knob1: U16, knob2: U16, d: Draws, unit: int)
    requires Valid(m) && |DMajor(unit)| > 0
    ensures d.restRoll < 3 ==> StepAsWritten(m, knob1, knob2, d) == Step(m, knob1, knob2, d, unit)
    ensures d.restRoll >= 3 ==> Step(m, knob1, knob2, d, unit).Some?
  {
    NoteDrawStopsAsWritten(ClockPeriod(knob1), d, unit);
  }

  /** One pass of the loop, given the two knob readings and the draws, with
      `choice` available as the script intends. */
  function Step(m: Machine, knob1: U16, knob2: U16, d: Draws, unit: int): (r: Option<(Machine, Played)>)
    requires Valid(m)
    ensures r.Some? <==> NewElement(ClockPeriod(knob1), d, unit).Some?
    ensures r.Some? ==> Valid(r.value.0)
    ensures r.Some? ==> r.value.0.note == (m.note + 1) % SequenceLength
    ensures r.Some? && |m.sequence| < SequenceLength ==>
      && r.value.0.sequence == m.sequence + [NewElement(ClockPeriod(knob1), d, unit).value]
      && r.value.1.element == NewElement(ClockPeriod(knob1), d, unit).value
    ensures r.Some? && |m.sequence| == SequenceLength ==>
      && |r.value.0.sequence| == SequenceLength
      && (forall i :: 0 <= i < SequenceLength && i != m.note ==> r.value.0.sequence[i] == m.sequence[i])
      && r.value.0.sequence[m.note] ==
           (if RandomChance(d.chanceRoll, Percent(knob2)) then NewElement(ClockPeriod(knob1), d, unit).value
            else m.sequence[m.note])
      && r.value.1.element == r.value.0.sequence[m.note]
    ensures r.Some? ==> r.value.1.cv == d.cv
  {
    match NewElement(ClockPeriod(knob1), d, unit)
    case None => None
    case Some(e) => Some(Place(m, e, knob2, d))
  }

  /** Passes under fixed knobs and a list of draws; None if one fails. */
  function Run(m: Machine, knob1: U16, knob2: U16, ds: seq<Draws>, unit: int): (r: Option<Machine>)
    requires Valid(m)
    ensures r.Some? ==> Valid(r.value)
    decreases |ds|
  {
    if |ds| == 0 then Some(m)
    else match Step(m, knob1, knob2, ds[0], unit)
      case None => None
      case Some((m1, _)) => Run(m1, knob1, knob2, ds[1..], unit)
  }

  /** Passes append until the sequence holds sixteen elements and then
      keep its length, while the play position advances by one per pass
      modulo sixteen: from the empty start, sixteen passes fill the sequence
      with the play position back at the first element. */
  lemma {:induction false} FillsThenLoops(m: Machine, knob1: U16, knob2: U16, ds: seq<Draws>, unit: int)
    requires Valid(m) && Run(m, knob1, knob2, ds, unit).Some?
    ensures var r := Run(m, knob1, knob2, ds, unit).value;
      && |r.sequence| == (if |m.sequence| + |ds| < SequenceLength then |m.sequence| + |ds| else SequenceLength)
      && r.note == (m.note + |ds|) % SequenceLength
    decreases |ds|
  {
    if |ds| == 0 {
      DivModUnique(m.note, SequenceLength, 0, m.note);
    } else {
      var (m1, _) := Step(m, knob1, knob2, ds[0], unit).value;
      FillsThenLoops(m1, knob1, knob2, ds[1..], unit);
      ModOfSum(m.note + 1, |ds| - 1, SequenceLength);
    }
  }

  lemma ModOfSum(a: nat, b: nat, n: int)
    requires n > 0
    ensures (a % n + b) % n == (a + b) % n
  {
    var q := a / n;
    assert a == n * q + a % n;
    var c := a % n + b;
    DivModUnique(a + b, n, q + c / n, c % n);
  }

  /** With a knob-2 percentage of 0 a full sequence never changes: the
      machine loops its sixteen elements. */
  lemma LockedLoop(m: Machine, knob1: U16, knob2: U16, d: Draws, unit: int)
    requires Valid(m) && |m.sequence| == SequenceLength
    requires d.chanceRoll >= 0 && knob2 == 0
    requires Step(m, knob1, knob2, d, unit).Some?
    ensures Step(m, knob1, knob2, d, unit).value.0.sequence == m.sequence
  {
  }
}
