/**
 The expander side of the clock divider: it passes its clock input on to
 the EuroPi as a bus clock, and decodes the five-byte division state from
 the serial link for its screen. A message that does not decode leaves the
 last good state on screen; before any good state there is none and the
 script fails.
 */
module DivisionsDisplay {
  import opened Common
  import ClockDivider

  /** The decoded message: selected output and the four divisions. */
  datatype State = State(selectedOutput: int, d1: int, d2: int, d3: int, d4: int)

  /** Signed char from its byte. */
  function DecodeSigned(b: Byte): (x: int)
    ensures ClockDivider.SignedByte(x)
    ensures ClockDivider.EncodeSigned(x) == b
  {
    if b < 128 then b else b - 256
  }

  /** MicroPython's unpack("5b", bytes): it shares its code with
      unpack_from, so it needs at least five bytes (fewer is an error, None)
      and decodes the first five, ignoring the rest. */
  function Unpack(bytes: seq<Byte>): (r: Option<State>)
    ensures r.Some? <==> |bytes| >= 5
  {
    if |bytes| < 5 then None
    else Some(State(DecodeSigned(bytes[0]), DecodeSigned(bytes[1]), DecodeSigned(bytes[2]),
                    DecodeSigned(bytes[3]), DecodeSigned(bytes[4])))
  }

  /** The state a divider sends, as the expander sees it. */
  function Expected(d: ClockDivider.Divisions): State
    requires ClockDivider.Valid(d)
  {
    State(d.selectedOutput, d.divisions[0], d.divisions[1], d.divisions[2], d.divisions[3])
  }

  /** Decoding a state message gives back the divider's cursor and divisions. */
  lemma UnpackStateMessage(d: ClockDivider.Divisions)
    requires ClockDivider.Valid(d)
    ensures Unpack(ClockDivider.StateMessage(d)) == Some(Expected(d))
  {
    var m := ClockDivider.StateMessage(d);
    var f := ClockDivider.Fields(d);
    forall i | 0 <= i < 5
      ensures DecodeSigned(m[i]) == f[i]
    {
      assert ClockDivider.SignedByte(f[i]);
    }
  }

  /** Bytes after the first five do not change what decodes. */
  lemma UnpackIgnoresTail(bytes: seq<Byte>, tail: seq<Byte>)
    requires |bytes| >= 5
    ensures Unpack(bytes + tail) == Unpack(bytes)
  {
    assert forall i :: 0 <= i < 5 ==> (bytes + tail)[i] == bytes[i];
  }

  /** Re-encoding the decoded fields gives back the five bytes decoded: no
      two five-byte messages decode alike. */
  lemma UnpackIsInjective(a: seq<Byte>, b: seq<Byte>)
    requires |a| == 5 && |b| == 5 && Unpack(a) == Unpack(b)
    ensures a == b
  {
    forall i | 0 <= i < 5
      ensures a[i] == b[i]
    {
      assert DecodeSigned(a[i]) == DecodeSigned(b[i]);
    }
  }

  /** Two messages read in one go decode as the first, older one: the
      newer state is lost until the next message. */
  lemma TwoMessagesShowFirst(d: ClockDivider.Divisions, e: ClockDivider.Divisions)
    requires ClockDivider.Valid(d) && ClockDivider.Valid(e)
    ensures Unpack(ClockDivider.StateMessage(d) + ClockDivider.StateMessage(e)) == Some(Expected(d))
  {
    UnpackIgnoresTail(ClockDivider.StateMessage(d), ClockDivider.StateMessage(e));
    UnpackStateMessage(d);
  }

  /** What display_handler draws: the four divisions and, when an output is
      selected, its 1-based number. */
  datatype Screen = Screen(d1: int, d2: int, d3: int, d4: int, selected: Option<int>)

  function Render(s: State): (r: Screen)
    ensures r.selected.Some? <==> s.selectedOutput != -1
    ensures r.selected.Some? ==> r.selected.value == s.selectedOutput + 1
    ensures (r.d1, r.d2, r.d3, r.d4) == (s.d1, s.d2, s.d3, s.d4)
  {
    Screen(s.d1, s.d2, s.d3, s.d4, if s.selectedOutput != -1 then Some(s.selectedOutput + 1) else None)
  }

  /** After a button press on the EuroPi the expander shows the newly
      selected output as 1 .. 4, or no selection after the last one. */
  lemma ScreenAfterSelect(d: ClockDivider.Divisions)
    requires ClockDivider.Valid(d)
    ensures var (d', m) := ClockDivider.SelectNextDivision(d);
      var screen := Render(Unpack(m).value);
      (screen.selected.Some? <==> d.selectedOutput < ClockDivider.Outputs - 1)
      && (screen.selected.Some? ==> screen.selected.value == d.selectedOutput + 2)
      && screen.d1 == d.divisions[0] && screen.d4 == d.divisions[3]
  {
    UnpackStateMessage(ClockDivider.SelectNextDivision(d).0);
  }

  /** The expander loop's state: the remembered clock input, the three
      outputs it toggles together (bus clock, digital out, LED), and the last
      decoded state with the screen drawn from it. */
  datatype Expander = Expander(prevDigital: Bit, busClock: Bit, digitalOut: Bit, led: Bit,
                               state: Option<State>, screen: Option<Screen>)

  /** After ready(): nothing decoded, the remembered input 0 and the LED off.
      ready() does not drive the bus clock or digital out; they are taken at
      their power-on low level. */
  function Ready(): (e: Expander)
    ensures Mirrors(e) && e.state.None?
  {
    Expander(0, 0, 0, 0, None, None)
  }

  /** The bus clock, digital out and LED all repeat the remembered input. */
  predicate Mirrors(e: Expander)
  {
    e.busClock == e.prevDigital && e.digitalOut == e.prevDigital && e.led == e.prevDigital
  }

  /** One loop pass: `level` is the clock input read; `received` is the
      serial read when bytes are waiting. None is the failure of drawing a
      state that was never decoded. */
  function Step(e: Expander, level: Bit, received: Option<seq<Byte>>): (r: Option<Expander>)
    ensures r.None? <==> received.Some? && Unpack(received.value).None? && e.state.None?
    ensures r.Some? ==> r.value.prevDigital == level
    ensures r.Some? ==> (Mirrors(r.value) <==> Mirrors(e))
    ensures r.Some? && received.None? ==> r.value.state == e.state && r.value.screen == e.screen
    ensures r.Some? && received.Some? && Unpack(received.value).Some? ==>
      r.value.state == Unpack(received.value) && r.value.screen == Some(Render(Unpack(received.value).value))
    ensures r.Some? && received.Some? && Unpack(received.value).None? ==>
      r.value.state == e.state && r.value.screen == Some(Render(e.state.value))
  {
    var e1 := if level != e.prevDigital then
        e.(busClock := Flip(e.busClock), digitalOut := Flip(e.digitalOut), led := Flip(e.led),
           prevDigital := Flip(e.prevDigital))
      else e;
    match received
    case None => Some(e1)
    case Some(bytes) =>
      var state := if Unpack(bytes).Some? then Unpack(bytes) else e1.state;
      match state
      case None => None
      case Some(s) => Some(e1.(state := state, screen := Some(Render(s))))
  }

  /** One input pass: clock level and any serial bytes. */
  datatype Input = Input(level: Bit, received: Option<seq<Byte>>)

  function Run(e: Expander, inputs: seq<Input>): (r: Option<Expander>)
    decreases |inputs|
  {
    if |inputs| == 0 then Some(e)
    else match Step(e, inputs[0].level, inputs[0].received)
      case None => None
      case Some(e1) => Run(e1, inputs[1..])
  }

  /** From ready(), the bus clock always repeats the last clock input read,
      so every falling input edge is a falling bus edge for the EuroPi. */
  lemma {:induction false} BusClockFollowsInput(e: Expander, inputs: seq<Input>)
    requires Mirrors(e)
    requires |inputs| > 0 && Run(e, inputs).Some?
    ensures Run(e, inputs).value.busClock == inputs[|inputs| - 1].level
    ensures Mirrors(Run(e, inputs).value)
    decreases |inputs|
  {
    var e1 := Step(e, inputs[0].level, inputs[0].received).value;
    if |inputs| > 1 {
      BusClockFollowsInput(e1, inputs[1..]);
      assert inputs[1..][|inputs[1..]| - 1] == inputs[|inputs| - 1];
    }
  }
}
