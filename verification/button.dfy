/**
 The asynchronous push-button recogniser the sequencer uses: a task that
 polls the pin every 50 ms and decides, from the previous logical state, a
 long-press flag and the time of the last change, whether to launch the
 press, release or long-press callback. One poll is modelled as a pure
 transition; the task scheduling is not.
 */
module Pushbuttons {
  import opened Common

  /** Polling period; it is the sleep between polls and acts as the debounce. */
  const DebounceMs: int := 50

  /** Hold time after which the long-press callback runs. */
  const LongPressMs: int := 1000

  datatype Callback = Press | Release | LongPress

  /** The callbacks a script registered with press_func, release_func and long_func. */
  datatype Handlers = Handlers(press: bool, release: bool, long: bool)

  predicate Registered(h: Handlers, c: Callback)
  {
    match c
    case Press => h.press
    case Release => h.release
    case LongPress => h.long
  }

  /** launch: a callback that was never registered (None) does nothing. */
  function Launch(h: Handlers, c: Option<Callback>): (r: Option<Callback>)
    ensures r.Some? <==> c.Some? && Registered(h, c.value)
    ensures r.Some? ==> r == c
  {
    match c
    case None => None
    case Some(cb) => if Registered(h, cb) then Some(cb) else None
  }

  /** The recogniser's state: the electrical level read at construction, the
      last logical state, whether the long press already ran during this hold,
      and the time of the last change (None until the first change). */
  datatype Pushbutton = Pushbutton(sense: Bit, oldState: bool, longpressRan: bool, tChange: Option<int>)

  /** The `state` property: pressed iff the pin differs from its level at construction. */
  predicate Pressed(sense: Bit, level: Bit)
  {
    level != sense
  }

  /** Whenever the last logical state is pressed, a change time has been
      recorded, so the long-press branch can read it. */
  predicate Inv(b: Pushbutton)
  {
    b.oldState ==> b.tChange.Some?
  }

  /** The constructor: `sense` is one pin read and `old_state` is computed
      from a second read. On a pin that does not change between the two reads
      the button starts released. */
  function New(senseLevel: Bit, level: Bit): (b: Pushbutton)
    ensures b.oldState <==> senseLevel != level
    ensures senseLevel == level ==> !b.oldState && Inv(b)
    ensures !b.longpressRan && b.tChange.None? && b.sense == senseLevel
  {
    Pushbutton(senseLevel, Pressed(senseLevel, level), false, None)
  }

  /** One iteration of buttoncheck at time `now` (ms) reading pin `level`.
      Yields the callback to launch, if any; None stands for the TypeError of
      reading an unset change time. */
  function Poll(b: Pushbutton, level: Bit, now: int): (r: Option<(Pushbutton, Option<Callback>)>)
    ensures r.None? <==> b.oldState && Pressed(b.sense, level) && !b.longpressRan && b.tChange.None?
    ensures Inv(b) ==> r.Some? && Inv(r.value.0)
    ensures r.Some? ==> r.value.0.sense == b.sense
    ensures r.Some? ==> (r.value.1 == Some(Press) <==> !b.oldState && Pressed(b.sense, level))
    ensures r.Some? ==> (r.value.1 == Some(Release) <==>
      b.oldState && !Pressed(b.sense, level) && !b.longpressRan)
    ensures r.Some? ==> (r.value.1 == Some(LongPress) <==>
      b.oldState && Pressed(b.sense, level) && !b.longpressRan && now - b.tChange.value >= LongPressMs)
    ensures r.Some? && Pressed(b.sense, level) != b.oldState ==>
      r.value.0 == b.(oldState := Pressed(b.sense, level), longpressRan := false, tChange := Some(now))
    ensures r.Some? && Pressed(b.sense, level) == b.oldState ==>
      r.value.0.oldState == b.oldState && r.value.0.tChange == b.tChange
  {
    var cur := Pressed(b.sense, level);
    if cur && b.oldState then
      if !b.longpressRan then
        match b.tChange
        case None => None
        case Some(t) =>
          if now - t >= LongPressMs then Some((b.(longpressRan := true), Some(LongPress)))
          else Some((b, None))
      else Some((b, None))
    else if cur != b.oldState then
      var request := if cur then Some(Press) else if !b.longpressRan then Some(Release) else None;
      Some((b.(oldState := cur, longpressRan := false, tChange := Some(now)), request))
    else Some((b, None))
  }

  /** One pin level read at one time. */
  datatype Sample = Sample(level: Bit, now: int)

  /** Successive polls; None if a poll fails. */
  function Polls(b: Pushbutton, samples: seq<Sample>): (r: Option<(Pushbutton, seq<Option<Callback>>)>)
    ensures Inv(b) ==> r.Some? && Inv(r.value.0) && |r.value.1| == |samples|
    decreases |samples|
  {
    if |samples| == 0 then Some((b, []))
    else match Poll(b, samples[0].level, samples[0].now)
      case None => None
      case Some((b1, c)) =>
        match Polls(b1, samples[1..])
        case None => None
        case Some((b2, cs)) => Some((b2, [c] + cs))
  }

  function CountLong(cs: seq<Option<Callback>>): nat
  {
    if |cs| == 0 then 0 else (if cs[0] == Some(LongPress) then 1 else 0) + CountLong(cs[1..])
  }

  /** During one hold (every poll reads pressed, the button already pressed)
      the long-press callback is requested at most once, and not at all once
      it has run; no press or release is requested. */
  lemma {:induction false} LongPressAtMostOncePerHold(b: Pushbutton, samples: seq<Sample>)
    requires Inv(b) && b.oldState
    requires forall i :: 0 <= i < |samples| ==> Pressed(b.sense, samples[i].level)
    ensures CountLong(Polls(b, samples).value.1) <= (if b.longpressRan then 0 else 1)
    ensures forall i :: 0 <= i < |samples| ==>
      Polls(b, samples).value.1[i] != Some(Press) && Polls(b, samples).value.1[i] != Some(Release)
    decreases |samples|
  {
    if |samples| > 0 {
      var (b1, c) := Poll(b, samples[0].level, samples[0].now).value;
      LongPressAtMostOncePerHold(b1, samples[1..]);
      var rest := Polls(b1, samples[1..]).value.1;
      assert Polls(b, samples).value.1 == [c] + rest;
      assert CountLong([c] + rest) == (if c == Some(LongPress) then 1 else 0) + CountLong(rest);
    }
  }

  /** A long press is a press first: polling a released button as it goes
      down at t0 and again, still down, at t1 >= t0 + 1000 requests the press
      callback and then the long-press callback. */
  lemma HoldIsPressThenLong(b: Pushbutton, level: Bit, t0: int, t1: int)
    requires Inv(b) && !b.oldState && Pressed(b.sense, level)
    requires t1 - t0 >= LongPressMs
    ensures Polls(b, [Sample(level, t0), Sample(level, t1)]).value.1 == [Some(Press), Some(LongPress)]
  {
    var b1 := Poll(b, level, t0).value.0;
    assert Poll(b1, level, t1).value.1 == Some(LongPress);
    assert [Sample(level, t0), Sample(level, t1)][1..] == [Sample(level, t1)];
  }

  /** A release that ends a hold whose long press already ran launches nothing. */
  lemma NoReleaseAfterLongPress(b: Pushbutton, level: Bit, now: int)
    requires Inv(b) && b.oldState && b.longpressRan && !Pressed(b.sense, level)
    ensures Poll(b, level, now).value.1.None?
  {
  }
}
