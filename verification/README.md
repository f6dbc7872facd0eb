# EuroPi scripts: a Dafny model of their state machines

The EuroPi is a Eurorack module that runs MicroPython. Its scripts are a clock
divider driven from an expander board, a two-row step sequencer, an
arpeggiator, two CV quantizers, and a "Turing machine" random looper. They
share three pieces of library code:
- the scale-table builder `create_scale`;
- a master clock with internal and external sources;
- an asynchronous push-button recogniser.

Under the pin writes and sleeps, each script runs a small deterministic state
machine. This project models each machine as an immutable datatype with pure
transition functions, and proves the properties the code and its comments
promise.

Hardware inputs are parameters:
- a knob reading is a `Fraction`, a real in [0, 1];
- a pin level is a `Bit`;
- a 16-bit ADC reading is a `U16`;
- time is an `int` in milliseconds;
- every random draw is an input.

Python's `int()` on floats truncates toward zero (`Common.Trunc`). A negative
list index counts from the end (`Common.PyIndex`). An exception is a `None`
result.

Modules, in the order of the program:

- `Common`: shared types and arithmetic helpers.
- `EuroPi`: `create_scale` and `strum` from the library.
- `QuantizerScales`: the quantizers' scale rotation, `get_step` and `get_octave`.
- `Quantizer`: the epsilon index mapping of the CV quantizer.
- `BinaryQuantizer`: the binary search of the expander quantizer.
- `Edges`: the falling-edge wait shared by the clock waits.
- `MasterClock`: both variants of the master clock.
- `Pushbuttons`: one poll of the button recogniser.
- `ClockDivider`: the divider on the EuroPi side.
- `DivisionsDisplay`: the expander side that decodes and shows the divider state.
- `Sequencer`, `Arpeggiator`, `TuringMachine`: the three performance scripts.

Where the documented design and the code differ, the model follows the code:

- The clock divider keeps one shared, never-wrapped pulse counter. An output
  fires when the counter is a multiple of its division. There are no
  per-output countdowns.
- The selection cursor starts at -1 ("nothing selected") and cycles
  -1, 0, 1, 2, 3, -1.
- The sequencer's loop writes the knobs into the grid whenever it is not
  running. That includes a paused play mode, not only edit mode.
- The CV quantizer subtracts 0.001 before scaling and does not clamp. With
  1000 to 1999 entries a zero reading maps to index -1, which Python reads as
  the last entry. Larger tables reach -2, -3 and so on.
- The button recogniser reads the pin twice at construction: once for `sense`
  and once for the initial state. It therefore starts pressed if the level
  changes between the two reads.
- The button recogniser launches the press callback on every
  released-to-pressed change, including the start of a hold that becomes a
  long press. The sequencer registers `_short1` and `_short2` as press
  callbacks, so a long press runs the short action first. In edit mode a long
  press of button 2 therefore advances the step before switching to play
  mode. In play mode a long press of button 1 plays or pauses.
- The expander decodes with MicroPython's `unpack`, which only needs at least
  five bytes and reads the first five. A read holding two queued messages
  shows the older one.
- The arpeggiator's chromatic scale is `range(1, 12)`, steps 1 to 11 without
  the major seventh. The quantizers' chromatic scale is `range(1, 13)`.
- The arpeggiator advances its step before it plays. The first note after a
  restart is therefore step 1, not step 0, unless the range knob moved in the
  same pass.

## Model

| member | source | states |
|---|---|---|
| EuroPi.StepOfNext | contrib/europi.py:95-97 | create_scale's step counter goes up by one per chromatic position and wraps from 13 back to 1 |
| EuroPi.PitchIsMultiple | contrib/europi.py:89-94 | after i chromatic increments the scan's pitch is i times the chromatic step |
| EuroPi.PitchMono | contrib/europi.py:94 | pitches are non-negative and grow strictly with the position for a positive step |
| EuroPi.CreateScale | contrib/europi.py:86-98 | the while loop returns exactly the kept pitches of the 37 scanned positions, one per position whose step is in the pattern |
| EuroPi.TableIncreasing | contrib/europi.py:88-95 | a scale table is strictly increasing |
| EuroPi.TableMembership | contrib/europi.py:91-93 | position i's pitch is in the table iff its in-octave step is in the pattern |
| EuroPi.ScaleTableShape | contrib/europi.py:86-98 | the finished table is strictly increasing, holds i * step iff (i mod 12) + 1 is in the pattern, and has one entry per such position |
| EuroPi.TableLength | contrib/europi.py:91-93 | the table length is the number of kept positions |
| EuroPi.FullTableEntries | contrib/europi.py:91-97 | a pattern holding all twelve steps keeps every position, in order |
| EuroPi.ChromaticEntries | contrib/sequencer.py:41 | the sequencer's chromatic table has 37 entries, entry i being position i's pitch |
| EuroPi.FirstEntryIsZero | contrib/europi.py:89-93 | a pattern containing step 1 starts its table at pitch 0 |
| EuroPi.StrumAsWritten | contrib/europi.py:74-83 | a count mismatch plucks nothing; otherwise count - 1 plucks, a prefix of the notes |
| EuroPi.StrumDropsLastNote | contrib/europi.py:78 | three notes give two plucks and the last note is never played |
| EuroPi.Strum | contrib/europi.py:74-77 | the intended strum: one pluck per note, in order, exactly when the counts agree |
| QuantizerScales.NextScale | contrib/quantizer.py:94-96 | the next scale index stays among the nine and wraps to 0 only from the last |
| QuantizerScales.NextScaleRotates | contrib/expander/quantizer.py:37-39 | k presses move from scale i to scale (i + k) mod 9 |
| QuantizerScales.IndexOf | contrib/quantizer.py:64 | list.index: the first position of the note, and a ValueError exactly for a note not in the table |
| QuantizerScales.GetStepAsWritten | contrib/quantizer.py:61-65 | note 0 gives the first step; a note not in the table raises; any other table note gives some step |
| QuantizerScales.GetStepAsWrittenIndex | contrib/expander/quantizer.py:13-17 | the table note at index k gives steps[k mod L - 1], and the last step when k is a multiple of L |
| QuantizerScales.GetStep | contrib/quantizer.py:61-65 | the corrected get_step answers a step of the scale for every table note, and raises for other notes |
| QuantizerScales.CountByOctaves | contrib/europi.py:91-97 | the positions kept among the first n number L per full octave plus the pattern steps below n mod 12 |
| QuantizerScales.StepOfTableEntry | contrib/quantizer.py:56-59 | the table note at index k is the pitch of a chromatic position whose step is steps[k mod L] |
| QuantizerScales.GetStepIsNoteStep | contrib/quantizer.py:61-65 | the corrected get_step returns each non-zero table note's own in-octave step |
| QuantizerScales.GetStepAsWrittenIsOffByOne | contrib/quantizer.py:64-65 | in the major scale the note on step 3 is reported as step 1 as written, and as step 3 by the correction |
| QuantizerScales.GetOctave | contrib/quantizer.py:67-69 | every table note lies in octave 1, 2 or 3; a note not in the table raises |
| QuantizerScales.OctaveBounds | contrib/quantizer.py:68-69 | for any index inside the table, the truncated octave quotient is 0, 1 or 2 |
| Quantizer.Percent | contrib/quantizer.py:39-41 | a 16-bit reading maps into [0, 1], with 0 and 65535 exactly at the ends |
| Quantizer.PercentMonotone | contrib/quantizer.py:39-41 | a higher reading never gives a lower fraction |
| Quantizer.QuantizedNote | contrib/quantizer.py:99-102 | any note returned is a table note, and an empty table raises |
| Quantizer.QuantizedIndexInRange | contrib/quantizer.py:101-102 | for a fraction and a table of 1 to 999 entries the index is inside the table |
| Quantizer.QuantizedIndexMonotone | contrib/quantizer.py:101 | a larger input never selects an earlier entry |
| Quantizer.QuantizedNoteLargeTable | contrib/quantizer.py:101-102 | with 1000 to 1999 entries a zero input maps to index -1 and so to the last entry |
| Quantizer.QuantizedNoteExamples | contrib/quantizer.py:99-102 | on a three-entry table, 0.0 and 0.33 pick the first entry, 0.34 the second and 0.99999 the third |
| BinaryQuantizer.Pivot | contrib/expander/quantizer.py:49 | the pivot is the midpoint and lies strictly inside any range of two or more, so the search terminates |
| BinaryQuantizer.Search | contrib/expander/quantizer.py:45-54 | the result index stays in its range; on a sorted table it is the last index whose note is not above the value |
| BinaryQuantizer.QuantizedNote | contrib/expander/quantizer.py:42-56 | a non-empty table yields one of its notes; an empty one raises |
| BinaryQuantizer.QuantizedNoteIsFloor | contrib/expander/quantizer.py:42-56 | on a sorted table the result is the greatest note not above the value, or the first note when all are above |
| BinaryQuantizer.NeverRoundsUp | contrib/expander/quantizer.py:43 | a value one below the upper of two notes still yields the lower note |
| Edges.Track | contrib/expander/clock_distributor_europi.py:116-117 | the remembered level ends equal to the level read and changes iff it differed |
| Edges.WaitFalling | contrib/expander/clock_distributor_europi.py:112-119 | the wait returns at the first falling edge and nowhere before it; if the polls run out it has seen none |
| MasterClock.InternalTempo | contrib/lib/clock.py:77-82 | the tempo lies in [min_bpm, max_bpm], with the knob's ends at the ends |
| MasterClock.InternalTempoMonotone | contrib/expander/lib/clock.py:56-61 | turning the knob up never lowers the tempo |
| MasterClock.NewLibraryClock | contrib/lib/clock.py:51-71 | construction fails exactly when no tempo knob is given; otherwise the window is ten copies of the first tempo |
| MasterClock.NewExpanderClock | contrib/expander/lib/clock.py:31-50 | the expander clock starts internal with ten copies of the first tempo |
| MasterClock.FreshWindowMean | contrib/expander/lib/clock.py:49-50 | a fresh window averages to the first reading |
| MasterClock.SwitchClockSource | contrib/lib/clock.py:73-75 | the switch flips the source and changes nothing else |
| MasterClock.SwitchTwice | contrib/expander/lib/clock.py:52-54 | two switches restore the clock |
| MasterClock.InternalClockWait | contrib/lib/clock.py:84-94 | a tick shifts the window by one reading and keeps its length; the stored tempo is the window mean; the period uses a separate raw reading; the bus pulses only when a bus pin exists |
| MasterClock.WindowIsFifo | contrib/lib/clock.py:86-88 | after n ticks the window is the last ten of the initial window followed by the new readings |
| MasterClock.WindowAfterTenTicks | contrib/expander/lib/clock.py:66-68 | after ten or more ticks the window is exactly the last ten readings and the tempo is their mean |
| MasterClock.ExternalClockWait | contrib/lib/clock.py:97-103 | the external wait returns on a falling edge with the level tracked at 0, or when the source becomes internal; without a bus pin it fails |
| MasterClock.NoEdgeFromLowOnFirstPoll | contrib/expander/lib/clock.py:41-78 | the tracked level starts at 0, so the first external wait spans a whole pulse and never returns on its first poll |
| MasterClock.ExternalWaitIsFallingEdge | contrib/expander/lib/clock.py:74-78 | with the source held external the wait is the shared falling-edge wait over the pin levels |
| MasterClock.Wait | contrib/lib/clock.py:105-110 | wait ticks internally iff the source is internal, and leaves the window alone otherwise |
| Pushbuttons.Launch | contrib/lib/button.py:26-32 | a callback runs iff one is requested and registered |
| Pushbuttons.New | contrib/lib/button.py:41-49 | the initial state is pressed iff the two construction reads differ; no change time is recorded |
| Pushbuttons.Poll | contrib/lib/button.py:74-107 | press exactly on a released-to-pressed change; release on pressed-to-released only if no long press ran; long press when held at least 1000 ms past the change and not yet run; every change records the time and clears the flag |
| Pushbuttons.LongPressAtMostOncePerHold | contrib/lib/button.py:88-93 | during one hold the long press is requested at most once, and never again once it ran; no press or release is requested |
| Pushbuttons.HoldIsPressThenLong | contrib/lib/button.py:88-98 | polling a button as it goes down and again 1000 ms later, still down, requests the press callback and then the long press |
| Pushbuttons.NoReleaseAfterLongPress | contrib/lib/button.py:99-101 | releasing after a long press launches nothing |
| ClockDivider.ChoicesWithinBound | contrib/expander/clock_distributor_europi.py:53-54 | a division is valid exactly when it is one of the knob's choices; 16 is the last and largest |
| ClockDivider.Init | contrib/expander/clock_distributor_europi.py:56-70 | the divider starts with valid divisions, no output selected, no choice remembered and the counter at 0 |
| ClockDivider.EncodeSigned | contrib/expander/clock_distributor_europi.py:47-48 | a signed char is packed as its two's-complement byte |
| ClockDivider.StateMessage | contrib/expander/clock_distributor_europi.py:72-74 | the state message is five bytes: the cursor, then the four divisions |
| ClockDivider.SelectNextDivision | contrib/expander/clock_distributor_europi.py:76-81 | a press moves the cursor to the next output, or to -1 after the last, changes nothing else, and sends the new state |
| ClockDivider.SelectCycle | contrib/expander/clock_distributor_europi.py:76-79 | k presses move the cursor k places round -1, 0, 1, 2, 3 and change nothing else |
| ClockDivider.FivePressesRestore | contrib/expander/clock_distributor_europi.py:76-79 | five presses restore the divider |
| ClockDivider.GetDivisionChoice | contrib/expander/clock_distributor_europi.py:83-84 | every knob position selects a valid index into the choices |
| ClockDivider.DivisionChoiceRange | contrib/expander/clock_distributor_europi.py:83-84 | the choice grows with the knob, from the first choice at 0 to the last at full scale |
| ClockDivider.AdjustDivision | contrib/expander/clock_distributor_europi.py:86-92 | a write happens iff an output is selected and the choice changed; it sets only that output's division, keeps the counter, and sends the state; otherwise nothing changes |
| ClockDivider.AdjustSendsOnce | contrib/expander/clock_distributor_europi.py:86-92 | with the knob still, a second adjustment changes and sends nothing |
| ClockDivider.Trigger | contrib/expander/clock_distributor_europi.py:94-103 | output i fires iff the counter is a multiple of its division; the counter then goes up by one with no wrap |
| ClockDivider.Triggers | contrib/expander/clock_distributor_europi.py:94-103 | over n pulses, output i fires at pulse t iff counter + t is a multiple of its division |
| ClockDivider.FireCount | contrib/expander/clock_distributor_europi.py:94-103 | from counter 0, output i fires ceil(n / d_i) times in n pulses |
| ClockDivider.EightPulses | contrib/expander/clock_distributor_europi.py:109 | the script's /1, /2, /4, /8 fire 8, 4, 2 and 1 times over eight pulses |
| ClockDivider.LoopPass | contrib/expander/clock_distributor_europi.py:123-132 | a pass completes iff the clock wait sees a falling edge; it then triggers once and sends the state iff an output is selected and the knob's choice changed; the bytes sent are the new state's message, with only the selected division set to the chosen value and the choice remembered; without a send the state is the triggered one |
| DivisionsDisplay.DecodeSigned | contrib/expander/clock_distributor_expander.py:14-15 | unpacking a byte as a signed char inverts its packing |
| DivisionsDisplay.Unpack | contrib/expander/clock_distributor_expander.py:53-57 | a read decodes iff it holds at least five bytes |
| DivisionsDisplay.UnpackIgnoresTail | contrib/expander/clock_distributor_expander.py:54 | bytes after the first five do not change the decoded state |
| DivisionsDisplay.UnpackStateMessage | contrib/expander/clock_distributor_expander.py:54 | decoding the divider's message gives back its cursor and four divisions |
| DivisionsDisplay.UnpackIsInjective | contrib/expander/clock_distributor_expander.py:14-15 | two five-byte reads that decode alike are the same bytes |
| DivisionsDisplay.TwoMessagesShowFirst | contrib/expander/clock_distributor_expander.py:52-58 | two state messages read together decode as the first, older one |
| DivisionsDisplay.Render | contrib/expander/clock_distributor_expander.py:18-28 | the selected line is shown iff the cursor is not -1, and shows the cursor plus one, beside the four divisions |
| DivisionsDisplay.ScreenAfterSelect | contrib/expander/clock_distributor_expander.py:25-27 | after a press on the divider the screen shows the newly selected output 1 .. 4, or none after the last |
| DivisionsDisplay.Ready | contrib/expander/clock_distributor_expander.py:31-42 | after start-up nothing is decoded and the LED and the remembered level are 0; the bus clock and digital out start at their power-on low level, so all three outputs repeat the remembered level |
| DivisionsDisplay.Step | contrib/expander/clock_distributor_expander.py:43-58 | each pass tracks the input level with the outputs following it; a good read replaces the state; a bad one redraws the last state, and fails when there is none |
| DivisionsDisplay.BusClockFollowsInput | contrib/expander/clock_distributor_expander.py:44-49 | from start-up the bus clock always equals the last input level read |
| Sequencer.Init | contrib/sequencer.py:56-82 | the sequencer starts paused in edit mode at step 0 of row 0, with row LEDs on row 0, pitches 0 and velocities 65535 |
| Sequencer.ToggleRun | contrib/sequencer.py:101-103 | toggling run flips it and nothing else |
| Sequencer.ToggleRow | contrib/sequencer.py:105-109 | the row alternates between 0 and 1 and the row LEDs follow it |
| Sequencer.ToggleEdit | contrib/sequencer.py:111-124 | leaving edit starts playing and keeps the step; entering edit pauses and rewinds to step 0 |
| Sequencer.PlayStep | contrib/sequencer.py:146-151 | the four outputs carry both rows' pitch and velocity at the current step |
| Sequencer.NextStep | contrib/sequencer.py:160-168 | the step advances and wraps at the length, changing nothing else; edit mode blinks, long exactly on the wrap to 0 |
| Sequencer.NextStepsWrap | contrib/sequencer.py:160-161 | n advances move the step n places modulo the length; the blinks are long exactly on landing at 0 |
| Sequencer.EditCycle | contrib/sequencer.py:160-168 | in edit mode, one press per step returns to step 0 with exactly one long blink, on the last press |
| Sequencer.PitchIndex | contrib/sequencer.py:127 | every knob position gives an index inside the 37-entry chromatic table |
| Sequencer.GetPitch | contrib/sequencer.py:126-128 | the pitch is a chromatic table entry, the one at the knob's index |
| Sequencer.GetPitchMonotone | contrib/sequencer.py:126-128 | a further knob position never gives a lower pitch |
| Sequencer.GetVelocity | contrib/sequencer.py:130-132 | the velocity is a multiple of 512 within 512 below the reading |
| Sequencer.GetVelocityProperties | contrib/sequencer.py:54 | clearing the low nine bits is idempotent and monotone |
| Sequencer.AdjustStep | contrib/sequencer.py:134-144 | only cell [row][counter] of each grid may change, each only when the mapped value differs from the last one written |
| Sequencer.AdjustStepStill | contrib/sequencer.py:137-144 | with the knobs unmoved since the last write, adjusting changes nothing |
| Sequencer.Handle | contrib/sequencer.py:84-99 | short 1 previews in edit and plays or pauses otherwise; long 1 changes row only in edit; short 2 advances only in edit; long 2 always switches mode; no callback touches the grids |
| Sequencer.EventOf | contrib/sequencer.py:67-73 | each button raises an event exactly for its press and long-press callbacks, which are the ones registered |
| Sequencer.HoldRaisesShortThenLong | contrib/sequencer.py:67-73 | a long press of either button raises its short event and then its long event |
| Sequencer.LongPress2InEditAdvancesFirst | contrib/sequencer.py:94-99 | in edit mode a long press of button 2 starts play one step after the current one, where a bare mode switch would keep the step |
| Sequencer.LongPress1InPlayToggles | contrib/sequencer.py:84-92 | in play mode a long press of button 1 plays or pauses and changes nothing else |
| Sequencer.LoopPass | contrib/sequencer.py:170-180 | a running pass plays the step and advances; any other pass edits the current step |
| Sequencer.PausedPlayModeEdits | contrib/sequencer.py:173-180 | paused in play mode, a moved pitch knob still writes the grid |
| Sequencer.PlayingKeepsGrids | contrib/sequencer.py:173-176 | a running pass leaves both grids alone and moves one step |
| Arpeggiator.Len | contrib/arpeggiator.py:46-50 | the played length never exceeds the table, and is the whole table over three octaves |
| Arpeggiator.LenMonotone | contrib/arpeggiator.py:47 | a wider octave range never plays fewer notes |
| Arpeggiator.LenOfThreeOctaves | contrib/arpeggiator.py:46-50 | a table of 3L + 1 notes plays r * L notes plus the octave note if asked, or all of them at three octaves |
| Arpeggiator.PatternTableLength | contrib/arpeggiator.py:81-91 | each arpeggio table has three octaves of its pattern plus the top octave note |
| Arpeggiator.ArpScale | contrib/arpeggiator.py:81-91 | each of the nine scales starts at step 0, ascending, with a table of 3L + 1 notes |
| Arpeggiator.ArpScaleLen | contrib/arpeggiator.py:46-50 | every scale plays at least two notes at every range |
| Arpeggiator.Restart | contrib/arpeggiator.py:53-55 | a restart returns to step 0, ascending, with the notes kept |
| Arpeggiator.NextStep | contrib/arpeggiator.py:58-64 | the step advances; on reaching the length it returns to 0 and the direction flips |
| Arpeggiator.NextStepsIsWalk | contrib/arpeggiator.py:58-64 | stepping under a fixed range depends on the scale only through the length that range plays |
| Arpeggiator.WalkPosition | contrib/arpeggiator.py:58-64 | k steps over a length n after a restart stand at step k mod n, ascending in even rounds and descending in odd ones |
| Arpeggiator.WalkFirstRounds | contrib/arpeggiator.py:58-64 | in the first two rounds the step is k ascending, then k - n descending |
| Arpeggiator.NextStepsPosition | contrib/arpeggiator.py:58-64 | after a restart the direction is ascending in even rounds of the length and descending in odd ones |
| Arpeggiator.Play | contrib/arpeggiator.py:67-72 | play succeeds iff the step is inside the length; fwd is the step's note, bwd the note as far from the end, bi picks one by direction, rnd is a played note |
| Arpeggiator.PlayOver | contrib/arpeggiator.py:67-72 | over a played length n, play succeeds iff the step is below n; fwd is the step's note, bwd the note as far from the end, bi picks one by direction, rnd one of the n played notes |
| Arpeggiator.PlayInRounds | contrib/arpeggiator.py:67-72 | a scale at position k of the first two rounds plays the k-th notes of up+down, up+up and down+down |
| Arpeggiator.WalkPlay | contrib/arpeggiator.py:58-72 | k steps over n after a restart reach the voices of position k of the first two rounds |
| Arpeggiator.PlayInFirstRounds | contrib/arpeggiator.py:67-72 | at position k of the first two rounds the voices are the k-th notes of up+down, up+up and down+down |
| Arpeggiator.BiPattern | contrib/arpeggiator.py:58-72 | over two rounds the up-and-down voice plays 1 2 3 3 2 1, fwd plays up twice and bwd down twice |
| Arpeggiator.TwoRoundsRestart | contrib/arpeggiator.py:58-64 | two rounds return the scale to its restart state |
| Arpeggiator.GetOctaveRange | contrib/arpeggiator.py:75-77 | every knob position selects 1, 2 or 3 octaves, bracketing three times the reading |
| Arpeggiator.OctaveRangeMonotone | contrib/arpeggiator.py:75-77 | the range grows with the knob, from one octave at 0 to three at full scale |
| Arpeggiator.StepGates | contrib/arpeggiator.py:130-136 | digital 1 fires on every step, digital 2 exactly on step 0, digital 3 exactly on multiples of 3 and digital 4 on multiples of 4, both together exactly on multiples of 12 |
| Arpeggiator.Init | contrib/arpeggiator.py:92-96 | start-up selects the major scale with the range read from knob 2, and every scale stands at step 0 ascending, so the loop's first advance plays step 1 |
| Arpeggiator.NextScale | contrib/arpeggiator.py:103-107 | the button selects scale (i + 1) mod 9 and restarts it, keeping the range |
| Arpeggiator.Iteration | contrib/arpeggiator.py:111-136 | a pass keeps the scale; it restarts on a range change and otherwise advances with the old range; the tempo lies in [20, 500]; the voices and gates come from the new step |
| TuringMachine.Percent | contrib/europi.py:39-40 | the knob percent lies in 0 .. 100, 0 at the bottom and 100 at full scale |
| TuringMachine.ClockPeriod | turing_machine.py:45 | the clock period lies between 0 and 1 second |
| TuringMachine.NewElementAsWritten | turing_machine.py:13 | as written, a roll below 3 gives a rest lasting the clock period and any other roll fails, since `choice` is not defined |
| TuringMachine.NoteDrawStopsAsWritten | turing_machine.py:47-50 | as written and as intended the rests agree; every draw that should give a note stops the script as written |
| TuringMachine.NewElement | turing_machine.py:47-50 | as intended, a roll below 3 gives a rest, otherwise a note with both pitches from D major, lasting the clock period |
| TuringMachine.Start | turing_machine.py:41-43 | the machine starts empty at note 0 |
| TuringMachine.Place | turing_machine.py:52-63 | while filling the new element is appended and played; once full, only the play position may be replaced, at the knob's chance; the position advances modulo 16 |
| TuringMachine.StepAsWritten | turing_machine.py:44-63 | as written, a pass completes iff the roll makes a rest, and a sequence of rests stays one and plays only rests |
| TuringMachine.StepAsWrittenStopsOnNotes | turing_machine.py:44-63 | a pass as written equals the intended pass on rests, and fails where the intended pass builds a note |
| TuringMachine.Step | turing_machine.py:44-63 | as intended, while filling, a pass appends the new element and plays it; once full, only the element at the play position may be replaced, at the knob's chance; the position advances modulo 16 |
| TuringMachine.FillsThenLoops | turing_machine.py:52-63 | after k passes the length is min(len + k, 16) and the position has moved k places modulo 16 |
| TuringMachine.LockedLoop | turing_machine.py:52-54 | with knob 2 at zero a full sequence never changes |

## Left out

- Pin, PWM, ADC, UART and OLED side effects, trigger pulse widths and every
  sleep are not modelled. Outputs are returned values; the tempo period is
  returned as the tempo it is computed from.
- The asyncio tasks of the button recogniser and the sequencer are not
  modelled. One poll and one loop pass are pure transitions. How callbacks
  interleave with the loop is a concurrency matter.
- The float chromatic step (`contrib/europi.py:109`) and the `int(pitch)`
  truncation of each kept pitch are abstracted. The step is a positive integer
  `unit`, so every kept pitch is an exact multiple of it.
- `round(..., 1)` on the smoothed tempo is left out: the stored tempo is the
  exact window mean.
- MicroPython's `ticks_diff` wrap-around is left out: time is an unbounded
  integer.
- Random draws (`choice`, `randint`) are inputs. A `choice` is the entry at
  the drawn number modulo the length. The intended Turing machine assumes
  `choice` is available, which the library as written does not provide (see
  Findings).
- DivisionsDisplay.Ready: assumes the bus clock and digital out start low.
  `ready()` only switches the LED off, and `bus_clock`
  (`contrib/expander/clock_distributor_expander.py:9`) and `digital_out`
  (`contrib/expander/lib/expander.py:75`) are built without a level. The
  model takes their power-on low level. From a high start the toggling would
  invert them, and BusClockFollowsInput would not hold.
- Debug prints, the OLED text layout and the serial flush in the expander's
  `ready()` are left out.
- Knob readings are fractions in [0, 1], as the scripts' arithmetic assumes.
  `contrib/europi.py:39-40` returns an integer percent 0 .. 100 instead. Only
  the Turing machine divides by 100, and it alone uses that percent
  (`TuringMachine.Percent`).
- The sequencer calls `create_scale(range(1, 13), max_steps=37)`. The library
  version in `contrib/europi.py:86` takes one argument and always scans 37
  positions, so the model uses the 37-position table. The CV quantizer's
  `create_scale(steps, 37)` is treated the same way.
- Sequencer.Init: requires a sequence length of at least one. The constructor
  accepts zero, but then every step access and the modulo in `next_step`
  would fail.
- The arpeggiator keeps `octave_range` and `prev_octave_range` as one field
  `octaves`. The two are equal between passes.
- `Python Code/`, `basic_functions.py`, `test.py` and the expander hardware
  wrappers are not part of this model.

## Findings

| source | as written | input that shows it | evidently intended | confidence | as-written member | corrected member |
|---|---|---|---|---|---|---|
| contrib/quantizer.py:61-65 (same code in contrib/expander/quantizer.py:13-17) | returns `steps[(index mod len(steps)) - 1]`, one step behind | major scale, the note on chromatic position 2 (table index 1): returns step 1 | the note's own step, `steps[index mod len(steps)]`, here 3 | not executed | QuantizerScales.GetStepAsWrittenIsOffByOne | QuantizerScales.GetStepIsNoteStep |
| contrib/europi.py:74-83 | plucks `range(0, count-1)`, i.e. count - 1 notes | count 3, notes [10, 20, 30]: plucks 10 and 20 only | one pluck per note, as the error message "a note pitch per pluck" implies | not executed | EuroPi.StrumDropsLastNote | EuroPi.Strum |
| turing_machine.py:1-13 with contrib/europi.py:13 | the script imports the library with `*` and calls `choice(d_maj)`, but the library imports only `random` and `randint` from `random` | any pass whose `randint(0, 10)` draw is 3 or more: NameError on building the note | `choice` imported, as the older library `Python Code/europi.py:12` does | not executed | TuringMachine.StepAsWrittenStopsOnNotes | TuringMachine.FillsThenLoops |
