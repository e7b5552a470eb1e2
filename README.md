# N-Back task engine and trial data collector

This project is a Dafny model of the firmware core of an N-Back cognitive test
device. A NeoPixel shows a sequence of coloured stimuli. The participant
answers each one with a CONFIRM channel ("same colour as n trials ago") or a
WRONG channel, using either push buttons or capacitive touch pads. A host
drives the device over a serial line.

- **Commands.** The host sends `start`, `pause`, `debug`, `exit-debug`,
  `exit`, `get_data`, `config …`, `input_mode` and `sync`.
- **Trial engine.** `NBackTask` in src/nback_task.cpp is modelled as the class
  `Engine.NBackTask`. Its fields are the firmware's: the state, the flags, the
  metrics, the timestamps, the four debounce channels and the colour sequence
  array. `Tick` is one pass of `loop()`. Each serial command is a method that
  changes those fields.
- **Session invariant.** Every method keeps `Valid()`. In a running or paused
  session this means:
  - the current trial is below the trial count;
  - exactly one of the response window and the inter-stimulus interval is open;
  - the target flag is the sequence's n-back match;
  - the trial log holds exactly the finished trials, in order;
  - each logged row carries the colour and target flag of its position;
  - the metrics agree with the tally of the rows.
- **Data collector.** `DataCollector` in src/data_collector.cpp is the class
  `DataCollection.DataCollector`. It is a 50-row array with a count. The report
  it prints (`sendDataOverSerial`) is the pure function `ReportLines`, proved
  to have the documented layout and to be readable back row by row.
- **Pure parts.** These are separate modules, each with its own lemmas:
  - timestamp formatting (div/mod with a round trip);
  - the integer-to-text and text-to-integer conversions of the Arduino
    `String`/`Print` API that the code relies on (module `Text`);
  - colour-name parsing and sequence generation (module `Colors`);
  - debouncing (module `Debounce`);
  - the config-line grammar (module `Config`);
  - trial scoring (module `Scoring`).

Time is a natural number passed to each operation as `now`. One `now` serves a
whole loop pass, so every `millis()` call within a pass reads the same value.
The raw channel readings are parameters. `random` is an oracle `draw: nat ->
nat`: its k-th call yields `draw(k)`, reduced as Arduino's `random(n)` and
`random(lo, hi)` reduce it. Whether `new int[n]` succeeds is the parameter
`allocOk`. The streaming calls to the host are appended to the ghost event log
`events`: `sendTimestampedEvent` and `sendRealTimeEvent` are declared but not
defined in the repository's collector. The serial lines a command returns to
the host are out-parameters. These are the sync line, the `get_data` report
framed by its two status lines, the "No data available" line, and the
`button-press:` lines of input forwarding.

Where the code's behaviour differs from its help text or its evident design,
the model follows the code:

- `start` has no state guard (src/nback_task.cpp:185-195). It dereferences the
  colour sequence, so the model requires one to exist.
- `input_mode` takes no argument and enters input forwarding
  (src/nback_task.cpp:267-271). The help text at src/nback_task.cpp:117
  describes `input_mode 0|1`.
- The stimulus timeout has been commented out (src/nback_task.cpp:555), so a
  trial ends only on a press. The invariant proves that the "no response"
  branch of scoring is unreachable from the engine. `Scoring` still models
  that branch.
- The recorded `response_made` is `responseIsConfirm` (src/nback_task.cpp:669).
  The real-time trial event carries `buttonPressed && responseIsConfirm`.
- The config command needs a comma after the session number.
- `configure` neither regenerates the sequence nor resets the metrics.
- In DATA_READY, `configure` discards the recorded rows.
- Pausing does not freeze any timer.
- The buttons start "held" (`lastState` HIGH), so the first button press
  needs a release first.
- The 1 s debug colour period comes from `timing.debugColorDuration`
  (src/nback_task.cpp:26), not the 10 s header constant.
- `MAX_TRIALS` (30) is taken from src/nback_task.h:15. `DEBOUNCE_DELAY` (20)
  is from src/nback_task.cpp:39. `COLOR_COUNT` is six, with RED = 0 to
  WHITE = 5. The number of colours used by generation is the constructor
  parameter `colors`, between 1 and 6.

## Model

| member | source | states |
|---|---|---|
| Text.NatToString | src/data_collector.cpp:97 | printing an unsigned number gives one or more decimal digits, exactly one digit when the number is below ten |
| Text.DecimalValueOfNatToString | src/data_collector.cpp:97 | the printed digits denote the number printed |
| Text.PadValue | src/data_collector.cpp:242 | a `%02d`/`%03d` zero-padded rendering still denotes the number |
| Text.PadLength | src/data_collector.cpp:242 | a number below 10^w pads to exactly w characters |
| Text.ToIntOfNatToString | src/nback_task.cpp:305 | `toInt` of a printed number returns that number |
| Text.IndexOf | src/nback_task.cpp:300 | `indexOf` returns -1 or a position at or after the start holding the character |
| Text.IndexOfFirst | src/nback_task.cpp:300 | -1 exactly when the character does not occur from the start on; otherwise no earlier position holds it |
| Text.DroppedSpaces | src/nback_task.cpp:1294 | every character dropped from the front of the text is white space |
| Text.DroppedTrailingSpaces | src/nback_task.cpp:1294 | every character dropped from the end of the text is white space |
| Text.Trim | src/nback_task.cpp:1294 | the trimmed text neither starts nor ends with white space |
| Text.TrimIsSlice | src/nback_task.cpp:1294 | the trimmed text is the slice of the input that starts after its leading white space, and everything after the slice is white space too |
| Text.TrimEmpty | src/nback_task.cpp:1294 | trimming leaves nothing exactly when the text is all white space |
| Text.TrimOfTrimmed | src/nback_task.cpp:1294 | trimming text with no outer white space leaves it unchanged |
| Text.ToLowerString | src/nback_task.cpp:1157 | `toLowerCase` maps each character, upper-case ASCII letters to lower case and everything else to itself |
| Text.ToLowerStringIdempotent | src/nback_task.cpp:1157 | lower-casing twice equals lower-casing once |
| Text.SplitJoin | src/data_collector.cpp:90-158 | splitting a ','-joined line at ',' gives back its fields when no field contains ',' |
| Text.JoinAvoids | src/data_collector.cpp:90-158 | a joined line contains a character other than the separator only if some field does |
| Colors.ParseColorName | src/nback_task.cpp:1153-1178 | the result is a colour below six; a name that lower-cases to a known colour maps to its index, any other name maps to RED |
| Colors.ParseColorNameIgnoresCase | src/nback_task.cpp:1155-1157 | the parse ignores letter case |
| Colors.ParseColorNameOfName | src/nback_task.cpp:1160-1171 | each colour's own name parses to that colour |
| Colors.ColorTokensOfJoin | src/nback_task.cpp:1187-1205 | a ','-joined list of names is split back into its names, cut off after the trial count |
| Colors.Overlay | src/nback_task.cpp:1187-1205 | the first k positions hold the parsed names and every later position keeps its old colour |
| Colors.RandomBelow | src/nback_task.cpp:1018 | `random(n)` lies in [0, n) |
| Colors.RandomBetween | src/nback_task.cpp:1026 | `random(lo, hi)` lies in [lo, hi), and is lo when lo ≥ hi |
| Colors.PlantPos | src/nback_task.cpp:1026 | every planted position lies in [n, trial count) |
| Colors.PlantedInRange | src/nback_task.cpp:1016-1031 | after any number of overwrites every entry is a colour in [0, colours used) |
| Colors.PlantMakesTarget | src/nback_task.cpp:1029 | the overwrite makes its position an n-back target at that step |
| Colors.LastPlantIsTarget | src/nback_task.cpp:1013-1031 | after all trial-count/4 overwrites the last planted position is a target |
| Colors.UnplantedKeepFill | src/nback_task.cpp:1016-1031 | a position no overwrite picked keeps its random fill |
| Colors.PrefixKeepsFill | src/nback_task.cpp:1016-1031 | the first n positions always keep their random fill |
| Config.PercentListOfFramed | src/nback_task.cpp:326-336 | a `%`-framed list without inner `%` is extracted as the list |
| Config.CommaFieldsOfTerminated | src/nback_task.cpp:300-319 | comma-terminated fields are read back as those fields, followed by the remaining text |
| Config.PrintedUint16 | src/nback_task.cpp:305 | a printed 16-bit value read back with `toInt` and stored in `uint16_t` is itself |
| Config.PrintedUint8 | src/nback_task.cpp:341 | the same through the further narrowing to `uint8_t` at the `configure` call |
| Config.RequestOfRequestFields | src/nback_task.cpp:302-316 | the fields printed from a request are converted back into that request |
| Config.ConfigLineRoundTrip | src/nback_task.cpp:282-360 | the config line built from a request with a comma-free study id and a `%`-free colour list parses to that request and that list |
| Config.MissingFinalCommaRejected | src/nback_task.cpp:300-339 | a line whose session number has no trailing comma yields no request |
| Config.FieldsUseCommas | src/nback_task.cpp:300-319 | each field read ends at a comma of its own, so no more fields are read than the text holds commas |
| Config.FewCommasRejected | src/nback_task.cpp:300-339 | text with fewer than six commas yields no request |
| DataCollection.ClockOf | src/data_collector.cpp:235-239 | milliseconds < 1000, seconds < 60, minutes < 60 |
| DataCollection.ClockOfValue | src/data_collector.cpp:235-239 | hours = (m / 3600000) mod 256, and the parts recombine to m mod 256·3600000 |
| DataCollection.TimestampShape | src/data_collector.cpp:242 | the text has at least 12 characters; below 100 hours it is exactly `HH:MM:SS:mmm` with ':' at positions 2, 5 and 8 |
| DataCollection.TimestampRoundTrip | src/data_collector.cpp:232-243 | parsing the formatted text returns m mod 256·3600000, hence m itself below that bound |
| DataCollection.TimestampSplits | src/data_collector.cpp:242 | the text splits at ':' into the four zero-padded fields |
| DataCollection.TimestampHasNoComma | src/data_collector.cpp:242 | the text contains no ',' and cannot break a row |
| DataCollection.RowFields | src/data_collector.cpp:90-158 | a row has as many fields as the trial header has columns |
| DataCollection.RowLines | src/data_collector.cpp:90-158 | one line per stored row, in insertion order |
| DataCollection.SummaryFields | src/data_collector.cpp:187-200 | the summary has as many fields as the session header has columns |
| DataCollection.ReportLayout | src/data_collector.cpp:67-207 | no rows: only "No data to send"; otherwise the opening line, the header, a marker, the rows, then marker, session header, marker, summary, marker and the closing line |
| DataCollection.WordsHaveNoComma | src/data_collector.cpp:105-139 | the fixed words, colour names and booleans of a row contain no ',' |
| DataCollection.RowFieldsHaveNoComma | src/data_collector.cpp:90-158 | with a comma-free study id no row field contains ',' |
| DataCollection.RowLineSplits | src/data_collector.cpp:90-158 | a printed row splits at ',' into exactly its 14 fields in header order |
| DataCollection.SummaryLineSplits | src/data_collector.cpp:187-200 | the summary splits into its 7 fields, the last being the decimal trial count |
| DataCollection.RowRoundTrip | src/data_collector.cpp:90-158 | decoding the fields of a printed row returns that row |
| DataCollection.RowLineIsNotMarker | src/data_collector.cpp:90-161 | no printed row can be mistaken for the `$$$` marker |
| DataCollection.FindLine | src/data_collector.cpp:84-161 | the first line equal to a given one at or after a position, or -1 when there is none |
| DataCollection.ReportTrialSection | src/data_collector.cpp:77-161 | for any study id, the lines between the first two markers of a report are exactly its row lines |
| DataCollection.ReportRoundTrip | src/data_collector.cpp:67-207 | a reader of the report recovers every stored row from its line |
| DataCollection.TruncateStudyId | src/data_collector.cpp:20-21 | at most 9 characters are kept, as a prefix; shorter ids are kept whole |
| DataCollection.DataCollector.constructor | src/data_collector.cpp:7-15 | an empty log, empty study id, session 0 and zero start times |
| DataCollection.DataCollector.Begin | src/data_collector.cpp:17-27 | stores the truncated study id, the session number and both start times, and empties the log |
| DataCollection.DataCollector.Reset | src/data_collector.cpp:29-33 | empties the log and changes nothing else |
| DataCollection.DataCollector.RecordCompletedTrial | src/data_collector.cpp:35-65 | appends the row and counts it when fewer than 50 are stored, else changes nothing; no other array slot changes |
| DataCollection.DataCollector.GetTrialCount | src/data_collector.cpp:213-216 | returns the number of stored rows, which the invariant keeps within 50 and hence within `uint8_t` |
| DataCollection.DataCollector.SendDataOverSerial | src/data_collector.cpp:67-207 | only the no-data line for an empty log; otherwise count + 9 lines with the row lines in place |
| Debounce.Step | src/nback_task.cpp:900-940 | the channel remembers the reading; a press is reported exactly on a released-to-pressed edge more than the delay after the last change; the change time moves only on a change |
| Debounce.ChannelAt | src/nback_task.cpp:893-941 | after k polls the channel holds the k-th reading and a change time no later than it |
| Debounce.PressIsEdge | src/nback_task.cpp:900-940 | a reported press reads pressed after a released reading |
| Debounce.ReleaseBetweenPresses | src/nback_task.cpp:900-940 | between two reported presses there is a released reading |
| Debounce.ChangeTimeAfterPress | src/nback_task.cpp:900-940 | after a press the channel's change time is never earlier than the press |
| Debounce.PressesSpaced | src/nback_task.cpp:900-940 | two reported presses are more than the debounce delay apart |
| Scoring.Classify | src/nback_task.cpp:607-662 | no press is NoResponse; a target at or after position n gives Hit on confirm and TargetMissed on wrong; a non-target gives FalseAlarm on confirm and CorrectRejection on wrong |
| Scoring.ApplyRaisesAtMostOne | src/nback_task.cpp:607-662 | a trial raises at most one of the three outcome counters, by one, and never lowers one |
| Scoring.ApplyTimesPresses | src/nback_task.cpp:607-662 | the reaction time is summed and counted exactly when there was a press |
| Scoring.CorrectMeansMatchingPress | src/nback_task.cpp:665-675 | a pressed trial is recorded as correct exactly when the answer matches its target flag |
| Scoring.NoResponseIsMiss | src/nback_task.cpp:610-615 | no press counts as a missed target, whatever the target flag, and is not correct |
| Scoring.Tally | src/nback_task.cpp:1049-1083 | the hits, false alarms and misses counted from rows never exceed the rows |
| Scoring.ApplyAgrees | src/nback_task.cpp:607-675 | scoring a pressed trial and appending its row keeps the metrics equal to the tally of the rows |
| Scoring.HitsAndMissesAreTargets | src/nback_task.cpp:1049-1083 | hits plus misses equal the number of target rows |
| Scoring.CorrectRowsOfWellScored | src/nback_task.cpp:665-675 | the correct rows plus false alarms plus misses are all the rows |
| Engine.CommandOf | src/nback_task.cpp:176-280 | the empty line is no command; `start` and `sync` are recognised exactly; a config command starts with "config " |
| Engine.PollChannel | src/nback_task.cpp:900-940 | one poll of a channel, as `Debounce.Step` |
| Engine.FillColors | src/nback_task.cpp:1016-1019 | the array becomes the random fill |
| Engine.PlantTargets | src/nback_task.cpp:1022-1031 | the filled array becomes the generated sequence |
| Engine.SetColorSequence | src/nback_task.cpp:1180-1205 | the array becomes its old contents overlaid with the parsed names, cut off at its length |
| Engine.ScanConfig | src/nback_task.cpp:294-319 | the loop reads the comma-terminated fields found, at most six; with six, the parameters form the request they denote |
| Engine.FindColorList | src/nback_task.cpp:321-336 | a custom list is found exactly when a `%`-framed list follows the fields, and it is that list |
| Engine.ReadConfig | src/nback_task.cpp:286-336 | the scan returns the grammar's parse of the text |
| Engine.RecordExtendsLog | src/nback_task.cpp:665-675 | appending the next pressed trial's row keeps agreement, correctness and row positions |
| Engine.NBackTask.constructor | src/nback_task.cpp:7-73 | idle, 1-back, 30 trials, default timing, no sequence, held buttons and released pads, zero metrics, empty log |
| Engine.NBackTask.Setup | src/nback_task.cpp:89-125 | allocates a fresh sequence of the trial count and generates it |
| Engine.NBackTask.GenerateSequence | src/nback_task.cpp:1007-1047 | the sequence becomes the fill followed by trial-count/4 plants |
| Engine.NBackTask.IsCorrectPressed | src/nback_task.cpp:893-941 | one poll of the active CONFIRM channel; the other modality's channel is untouched |
| Engine.NBackTask.IsWrongPressed | src/nback_task.cpp:943-991 | one poll of the active WRONG channel; the other modality's channel is untouched |
| Engine.NBackTask.HandleVisualFeedback | src/nback_task.cpp:811-827 | starting sets feedback at `now`; otherwise feedback stays on only while within its duration |
| Engine.NBackTask.RecordResponse | src/nback_task.cpp:735-745 | stores the reaction and response times, marks the press and its channel, and starts feedback |
| Engine.NBackTask.HandleButtonPress | src/nback_task.cpp:723-764 | nothing changes unless running with no feedback and no press yet; otherwise both channels are polled, a press inside the response window is captured, and a WRONG press in the same call overrides CONFIRM |
| Engine.NBackTask.PollAnswer | src/nback_task.cpp:157 | polling keeps the invariant, the log and every session field apart from the press capture |
| Engine.NBackTask.StartNextTrial | src/nback_task.cpp:694-721 | opens the response window at `now`, clears the press, sets the target flag to the sequence's n-back match and stamps the onset |
| Engine.NBackTask.EvaluateTrialOutcome | src/nback_task.cpp:595-692 | stamps the end, applies the outcome to the metrics, appends the trial's row if the log has room, and emits the trial event |
| Engine.NBackTask.CloseTrial | src/nback_task.cpp:552-572 | a pressed response window closes into the interval at `now`; the stimulus end is stamped onto the press that was captured, the metrics take that press's reaction time, and exactly the trial's row and its trial_complete event are appended |
| Engine.NBackTask.AdvanceTrial | src/nback_task.cpp:575-592 | after the interval, the next trial starts at `now` with its press cleared and its onset stamped, or after the last trial the session is DATA_READY with all trials logged and the trial fields kept; log, metrics and events are kept |
| Engine.NBackTask.ManageTrials | src/nback_task.cpp:541-593 | closes a pressed window with CloseTrial's whole effect, or ends an elapsed interval with AdvanceTrial's, or changes nothing, not even the events |
| Engine.NBackTask.ProgressTrials | src/nback_task.cpp:147-154 | a running pass stays running or reaches DATA_READY, advances at most one trial and only appends to the log |
| Engine.NBackTask.RunningTick | src/nback_task.cpp:143-158 | the same for the whole running branch of the loop, button polling included |
| Engine.NBackTask.DebugStep | src/nback_task.cpp:1089-1147 | the colour advances cyclically once its period has elapsed; a press on either channel starts feedback |
| Engine.NBackTask.RunDebugMode | src/nback_task.cpp:1089-1147 | debug mode stays in DEBUG, keeps the log and moves the colour by at most one step |
| Engine.NBackTask.StartTask | src/nback_task.cpp:386-422 | from any state: running, trial 0 with its window open at `now`, the press, the feedback and the interval cleared, the onset stamped, zero metrics, empty log, the sync line and the start event |
| Engine.NBackTask.PauseTask | src/nback_task.cpp:424-432 | RUNNING becomes PAUSED or back, with the pause or resume event; no other field changes and the log is kept |
| Engine.NBackTask.EnterDebugMode | src/nback_task.cpp:434-449 | DEBUG with colour 0 changed at `now` and feedback off; no other field changes |
| Engine.NBackTask.EnterInputMode | src/nback_task.cpp:1226-1243 | INPUT_MODE with every channel's last state released and its debounce time kept; no other field changes |
| Engine.NBackTask.ExitInputMode | src/nback_task.cpp:1245-1269 | from INPUT_MODE: IDLE with every channel released and no other field changed; otherwise nothing changes |
| Engine.NBackTask.SendData | src/nback_task.cpp:362-373 | the count line, the collector's report and "data-completed", then IDLE with every other field and the log kept |
| Engine.NBackTask.ForwardInputs | src/nback_task.cpp:1274-1288 | each released-to-pressed button edge is forwarded as a `button-press:` line and an event, and the new readings are remembered |
| Engine.PressLines | src/nback_task.cpp:1274-1288 | one `button-press:` line per rising edge, confirm before wrong |
| Engine.ForwardEvents | src/nback_task.cpp:1274-1288 | one input_forwarded event per forwarded line |
| Engine.NBackTask.ForwardInInputMode | src/nback_task.cpp:1274-1288 | ForwardInputs' lines, events and remembered readings, within a valid state |
| Engine.NBackTask.HandleInputModeLoop | src/nback_task.cpp:1271-1302 | forwards the edges as lines and events; a line that trims and lower-cases to "exit" leaves for IDLE with every channel released, anything else stays in INPUT_MODE |
| Engine.NBackTask.Tick | src/nback_task.cpp:127-170 | one loop pass per state: idle, paused and DATA_READY change nothing; running advances at most one trial and only appends; debug stays debug |
| Engine.NBackTask.ApplyConfiguration | src/nback_task.cpp:479-515 | sets timing, level and trial count, reallocates only for a new trial count, and on success stores the study id and begins a new collector session |
| Engine.NBackTask.Configure | src/nback_task.cpp:462-535 | succeeds exactly for valid parameters outside RUNNING/PAUSED with the allocation succeeding; an invalid or mid-session request changes no field, no logged row, not the collector's session header and no colour of the sequence |
| Engine.NBackTask.ApplyConfigText | src/nback_task.cpp:338-355 | no request, or one that is not applied, changes no field, row, session header or sequence colour; an applied request configures, and its colour list then overlays the sequence |
| Engine.NBackTask.ProcessConfigCommand | src/nback_task.cpp:282-360 | the effect of the parsed config line, as the grammar defines it, with the same "changes nothing" cases |
| Engine.NBackTask.ApplyColorList | src/nback_task.cpp:346-349 | the sequence is overlaid with the list's parsed names |
| Engine.NBackTask.ExitDebug | src/nback_task.cpp:213-225 | DEBUG becomes IDLE and nothing else changes; in any other state nothing changes |
| Engine.NBackTask.ExitTask | src/nback_task.cpp:226-248 | RUNNING, PAUSED and DATA_READY become IDLE; INPUT_MODE becomes IDLE with every channel released; no other field changes |
| Engine.PauseEvents | src/nback_task.cpp:197-205 | of the state commands only pause streams an event, and only within a session, naming the direction |
| Engine.NBackTask.TransitionCommand | src/nback_task.cpp:197-248 | the whole new state after pause, debug, exit-debug and exit, the pause or resume event, with rows, session header and sequence colours kept |
| Engine.NBackTask.HostReply | src/nback_task.cpp:249-276 | get_data reports only in DATA_READY and then leaves for IDLE, otherwise prints "No data available" and changes nothing; sync sends the sync line and changes nothing; input_mode enters forwarding with every channel released; no events, and rows, session header and colours are kept |
| Engine.NBackTask.ProcessSerialCommands | src/nback_task.cpp:176-280 | a command is handled exactly when recognised; an unrecognised one changes nothing; start has StartTask's whole effect, the state commands TransitionCommand's and the host replies HostReply's, including the events; config keeps the state and the events |
| Engine.NBackTask.EndTask | src/nback_task.cpp:451-460 | the state becomes DATA_READY |

## Left out

- NeoPixel output (`renderPixels`, `setNeoPixelColor`, `pixels.*`), `delay(1000)` and pin set-up: hardware output with no state the model tracks.
- `readCorrectInput`/`readWrongInput` (src/nback_task.cpp:863-891): the raw digital or touch reading is a parameter of each operation.
- Diagnostic `Serial.print` lines and `reportResults` (src/nback_task.cpp:1049-1083): human-readable text computed with floating point. `Scoring.HitsAndMissesAreTargets` states the integer totals it prints.
- `sendTimestampedEvent`, `sendRealTimeEvent`: their definitions are not in the repository's collector. Each call appends to the ghost event log.
- `getSessionStartTime`/`getSessionAbsoluteStartTime`: read directly as fields. `printColorName`/`printBool`: the row renderer uses `ColorName`/`BoolText`.
- `millis()` wrap-around after 2^32 ms: time is an unbounded natural number. Differences stored into `uint32_t`/`uint16_t` record fields are narrowed explicitly.
- Overflow of `atol` in `toInt`, and of the `int`/`unsigned long` metric totals: the values are unbounded.
- The destructor: releasing memory is not modelled.
- `randomSeed(analogRead(A0))`: the draws are the oracle `draw`.
- src/main.cpp, src/capacitive_touch_debugger.cpp and lib/example are not part of this model. They are a separate earlier program, a calibration tool and a separate game.
- Engine.NBackTask.GenerateSequence: requires 1 ≤ n-back level < trial count, which `configure` does not enforce; with a level at or above the trial count `random(nBackLevel, maxTrials)` returns `nBackLevel` and the write falls past the end of the array.
- Engine.NBackTask.StartTask: requires a colour sequence to exist. The code dereferences it unchecked, which is undefined behaviour after a failed allocation.
- Engine.NBackTask.Tick: states how state, trial number and log may change over one pass. The exact per-step effects are the contracts of HandleVisualFeedback, ManageTrials, HandleButtonPress, RunDebugMode and HandleInputModeLoop.
- Engine.NBackTask.ProgressTrials: states the same coarse bounds as Tick. ManageTrials carries the exact effect.
- Engine.NBackTask.RunningTick: coarse bounds only; see ManageTrials and HandleButtonPress.
- Engine.NBackTask.PollAnswer: states only what polling preserves. HandleButtonPress carries the exact effect.
- Engine.NBackTask.RunDebugMode: states only the bounds. DebugStep carries the exact effect.
- Engine.NBackTask.ProcessSerialCommands: for `config`, states that the state and the events are kept and that a request which is not applied changes nothing; ProcessConfigCommand carries the full effect.
- Text is a sequence of characters, one per byte of the firmware's strings: the host's commands and study ids are taken to be ASCII. The collector's `strncpy` (src/data_collector.cpp:20-21) keeps at most 9 bytes and stops at a NUL; DataCollection.TruncateStudyId keeps 9 characters, so a study id with multi-byte characters or an embedded NUL is not cut as the firmware cuts it.
- Engine.NBackTask.ApplyConfiguration: after a reallocation without generation (the config command's case) the contract says nothing about the new array's entries, because `new int[n]` leaves them uninitialised; a failed allocation leaves timing, level and trial count updated and the sequence null, as the code does.
