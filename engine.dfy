/** The N-Back trial engine NBackTask of src/nback_task.cpp: a poll-driven
    state machine whose tick is one pass of loop(), and whose serial commands
    configure, start, pause and end a session. */
module Engine {
  import opened Text
  import opened DataCollection
  import opened Debounce
  import opened Colors
  import opened Config
  import opened Scoring

  datatype TaskState = Idle | Running | Paused | Debug | DataReady | InputMode

  /** INPUT_MODE: physical buttons or capacitive touch pads. */
  datatype InputKind = ButtonInput | CapacitiveInput

  datatype Timing = Timing(stimulusDuration: nat, interStimulusInterval: nat, feedbackDuration: nat, debugColorDuration: nat)

  /** The current trial's times; the differences are kept as integers and
      narrowed where they are passed to the collector. */
  datatype TrialData = TrialData(reactionTime: nat, stimulusOnsetTime: int, responseTime: int, stimulusEndTime: int)

  /** A call of the collector's streaming functions sendTimestampedEvent and
      sendRealTimeEvent, whose bodies are not part of this model. */
  datatype Event =
    | Timestamped(name: string, detail: string)
    | TrialComplete(record: TrialRow)

  const MAX_TRIALS: nat := 30
  const DEBOUNCE_DELAY: nat := 20
  const INITIAL_TIMING := Timing(2000, 2000, 100, 1000)

  /** The configuration text of the "start" event. */
  function StartDetail(n: nat, stim: nat, isi: nat, trials: nat): string
  {
    "n-back_level:" + NatToString(n) + ",stim_duration:" + NatToString(stim)
    + ",inter_stim_interval:" + NatToString(isi) + ",trials:" + NatToString(trials)
  }

  /** The line sendTimeSyncToMaster prints. */
  function SyncLine(now: nat): string
  {
    "sync " + NatToString(now)
  }

  /** The branches of processSerialCommands. */
  datatype Command =
    | NoCommand | StartCommand | PauseCommand | DebugCommand | ExitDebugCommand | ExitCommand
    | GetDataCommand | ConfigCommand | InputModeCommand | SyncCommand | UnknownCommand

  const NO_DATA_AVAILABLE := "No data available. Run task first."

  /** Which branch of processSerialCommands a line takes: the exact command
      words in the order the source tests them, with the "config " prefix
      tested after "get_data". */
  function CommandOf(command: string): (c: Command)
    ensures c == NoCommand <==> |command| == 0
    ensures c == ConfigCommand ==> |command| >= 7 && command[..7] == "config "
    ensures (command == "start" <==> c == StartCommand) && (command == "sync" <==> c == SyncCommand)
  {
    if |command| == 0 then NoCommand
    else if command == "start" then StartCommand
    else if command == "pause" then PauseCommand
    else if command == "debug" then DebugCommand
    else if command == "exit-debug" then ExitDebugCommand
    else if command == "exit" then ExitCommand
    else if command == "get_data" then GetDataCommand
    else if |command| >= 7 && command[..7] == "config " then ConfigCommand
    else if command == "input_mode" then InputModeCommand
    else if command == "sync" then SyncCommand
    else UnknownCommand
  }

  /** The fields of an NBackTask, gathered so a method can state its whole new
      state as an update of the old one. */
  datatype Snapshot = Snapshot(
    state: TaskState,
    nBackLevel: nat,
    maxTrials: nat,
    timing: Timing,
    colorSequence: array?<int>,
    currentTrial: nat,
    trialStartTime: nat,
    stimulusEndTime: nat,
    feedbackStartTime: nat,
    debugColorIndex: nat,
    lastColorChangeTime: nat,
    awaitingResponse: bool,
    targetTrial: bool,
    feedbackActive: bool,
    buttonPressed: bool,
    responseIsConfirm: bool,
    inInterStimulusInterval: bool,
    buttonCorrect: Channel,
    buttonWrong: Channel,
    touchCorrect: Channel,
    touchWrong: Channel,
    metrics: Metrics,
    trialData: TrialData,
    studyId: string)

  /** One poll of a debounced input, as isCorrectPressed and isWrongPressed
      write it for each channel. */
  method PollChannel(ch: Channel, delay: nat, reading: bool, now: nat) returns (pressed: bool, next: Channel)
    requires ch.lastDebounceTime <= now
    ensures Poll(pressed, next) == Step(ch, delay, reading, now)
  {
    next := ch;
    if now - ch.lastDebounceTime > delay {
      if reading && !ch.lastState {
        next := Channel(reading, now);
        pressed := true;
        return;
      }
    }
    if reading != ch.lastState {
      next := Channel(reading, now);
    }
    pressed := false;
  }

  // ---------------------------------------------------------------------------
  // Loops over the colour sequence and the command text
  // ---------------------------------------------------------------------------

  /** The first loop of generateSequence: a random colour below colorsUsed
      for every trial. */
  method FillColors(a: array<int>, colorsUsed: nat, draw: nat -> nat)
    modifies a
    ensures a[..] == Filled(a.Length, colorsUsed, draw)
  {
    var i := 0;
    while i < a.Length
      invariant 0 <= i <= a.Length
      invariant forall j :: 0 <= j < i ==> a[j] == RandomBelow(draw(j), colorsUsed) as int
    {
      a[i] := RandomBelow(draw(i), colorsUsed);
      i := i + 1;
    }
  }

  /** The second loop of generateSequence: a quarter of the trials, at
      random positions from n on, are made to repeat the colour n back. */
  method PlantTargets(a: array<int>, n: nat, colorsUsed: nat, draw: nat -> nat)
    requires 1 <= n < a.Length && a[..] == Filled(a.Length, colorsUsed, draw)
    modifies a
    ensures a[..] == Generated(a.Length, n, colorsUsed, draw)
  {
    var m := a.Length;
    var targetCount := m / 4;
    var targetsPlaced := 0;
    while targetsPlaced < targetCount
      invariant 0 <= targetsPlaced <= targetCount
      invariant a[..] == Planted(m, n, colorsUsed, draw, targetsPlaced)
    {
      var pos := RandomBetween(draw(m + targetsPlaced), n, m);
      PlantedStep(m, n, colorsUsed, draw, targetsPlaced, a[..], pos);
      a[pos] := a[pos - n];
      targetsPlaced := targetsPlaced + 1;
    }
  }

  /** The loops of parseAndSetColorSequence over a sequence array of
      maxTrials entries: each token's colour is written at the next position. */
  method SetColorSequence(a: array<int>, sequenceStr: string)
    modifies a
    ensures a[..] == Overlay(old(a[..]), ColorTokens(sequenceStr, a.Length))
  {
    ghost var before := a[..];
    ghost var read: seq<string> := [];
    var index := 0;
    var startPos := 0;
    var commaPos := IndexOf(sequenceStr, ',', 0);
    TokensStart(sequenceStr, a.Length);
    OverlayNone(before);
    while index < a.Length && commaPos != -1
      invariant 0 <= index <= a.Length && startPos <= |sequenceStr| && |read| == index
      invariant index < a.Length ==> commaPos == IndexOf(sequenceStr, ',', startPos)
      invariant TokensSoFar(sequenceStr, a.Length, read, startPos)
      invariant a[..] == Overlay(before, read)
    {
      TokensStep(sequenceStr, a.Length, read, startPos, commaPos);
      var colorName := sequenceStr[startPos..commaPos];
      WriteColor(a, index, before, read, colorName);
      read := read + [colorName];
      startPos := commaPos + 1;
      index := index + 1;
      if index < a.Length {
        commaPos := IndexOf(sequenceStr, ',', startPos);
      }
    }
    TokensRest(sequenceStr, a.Length, read, startPos, commaPos);
    if index < a.Length && startPos < |sequenceStr| {
      var colorName := sequenceStr[startPos..];
      WriteColor(a, index, before, read, colorName);
      read := read + [colorName];
      index := index + 1;
    }
  }

  /** One step of parseAndSetColorSequence: the next token's colour is
      written at the position after the tokens already read. */
  method WriteColor(a: array<int>, index: nat, ghost before: seq<int>, ghost read: seq<string>, colorName: string)
    requires index == |read| < a.Length == |before| && a[..] == Overlay(before, read)
    modifies a
    ensures a[..] == Overlay(before, read + [colorName])
  {
    OverlayStep(before, read, colorName);
    a[index] := ParseColorName(colorName);
  }

  /** What the parameter loop of processConfigCommand leaves behind. */
  datatype ConfigScan = ConfigScan(paramIndex: nat, params: seq<uint16>, studyId: string, sessionNum: uint16, startPos: nat)

  /** The parameter loop of processConfigCommand: up to six comma-terminated
      fields, the first four into params[], then the study id and the session number. */
  method ScanConfig(configStr: string) returns (scan: ConfigScan)
    ensures var (fields, rest) := CommaFields(configStr, 6);
      scan.paramIndex == |fields| && scan.startPos <= |configStr| && configStr[scan.startPos..] == rest
      && |scan.params| == 4
      && (scan.paramIndex == 6 ==>
            RequestOf(fields) == ConfigRequest(scan.params[0], scan.params[1], U8(scan.params[2]), U8(scan.params[3]),
                                               scan.studyId, scan.sessionNum))
  {
    var params: seq<uint16> := [0, 0, 0, 0];
    var studyId := "";
    var sessionNum: uint16 := 0;
    var paramIndex := 0;
    var startPos: nat := 0;
    ghost var read: seq<string> := [];
    var commaPos := IndexOf(configStr, ',', 0);
    ghost var whole := CommaFields(configStr, 6);
    FieldsStart(configStr);
    while paramIndex < 6 && commaPos != -1
      invariant 0 <= paramIndex <= 6 && startPos <= |configStr| && |read| == paramIndex && |params| == 4
      invariant paramIndex < 6 ==> commaPos == IndexOf(configStr, ',', startPos)
      invariant FieldsSoFar(whole, configStr, read, startPos)
      invariant ParamsHold(whole.0, paramIndex, params, studyId, sessionNum)
    {
      var field;
      field, params, studyId, sessionNum := ReadField(whole, configStr, read, startPos, commaPos,
                                                      paramIndex, params, studyId, sessionNum);
      read := read + [field];
      startPos := commaPos + 1;
      paramIndex := paramIndex + 1;
      if paramIndex < 6 {
        commaPos := IndexOf(configStr, ',', startPos);
      }
    }
    FieldsRest(whole, configStr, read, startPos, commaPos);
    if paramIndex == 6 {
      ParamsComplete(whole.0, params, studyId, sessionNum);
    }
    scan := ConfigScan(paramIndex, params, studyId, sessionNum, startPos);
  }

  /** One pass of the parameter loop: the field up to the comma at
      commaPos is read and stored. */
  method ReadField(ghost whole: (seq<string>, string), configStr: string, ghost read: seq<string>,
                   startPos: nat, commaPos: int, n: nat,
                   params: seq<uint16>, studyId: string, sessionNum: uint16)
    returns (field: string, params': seq<uint16>, studyId': string, sessionNum': uint16)
    requires FieldsSoFar(whole, configStr, read, startPos) && n == |read| < 6
    requires commaPos != -1 && commaPos == IndexOf(configStr, ',', startPos)
    requires ParamsHold(whole.0, n, params, studyId, sessionNum)
    ensures startPos <= commaPos < |configStr| && field == configStr[startPos..commaPos]
    ensures FieldsSoFar(whole, configStr, read + [field], commaPos + 1)
    ensures ParamsHold(whole.0, n + 1, params', studyId', sessionNum')
  {
    FieldsStep(whole, configStr, read, startPos, commaPos);
    field := configStr[startPos..commaPos];
    params', studyId', sessionNum' := StoreField(whole.0, n, field, params, studyId, sessionNum);
  }

  /** One field of the parameter loop: the first four go into params[] as
      uint16 values, the fifth is the study id, the sixth the session number. */
  method StoreField(ghost fields: seq<string>, n: nat, field: string,
                    params: seq<uint16>, studyId: string, sessionNum: uint16)
    returns (params': seq<uint16>, studyId': string, sessionNum': uint16)
    requires ParamsHold(fields, n, params, studyId, sessionNum) && n < |fields| && field == fields[n]
    ensures ParamsHold(fields, n + 1, params', studyId', sessionNum')
  {
    params', studyId', sessionNum' := params, studyId, sessionNum;
    if n < 4 {
      params' := params[n := U16(ToInt(field))];
    } else if n == 4 {
      studyId' := field;
    } else if n == 5 {
      sessionNum' := U16(ToInt(field));
    }
    ParamsStep(fields, n, params, studyId, sessionNum, params', studyId', sessionNum');
  }

  /** The values the parameter loop has stored for the first `n` of the fields. */
  ghost predicate ParamsHold(fields: seq<string>, n: nat, params: seq<uint16>, studyId: string, sessionNum: uint16)
  {
    n <= |fields| && |params| == 4
    && (forall k :: 0 <= k < n && k < 4 ==> params[k] == U16(ToInt(fields[k])))
    && (n > 4 ==> studyId == fields[4])
    && (n > 5 ==> sessionNum == U16(ToInt(fields[5])))
  }

  lemma ParamsStep(fields: seq<string>, n: nat,
                   params0: seq<uint16>, studyId0: string, sessionNum0: uint16,
                   params: seq<uint16>, studyId: string, sessionNum: uint16)
    requires ParamsHold(fields, n, params0, studyId0, sessionNum0) && n < |fields|
    requires params == (if n < 4 then params0[n := U16(ToInt(fields[n]))] else params0)
    requires studyId == (if n == 4 then fields[n] else studyId0)
    requires sessionNum == (if n == 5 then U16(ToInt(fields[n])) else sessionNum0)
    ensures ParamsHold(fields, n + 1, params, studyId, sessionNum)
  {
  }

  lemma ParamsComplete(fields: seq<string>, params: seq<uint16>, studyId: string, sessionNum: uint16)
    requires ParamsHold(fields, 6, params, studyId, sessionNum) && |fields| == 6
    ensures RequestOf(fields) == ConfigRequest(params[0], params[1], U8(params[2]), U8(params[3]), studyId, sessionNum)
  {
  }

  /** The colour-list search of processConfigCommand, from the position after
      the last parameter. */
  method FindColorList(configStr: string, startPos: nat) returns (hasCustomSequence: bool, sequenceStr: string)
    requires startPos <= |configStr|
    ensures hasCustomSequence <==> PercentList(configStr[startPos..]).Some?
    ensures hasCustomSequence ==> sequenceStr == PercentList(configStr[startPos..]).value
  {
    hasCustomSequence := false;
    sequenceStr := "";
    var seqStartPos := IndexOf(configStr, '%', startPos);
    IndexOfSuffix(configStr, '%', startPos, startPos);
    if seqStartPos != -1 {
      var seqEndPos := IndexOf(configStr, '%', seqStartPos + 1);
      IndexOfSuffix(configStr, '%', startPos, seqStartPos + 1);
      if seqEndPos != -1 {
        sequenceStr := configStr[seqStartPos + 1..seqEndPos];
        assert sequenceStr == configStr[startPos..][seqStartPos + 1 - startPos..seqEndPos - startPos];
        hasCustomSequence := true;
      }
    }
  }

  /** The parsing half of processConfigCommand: the request when all six
      fields were found, and the colour list when one is framed by % signs
      after them. */
  method ReadConfig(configStr: string) returns (text: ConfigText)
    ensures text == ParseConfig(configStr)
  {
    var scan := ScanConfig(configStr);
    var hasCustomSequence, sequenceStr := FindColorList(configStr, scan.startPos);
    var request := if scan.paramIndex == 6
      then Some(ConfigRequest(scan.params[0], scan.params[1], U8(scan.params[2]), U8(scan.params[3]),
                              scan.studyId, scan.sessionNum))
      else None;
    text := ConfigText(request, if hasCustomSequence then Some(sequenceStr) else None);
  }

  /** The fields read so far, followed by those of the unread text, are the
      fields `whole` of the entire text, and the text after them is the same. */
  ghost predicate FieldsSoFar(whole: (seq<string>, string), s: string, read: seq<string>, startPos: nat)
  {
    startPos <= |s| && |read| <= 6
    && var r := CommaFieldsFrom(s, startPos, 6 - |read|);
    whole == (read + r.0, r.1)
  }

  lemma FieldsStart(s: string)
    ensures FieldsSoFar(CommaFields(s, 6), s, [], 0)
  {
    CommaFieldsFromSuffix(s, 0, 6);
    assert s[0..] == s;
    assert [] + CommaFields(s, 6).0 == CommaFields(s, 6).0;
  }

  /** One comma-terminated field read at startPos. */
  lemma FieldsStep(whole: (seq<string>, string), s: string, read: seq<string>, startPos: nat, commaPos: int)
    requires FieldsSoFar(whole, s, read, startPos) && |read| < 6
    requires commaPos != -1 && commaPos == IndexOf(s, ',', startPos)
    ensures startPos <= commaPos < |s|
    ensures FieldsSoFar(whole, s, read + [s[startPos..commaPos]], commaPos + 1)
    ensures |read| < |whole.0| && whole.0[|read|] == s[startPos..commaPos]
  {
    var r := CommaFieldsFrom(s, commaPos + 1, 5 - |read|);
    ConcatAssoc(read, [s[startPos..commaPos]], r.0);
  }

  /** The field loop stops where CommaFields stops. */
  lemma FieldsRest(whole: (seq<string>, string), s: string, read: seq<string>, startPos: nat, commaPos: int)
    requires FieldsSoFar(whole, s, read, startPos)
    requires |read| == 6 || (commaPos == -1 && commaPos == IndexOf(s, ',', startPos))
    ensures whole == (read, s[startPos..])
  {
    assert read + [] == read;
  }

  /** The tokens read so far, followed by those of the unread text, are the
      tokens of the whole text. */
  ghost predicate TokensSoFar(s: string, limit: nat, read: seq<string>, startPos: nat)
  {
    startPos <= |s| && |read| <= limit && ColorTokens(s, limit) == read + ColorTokens(s[startPos..], limit - |read|)
  }

  lemma TokensStart(s: string, limit: nat)
    ensures TokensSoFar(s, limit, [], 0)
  {
    assert s[0..] == s;
  }

  /** One comma-terminated colour name read at startPos. */
  lemma TokensStep(s: string, limit: nat, read: seq<string>, startPos: nat, commaPos: int)
    requires TokensSoFar(s, limit, read, startPos) && |read| < limit
    requires commaPos != -1 && commaPos == IndexOf(s, ',', startPos)
    ensures startPos <= commaPos < |s|
    ensures TokensSoFar(s, limit, read + [s[startPos..commaPos]], commaPos + 1)
  {
    IndexOfSuffix(s, ',', startPos, startPos);
    var t := s[startPos..];
    var k := limit - |read|;
    assert t[commaPos - startPos + 1..] == s[commaPos + 1..];
    assert t[..commaPos - startPos] == s[startPos..commaPos];
    assert ColorTokens(t, k) == [s[startPos..commaPos]] + ColorTokens(s[commaPos + 1..], k - 1);
    ConcatAssoc(read, [s[startPos..commaPos]], ColorTokens(s[commaPos + 1..], k - 1));
  }

  /** After the last comma, at most the non-empty remainder is a name. */
  lemma TokensRest(s: string, limit: nat, read: seq<string>, startPos: nat, commaPos: int)
    requires TokensSoFar(s, limit, read, startPos)
    requires |read| == limit || (commaPos == -1 && commaPos == IndexOf(s, ',', startPos))
    ensures ColorTokens(s, limit) == read + (if |read| < limit && startPos < |s| then [s[startPos..]] else [])
  {
    if |read| < limit {
      IndexOfSuffix(s, ',', startPos, startPos);
    }
  }

  /** The row evaluateTrialOutcome records for trial index `trial`, shown in
      colour `color`: the times are narrowed to the collector's field widths,
      and an unanswered trial has zero response and reaction times. */
  function TrialRecord(trial: nat, color: int, target: bool, confirm: bool, pressed: bool, data: TrialData, n: nat): TrialRow
  {
    TrialRow(U8(trial + 1), U8(color), target, confirm, IsCorrect(Classify(pressed, target, confirm, trial, n)),
             U32(data.stimulusOnsetTime), if pressed then U32(data.responseTime) else 0,
             if pressed then U16(data.reactionTime) else 0, U32(data.stimulusEndTime))
  }

  /** Row i of a log is trial i + 1, with the colour shown and the target flag
      of the sequence s. */
  ghost predicate RecordedTrial(row: TrialRow, s: seq<int>, i: nat, n: nat)
    requires i < |s|
  {
    row.stimulusNumber == i + 1 && row.stimulusColor == U8(s[i]) && row.isTarget == IsTarget(s, i, n)
  }

  /** Every row of the log is the trial at its position. */
  ghost predicate TrialRows(rows: seq<TrialRow>, s: seq<int>, n: nat)
  {
    |rows| <= |s| && forall i :: 0 <= i < |rows| ==> RecordedTrial(rows[i], s, i, n)
  }

  /** Recording the row of the next pressed trial keeps the log and the metrics
      in agreement, and every row correct exactly when its answer matches. */
  lemma RecordExtendsLog(rows: seq<TrialRow>, row: TrialRow, m: Metrics, s: seq<int>, n: nat, confirm: bool, reaction: nat)
    requires |rows| < |s| && Agrees(m, rows) && WellScored(rows) && TrialRows(rows, s, n)
    requires RecordedTrial(row, s, |rows|, n) && row.responseMade == confirm
    requires row.isCorrect == IsCorrect(Classify(true, row.isTarget, confirm, |rows|, n))
    ensures var rows' := rows + [row];
      Agrees(Apply(m, Classify(true, row.isTarget, confirm, |rows|, n), reaction), rows')
      && WellScored(rows') && TrialRows(rows', s, n)
  {
    var rows' := rows + [row];
    CorrectMeansMatchingPress(row.isTarget, confirm, |rows|, n);
    ApplyAgrees(m, rows, row, row.isTarget, confirm, |rows|, n, reaction);
    assert forall i :: 0 <= i < |rows| ==> rows'[i] == rows[i];
  }

  /** The event a command among pause, debug, exit-debug and exit streams
      in a given state: only pause does, within a session, and it says
      which way the state went. */
  function PauseEvents(c: Command, s: TaskState): (r: seq<Event>)
    ensures |r| <= 1
    ensures r != [] <==> c == PauseCommand && (s == Running || s == Paused)
    ensures r != [] ==> r[0].Timestamped? && r[0].name == (if s == Running then "pause" else "resume")
  {
    if c == PauseCommand && (s == Running || s == Paused)
    then [Timestamped(if s == Running then "pause" else "resume", "")]
    else []
  }

  /** The press lines handleInputModeLoop prints for a rising edge of the
      confirm and of the wrong reading. */
  function PressLines(confirm: bool, wrong: bool): (r: seq<string>)
    ensures |r| == (if confirm then 1 else 0) + (if wrong then 1 else 0)
    ensures confirm ==> r[0] == "button-press:CONFIRM"
    ensures wrong ==> r[|r| - 1] == "button-press:WRONG"
  {
    (if confirm then ["button-press:CONFIRM"] else []) + (if wrong then ["button-press:WRONG"] else [])
  }

  /** The input_forwarded events streamed alongside those lines. */
  function ForwardEvents(confirm: bool, wrong: bool): (r: seq<Event>)
    ensures |r| == |PressLines(confirm, wrong)|
    ensures forall i :: 0 <= i < |r| ==> r[i].Timestamped? && r[i].name == "input_forwarded"
  {
    (if confirm then [Timestamped("input_forwarded", "CONFIRM")] else [])
    + (if wrong then [Timestamped("input_forwarded", "WRONG")] else [])
  }

  /** The four debounce channels of v, with their recorded states released
      and their debounce times kept. */
  function ReleaseAll(v: Snapshot): Snapshot
  {
    v.(buttonCorrect := v.buttonCorrect.(lastState := false), buttonWrong := v.buttonWrong.(lastState := false),
       touchCorrect := v.touchCorrect.(lastState := false), touchWrong := v.touchWrong.(lastState := false))
  }

  class NBackTask {
    var state: TaskState
    const inputMode: InputKind
    /** COLORS_USED: how many colours generateSequence draws from. */
    const colorsUsed: nat
    var nBackLevel: nat
    var maxTrials: nat
    var timing: Timing
    var colorSequence: array?<int>
    var currentTrial: nat
    var trialStartTime: nat
    var stimulusEndTime: nat
    var feedbackStartTime: nat
    var debugColorIndex: nat
    var lastColorChangeTime: nat
    // The members of the `flags` structure.
    var awaitingResponse: bool
    var targetTrial: bool
    var feedbackActive: bool
    var buttonPressed: bool
    var responseIsConfirm: bool
    var inInterStimulusInterval: bool
    // The debounce state of the two buttons and the two touch pads.
    var buttonCorrect: Channel
    var buttonWrong: Channel
    var touchCorrect: Channel
    var touchWrong: Channel
    var metrics: Metrics
    var trialData: TrialData
    var studyId: string
    const dataCollector: DataCollector
    /** The latest millis() value the engine has been given. */
    ghost var clock: nat
    ghost var events: seq<Event>

    function Vars(): Snapshot
      reads this
    {
      Snapshot(state, nBackLevel, maxTrials, timing, colorSequence, currentTrial, trialStartTime,
               stimulusEndTime, feedbackStartTime, debugColorIndex, lastColorChangeTime,
               awaitingResponse, targetTrial, feedbackActive, buttonPressed, responseIsConfirm,
               inInterStimulusInterval, buttonCorrect, buttonWrong, touchCorrect, touchWrong,
               metrics, trialData, studyId)
    }

    /** The part of the state that polling the inputs leaves alone. */
    function SessionVars(): (TaskState, nat, nat, array?<int>, nat, bool, Metrics, bool, bool, nat, nat, nat, nat)
      reads this
    {
      (state, nBackLevel, maxTrials, colorSequence, currentTrial, targetTrial, metrics,
       awaitingResponse, inInterStimulusInterval, debugColorIndex, trialStartTime, stimulusEndTime, lastColorChangeTime)
    }

    /** The trial rows the collector holds. */
    ghost function Log(): seq<TrialRow>
      reads dataCollector, dataCollector.trials
      requires dataCollector.Valid()
    {
      dataCollector.Rows()
    }

    /** The channel isCorrectPressed polls, and the one isWrongPressed polls. */
    function CorrectChannel(): Channel
      reads this
    {
      if inputMode == ButtonInput then buttonCorrect else touchCorrect
    }

    function WrongChannel(): Channel
      reads this
    {
      if inputMode == ButtonInput then buttonWrong else touchWrong
    }

    /** No stored time lies after t. */
    ghost predicate TimesBefore(t: nat)
      reads this
    {
      trialStartTime <= t && stimulusEndTime <= t && feedbackStartTime <= t && lastColorChangeTime <= t
      && buttonCorrect.lastDebounceTime <= t && buttonWrong.lastDebounceTime <= t
      && touchCorrect.lastDebounceTime <= t && touchWrong.lastDebounceTime <= t
    }

    /** The facts that hold in every state. */
    ghost predicate Base()
      reads this, dataCollector
    {
      dataCollector.Valid()
      && 1 <= colorsUsed <= COLOR_COUNT
      && 1 <= maxTrials <= MAX_DATA_ROWS && nBackLevel >= 1
      && (colorSequence != null ==> colorSequence.Length == maxTrials)
      && debugColorIndex < COLOR_COUNT
      && TimesBefore(clock)
    }

    /** The log holds exactly the first k trials, scored as the metrics say. */
    ghost predicate LogMatches(k: nat)
      reads this, dataCollector, dataCollector.trials, colorSequence
      requires dataCollector.Valid() && colorSequence != null
    {
      var rows := Log();
      |rows| == k && k <= colorSequence.Length
      && Agrees(metrics, rows) && WellScored(rows)
      && TrialRows(rows, colorSequence[..], nBackLevel)
    }

    /** The facts of a running or paused session: exactly one of the response
        window and the interval is open, the interval follows a press, the
        target flag is the sequence's, and the log holds the finished trials. */
    ghost predicate InSession()
      reads this, dataCollector, dataCollector.trials, colorSequence
      requires Base()
    {
      colorSequence != null && currentTrial < maxTrials
      && awaitingResponse != inInterStimulusInterval
      && (inInterStimulusInterval ==> buttonPressed)
      && targetTrial == IsTarget(colorSequence[..], currentTrial, nBackLevel)
      && LogMatches(currentTrial + (if inInterStimulusInterval then 1 else 0))
    }

    ghost predicate Valid()
      reads this, dataCollector, dataCollector.trials, colorSequence
    {
      Base() && (state == Running || state == Paused ==> InSession())
    }

    /** The constructor: idle, one-back, 30 trials and no sequence yet; the
        buttons start as held (HIGH) and the touch pads as released. */
    constructor (mode: InputKind, colors: nat)
      requires 1 <= colors <= COLOR_COUNT
      ensures Valid() && fresh(dataCollector) && fresh(dataCollector.trials)
      ensures Vars() == Snapshot(Idle, 1, MAX_TRIALS, INITIAL_TIMING, null, 0, 0, 0, 0, 0, 0,
                                 false, false, false, false, false, false,
                                 Channel(true, 0), Channel(true, 0), Channel(false, 0), Channel(false, 0),
                                 ZERO_METRICS, TrialData(0, 0, 0, 0), "DEFAULT")
      ensures inputMode == mode && colorsUsed == colors && clock == 0 && events == []
      ensures Log() == []
    {
      inputMode := mode;
      colorsUsed := colors;
      state := Idle;
      nBackLevel := 1;
      maxTrials := MAX_TRIALS;
      timing := INITIAL_TIMING;
      colorSequence := null;
      currentTrial := 0;
      trialStartTime := 0;
      stimulusEndTime := 0;
      feedbackStartTime := 0;
      debugColorIndex := 0;
      lastColorChangeTime := 0;
      awaitingResponse := false;
      targetTrial := false;
      feedbackActive := false;
      buttonPressed := false;
      responseIsConfirm := false;
      inInterStimulusInterval := false;
      buttonCorrect := Channel(true, 0);
      buttonWrong := Channel(true, 0);
      touchCorrect := Channel(false, 0);
      touchWrong := Channel(false, 0);
      metrics := ZERO_METRICS;
      trialData := TrialData(0, 0, 0, 0);
      studyId := "DEFAULT";
      dataCollector := new DataCollector();
      clock := 0;
      events := [];
    }

    /** setup: allocate the sequence for maxTrials trials and generate it. */
    method Setup(draw: nat -> nat)
      requires Valid() && state == Idle && nBackLevel < maxTrials
      modifies this`colorSequence
      ensures Valid() && colorSequence != null && fresh(colorSequence)
      ensures colorSequence[..] == Generated(maxTrials, nBackLevel, colorsUsed, draw)
    {
      colorSequence := new int[maxTrials];
      GenerateSequence(draw);
    }

    /** generateSequence, with draw(k) the raw value of the k-th random() call
        after the generator was seeded. */
    method GenerateSequence(draw: nat -> nat)
      requires colorSequence != null && colorSequence.Length == maxTrials && 1 <= nBackLevel < maxTrials
      modifies colorSequence
      ensures colorSequence[..] == Generated(maxTrials, nBackLevel, colorsUsed, draw)
    {
      FillColors(colorSequence, colorsUsed, draw);
      PlantTargets(colorSequence, nBackLevel, colorsUsed, draw);
    }

    // -------------------------------------------------------------------------
    // Inputs and feedback
    // -------------------------------------------------------------------------

    /** isCorrectPressed: poll the confirm input; in capacitive mode the touch
        channel is debounced with the button channel's delay. */
    method IsCorrectPressed(now: nat, reading: bool) returns (pressed: bool)
      requires CorrectChannel().lastDebounceTime <= now
      modifies this`buttonCorrect, this`touchCorrect
      ensures Poll(pressed, CorrectChannel()) == Step(old(CorrectChannel()), DEBOUNCE_DELAY, reading, now)
      ensures inputMode == ButtonInput ==> touchCorrect == old(touchCorrect)
      ensures inputMode == CapacitiveInput ==> buttonCorrect == old(buttonCorrect)
    {
      if inputMode == ButtonInput {
        pressed, buttonCorrect := PollChannel(buttonCorrect, DEBOUNCE_DELAY, reading, now);
      } else {
        pressed, touchCorrect := PollChannel(touchCorrect, DEBOUNCE_DELAY, reading, now);
      }
    }

    /** isWrongPressed: the same for the wrong input. */
    method IsWrongPressed(now: nat, reading: bool) returns (pressed: bool)
      requires WrongChannel().lastDebounceTime <= now
      modifies this`buttonWrong, this`touchWrong
      ensures Poll(pressed, WrongChannel()) == Step(old(WrongChannel()), DEBOUNCE_DELAY, reading, now)
      ensures inputMode == ButtonInput ==> touchWrong == old(touchWrong)
      ensures inputMode == CapacitiveInput ==> buttonWrong == old(buttonWrong)
    {
      if inputMode == ButtonInput {
        pressed, buttonWrong := PollChannel(buttonWrong, DEBOUNCE_DELAY, reading, now);
      } else {
        pressed, touchWrong := PollChannel(touchWrong, DEBOUNCE_DELAY, reading, now);
      }
    }

    /** handleVisualFeedback: start the flash, or end it once it has lasted
        longer than the feedback duration. */
    method HandleVisualFeedback(startFeedback: bool, now: nat)
      requires feedbackStartTime <= now
      modifies this`feedbackActive, this`feedbackStartTime
      ensures startFeedback ==> feedbackActive && feedbackStartTime == now
      ensures !startFeedback ==> (feedbackStartTime == old(feedbackStartTime)
        && feedbackActive == (old(feedbackActive) && now - old(feedbackStartTime) <= timing.feedbackDuration))
    {
      if startFeedback {
        feedbackActive := true;
        feedbackStartTime := now;
        return;
      }
      if feedbackActive && now - feedbackStartTime > timing.feedbackDuration {
        feedbackActive := false;
      }
    }

    /** The answer block of handleButtonPress: reaction and response times,
        the answer given, and the start of the feedback flash. */
    method RecordResponse(isConfirm: bool, now: nat)
      requires trialStartTime <= now && feedbackStartTime <= now
      modifies this`trialData, this`buttonPressed, this`responseIsConfirm, this`feedbackActive, this`feedbackStartTime
      ensures trialData == old(trialData).(reactionTime := now - trialStartTime,
                                           responseTime := now - U32(dataCollector.sessionStartTime))
      ensures buttonPressed && responseIsConfirm == isConfirm && feedbackActive && feedbackStartTime == now
    {
      trialData := trialData.(reactionTime := now - trialStartTime,
                              responseTime := now - U32(dataCollector.sessionStartTime));
      buttonPressed := true;
      responseIsConfirm := isConfirm;
      HandleVisualFeedback(true, now);
    }

    /** handleButtonPress: while the window is open and no answer or flash is
        pending, a debounced press on either input records the answer; when
        both fire in one call the wrong input's answer is kept. */
    method HandleButtonPress(now: nat, rawConfirm: bool, rawWrong: bool)
      requires trialStartTime <= now && feedbackStartTime <= now
      requires CorrectChannel().lastDebounceTime <= now && WrongChannel().lastDebounceTime <= now
      modifies this`trialData, this`buttonPressed, this`responseIsConfirm, this`feedbackActive, this`feedbackStartTime
      modifies this`buttonCorrect, this`buttonWrong, this`touchCorrect, this`touchWrong
      ensures (old(buttonPressed) ==> buttonPressed) && (buttonPressed ==> old(buttonPressed) || awaitingResponse)
      ensures feedbackStartTime <= now && CorrectChannel().lastDebounceTime <= now && WrongChannel().lastDebounceTime <= now
      ensures state != Running || old(feedbackActive) || old(buttonPressed) ==>
        Vars() == old(Vars())
      ensures state == Running && !old(feedbackActive) && !old(buttonPressed) ==>
        var c := Step(old(CorrectChannel()), DEBOUNCE_DELAY, rawConfirm, now);
        var w := Step(old(WrongChannel()), DEBOUNCE_DELAY, rawWrong, now);
        var hit := (c.pressed || w.pressed) && awaitingResponse;
        CorrectChannel() == c.next && WrongChannel() == w.next
        && buttonPressed == hit && feedbackActive == hit
        && responseIsConfirm == (if w.pressed && awaitingResponse then false
                                 else if hit then true else old(responseIsConfirm))
        && trialData == (if hit then old(trialData).(reactionTime := now - trialStartTime,
                                                     responseTime := now - U32(dataCollector.sessionStartTime))
                         else old(trialData))
        && feedbackStartTime == (if hit then now else old(feedbackStartTime))
      ensures inputMode == ButtonInput ==> touchCorrect == old(touchCorrect) && touchWrong == old(touchWrong)
      ensures inputMode == CapacitiveInput ==> buttonCorrect == old(buttonCorrect) && buttonWrong == old(buttonWrong)
    {
      if state != Running || feedbackActive || buttonPressed {
        return;
      }
      ghost var c := Step(CorrectChannel(), DEBOUNCE_DELAY, rawConfirm, now);
      ghost var w := Step(WrongChannel(), DEBOUNCE_DELAY, rawWrong, now);
      var confirm := IsCorrectPressed(now, rawConfirm);
      assert confirm == c.pressed;
      if confirm && awaitingResponse {
        RecordResponse(true, now);
      }
      var wrong := IsWrongPressed(now, rawWrong);
      assert wrong == w.pressed;
      if wrong && awaitingResponse {
        RecordResponse(false, now);
      }
    }

    /** The session fields polling the inputs leaves alone, and buttonPressed
        only ever set. */
    twostate predicate PolledOnly()
      reads this
    {
      state == old(state) && nBackLevel == old(nBackLevel) && maxTrials == old(maxTrials)
      && colorSequence == old(colorSequence)
      && currentTrial == old(currentTrial) && targetTrial == old(targetTrial) && metrics == old(metrics)
      && awaitingResponse == old(awaitingResponse) && inInterStimulusInterval == old(inInterStimulusInterval)
      && trialStartTime == old(trialStartTime) && stimulusEndTime == old(stimulusEndTime)
      && lastColorChangeTime == old(lastColorChangeTime) && debugColorIndex == old(debugColorIndex)
      && clock == old(clock) && (old(buttonPressed) ==> buttonPressed)
    }

    /** What only a start, a configuration or a trial can change is as it
        was: the logged rows, the collector's session header and the colour
        sequence with its contents. */
    twostate predicate DataKept()
      reads this, dataCollector, dataCollector.trials, colorSequence
      requires old(dataCollector.Valid()) && dataCollector.Valid()
    {
      Log() == old(Log()) && dataCollector.Info() == old(dataCollector.Info())
      && colorSequence == old(colorSequence)
      && (colorSequence != null ==> colorSequence[..] == old(colorSequence[..]))
    }

    /** Polling the inputs and flashing feedback leave a valid state valid:
        they touch only the answer flags, the feedback and the debounce state. */
    twostate lemma InputsKeepValid()
      requires old(Valid()) && unchanged(dataCollector, dataCollector.trials)
      requires old(colorSequence) != null ==> unchanged(old(colorSequence))
      requires PolledOnly() && TimesBefore(clock)
      ensures Valid()
    {
      assert Log() == old(Log());
    }

    /** handleButtonPress within a valid session: an answer only ever sets
        buttonPressed, so the session stays valid. */
    method PollAnswer(now: nat, rawConfirm: bool, rawWrong: bool)
      requires Valid() && clock == now
      modifies this`trialData, this`buttonPressed, this`responseIsConfirm, this`feedbackActive, this`feedbackStartTime
      modifies this`buttonCorrect, this`buttonWrong, this`touchCorrect, this`touchWrong
      ensures Valid() && Log() == old(Log()) && SessionVars() == old(SessionVars())
    {
      PollInputs(now, rawConfirm, rawWrong);
      InputsKeepValid();
    }

    /** handleButtonPress seen from outside a trial's bookkeeping: it keeps
        every time stamp at or before now and changes no session field. */
    method PollInputs(now: nat, rawConfirm: bool, rawWrong: bool)
      requires TimesBefore(now)
      modifies this`trialData, this`buttonPressed, this`responseIsConfirm, this`feedbackActive, this`feedbackStartTime
      modifies this`buttonCorrect, this`buttonWrong, this`touchCorrect, this`touchWrong
      ensures TimesBefore(now) && PolledOnly()
    {
      HandleButtonPress(now, rawConfirm, rawWrong);
    }

    // -------------------------------------------------------------------------
    // Trials
    // -------------------------------------------------------------------------

    /** startNextTrial: open the response window of the current trial. */
    method StartNextTrial(now: nat)
      requires colorSequence != null && currentTrial < colorSequence.Length
      modifies this`trialStartTime, this`trialData, this`awaitingResponse, this`buttonPressed, this`targetTrial
      ensures trialStartTime == now && awaitingResponse && !buttonPressed
      ensures targetTrial == IsTarget(colorSequence[..], currentTrial, nBackLevel)
      ensures trialData == old(trialData).(stimulusOnsetTime := now - U32(dataCollector.sessionStartTime))
    {
      trialStartTime := now;
      trialData := trialData.(stimulusOnsetTime := now - U32(dataCollector.sessionStartTime));
      awaitingResponse := true;
      buttonPressed := false;
      targetTrial := currentTrial >= nBackLevel && colorSequence[currentTrial] == colorSequence[currentTrial - nBackLevel];
    }

    /** evaluateTrialOutcome: score the trial, update the metrics and record its row. */
    method EvaluateTrialOutcome(now: nat)
      requires dataCollector.Valid() && colorSequence != null && currentTrial < colorSequence.Length
      modifies this`trialData, this`metrics, this`events, dataCollector`trialCount, dataCollector.trials
      ensures dataCollector.Valid()
      ensures trialData == old(trialData).(stimulusEndTime := now - U32(dataCollector.sessionStartTime))
      ensures metrics == Apply(old(metrics), Classify(buttonPressed, targetTrial, responseIsConfirm, currentTrial, nBackLevel), trialData.reactionTime)
      ensures var row := TrialRecord(currentTrial, colorSequence[currentTrial], targetTrial, responseIsConfirm, buttonPressed, trialData, nBackLevel);
        Log() == (if |old(Log())| < MAX_DATA_ROWS then old(Log()) + [row] else old(Log()))
        && events == old(events) + [TrialComplete(row.(responseMade := buttonPressed && responseIsConfirm))]
    {
      trialData := trialData.(stimulusEndTime := now - U32(dataCollector.sessionStartTime));
      metrics := Apply(metrics, Classify(buttonPressed, targetTrial, responseIsConfirm, currentTrial, nBackLevel), trialData.reactionTime);
      var row := TrialRecord(currentTrial, colorSequence[currentTrial], targetTrial, responseIsConfirm, buttonPressed, trialData, nBackLevel);
      dataCollector.RecordCompletedTrial(row.stimulusNumber, row.stimulusColor, row.isTarget, row.responseMade,
                                         row.isCorrect, row.stimulusOnsetTime, row.responseTime,
                                         row.reactionTime, row.stimulusEndTime);
      events := events + [TrialComplete(row.(responseMade := buttonPressed && responseIsConfirm))];
    }

    /** The response window of manageTrials: a press ends the trial, which is
        scored and recorded, and the interval starts. */
    method CloseTrial(now: nat)
      requires Valid() && state == Running && awaitingResponse && buttonPressed && clock == now
      modifies this`awaitingResponse, this`stimulusEndTime, this`inInterStimulusInterval
      modifies this`trialData, this`metrics, this`events, dataCollector`trialCount, dataCollector.trials
      ensures Valid() && TrialClosed(now)
    {
      ghost var rows, sequence := Log(), colorSequence[..];
      assert LogMatches(currentTrial);
      ScoreTrial(now);
      ClosedTrialValid(rows, old(metrics), sequence, old(trialData).reactionTime);
    }

    /** What closing a trial on a press leaves: the window closed and the
        interval started at `now`, the press and the trial index kept, the
        stimulus end stamped onto the captured press, the metrics scored with
        the captured reaction time, and the trial's row and trial_complete
        event appended. */
    twostate predicate TrialClosed(now: nat)
      reads this, dataCollector, dataCollector.trials, colorSequence
      requires old(dataCollector.Valid()) && dataCollector.Valid()
    {
      colorSequence != null && currentTrial < colorSequence.Length
      && state == Running && !awaitingResponse && inInterStimulusInterval && stimulusEndTime == now
      && currentTrial == old(currentTrial) && buttonPressed && targetTrial == old(targetTrial)
      && trialData == old(trialData).(stimulusEndTime := now - U32(dataCollector.sessionStartTime))
      && metrics == Apply(old(metrics), Classify(buttonPressed, targetTrial, responseIsConfirm, currentTrial, nBackLevel), trialData.reactionTime)
      && var row := TrialRecord(currentTrial, colorSequence[currentTrial], targetTrial, responseIsConfirm, buttonPressed, trialData, nBackLevel);
         Log() == old(Log()) + [row]
         && events == old(events) + [TrialComplete(row.(responseMade := buttonPressed && responseIsConfirm))]
    }

    /** What the end of an interval leaves: the interval over and the log,
        the metrics and the events kept; then either the next trial open at
        `now` with its press cleared and its onset stamped, or, after the
        last trial, DATA_READY with a row for every trial and the trial
        fields kept. */
    twostate predicate TrialAdvanced(now: nat)
      reads this, dataCollector, dataCollector.trials, colorSequence
      requires old(dataCollector.Valid()) && dataCollector.Valid()
    {
      !inInterStimulusInterval && Log() == old(Log()) && metrics == old(metrics) && events == old(events)
      && maxTrials == old(maxTrials)
      && if old(currentTrial) < maxTrials - 1 then
           state == Running && currentTrial == old(currentTrial) + 1 && awaitingResponse && !buttonPressed
           && trialStartTime == now && trialData == old(trialData).(stimulusOnsetTime := now - U32(dataCollector.sessionStartTime))
         else
           state == DataReady && currentTrial == old(currentTrial) && colorSequence != null && LogMatches(maxTrials)
           && trialStartTime == old(trialStartTime) && trialData == old(trialData) && awaitingResponse == old(awaitingResponse)
           && buttonPressed == old(buttonPressed) && targetTrial == old(targetTrial)
    }

    /** The steps of CloseTrial: close the window, score and record the
        trial, open the interval. */
    method ScoreTrial(now: nat)
      requires dataCollector.Valid() && colorSequence != null && currentTrial < colorSequence.Length
      modifies this`awaitingResponse, this`stimulusEndTime, this`inInterStimulusInterval
      modifies this`trialData, this`metrics, this`events, dataCollector`trialCount, dataCollector.trials
      ensures dataCollector.Valid() && !awaitingResponse && inInterStimulusInterval && stimulusEndTime == now
      ensures trialData == old(trialData).(stimulusEndTime := now - U32(dataCollector.sessionStartTime))
      ensures metrics == Apply(old(metrics), Classify(buttonPressed, targetTrial, responseIsConfirm, currentTrial, nBackLevel), trialData.reactionTime)
      ensures var row := TrialRecord(currentTrial, colorSequence[currentTrial], targetTrial, responseIsConfirm, buttonPressed, trialData, nBackLevel);
        Log() == (if |old(Log())| < MAX_DATA_ROWS then old(Log()) + [row] else old(Log()))
        && events == old(events) + [TrialComplete(row.(responseMade := buttonPressed && responseIsConfirm))]
    {
      awaitingResponse, stimulusEndTime := false, now;
      EvaluateTrialOutcome(now);
      inInterStimulusInterval := true;
    }

    /** The state CloseTrial leaves is a valid state of a running session. */
    lemma ClosedTrialValid(rows: seq<TrialRow>, m: Metrics, sequence: seq<int>, reaction: nat)
      requires Base() && colorSequence != null && colorSequence[..] == sequence
      requires state == Running && currentTrial < maxTrials && !awaitingResponse && inInterStimulusInterval && buttonPressed
      requires targetTrial == IsTarget(sequence, currentTrial, nBackLevel)
      requires |rows| == currentTrial && Agrees(m, rows) && WellScored(rows) && TrialRows(rows, sequence, nBackLevel)
      requires reaction == trialData.reactionTime && metrics == Apply(m, Classify(buttonPressed, targetTrial, responseIsConfirm, currentTrial, nBackLevel), reaction)
      requires Log() == rows + [TrialRecord(currentTrial, colorSequence[currentTrial], targetTrial, responseIsConfirm, buttonPressed, trialData, nBackLevel)]
      ensures Valid()
    {
      var row := TrialRecord(currentTrial, colorSequence[currentTrial], targetTrial, responseIsConfirm, buttonPressed, trialData, nBackLevel);
      RecordExtendsLog(rows, row, m, sequence, nBackLevel, responseIsConfirm, reaction);
    }

    /** The interval of manageTrials: once it has run out, the next trial
        starts, or after the last one the session ends. */
    method AdvanceTrial(now: nat)
      requires Valid() && state == Running && inInterStimulusInterval && clock == now
      modifies this`inInterStimulusInterval, this`currentTrial, this`state
      modifies this`trialStartTime, this`trialData, this`awaitingResponse, this`buttonPressed, this`targetTrial
      ensures Valid() && TrialAdvanced(now)
    {
      if currentTrial < maxTrials - 1 {
        NextTrial(now);
      } else {
        FinishSession();
      }
    }

    /** The interval is over and a trial remains: open the next one. */
    method NextTrial(now: nat)
      requires Valid() && state == Running && inInterStimulusInterval && clock == now && currentTrial < maxTrials - 1
      modifies this`inInterStimulusInterval, this`currentTrial
      modifies this`trialStartTime, this`trialData, this`awaitingResponse, this`buttonPressed, this`targetTrial
      ensures Valid() && !inInterStimulusInterval
      ensures currentTrial == old(currentTrial) + 1 && awaitingResponse && !buttonPressed
      ensures trialStartTime == now && trialData == old(trialData).(stimulusOnsetTime := now - U32(dataCollector.sessionStartTime))
    {
      inInterStimulusInterval := false;
      currentTrial := currentTrial + 1;
      StartNextTrial(now);
    }

    /** The interval after the last trial is over: the session ends with a
        row for every trial. */
    method FinishSession()
      requires Valid() && state == Running && inInterStimulusInterval && currentTrial == maxTrials - 1
      modifies this`inInterStimulusInterval, this`state
      ensures Valid() && !inInterStimulusInterval && state == DataReady && LogMatches(maxTrials)
    {
      inInterStimulusInterval := false;
      EndTask();
    }

    /** manageTrials: end the trial on a press, and start the next one once
        the interval after it is over. The stimulus timeout is disabled in the
        source, so a trial only ends on a press. */
    method ManageTrials(now: nat)
      requires Valid() && state == Running && clock == now
      modifies this`awaitingResponse, this`stimulusEndTime, this`inInterStimulusInterval, this`currentTrial, this`state
      modifies this`trialStartTime, this`trialData, this`buttonPressed, this`targetTrial
      modifies this`metrics, this`events, dataCollector`trialCount, dataCollector.trials
      ensures Valid()
      ensures old(awaitingResponse) && old(buttonPressed) ==> TrialClosed(now)
      ensures old(inInterStimulusInterval) && now - old(stimulusEndTime) > timing.interStimulusInterval ==> TrialAdvanced(now)
      ensures !(old(awaitingResponse) && old(buttonPressed))
              && !(old(inInterStimulusInterval) && now - old(stimulusEndTime) > timing.interStimulusInterval) ==>
        Vars() == old(Vars()) && Log() == old(Log()) && events == old(events)
    {
      if !awaitingResponse && !inInterStimulusInterval {
        return;
      }
      if awaitingResponse {
        if buttonPressed {
          CloseTrial(now);
          // The interval has only just begun, so the test below fails.
          assert now - stimulusEndTime == 0;
        }
      }
      if inInterStimulusInterval && now - stimulusEndTime > timing.interStimulusInterval {
        AdvanceTrial(now);
      }
    }

    /** The first half of the running branch of loop: end the feedback flash
        when it is over, and progress the trials while no flash is showing. */
    method ProgressTrials(now: nat)
      requires Valid() && state == Running && clock == now
      modifies this`awaitingResponse, this`stimulusEndTime, this`inInterStimulusInterval, this`currentTrial, this`state
      modifies this`trialStartTime, this`trialData, this`buttonPressed, this`targetTrial, this`feedbackActive, this`feedbackStartTime
      modifies this`metrics, this`events, dataCollector`trialCount, dataCollector.trials
      ensures Valid() && (state == Running || state == DataReady)
      ensures old(currentTrial) <= currentTrial <= old(currentTrial) + 1
      ensures |old(Log())| <= |Log()| <= |old(Log())| + 1 && Log()[..|old(Log())|] == old(Log())
      ensures state == DataReady ==> colorSequence != null && LogMatches(maxTrials)
    {
      HandleVisualFeedback(false, now);
      InputsKeepValid();
      if !feedbackActive {
        ManageTrialsBounded(now);
      }
    }

    /** manageTrials as the loop sees it: the trial index moves by at most
        one, the log grows by at most one row and keeps its prefix, and the
        task only ever finishes with a row for every trial. */
    method ManageTrialsBounded(now: nat)
      requires Valid() && state == Running && clock == now
      modifies this`awaitingResponse, this`stimulusEndTime, this`inInterStimulusInterval, this`currentTrial, this`state
      modifies this`trialStartTime, this`trialData, this`buttonPressed, this`targetTrial
      modifies this`metrics, this`events, dataCollector`trialCount, dataCollector.trials
      ensures Valid() && (state == Running || state == DataReady)
      ensures old(currentTrial) <= currentTrial <= old(currentTrial) + 1
      ensures |old(Log())| <= |Log()| <= |old(Log())| + 1 && Log()[..|old(Log())|] == old(Log())
      ensures state == DataReady ==> colorSequence != null && LogMatches(maxTrials)
    {
      ManageTrials(now);
    }

    /** The running branch of loop: the trials progress, then the inputs are polled. */
    method RunningTick(now: nat, rawConfirm: bool, rawWrong: bool)
      requires Valid() && state == Running && clock == now
      modifies this`awaitingResponse, this`stimulusEndTime, this`inInterStimulusInterval, this`currentTrial, this`state
      modifies this`trialStartTime, this`trialData, this`buttonPressed, this`targetTrial, this`responseIsConfirm
      modifies this`feedbackActive, this`feedbackStartTime
      modifies this`buttonCorrect, this`buttonWrong, this`touchCorrect, this`touchWrong
      modifies this`metrics, this`events, dataCollector`trialCount, dataCollector.trials
      ensures Valid() && (state == Running || state == DataReady)
      ensures old(currentTrial) <= currentTrial <= old(currentTrial) + 1
      ensures |old(Log())| <= |Log()| <= |old(Log())| + 1 && Log()[..|old(Log())|] == old(Log())
      ensures state == DataReady ==> colorSequence != null && LogMatches(maxTrials)
    {
      ProgressTrials(now);
      PollAnswer(now, rawConfirm, rawWrong);
    }

    /** runDebugMode: end the flash when it is over, step to the next colour
        once the current one has been shown long enough, and flash on a
        debounced press of either input. */
    method DebugStep(now: nat, rawConfirm: bool, rawWrong: bool)
      requires feedbackStartTime <= now && lastColorChangeTime <= now
      requires CorrectChannel().lastDebounceTime <= now && WrongChannel().lastDebounceTime <= now
      modifies this`feedbackActive, this`feedbackStartTime, this`debugColorIndex, this`lastColorChangeTime
      modifies this`buttonCorrect, this`buttonWrong, this`touchCorrect, this`touchWrong
      ensures if now - old(lastColorChangeTime) > timing.debugColorDuration
        then debugColorIndex == (old(debugColorIndex) + 1) % COLOR_COUNT && lastColorChangeTime == now
        else debugColorIndex == old(debugColorIndex) && lastColorChangeTime == old(lastColorChangeTime)
      ensures var c := Step(old(CorrectChannel()), DEBOUNCE_DELAY, rawConfirm, now);
        var w := Step(old(WrongChannel()), DEBOUNCE_DELAY, rawWrong, now);
        CorrectChannel() == c.next && WrongChannel() == w.next
        && (if c.pressed || w.pressed then feedbackActive && feedbackStartTime == now
            else feedbackStartTime == old(feedbackStartTime)
                 && feedbackActive == (old(feedbackActive) && now - old(feedbackStartTime) <= timing.feedbackDuration))
      ensures inputMode == ButtonInput ==> touchCorrect == old(touchCorrect) && touchWrong == old(touchWrong)
      ensures inputMode == CapacitiveInput ==> buttonCorrect == old(buttonCorrect) && buttonWrong == old(buttonWrong)
    {
      HandleVisualFeedback(false, now);
      if now - lastColorChangeTime > timing.debugColorDuration {
        debugColorIndex := (debugColorIndex + 1) % COLOR_COUNT;
        lastColorChangeTime := now;
      }
      var confirm := IsCorrectPressed(now, rawConfirm);
      if confirm {
        HandleVisualFeedback(true, now);
      }
      var wrong := IsWrongPressed(now, rawWrong);
      if wrong {
        HandleVisualFeedback(true, now);
      }
    }

    /** The debug branch of loop, within a valid state. */
    method RunDebugMode(now: nat, rawConfirm: bool, rawWrong: bool)
      requires Valid() && state == Debug && clock == now
      modifies this`feedbackActive, this`feedbackStartTime, this`debugColorIndex, this`lastColorChangeTime
      modifies this`buttonCorrect, this`buttonWrong, this`touchCorrect, this`touchWrong
      ensures Valid() && state == Debug && Log() == old(Log())
      ensures debugColorIndex == old(debugColorIndex) || debugColorIndex == (old(debugColorIndex) + 1) % COLOR_COUNT
    {
      DebugStep(now, rawConfirm, rawWrong);
    }

    // -------------------------------------------------------------------------
    // Commands
    // -------------------------------------------------------------------------

    /** The state change of startTask: reset the metrics, the trial flags and
        the log, and open the first trial. */
    method ResetAndStart(now: nat)
      requires dataCollector.Valid() && colorSequence != null && 0 < colorSequence.Length
      modifies this`metrics, this`currentTrial, this`awaitingResponse, this`targetTrial, this`feedbackActive
      modifies this`inInterStimulusInterval, this`state, this`trialStartTime, this`trialData
      modifies this`buttonPressed, dataCollector`trialCount
      ensures dataCollector.Valid() && Log() == []
      ensures state == Running && currentTrial == 0 && metrics == ZERO_METRICS && trialStartTime == now
      ensures awaitingResponse && !inInterStimulusInterval && !feedbackActive && !buttonPressed
      ensures targetTrial == IsTarget(colorSequence[..], 0, nBackLevel)
      ensures trialData == old(trialData).(stimulusOnsetTime := now - U32(dataCollector.sessionStartTime))
    {
      ResetSession();
      StartNextTrial(now);
    }

    /** The reset half of startTask: zero the metrics and the trial index,
        clear the flags and the recorded rows, and enter the running state. */
    method ResetSession()
      requires dataCollector.Valid()
      modifies this`metrics, this`currentTrial, this`awaitingResponse, this`targetTrial, this`feedbackActive
      modifies this`inInterStimulusInterval, this`state, dataCollector`trialCount
      ensures dataCollector.Valid() && Log() == [] && state == Running && currentTrial == 0 && metrics == ZERO_METRICS
      ensures !inInterStimulusInterval && !feedbackActive
    {
      metrics, currentTrial := ZERO_METRICS, 0;
      awaitingResponse, targetTrial, feedbackActive, inInterStimulusInterval := false, false, false, false;
      dataCollector.Reset();
      state := Running;
    }

    /** The time-sync line and the "start" event startTask emits. */
    method AnnounceStart(now: nat) returns (line: string)
      modifies this`events
      ensures line == SyncLine(now)
      ensures events == old(events) + [Timestamped("start", StartDetail(nBackLevel, timing.stimulusDuration,
                                                                       timing.interStimulusInterval, maxTrials))]
    {
      line := SyncLine(now);
      events := events + [Timestamped("start", StartDetail(nBackLevel, timing.stimulusDuration,
                                                           timing.interStimulusInterval, maxTrials))];
    }

    /** What startTask leaves: a running session at its first trial, whose
        window is open at `now` with the press, the feedback and the interval
        cleared and the onset stamped; an empty log and zeroed metrics; and
        the "start" event carrying the configuration. */
    twostate predicate Started(now: nat)
      reads this, dataCollector, dataCollector.trials
      requires dataCollector.Valid()
    {
      state == Running && currentTrial == 0 && awaitingResponse && !targetTrial
      && !inInterStimulusInterval && !feedbackActive && !buttonPressed
      && trialData == old(trialData).(stimulusOnsetTime := now - U32(dataCollector.sessionStartTime))
      && Log() == [] && metrics == ZERO_METRICS && trialStartTime == now
      && events == old(events) + [Timestamped("start", StartDetail(nBackLevel, timing.stimulusDuration,
                                                                   timing.interStimulusInterval, maxTrials))]
    }

    /** startTask from a valid state: the session it opens is valid, at its
        first trial with an empty log, and the "start" event carries the
        configuration. The source dereferences the sequence unguarded, so a
        sequence must exist. The sync line it prints is the result. */
    method StartTask(now: nat) returns (line: string)
      requires Valid() && clock == now && colorSequence != null
      modifies this`metrics, this`currentTrial, this`awaitingResponse, this`targetTrial, this`feedbackActive
      modifies this`inInterStimulusInterval, this`events, this`state, this`trialStartTime, this`trialData
      modifies this`buttonPressed, dataCollector`trialCount
      ensures Valid() && Started(now) && line == SyncLine(now)
    {
      ResetAndStart(now);
      StartedValid();
      line := AnnounceStart(now);
    }

    /** The first trial of a fresh session is a valid state. */
    lemma StartedValid()
      requires Base() && colorSequence != null && state == Running && currentTrial == 0
      requires awaitingResponse && !inInterStimulusInterval && targetTrial == IsTarget(colorSequence[..], 0, nBackLevel)
      requires Log() == [] && metrics == ZERO_METRICS
      ensures Valid() && !targetTrial
    {
    }

    /** pauseTask: switch between running and paused. */
    method PauseTask(pause: bool)
      requires Valid() && (state == Running || state == Paused)
      modifies this`state, this`events
      ensures Valid() && Log() == old(Log())
      ensures Vars() == old(Vars()).(state := if pause then Paused else Running)
      ensures events == old(events) + [Timestamped(if pause then "pause" else "resume", "")]
    {
      events := events + [Timestamped(if pause then "pause" else "resume", "")];
      SetState(if pause then Paused else Running);
    }

    /** enterDebugMode: start the colour cycle at the first colour, now. */
    method EnterDebugMode(now: nat)
      requires Valid() && clock == now
      modifies this`state, this`debugColorIndex, this`lastColorChangeTime, this`feedbackActive
      ensures Valid() && Log() == old(Log())
      ensures Vars() == old(Vars()).(state := Debug, debugColorIndex := 0, lastColorChangeTime := now, feedbackActive := false)
    {
      SetDebugFields(now);
    }

    /** The fields enterDebugMode sets, and nothing else. */
    method SetDebugFields(now: nat)
      modifies this`state, this`debugColorIndex, this`lastColorChangeTime, this`feedbackActive
      ensures state == Debug && debugColorIndex == 0 && lastColorChangeTime == now && !feedbackActive
      ensures Vars() == old(Vars()).(state := Debug, debugColorIndex := 0, lastColorChangeTime := now, feedbackActive := false)
    {
      AssignDebugFields(now);
    }

    /** The assignments of enterDebugMode. */
    method AssignDebugFields(now: nat)
      modifies this`state, this`debugColorIndex, this`lastColorChangeTime, this`feedbackActive
      ensures state == Debug && debugColorIndex == 0 && lastColorChangeTime == now && !feedbackActive
    {
      state := Debug;
      debugColorIndex := 0;
      lastColorChangeTime := now;
      feedbackActive := false;
    }

    /** enterInputMode: forward the inputs, starting from all four released. */
    method EnterInputMode()
      requires Valid()
      modifies this`state, this`buttonCorrect, this`buttonWrong, this`touchCorrect, this`touchWrong
      ensures Valid() && Log() == old(Log())
      ensures state == InputMode && Vars() == ReleaseAll(old(Vars())).(state := InputMode)
    {
      ReleaseInputs();
      SetState(InputMode);
    }

    /** exitInputMode: back to idle with all four inputs released; outside
        input mode nothing happens. */
    method ExitInputMode()
      requires Valid()
      modifies this`state, this`buttonCorrect, this`buttonWrong, this`touchCorrect, this`touchWrong
      ensures Valid() && Log() == old(Log())
      ensures Vars() == if old(state) == InputMode then ReleaseAll(old(Vars())).(state := Idle) else old(Vars())
    {
      if state != InputMode {
        return;
      }
      ReleaseInputs();
      SetState(Idle);
    }

    /** The assignment of a new task state. */
    method SetState(s: TaskState)
      modifies this`state
      ensures state == s && Vars() == old(Vars()).(state := s)
    {
      state := s;
    }

    /** The four inputs released, their debounce times kept. */
    method ReleaseInputs()
      modifies this`buttonCorrect, this`buttonWrong, this`touchCorrect, this`touchWrong
      ensures buttonCorrect == old(buttonCorrect).(lastState := false) && buttonWrong == old(buttonWrong).(lastState := false)
      ensures touchCorrect == old(touchCorrect).(lastState := false) && touchWrong == old(touchWrong).(lastState := false)
      ensures Vars() == ReleaseAll(old(Vars()))
    {
      AssignReleased();
    }

    /** The assignments that release the four inputs. */
    method AssignReleased()
      modifies this`buttonCorrect, this`buttonWrong, this`touchCorrect, this`touchWrong
      ensures buttonCorrect == old(buttonCorrect).(lastState := false) && buttonWrong == old(buttonWrong).(lastState := false)
      ensures touchCorrect == old(touchCorrect).(lastState := false) && touchWrong == old(touchWrong).(lastState := false)
    {
      buttonCorrect, buttonWrong := buttonCorrect.(lastState := false), buttonWrong.(lastState := false);
      touchCorrect, touchWrong := touchCorrect.(lastState := false), touchWrong.(lastState := false);
    }

    /** sendData: the collector's report framed by the count of rows and the
        completion marker, after which the engine is idle. The state is set
        before the report is formed, which the report does not read. */
    method SendData(now: nat) returns (lines: seq<string>)
      requires Valid()
      modifies this`state
      ensures Valid() && Log() == old(Log()) && Vars() == old(Vars()).(state := Idle)
      ensures lines == ["Sending data for " + NatToString(|Log()|) + " recorded trials..."]
                       + ReportLines(dataCollector.Info(), Log(), now) + ["data-completed"]
    {
      SetState(Idle);
      LeftSession();
      lines := ["Sending data for " + NatToString(dataCollector.GetTrialCount() as nat) + " recorded trials..."]
               + dataCollector.SendDataOverSerial(now) + ["data-completed"];
    }

    /** Leaving the session for a state without one keeps the state valid
        when nothing but the state has changed. */
    twostate lemma LeftSession()
      requires old(Valid()) && unchanged(dataCollector, dataCollector.trials)
      requires colorSequence == old(colorSequence) && maxTrials == old(maxTrials) && nBackLevel == old(nBackLevel)
      requires debugColorIndex == old(debugColorIndex) && clock == old(clock) && TimesBefore(clock)
      requires state != Running && state != Paused
      ensures Valid()
    {
    }

    /** The forwarding half of handleInputModeLoop: a rising edge of either
        reading against the button channels' recorded states (in either input
        mode) is forwarded as a press line and an input_forwarded event, and
        the readings become the recorded states. */
    method ForwardInputs(rawConfirm: bool, rawWrong: bool) returns (out: seq<string>)
      modifies this`buttonCorrect, this`buttonWrong, this`events
      ensures buttonCorrect == old(buttonCorrect).(lastState := rawConfirm)
      ensures buttonWrong == old(buttonWrong).(lastState := rawWrong)
      ensures var c, w := rawConfirm && !old(buttonCorrect.lastState), rawWrong && !old(buttonWrong.lastState);
        out == PressLines(c, w) && events == old(events) + ForwardEvents(c, w)
    {
      out := [];
      if rawConfirm && !buttonCorrect.lastState {
        out := out + ["button-press:CONFIRM"];
        events := events + [Timestamped("input_forwarded", "CONFIRM")];
      }
      buttonCorrect := buttonCorrect.(lastState := rawConfirm);
      if rawWrong && !buttonWrong.lastState {
        out := out + ["button-press:WRONG"];
        events := events + [Timestamped("input_forwarded", "WRONG")];
      }
      buttonWrong := buttonWrong.(lastState := rawWrong);
    }

    /** handleInputModeLoop: forward the inputs, then leave input mode when
        the serial line read, trimmed and lower-cased, is "exit". */
    method HandleInputModeLoop(rawConfirm: bool, rawWrong: bool, line: Option<string>) returns (out: seq<string>)
      requires Valid() && state == InputMode
      modifies this`buttonCorrect, this`buttonWrong, this`touchCorrect, this`touchWrong, this`state, this`events
      ensures Valid() && Log() == old(Log())
      ensures var c, w := rawConfirm && !old(buttonCorrect.lastState), rawWrong && !old(buttonWrong.lastState);
        out == PressLines(c, w) && events == old(events) + ForwardEvents(c, w)
      ensures if line.Some? && ToLowerString(Trim(line.value)) == "exit"
        then state == Idle && buttonCorrect == old(buttonCorrect).(lastState := false)
             && buttonWrong == old(buttonWrong).(lastState := false)
             && touchCorrect == old(touchCorrect).(lastState := false) && touchWrong == old(touchWrong).(lastState := false)
        else state == InputMode && buttonCorrect == old(buttonCorrect).(lastState := rawConfirm)
             && buttonWrong == old(buttonWrong).(lastState := rawWrong)
             && touchCorrect == old(touchCorrect) && touchWrong == old(touchWrong)
    {
      out := ForwardInInputMode(rawConfirm, rawWrong);
      if line.Some? && ToLowerString(Trim(line.value)) == "exit" {
        ExitInputMode();
      }
    }

    /** The forwarding half of handleInputModeLoop within a valid state. */
    method ForwardInInputMode(rawConfirm: bool, rawWrong: bool) returns (out: seq<string>)
      requires Valid() && state == InputMode
      modifies this`buttonCorrect, this`buttonWrong, this`events
      ensures Valid() && Log() == old(Log())
      ensures buttonCorrect == old(buttonCorrect).(lastState := rawConfirm)
      ensures buttonWrong == old(buttonWrong).(lastState := rawWrong)
      ensures var c, w := rawConfirm && !old(buttonCorrect.lastState), rawWrong && !old(buttonWrong.lastState);
        out == PressLines(c, w) && events == old(events) + ForwardEvents(c, w)
    {
      out := ForwardInputs(rawConfirm, rawWrong);
      InputsKeepValid();
    }

    /** Time passing leaves a valid state valid: no stored time lies ahead of
        a later clock. */
    twostate lemma ClockAdvanced()
      requires old(Valid()) && unchanged(dataCollector, dataCollector.trials)
      requires colorSequence == old(colorSequence) && (old(colorSequence) != null ==> unchanged(old(colorSequence)))
      requires Vars() == old(Vars()) && old(clock) <= clock
      ensures Valid()
    {
    }

    /** loop: one pass of the engine at time `now`, given the raw readings of
        the confirm and wrong inputs and the serial line input mode may read;
        the result is the lines input mode forwards. Idle, paused and
        data-ready engines do nothing. */
    method Tick(now: nat, rawConfirm: bool, rawWrong: bool, line: Option<string>) returns (out: seq<string>)
      requires Valid() && clock <= now
      modifies this, dataCollector`trialCount, dataCollector.trials
      ensures Valid() && clock == now
      ensures old(state) == Idle || old(state) == Paused || old(state) == DataReady ==>
        Vars() == old(Vars()) && Log() == old(Log()) && out == []
      ensures old(state) == Running ==>
        (state == Running || state == DataReady) && old(currentTrial) <= currentTrial <= old(currentTrial) + 1
        && |old(Log())| <= |Log()| <= |old(Log())| + 1 && Log()[..|old(Log())|] == old(Log()) && out == []
        && (state == DataReady ==> colorSequence != null && LogMatches(maxTrials))
      ensures old(state) == Debug ==> state == Debug && Log() == old(Log()) && out == []
      ensures old(state) == InputMode ==> (state == InputMode || state == Idle) && Log() == old(Log())
    {
      clock := now;
      ClockAdvanced();
      out := LoopBody(now, rawConfirm, rawWrong, line);
    }

    /** The branch of loop the state selects, once the clock reads `now`. */
    method LoopBody(now: nat, rawConfirm: bool, rawWrong: bool, line: Option<string>) returns (out: seq<string>)
      requires Valid() && clock == now
      modifies this, dataCollector`trialCount, dataCollector.trials
      ensures Valid() && clock == now
      ensures old(state) == Idle || old(state) == Paused || old(state) == DataReady ==>
        Vars() == old(Vars()) && Log() == old(Log()) && out == []
      ensures old(state) == Running ==>
        (state == Running || state == DataReady) && old(currentTrial) <= currentTrial <= old(currentTrial) + 1
        && |old(Log())| <= |Log()| <= |old(Log())| + 1 && Log()[..|old(Log())|] == old(Log()) && out == []
        && (state == DataReady ==> colorSequence != null && LogMatches(maxTrials))
      ensures old(state) == Debug ==> state == Debug && Log() == old(Log()) && out == []
      ensures old(state) == InputMode ==> (state == InputMode || state == Idle) && Log() == old(Log())
    {
      out := [];
      match state {
        case Debug =>
          RunDebugMode(now, rawConfirm, rawWrong);
        case Running =>
          RunningTick(now, rawConfirm, rawWrong);
        case InputMode =>
          out := HandleInputModeLoop(rawConfirm, rawWrong, line);
        case Idle =>
        case Paused =>
        case DataReady =>
      }
    }

    /** The part of configure after its two tests: the timing and level are
        applied; a changed trial count replaces the sequence by a new,
        uninitialised array, and when that allocation fails (allocOk false)
        the engine is left without a sequence and the rest is not applied.
        Then the collector starts a new, empty session, and the sequence is
        generated on request. */
    method ApplyConfiguration(r: ConfigRequest, genSequence: bool, now: nat, allocOk: bool, draw: nat -> nat) returns (ok: bool)
      requires dataCollector.Valid() && 1 <= r.nBackLevel && 1 <= r.numTrials
      requires colorSequence != null ==> colorSequence.Length == maxTrials
      requires genSequence ==> r.nBackLevel < r.numTrials && (r.numTrials == maxTrials ==> colorSequence != null)
      modifies this`timing, this`nBackLevel, this`maxTrials, this`colorSequence, this`studyId
      modifies dataCollector, colorSequence
      ensures dataCollector.Valid() && (colorSequence != null ==> colorSequence.Length == maxTrials)
      ensures ok <==> r.numTrials == old(maxTrials) || allocOk
      ensures timing == old(timing).(stimulusDuration := r.stimDuration, interStimulusInterval := r.interStimulusInterval)
      ensures nBackLevel == r.nBackLevel && maxTrials == r.numTrials
      ensures r.numTrials == old(maxTrials) ==> colorSequence == old(colorSequence)
      ensures r.numTrials != old(maxTrials) ==> if allocOk then colorSequence != null && fresh(colorSequence) else colorSequence == null
      ensures !ok ==> studyId == old(studyId) && unchanged(dataCollector) && Log() == old(Log())
      ensures ok ==> (studyId == r.studyId && Log() == []
        && dataCollector.Info() == SessionInfo(TruncateStudyId(r.studyId), r.sessionNumber, now, now)
        && (genSequence ==> colorSequence != null && colorSequence[..] == Generated(maxTrials, nBackLevel, colorsUsed, draw))
        && (!genSequence && colorSequence == old(colorSequence) && colorSequence != null ==> colorSequence[..] == old(colorSequence[..])))
    {
      timing := timing.(stimulusDuration := r.stimDuration, interStimulusInterval := r.interStimulusInterval);
      nBackLevel := r.nBackLevel;
      if r.numTrials != maxTrials {
        maxTrials := r.numTrials;
        if !allocOk {
          colorSequence := null;
          return false;
        }
        colorSequence := new int[maxTrials];
      }
      studyId := r.studyId;
      dataCollector.Begin(studyId, r.sessionNumber, now);
      if genSequence {
        GenerateSequence(draw);
      }
      ok := true;
    }

    /** configure: a request that fails the parameter test, or arrives while
        a session is running or paused, changes nothing; otherwise it is
        applied outside a session, which is valid. */
    method Configure(r: ConfigRequest, genSequence: bool, now: nat, allocOk: bool, draw: nat -> nat) returns (ok: bool)
      requires Valid() && clock == now
      requires genSequence ==> r.nBackLevel < r.numTrials && (r.numTrials == maxTrials ==> colorSequence != null)
      modifies this`timing, this`nBackLevel, this`maxTrials, this`colorSequence, this`studyId
      modifies dataCollector, colorSequence
      ensures Valid() && state == old(state)
      ensures ok <==> ParametersValid(r) && old(state) != Running && old(state) != Paused
                      && (r.numTrials == old(maxTrials) || allocOk)
      ensures !ParametersValid(r) || old(state) == Running || old(state) == Paused ==> Vars() == old(Vars()) && DataKept()
      ensures ParametersValid(r) && old(state) != Running && old(state) != Paused ==>
        timing == old(timing).(stimulusDuration := r.stimDuration, interStimulusInterval := r.interStimulusInterval)
        && nBackLevel == r.nBackLevel && maxTrials == r.numTrials
        && (r.numTrials == old(maxTrials) ==> colorSequence == old(colorSequence))
        && (r.numTrials != old(maxTrials) ==> if allocOk then colorSequence != null && fresh(colorSequence) else colorSequence == null)
      ensures !ok ==> studyId == old(studyId) && Log() == old(Log())
      ensures ok ==> (studyId == r.studyId && Log() == []
        && dataCollector.Info() == SessionInfo(TruncateStudyId(r.studyId), r.sessionNumber, now, now)
        && (genSequence ==> colorSequence != null && colorSequence[..] == Generated(maxTrials, nBackLevel, colorsUsed, draw))
        && (!genSequence && colorSequence == old(colorSequence) && colorSequence != null ==> colorSequence[..] == old(colorSequence[..])))
    {
      if !ParametersValid(r) || state == Running || state == Paused {
        return false;
      }
      ValidTrialsFitLog(r);
      ok := ApplyConfiguration(r, genSequence, now, allocOk, draw);
    }

    /** The applying half of processConfigCommand: with all six fields the
        request is configured without generating a sequence, and when that
        succeeds and the engine has a sequence, a colour list present
        overwrites its first entries. */
    method ApplyConfigText(text: ConfigText, now: nat, allocOk: bool)
      requires Valid() && clock == now
      modifies this`timing, this`nBackLevel, this`maxTrials, this`colorSequence, this`studyId
      modifies dataCollector, colorSequence
      ensures Valid() && state == old(state)
      ensures text.request.None? ==> Vars() == old(Vars()) && DataKept()
      ensures text.request.Some? ==>
        var r := text.request.value;
        var applied := ParametersValid(r) && old(state) != Running && old(state) != Paused;
        (!applied ==> Vars() == old(Vars()) && DataKept())
        && (applied ==> nBackLevel == r.nBackLevel && maxTrials == r.numTrials
                        && timing == old(timing).(stimulusDuration := r.stimDuration, interStimulusInterval := r.interStimulusInterval))
        && (applied && r.numTrials != old(maxTrials) && !allocOk ==> colorSequence == null && Log() == old(Log()))
        && (applied && (r.numTrials == old(maxTrials) || allocOk) ==>
              studyId == r.studyId && Log() == []
              && dataCollector.Info() == SessionInfo(TruncateStudyId(r.studyId), r.sessionNumber, now, now))
      ensures (text.request.Some? && ParametersValid(text.request.value) && old(state) != Running && old(state) != Paused
               && colorSequence != null) ==>
          var tokens := if text.colorList.Some? then ColorTokens(text.colorList.value, maxTrials) else [];
          |tokens| <= colorSequence.Length
          && (forall i :: 0 <= i < |tokens| ==> colorSequence[i] == ParseColorName(tokens[i]))
          && (colorSequence == old(colorSequence) ==> colorSequence[..] == Overlay(old(colorSequence[..]), tokens))
    {
      if text.request.Some? {
        var ok := Configure(text.request.value, false, now, allocOk, (k: nat) => 0);
        if ok && text.colorList.Some? && colorSequence != null {
          ApplyColorList(text.colorList.value);
        }
      }
    }

    /** processConfigCommand: the text after "config " parsed into a request
        and a colour list, which are applied as above. */
    method ProcessConfigCommand(command: string, now: nat, allocOk: bool)
      requires Valid() && clock == now && |command| >= 7
      modifies this`timing, this`nBackLevel, this`maxTrials, this`colorSequence, this`studyId
      modifies dataCollector, colorSequence
      ensures Valid() && state == old(state)
      ensures ParseConfig(command[7..]).request.None? ==> Vars() == old(Vars()) && DataKept()
      ensures var p := ParseConfig(command[7..]);
        p.request.Some? ==>
          var r := p.request.value;
          var applied := ParametersValid(r) && old(state) != Running && old(state) != Paused;
          (!applied ==> Vars() == old(Vars()) && DataKept())
          && (applied ==> nBackLevel == r.nBackLevel && maxTrials == r.numTrials
                          && timing == old(timing).(stimulusDuration := r.stimDuration, interStimulusInterval := r.interStimulusInterval))
          && (applied && r.numTrials != old(maxTrials) && !allocOk ==> colorSequence == null && Log() == old(Log()))
          && (applied && (r.numTrials == old(maxTrials) || allocOk) ==>
                studyId == r.studyId && Log() == []
                && dataCollector.Info() == SessionInfo(TruncateStudyId(r.studyId), r.sessionNumber, now, now))
      ensures var p := ParseConfig(command[7..]);
        (p.request.Some? && ParametersValid(p.request.value) && old(state) != Running && old(state) != Paused
         && colorSequence != null) ==>
          var tokens := if p.colorList.Some? then ColorTokens(p.colorList.value, maxTrials) else [];
          |tokens| <= colorSequence.Length
          && (forall i :: 0 <= i < |tokens| ==> colorSequence[i] == ParseColorName(tokens[i]))
          && (colorSequence == old(colorSequence) ==> colorSequence[..] == Overlay(old(colorSequence[..]), tokens))
    {
      var text := ReadConfig(command[7..]);
      ApplyConfigText(text, now, allocOk);
    }

    /** parseAndSetColorSequence outside a session, which stays valid. */
    method ApplyColorList(sequenceStr: string)
      requires Valid() && colorSequence != null && state != Running && state != Paused
      modifies colorSequence
      ensures Valid()
      ensures colorSequence[..] == Overlay(old(colorSequence[..]), ColorTokens(sequenceStr, colorSequence.Length))
    {
      SetColorSequence(colorSequence, sequenceStr);
      OutsideSessionValid();
    }

    /** Outside a running or paused session, Valid asks only for the facts of every state. */
    lemma OutsideSessionValid()
      requires Base() && state != Running && state != Paused
      ensures Valid()
    {
    }

    /** What pause, debug, exit-debug and exit leave: the whole new snapshot
        of each, the pause or resume event of a pause within a session, and
        the log, the session header and the colours as they were. */
    twostate predicate Transitioned(c: Command, now: nat)
      reads this, dataCollector, dataCollector.trials, colorSequence
      requires old(dataCollector.Valid()) && dataCollector.Valid()
    {
      DataKept() && events == old(events) + PauseEvents(c, old(state))
      && (c == PauseCommand ==>
            Vars() == old(Vars()).(state := if old(state) == Running then Paused else if old(state) == Paused then Running else old(state)))
      && (c == DebugCommand ==>
            Vars() == old(Vars()).(state := Debug, debugColorIndex := 0, lastColorChangeTime := now, feedbackActive := false))
      && (c == ExitDebugCommand ==> Vars() == old(Vars()).(state := if old(state) == Debug then Idle else old(state)))
      && (c == ExitCommand ==>
            Vars() == if old(state) == InputMode then ReleaseAll(old(Vars())).(state := Idle)
                      else old(Vars()).(state := if old(state) in {Running, Paused, DataReady} then Idle else old(state)))
    }

    /** pause, debug, exit-debug and exit: they move between the states and
        release the inputs, and touch nothing else. */
    method TransitionCommand(c: Command, now: nat)
      requires Valid() && clock == now
      requires c in {PauseCommand, DebugCommand, ExitDebugCommand, ExitCommand}
      modifies this`state, this`events, this`debugColorIndex, this`lastColorChangeTime, this`feedbackActive
      modifies this`buttonCorrect, this`buttonWrong, this`touchCorrect, this`touchWrong
      ensures Valid() && Transitioned(c, now)
    {
      match c {
        case PauseCommand =>
          if state == Running || state == Paused {
            PauseTask(state != Paused);
          }
        case DebugCommand =>
          EnterDebugMode(now);
        case ExitDebugCommand =>
          ExitDebug();
        case ExitCommand =>
          ExitTask();
      }
    }

    /** exit-debug: from debug mode back to idle; elsewhere nothing happens. */
    method ExitDebug()
      requires Valid()
      modifies this`state
      ensures Valid()
      ensures Vars() == old(Vars()).(state := if old(state) == Debug then Idle else old(state))
    {
      if state == Debug {
        SetState(Idle);
        LeftSession();
      }
    }

    /** exit: a session, running, paused or with data waiting, is dropped for
        idle; input mode is left as exitInputMode leaves it; elsewhere nothing
        happens. */
    method ExitTask()
      requires Valid()
      modifies this`state, this`buttonCorrect, this`buttonWrong, this`touchCorrect, this`touchWrong
      ensures Valid()
      ensures Vars() == if old(state) == InputMode then ReleaseAll(old(Vars())).(state := Idle)
                        else old(Vars()).(state := if old(state) in {Running, Paused, DataReady} then Idle else old(state))
    {
      if state == Running || state == Paused || state == DataReady {
        SetState(Idle);
        LeftSession();
      } else if state == InputMode {
        ExitInputMode();
      }
    }

    /** What get_data, input_mode and sync leave and print: get_data reports
        and leaves for idle only when data is ready, and otherwise prints the
        notice and changes nothing; sync prints the sync line and changes
        nothing; input_mode releases the inputs and starts forwarding. None
        of them streams an event or touches the log, the session header or
        the colours. */
    twostate predicate Replied(c: Command, now: nat, lines: seq<string>)
      reads this, dataCollector, dataCollector.trials, colorSequence
      requires old(dataCollector.Valid()) && dataCollector.Valid()
    {
      DataKept() && events == old(events)
      && (c == SyncCommand ==> Vars() == old(Vars()) && lines == [SyncLine(now)])
      && (c == GetDataCommand ==>
            if old(state) == DataReady
            then Vars() == old(Vars()).(state := Idle)
                 && lines == ["Sending data for " + NatToString(|Log()|) + " recorded trials..."]
                             + ReportLines(dataCollector.Info(), Log(), now) + ["data-completed"]
            else Vars() == old(Vars()) && lines == [NO_DATA_AVAILABLE])
      && (c == InputModeCommand ==> lines == [] && Vars() == ReleaseAll(old(Vars())).(state := InputMode))
    }

    /** get_data, input_mode and sync: they answer the host or start
        forwarding, and leave the configuration and the log alone. */
    method HostReply(command: string, now: nat) returns (lines: seq<string>)
      requires Valid()
      requires CommandOf(command) in {GetDataCommand, InputModeCommand, SyncCommand}
      modifies this`state, this`buttonCorrect, this`buttonWrong, this`touchCorrect, this`touchWrong
      ensures Valid() && Replied(CommandOf(command), now, lines)
    {
      lines := [];
      match CommandOf(command) {
        case GetDataCommand =>
          if state == DataReady {
            lines := SendData(now);
          } else {
            lines := [NO_DATA_AVAILABLE];
          }
        case InputModeCommand =>
          EnterInputMode();
        case SyncCommand =>
          lines := [SyncLine(now)];
      }
    }

    /** processSerialCommands: run one command line; empty and unknown lines
        are not handled and change nothing. The result holds the lines the
        command prints that a host reads: the sync line, the data report and
        the no-data notice. */
    method ProcessSerialCommands(command: string, now: nat, allocOk: bool) returns (handled: bool, lines: seq<string>)
      requires Valid() && clock == now
      requires CommandOf(command) == StartCommand ==> colorSequence != null
      modifies this, dataCollector, colorSequence
      ensures Valid()
      ensures handled <==> CommandOf(command) != NoCommand && CommandOf(command) != UnknownCommand
      ensures !handled ==> Vars() == old(Vars()) && DataKept() && events == old(events) && lines == []
      ensures CommandOf(command) == StartCommand ==> Started(now) && lines == [SyncLine(now)]
      ensures CommandOf(command) in {PauseCommand, DebugCommand, ExitDebugCommand, ExitCommand} ==>
        lines == [] && Transitioned(CommandOf(command), now)
      ensures CommandOf(command) in {GetDataCommand, InputModeCommand, SyncCommand} ==>
        Replied(CommandOf(command), now, lines)
      ensures CommandOf(command) == ConfigCommand ==>
        lines == [] && state == old(state) && events == old(events)
        && (var p := ParseConfig(command[7..]);
            p.request.None? || !ParametersValid(p.request.value) || old(state) == Running || old(state) == Paused ==>
              Vars() == old(Vars()) && DataKept())
    {
      var c := CommandOf(command);
      if c == NoCommand || c == UnknownCommand {
        handled, lines := false, [];
      } else if c == StartCommand {
        var line := StartTask(now);
        handled, lines := true, [line];
      } else if c in {PauseCommand, DebugCommand, ExitDebugCommand, ExitCommand} {
        TransitionCommand(c, now);
        handled, lines := true, [];
      } else if c == ConfigCommand {
        ProcessConfigCommand(command, now, allocOk);
        handled, lines := true, [];
      } else {
        handled := true;
        lines := HostReply(command, now);
      }
    }

    /** endTask: the session is over and its data can be fetched. */
    method EndTask()
      modifies this`state
      ensures state == DataReady
    {
      state := DataReady;
    }
  }
}
