/** The data collector of src/data_collector.cpp: a fixed-capacity log of trial
    records with the session's metadata, the HH:MM:SS:mmm timestamp format, and
    the line-oriented report that is sent to the host. */
module DataCollection {
  import opened Text

  type uint8 = x: int | 0 <= x < 0x100
  type uint16 = x: int | 0 <= x < 0x1_0000
  type uint32 = x: int | 0 <= x < 0x1_0000_0000

  /** C's conversion of an integer to an 8-, 16- or 32-bit unsigned type. */
  function U8(x: int): uint8 { x % 0x100 }
  function U16(x: int): uint16 { x % 0x1_0000 }
  function U32(x: int): uint32 { x % 0x1_0000_0000 }

  /** MAX_DATA_ROWS: the capacity of the trial log. */
  const MAX_DATA_ROWS: nat := 50
  /** char study_id[10] keeps nine characters and the terminating NUL. */
  const STUDY_ID_CHARS: nat := 9

  /** NBackTrialData: one recorded trial. */
  datatype TrialRow = TrialRow(
    stimulusNumber: uint8,
    stimulusColor: uint8,
    isTarget: bool,
    responseMade: bool,
    isCorrect: bool,
    stimulusOnsetTime: uint32,
    responseTime: uint32,
    reactionTime: uint16,
    stimulusEndTime: uint32)

  const ZERO_ROW := TrialRow(0, 0, false, false, false, 0, 0, 0, 0)

  // ---------------------------------------------------------------------------
  // formatTimestamp
  // ---------------------------------------------------------------------------


  datatype Clock = Clock(hours: uint8, minutes: nat, seconds: nat, millis: nat)

  lemma {:induction false} MulAtLeast(a: int, d: int)
    requires a >= 1 && d > 0
    ensures a * d >= d
    decreases a
  {
    if a > 1 {
      MulAtLeast(a - 1, d);
      assert a * d == (a - 1) * d + d;
    }
  }

  lemma DivModUnique(m: int, d: int, q: int, r: int)
    requires d > 0 && 0 <= r < d && m == q * d + r
    ensures m / d == q && m % d == r
  {
    var q0, r0 := m / d, m % d;
    assert m == q0 * d + r0;
    if q0 > q {
      MulAtLeast(q0 - q, d);
    } else if q0 < q {
      MulAtLeast(q - q0, d);
    }
  }

  lemma ClockArithmetic(m: nat)
    ensures (m / 1000) / 3600 == m / 3600000
    ensures ((m / 1000) / 60 % 60) * 60000 + (m / 1000 % 60) * 1000 + m % 1000 == m % 3600000
    ensures ((m / 3600000) % 256) * 3600000 + m % 3600000 == m % 921600000
  {
    var ts, ms := m / 1000, m % 1000;
    var h, r := ts / 3600, ts % 3600;
    var q, s := ts / 60, ts % 60;
    var h2, mi := q / 60, q % 60;
    assert ts == 60 * q + s;
    assert q == 60 * h2 + mi;
    assert ts == 3600 * h2 + (60 * mi + s);
    DivModUnique(ts, 3600, h2, 60 * mi + s);
    assert m == h * 3600000 + (1000 * r + ms);
    DivModUnique(m, 3600000, h, 1000 * r + ms);
    var a, hh := h / 256, h % 256;
    assert m == a * 921600000 + (hh * 3600000 + (1000 * r + ms));
    DivModUnique(m, 921600000, a, hh * 3600000 + (1000 * r + ms));
  }

  /** The fields formatTimestamp computes from a millisecond count: the hours
      go through a uint8_t, so they wrap at 256. */
  function ClockOf(m: uint32): (c: Clock)
    ensures c.millis < 1000 && c.seconds < 60 && c.minutes < 60
  {
    var totalSeconds := m / 1000;
    Clock(U8(totalSeconds / 3600), (totalSeconds / 60) % 60, totalSeconds % 60, m % 1000)
  }

  /** The clock fields denote the count modulo 256 hours (921600000 ms). */
  lemma ClockOfValue(m: uint32)
    ensures ClockOf(m).hours == (m / 3600000) % 256
    ensures ClockOf(m).hours * 3600000 + ClockOf(m).minutes * 60000 + ClockOf(m).seconds * 1000 + ClockOf(m).millis
            == m % 921600000
  {
    ClockArithmetic(m);
  }

  /** The four zero-padded numbers of "%02d:%02d:%02d:%03d". */
  function TimestampFields(m: uint32): (f: seq<string>)
    ensures |f| == 4 && forall k :: 0 <= k < 4 ==> AllDigits(f[k])
  {
    var c := ClockOf(m);
    [Pad(c.hours, 2), Pad(c.minutes, 2), Pad(c.seconds, 2), Pad(c.millis, 3)]
  }

  /** formatTimestamp: the fields above separated by ':'. */
  function FormatTimestamp(m: uint32): string
  {
    Join(TimestampFields(m), ':')
  }

  /** The value a host reads back from an HH:MM:SS:mmm field. */
  function ParseTimestamp(t: string): Option<nat>
  {
    var p := Split(t, ':');
    if |p| == 4 && AllDigits(p[0]) && AllDigits(p[1]) && AllDigits(p[2]) && AllDigits(p[3]) then
      Some(DecimalValue(p[0]) * 3600000 + DecimalValue(p[1]) * 60000 + DecimalValue(p[2]) * 1000 + DecimalValue(p[3]))
    else None
  }

  /** Below 100 hours the text is exactly "HH:MM:SS:mmm"; beyond, the hours take three digits. */
  lemma TimestampShape(m: uint32)
    ensures |FormatTimestamp(m)| >= 12
    ensures (m / 3600000) % 256 < 100 ==>
      var t := FormatTimestamp(m);
      |t| == 12 && t[2] == ':' && t[5] == ':' && t[8] == ':'
  {
    var c := ClockOf(m);
    var f := TimestampFields(m);
    ClockOfValue(m);
    PadLength(c.minutes, 2);
    PadLength(c.seconds, 2);
    PadLength(c.millis, 3);
    if c.hours < 100 { PadLength(c.hours, 2); }
    assert Join(f[3..], ':') == f[3];
    assert Join(f[2..], ':') == f[2] + [':'] + f[3];
    assert Join(f[1..], ':') == f[1] + [':'] + (f[2] + [':'] + f[3]);
    assert FormatTimestamp(m) == f[0] + [':'] + (f[1] + [':'] + (f[2] + [':'] + f[3]));
  }

  /** Four zero-padded numbers joined by ':' read back as their weighted sum. */
  lemma ParsePaddedFields(h: nat, mi: nat, s: nat, ms: nat)
    ensures ParseTimestamp(Join([Pad(h, 2), Pad(mi, 2), Pad(s, 2), Pad(ms, 3)], ':'))
         == Some(h * 3600000 + mi * 60000 + s * 1000 + ms)
  {
    var f := [Pad(h, 2), Pad(mi, 2), Pad(s, 2), Pad(ms, 3)];
    forall k | 0 <= k < 4 ensures ':' !in f[k] {
      DigitsHaveNo(f[k], ':');
    }
    SplitJoin(f, ':');
    PadValue(h, 2);
    PadValue(mi, 2);
    PadValue(s, 2);
    PadValue(ms, 3);
  }

  /** Reading a formatted timestamp back gives the input modulo the 256-hour
      period of the uint8_t hours field, so exactly the input below 256 hours. */
  lemma TimestampRoundTrip(m: uint32)
    ensures ParseTimestamp(FormatTimestamp(m)) == Some(m % 921600000)
    ensures m < 921600000 ==> ParseTimestamp(FormatTimestamp(m)) == Some(m)
  {
    ParseFormatted(m);
    if m < 921600000 {
      DivModUnique(m, 921600000, 0, m);
    }
  }

  /** A formatted timestamp reads back as the weighted sum of its clock
      fields, which is the count modulo 256 hours. */
  lemma ParseFormatted(m: uint32)
    ensures ParseTimestamp(FormatTimestamp(m)) == Some(m % 921600000)
  {
    var c := ClockOf(m);
    ParsePaddedFields(c.hours, c.minutes, c.seconds, c.millis);
    ClockOfValue(m);
    assert FormatTimestamp(m) == Join([Pad(c.hours, 2), Pad(c.minutes, 2), Pad(c.seconds, 2), Pad(c.millis, 3)], ':');
  }

  lemma TimestampSplits(m: uint32)
    ensures Split(FormatTimestamp(m), ':') == TimestampFields(m)
  {
    var f := TimestampFields(m);
    forall k | 0 <= k < 4 ensures ':' !in f[k] {
      DigitsHaveNo(f[k], ':');
    }
    SplitJoin(f, ':');
  }

  /** A formatted timestamp holds no comma, so it never breaks a report row. */
  lemma TimestampHasNoComma(m: uint32)
    ensures ',' !in FormatTimestamp(m)
  {
    var f := TimestampFields(m);
    forall k | 0 <= k < 4 ensures ',' !in f[k] {
      DigitsHaveNo(f[k], ',');
    }
    JoinAvoids(f, ':', ',');
  }

  // ---------------------------------------------------------------------------
  // The report of sendDataOverSerial
  // ---------------------------------------------------------------------------

  /** The session metadata the collector keeps. */
  datatype SessionInfo = SessionInfo(studyId: string, sessionNumber: uint16, sessionStartTime: nat, sessionAbsoluteMillis: nat)

  const OPEN_LINE := "Opening Data Socket"
  const CLOSE_LINE := "Closing Data Socket"
  const MARKER := "$$$"
  const NO_DATA_LINE := "No data to send"

  const TRIAL_COLUMNS: seq<string> := ["study_id", "session_number", "timestamp", "task_type", "event_type",
    "stimulus_number", "stimulus_color", "is_target", "response_made", "is_correct",
    "stimulus_onset_time", "response_time", "reaction_time", "stimulus_end_time"]
  const TRIAL_HEADER := "Format=study_id,session_number,timestamp,task_type,event_type,"
    + "stimulus_number,stimulus_color,is_target,response_made,is_correct,stimulus_onset_time,response_time,reaction_time,stimulus_end_time"

  const SESSION_COLUMNS: seq<string> := ["study_id", "session_number", "start_time_millis", "start_time",
    "completion_time", "total_duration", "total_trials"]
  const SESSION_HEADER := "Format=study_id,session_number,start_time_millis,start_time,completion_time,total_duration,total_trials"

  /** The colour names of the report; indices 4 and up print as "unknown". */
  function ColorName(c: uint8): string
  {
    if c == 0 then "red" else if c == 1 then "green" else if c == 2 then "blue"
    else if c == 3 then "yellow" else "unknown"
  }

  function BoolText(b: bool): string { if b then "true" else "false" }

  /** The fields of one data row, in the order of the trial header. */
  function RowFields(info: SessionInfo, row: TrialRow): (f: seq<string>)
    ensures |f| == |TRIAL_COLUMNS|
  {
    [info.studyId, NatToString(info.sessionNumber), FormatTimestamp(row.stimulusEndTime), "n-back", "trial_complete",
     NatToString(row.stimulusNumber), ColorName(row.stimulusColor),
     BoolText(row.isTarget), BoolText(row.responseMade), BoolText(row.isCorrect),
     FormatTimestamp(row.stimulusOnsetTime), FormatTimestamp(row.responseTime),
     NatToString(row.reactionTime), FormatTimestamp(row.stimulusEndTime)]
  }

  function RowLine(info: SessionInfo, row: TrialRow): string
  {
    Join(RowFields(info, row), ',')
  }

  /** The fields of the session summary line; the durations are uint32_t differences. */
  function SummaryFields(info: SessionInfo, count: nat, now: nat): (f: seq<string>)
    ensures |f| == |SESSION_COLUMNS|
  {
    [info.studyId, NatToString(info.sessionNumber), NatToString(U32(info.sessionAbsoluteMillis)),
     FormatTimestamp(U32(info.sessionAbsoluteMillis)), FormatTimestamp(U32(now)),
     FormatTimestamp(U32(now - info.sessionStartTime)), NatToString(count)]
  }

  function SummaryLine(info: SessionInfo, count: nat, now: nat): string
  {
    Join(SummaryFields(info, count, now), ',')
  }

  /** One data line per stored row, in insertion order. */
  function RowLines(info: SessionInfo, rows: seq<TrialRow>): (body: seq<string>)
    ensures |body| == |rows| && forall i :: 0 <= i < |rows| ==> body[i] == RowLine(info, rows[i])
  {
    seq(|rows|, i requires 0 <= i < |rows| => RowLine(info, rows[i]))
  }

  /** sendDataOverSerial, as the sequence of lines it prints at time `now`. */
  function ReportLines(info: SessionInfo, rows: seq<TrialRow>, now: nat): (lines: seq<string>)
  {
    if |rows| == 0 then [NO_DATA_LINE]
    else
      [OPEN_LINE, TRIAL_HEADER, MARKER] + RowLines(info, rows)
      + [MARKER, SESSION_HEADER, MARKER, SummaryLine(info, |rows|, now), MARKER, CLOSE_LINE]
  }

  /** An empty log prints only the no-data line; otherwise the report is the
      opening line, the trial header and a marker, one line per row in
      insertion order, then the marker-framed session header and summary, a
      marker and the closing line. */
  lemma ReportLayout(info: SessionInfo, rows: seq<TrialRow>, now: nat)
    ensures var lines := ReportLines(info, rows, now);
      (|rows| == 0 ==> lines == [NO_DATA_LINE])
      && (|rows| > 0 ==>
        |lines| == |rows| + 9
        && lines[..3] == [OPEN_LINE, TRIAL_HEADER, MARKER]
        && lines[3..3 + |rows|] == RowLines(info, rows)
        && lines[3 + |rows|..] == [MARKER, SESSION_HEADER, MARKER, SummaryLine(info, |rows|, now), MARKER, CLOSE_LINE])
  {
    if |rows| > 0 {
      var head := [OPEN_LINE, TRIAL_HEADER, MARKER];
      var body := RowLines(info, rows);
      var tail := [MARKER, SESSION_HEADER, MARKER, SummaryLine(info, |rows|, now), MARKER, CLOSE_LINE];
      var lines := head + body + tail;
      assert ReportLines(info, rows, now) == lines;
      assert lines[..3] == head;
      assert lines[3..3 + |rows|] == body;
      assert lines[3 + |rows|..] == tail;
    }
  }

  /** The fixed texts of a data row hold no comma. */
  lemma WordsHaveNoComma(color: uint8, b: bool)
    ensures ',' !in "n-back" && ',' !in "trial_complete"
    ensures ',' !in ColorName(color) && ',' !in BoolText(b)
  {
  }

  lemma RowFieldsHaveNoComma(info: SessionInfo, row: TrialRow)
    requires ',' !in info.studyId
    ensures forall k :: 0 <= k < |RowFields(info, row)| ==> ',' !in RowFields(info, row)[k]
  {
    DigitsHaveNo(NatToString(info.sessionNumber), ',');
    DigitsHaveNo(NatToString(row.stimulusNumber), ',');
    DigitsHaveNo(NatToString(row.reactionTime), ',');
    TimestampHasNoComma(row.stimulusEndTime);
    TimestampHasNoComma(row.stimulusOnsetTime);
    TimestampHasNoComma(row.responseTime);
    WordsHaveNoComma(row.stimulusColor, row.isTarget);
    WordsHaveNoComma(row.stimulusColor, row.responseMade);
    WordsHaveNoComma(row.stimulusColor, row.isCorrect);
    var f := RowFields(info, row);
    assert forall x :: x in f ==> ',' !in x;
  }

  /** Each data row splits at ',' into its 14 fields in header order, provided
      the study id holds no comma (the config parser never lets one through). */
  lemma RowLineSplits(info: SessionInfo, row: TrialRow)
    requires ',' !in info.studyId
    ensures Split(RowLine(info, row), ',') == RowFields(info, row)
    ensures |Split(RowLine(info, row), ',')| == 14
  {
    RowFieldsHaveNoComma(info, row);
    SplitJoin(RowFields(info, row), ',');
  }

  /** The summary line splits into its 7 fields and ends with the trial count. */
  lemma SummaryLineSplits(info: SessionInfo, count: nat, now: nat)
    requires ',' !in info.studyId
    ensures Split(SummaryLine(info, count, now), ',') == SummaryFields(info, count, now)
    ensures var f := Split(SummaryLine(info, count, now), ',');
      |f| == 7 && AllDigits(f[6]) && DecimalValue(f[6]) == count
  {
    var f := SummaryFields(info, count, now);
    TimestampHasNoComma(U32(info.sessionAbsoluteMillis));
    TimestampHasNoComma(U32(now));
    TimestampHasNoComma(U32(now - info.sessionStartTime));
    DigitsHaveNo(f[1], ',');
    DigitsHaveNo(f[2], ',');
    DigitsHaveNo(f[6], ',');
    SplitJoin(f, ',');
    DecimalValueOfNatToString(count);
  }

  // ---------------------------------------------------------------------------
  // Reading a report back, as the host tooling does
  // ---------------------------------------------------------------------------

  function ColorIndex(name: string): Option<uint8>
  {
    if name == "red" then Some(0) else if name == "green" then Some(1)
    else if name == "blue" then Some(2) else if name == "yellow" then Some(3) else None
  }

  function BoolOf(t: string): Option<bool>
  {
    if t == "true" then Some(true) else if t == "false" then Some(false) else None
  }

  function NumberOf(t: string, bound: nat): Option<nat>
  {
    if |t| > 0 && AllDigits(t) && DecimalValue(t) < bound then Some(DecimalValue(t)) else None
  }

  /** The trial row a host recovers from the 14 fields of a data line. */
  function DecodeRow(f: seq<string>): Option<TrialRow>
  {
    if |f| != 14 || f[3] != "n-back" || f[4] != "trial_complete" then None
    else
      var number := NumberOf(f[5], 0x100);
      var color := ColorIndex(f[6]);
      var target, made, correct := BoolOf(f[7]), BoolOf(f[8]), BoolOf(f[9]);
      var onset, response, end := ParseTimestamp(f[10]), ParseTimestamp(f[11]), ParseTimestamp(f[13]);
      var reaction := NumberOf(f[12], 0x1_0000);
      if number.None? || color.None? || target.None? || made.None? || correct.None?
         || onset.None? || response.None? || end.None? || reaction.None?
         || onset.value >= 0x1_0000_0000 || response.value >= 0x1_0000_0000 || end.value >= 0x1_0000_0000
      then None
      else Some(TrialRow(number.value, color.value, target.value, made.value, correct.value,
                         onset.value, response.value, reaction.value, end.value))
  }

  predicate Decodable(row: TrialRow)
  {
    row.stimulusColor < 4
    && row.stimulusOnsetTime < 921600000 && row.responseTime < 921600000 && row.stimulusEndTime < 921600000
  }

  lemma NumberOfNatToString(n: nat, bound: nat)
    requires n < bound
    ensures NumberOf(NatToString(n), bound) == Some(n)
  {
    DecimalValueOfNatToString(n);
  }

  lemma ColorIndexOfName(c: uint8)
    requires c < 4
    ensures ColorIndex(ColorName(c)) == Some(c)
  {
  }

  lemma BoolOfText(b: bool)
    ensures BoolOf(BoolText(b)) == Some(b)
  {
  }

  /** A data row decodes back to the stored trial when its colour has a name
      (0-3) and its times are below the 256-hour clock period. */
  lemma RowRoundTrip(info: SessionInfo, row: TrialRow)
    requires Decodable(row)
    ensures DecodeRow(RowFields(info, row)) == Some(row)
  {
    RowNumberFields(info, row);
    RowColorField(info, row);
    RowFlagFields(info, row);
    RowTimeFields(info, row);
    DecodeRowFromFields(RowFields(info, row), row);
  }

  lemma RowNumberFields(info: SessionInfo, row: TrialRow)
    ensures NumberOf(RowFields(info, row)[5], 0x100) == Some(row.stimulusNumber as nat)
    ensures NumberOf(RowFields(info, row)[12], 0x1_0000) == Some(row.reactionTime as nat)
  {
    NumberOfNatToString(row.stimulusNumber, 0x100);
    NumberOfNatToString(row.reactionTime, 0x1_0000);
  }

  lemma RowColorField(info: SessionInfo, row: TrialRow)
    requires row.stimulusColor < 4
    ensures ColorIndex(RowFields(info, row)[6]) == Some(row.stimulusColor)
  {
    ColorIndexOfName(row.stimulusColor);
  }

  lemma RowFlagFields(info: SessionInfo, row: TrialRow)
    ensures BoolOf(RowFields(info, row)[7]) == Some(row.isTarget)
    ensures BoolOf(RowFields(info, row)[8]) == Some(row.responseMade)
    ensures BoolOf(RowFields(info, row)[9]) == Some(row.isCorrect)
  {
    BoolOfText(row.isTarget);
    BoolOfText(row.responseMade);
    BoolOfText(row.isCorrect);
  }

  lemma RowTimeFields(info: SessionInfo, row: TrialRow)
    requires Decodable(row)
    ensures ParseTimestamp(RowFields(info, row)[10]) == Some(row.stimulusOnsetTime as nat)
    ensures ParseTimestamp(RowFields(info, row)[11]) == Some(row.responseTime as nat)
    ensures ParseTimestamp(RowFields(info, row)[13]) == Some(row.stimulusEndTime as nat)
  {
    TimestampRoundTrip(row.stimulusOnsetTime);
    TimestampRoundTrip(row.responseTime);
    TimestampRoundTrip(row.stimulusEndTime);
  }

  lemma DecodeRowFromFields(f: seq<string>, row: TrialRow)
    requires |f| == 14 && f[3] == "n-back" && f[4] == "trial_complete"
    requires NumberOf(f[5], 0x100) == Some(row.stimulusNumber as nat)
    requires ColorIndex(f[6]) == Some(row.stimulusColor)
    requires BoolOf(f[7]) == Some(row.isTarget) && BoolOf(f[8]) == Some(row.responseMade) && BoolOf(f[9]) == Some(row.isCorrect)
    requires ParseTimestamp(f[10]) == Some(row.stimulusOnsetTime as nat)
    requires ParseTimestamp(f[11]) == Some(row.responseTime as nat)
    requires NumberOf(f[12], 0x1_0000) == Some(row.reactionTime as nat)
    requires ParseTimestamp(f[13]) == Some(row.stimulusEndTime as nat)
    ensures DecodeRow(f) == Some(row)
  {
  }

  /** A data row always holds a comma, so it is never taken for the "$$$" marker. */
  lemma RowLineIsNotMarker(info: SessionInfo, row: TrialRow)
    ensures RowLine(info, row) != MARKER
  {
    var f := RowFields(info, row);
    var line := RowLine(info, row);
    assert line == f[0] + [','] + Join(f[1..], ',');
    assert line[|f[0]|] == ',';
    assert ',' !in MARKER;
  }

  /** The first index at or after `from` of a line equal to `l`, or -1. */
  function FindLine(lines: seq<string>, l: string, from: nat): (r: int)
    ensures r == -1 || (from <= r < |lines| && lines[r] == l)
    ensures r == -1 ==> forall i :: from <= i < |lines| ==> lines[i] != l
    ensures r != -1 ==> forall i :: from <= i < r ==> lines[i] != l
    decreases |lines| - from
  {
    if from >= |lines| then -1 else if lines[from] == l then from else FindLine(lines, l, from + 1)
  }

  /** The lines of the trial section: those between the first and the second "$$$". */
  function TrialSection(lines: seq<string>): Option<seq<string>>
  {
    var a := FindLine(lines, MARKER, 0);
    if a < 0 then None
    else
      var b := FindLine(lines, MARKER, a + 1);
      if b < 0 then None else Some(lines[a + 1..b])
  }

  /** The trial section of a report is exactly the stored rows' lines, in insertion order. */
  lemma ReportTrialSection(info: SessionInfo, rows: seq<TrialRow>, now: nat)
    requires |rows| > 0
    ensures TrialSection(ReportLines(info, rows, now)) == Some(RowLines(info, rows))
  {
    var lines := ReportLines(info, rows, now);
    ReportLayout(info, rows, now);
    assert lines[2] == MARKER;
    assert FindLine(lines, MARKER, 0) == 2;
    forall j | 3 <= j < 3 + |rows| ensures lines[j] != MARKER {
      assert lines[j] == lines[3..3 + |rows|][j - 3];
      RowLineIsNotMarker(info, rows[j - 3]);
    }
    assert lines[3 + |rows|] == MARKER;
    assert FindLine(lines, MARKER, 3) == 3 + |rows|;
  }

  /** A host that reads the trial section and splits each line recovers every
      stored row (given named colours and times below 256 hours). */
  lemma ReportRoundTrip(info: SessionInfo, rows: seq<TrialRow>, now: nat, i: nat)
    requires |rows| > 0 && ',' !in info.studyId
    requires i < |rows| && Decodable(rows[i])
    ensures TrialSection(ReportLines(info, rows, now)).Some?
    ensures var s := TrialSection(ReportLines(info, rows, now)).value;
      |s| == |rows| && DecodeRow(Split(s[i], ',')) == Some(rows[i])
  {
    ReportTrialSection(info, rows, now);
    RowLineSplits(info, rows[i]);
    RowRoundTrip(info, rows[i]);
  }

  // ---------------------------------------------------------------------------
  // The collector object
  // ---------------------------------------------------------------------------

  /** What begin keeps of a study id: strncpy of at most nine characters into
      the ten-byte buffer, which is then NUL-terminated. */
  function TruncateStudyId(id: string): (r: string)
    ensures |r| <= STUDY_ID_CHARS && |r| <= |id| && r == id[..|r|]
    ensures |id| <= STUDY_ID_CHARS ==> r == id
    ensures |id| > STUDY_ID_CHARS ==> |r| == STUDY_ID_CHARS
  {
    if |id| <= STUDY_ID_CHARS then id else id[..STUDY_ID_CHARS]
  }

  class DataCollector {
    var studyId: string
    var sessionNumber: uint16
    var sessionStartTime: nat
    var sessionAbsoluteMillis: nat
    /** trials[MAX_DATA_ROWS]: the rows in insertion order; those at trialCount and above are stale. */
    const trials: array<TrialRow>
    var trialCount: nat

    ghost predicate Valid()
      reads this
    {
      trials.Length == MAX_DATA_ROWS && trialCount <= MAX_DATA_ROWS && |studyId| <= STUDY_ID_CHARS
    }

    /** The stored rows. */
    function Rows(): (rows: seq<TrialRow>)
      reads this, trials
      requires Valid()
      ensures |rows| == trialCount
    {
      trials[..trialCount]
    }

    function Info(): SessionInfo
      reads this
    {
      SessionInfo(studyId, sessionNumber, sessionStartTime, sessionAbsoluteMillis)
    }

    constructor ()
      ensures Valid() && fresh(trials)
      ensures Rows() == [] && studyId == "" && sessionNumber == 0
      ensures sessionStartTime == 0 && sessionAbsoluteMillis == 0
    {
      studyId := "";
      sessionNumber := 0;
      sessionStartTime := 0;
      sessionAbsoluteMillis := 0;
      trials := new TrialRow[MAX_DATA_ROWS](_ => ZERO_ROW);
      trialCount := 0;
    }

    /** begin: store the (truncated) study id, the session number and the start
        time, and empty the log. */
    method Begin(id: string, session: uint16, now: nat)
      requires Valid()
      modifies this
      ensures Valid() && Rows() == []
      ensures studyId == TruncateStudyId(id) && sessionNumber == session
      ensures sessionStartTime == now && sessionAbsoluteMillis == now
    {
      studyId := TruncateStudyId(id);
      sessionNumber := session;
      sessionStartTime := now;
      sessionAbsoluteMillis := now;
      trialCount := 0;
    }

    /** reset: empty the log; the metadata stays. */
    method Reset()
      requires Valid()
      modifies this`trialCount
      ensures Valid() && Rows() == []
    {
      trialCount := 0;
    }

    /** recordCompletedTrial: append a row if there is room, otherwise drop it. */
    method RecordCompletedTrial(stimulusNumber: uint8, stimulusColor: uint8, isTarget: bool,
                                responseMade: bool, isCorrect: bool, stimulusOnsetTime: uint32,
                                responseTime: uint32, reactionTime: uint16, stimulusEndTime: uint32)
      requires Valid()
      modifies this`trialCount, trials
      ensures Valid()
      ensures var row := TrialRow(stimulusNumber, stimulusColor, isTarget, responseMade, isCorrect,
                                 stimulusOnsetTime, responseTime, reactionTime, stimulusEndTime);
        Rows() == if old(trialCount) < MAX_DATA_ROWS then old(Rows()) + [row] else old(Rows())
      ensures trialCount == if old(trialCount) < MAX_DATA_ROWS then old(trialCount) + 1 else old(trialCount)
      ensures forall i :: 0 <= i < MAX_DATA_ROWS && i != old(trialCount) ==> trials[i] == old(trials[i])
    {
      if trialCount < MAX_DATA_ROWS {
        trials[trialCount] := TrialRow(stimulusNumber, stimulusColor, isTarget, responseMade, isCorrect,
                                       stimulusOnsetTime, responseTime, reactionTime, stimulusEndTime);
        trialCount := trialCount + 1;
      }
    }

    /** getTrialCount. */
    function GetTrialCount(): (n: uint8)
      reads this, trials
      requires Valid()
      ensures n as int == |Rows()|
    {
      trialCount
    }

    /** sendDataOverSerial, as the lines it prints at time `now`. */
    function SendDataOverSerial(now: nat): (lines: seq<string>)
      reads this, trials
      requires Valid()
      ensures trialCount == 0 ==> lines == [NO_DATA_LINE]
      ensures trialCount > 0 ==> |lines| == trialCount + 9 && lines[3..3 + trialCount] == RowLines(Info(), Rows())
    {
      ReportLayout(Info(), Rows(), now);
      ReportLines(Info(), Rows(), now)
    }
  }
}
