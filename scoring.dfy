/** How evaluateTrialOutcome (src/nback_task.cpp) scores a trial: the outcome
    classes, the metrics update, and the tallies a host can recompute from the
    recorded rows. */
module Scoring {
  import opened DataCollection

  /** The performance counters that resetMetrics zeroes. */
  datatype Metrics = Metrics(
    correctResponses: nat,
    falseAlarms: nat,
    missedTargets: nat,
    totalReactionTime: nat,
    reactionTimeCount: nat)

  const ZERO_METRICS := Metrics(0, 0, 0, 0, 0)

  /** The branches of evaluateTrialOutcome. Unscored is a press on a trial
      flagged as a target before the n-back position: no branch applies. */
  datatype Outcome = NoResponse | Hit | TargetMissed | FalseAlarm | CorrectRejection | Unscored

  /** Which branch a trial takes, from the flags at the end of its response window. */
  function Classify(pressed: bool, target: bool, confirm: bool, trial: nat, n: nat): (o: Outcome)
    ensures o == NoResponse <==> !pressed
    ensures target && trial >= n && pressed ==> (o == Hit <==> confirm) && (o == TargetMissed <==> !confirm)
    ensures !target && pressed ==> (o == FalseAlarm <==> confirm) && (o == CorrectRejection <==> !confirm)
  {
    if !pressed then NoResponse
    else if target && trial >= n then (if confirm then Hit else TargetMissed)
    else if !target then (if confirm then FalseAlarm else CorrectRejection)
    else Unscored
  }

  /** The is_correct value the trial is recorded with. */
  predicate IsCorrect(o: Outcome)
  {
    o == Hit || o == CorrectRejection
  }

  /** The metrics after a trial with outcome o and reaction time `reaction`. */
  function Apply(m: Metrics, o: Outcome, reaction: nat): (r: Metrics)
  {
    var timed := if o == NoResponse then m
      else m.(totalReactionTime := m.totalReactionTime + reaction, reactionTimeCount := m.reactionTimeCount + 1);
    match o
    case NoResponse => timed.(missedTargets := m.missedTargets + 1)
    case Hit => timed.(correctResponses := m.correctResponses + 1)
    case TargetMissed => timed.(missedTargets := m.missedTargets + 1)
    case FalseAlarm => timed.(falseAlarms := m.falseAlarms + 1)
    case CorrectRejection => timed
    case Unscored => timed
  }

  /** A trial raises at most one of the three outcome counters, by one, and
      lowers none; correct rejections and unscored trials raise none. */
  lemma ApplyRaisesAtMostOne(m: Metrics, o: Outcome, reaction: nat)
    ensures var r := Apply(m, o, reaction);
      r.correctResponses >= m.correctResponses && r.falseAlarms >= m.falseAlarms && r.missedTargets >= m.missedTargets
      && (r.correctResponses - m.correctResponses) + (r.falseAlarms - m.falseAlarms) + (r.missedTargets - m.missedTargets)
         == (if o == CorrectRejection || o == Unscored then 0 else 1)
  {
  }

  /** The reaction time is accumulated exactly when a press occurred. */
  lemma ApplyTimesPresses(m: Metrics, pressed: bool, target: bool, confirm: bool, trial: nat, n: nat, reaction: nat)
    ensures var r := Apply(m, Classify(pressed, target, confirm, trial, n), reaction);
      r.reactionTimeCount == m.reactionTimeCount + (if pressed then 1 else 0)
      && r.totalReactionTime == m.totalReactionTime + (if pressed then reaction else 0)
  {
  }

  /** A pressed trial whose target flag is consistent with its position is
      recorded as correct exactly when the press matches the target flag. */
  lemma CorrectMeansMatchingPress(target: bool, confirm: bool, trial: nat, n: nat)
    requires target ==> trial >= n
    ensures IsCorrect(Classify(true, target, confirm, trial, n)) <==> (target == confirm)
  {
  }

  /** A trial with no press counts as a missed target whatever its target flag. */
  lemma NoResponseIsMiss(m: Metrics, target: bool, confirm: bool, trial: nat, n: nat, reaction: nat)
    ensures var r := Apply(m, Classify(false, target, confirm, trial, n), reaction);
      r == m.(missedTargets := m.missedTargets + 1) && !IsCorrect(Classify(false, target, confirm, trial, n))
  {
  }

  // ---------------------------------------------------------------------------
  // Tallies over the recorded rows
  // ---------------------------------------------------------------------------

  /** Hits, false alarms and misses as read from rows of pressed trials: the
      row's response_made field carries responseIsConfirm. */
  datatype Tallies = Tallies(hits: nat, falseAlarms: nat, misses: nat)

  function Tally(rows: seq<TrialRow>): (t: Tallies)
    ensures t.hits + t.falseAlarms + t.misses <= |rows|
  {
    if rows == [] then Tallies(0, 0, 0)
    else
      var t := Tally(rows[..|rows| - 1]);
      var row := rows[|rows| - 1];
      if row.isTarget && row.responseMade then t.(hits := t.hits + 1)
      else if row.isTarget then t.(misses := t.misses + 1)
      else if row.responseMade then t.(falseAlarms := t.falseAlarms + 1)
      else t
  }

  /** The number of rows recorded as target trials. */
  function TargetRows(rows: seq<TrialRow>): (k: nat)
    ensures k <= |rows|
  {
    if rows == [] then 0 else TargetRows(rows[..|rows| - 1]) + (if rows[|rows| - 1].isTarget then 1 else 0)
  }

  /** The metrics agree with the tally of the rows: each pressed trial was
      scored and recorded once. */
  predicate Agrees(m: Metrics, rows: seq<TrialRow>)
  {
    var t := Tally(rows);
    m.correctResponses == t.hits && m.falseAlarms == t.falseAlarms && m.missedTargets == t.misses
    && m.reactionTimeCount == |rows|
  }

  /** The row evaluateTrialOutcome records for a pressed trial of the given outcome. */
  predicate RecordedAs(row: TrialRow, target: bool, confirm: bool, o: Outcome)
  {
    row.isTarget == target && row.responseMade == confirm && row.isCorrect == IsCorrect(o)
  }

  /** Scoring a pressed trial and appending its row keeps metrics and rows in agreement. */
  lemma ApplyAgrees(m: Metrics, rows: seq<TrialRow>, row: TrialRow, target: bool, confirm: bool, trial: nat, n: nat, reaction: nat)
    requires Agrees(m, rows)
    requires target ==> trial >= n
    requires RecordedAs(row, target, confirm, Classify(true, target, confirm, trial, n))
    ensures Agrees(Apply(m, Classify(true, target, confirm, trial, n), reaction), rows + [row])
  {
    assert (rows + [row])[..|rows|] == rows;
  }

  /** Every recorded target trial is either a hit or a miss, so the total of
      targets reportResults prints (correct plus missed) is the number of
      target rows. */
  lemma {:induction false} HitsAndMissesAreTargets(rows: seq<TrialRow>)
    ensures Tally(rows).hits + Tally(rows).misses == TargetRows(rows)
    decreases |rows|
  {
    if rows != [] {
      HitsAndMissesAreTargets(rows[..|rows| - 1]);
    }
  }

  /** A row counts as correct exactly when its answer matches its target flag,
      for every row of a scored session. */
  predicate WellScored(rows: seq<TrialRow>)
  {
    forall i :: 0 <= i < |rows| ==> rows[i].isCorrect == (rows[i].isTarget == rows[i].responseMade)
  }

  /** The number of rows recorded as correct. */
  function CorrectRows(rows: seq<TrialRow>): (k: nat)
    ensures k <= |rows|
  {
    if rows == [] then 0 else CorrectRows(rows[..|rows| - 1]) + (if rows[|rows| - 1].isCorrect then 1 else 0)
  }

  /** In a well-scored log the correct rows are the hits plus the correct
      rejections, that is all rows but the false alarms and misses. */
  lemma {:induction false} CorrectRowsOfWellScored(rows: seq<TrialRow>)
    requires WellScored(rows)
    ensures CorrectRows(rows) + Tally(rows).falseAlarms + Tally(rows).misses == |rows|
    decreases |rows|
  {
    if rows != [] {
      var init := rows[..|rows| - 1];
      assert forall i :: 0 <= i < |init| ==> init[i] == rows[i];
      CorrectRowsOfWellScored(init);
    }
  }
}
