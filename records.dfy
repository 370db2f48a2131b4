/** The record rule applied when a run ends (only an arcade run that beats the best score is a record), and the HUD highlight derived from it. */
module Records {
  import opened Util

  /** What a finished run does to the record: whether it is a new one, and the best score afterwards. */
  datatype Outcome = Outcome(newRecord: bool, highScore: nat)

  /** The decision taken on game over for a run that scored scoreResult. */
  function RecordOutcome(scoreResult: nat, highScore: nat, isTrainingMode: bool): (o: Outcome)
    ensures o.newRecord <==> !isTrainingMode && scoreResult > highScore
    ensures o.highScore == if isTrainingMode then highScore else Max(highScore, scoreResult)
    ensures o.newRecord ==> o.highScore == scoreResult
  {
    if !isTrainingMode && scoreResult > highScore then Outcome(true, scoreResult)
    else Outcome(false, highScore)
  }

  /** A finished run: its score and whether it was played in training mode. */
  datatype Run = Run(score: nat, training: bool)

  /** The best score after a series of runs, each settled by RecordOutcome in turn. */
  function HighScoreAfter(highScore: nat, runs: seq<Run>): (h: nat)
    decreases |runs|
  {
    if runs == [] then highScore
    else HighScoreAfter(RecordOutcome(runs[0].score, highScore, runs[0].training).highScore, runs[1..])
  }

  /** The best arcade score among the runs, 0 if there is none. */
  function BestArcadeScore(runs: seq<Run>): (b: nat)
    decreases |runs|
  {
    if runs == [] then 0
    else Max(if runs[0].training then 0 else runs[0].score, BestArcadeScore(runs[1..]))
  }

  /** After any series of runs the best score is the larger of the starting one and the best arcade score. */
  lemma {:induction false} HighScoreIsBestArcadeScore(highScore: nat, runs: seq<Run>)
    ensures HighScoreAfter(highScore, runs) == Max(highScore, BestArcadeScore(runs))
    decreases |runs|
  {
    if runs != [] {
      var next := RecordOutcome(runs[0].score, highScore, runs[0].training).highScore;
      HighScoreIsBestArcadeScore(next, runs[1..]);
    }
  }

  /** The best score never decreases over a series of runs, and training runs never move it. */
  lemma {:induction false} HighScoreMonotone(highScore: nat, runs: seq<Run>)
    ensures HighScoreAfter(highScore, runs) >= highScore
    ensures (forall i :: 0 <= i < |runs| ==> runs[i].training) ==> HighScoreAfter(highScore, runs) == highScore
    decreases |runs|
  {
    if runs != [] {
      var next := RecordOutcome(runs[0].score, highScore, runs[0].training).highScore;
      HighScoreMonotone(next, runs[1..]);
      if forall i :: 0 <= i < |runs| ==> runs[i].training {
        assert runs[0].training;
        assert forall i :: 0 <= i < |runs[1..]| ==> runs[1..][i] == runs[i + 1];
      }
    }
  }

  /**
   * The HUD draws the running score highlighted while an arcade run beats an existing positive
   * best score: exactly when ending the run now would set a new record over a positive one.
   */
  predicate BeatingRecord(score: nat, highScore: nat, isTrainingMode: bool)
    ensures BeatingRecord(score, highScore, isTrainingMode) <==> RecordOutcome(score, highScore, isTrainingMode).newRecord && highScore > 0
  {
    score > highScore && highScore > 0 && !isTrainingMode
  }

  /** The first arcade record, set over a best score of 0, is never highlighted while it is being made. */
  lemma FirstRecordNotHighlighted(score: nat)
    requires score > 0
    ensures RecordOutcome(score, 0, false).newRecord
    ensures !BeatingRecord(score, 0, false)
  {
  }
}
