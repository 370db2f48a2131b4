/** The application component: its state fields and the handlers that update them. */
module AppState {
  import opened Types
  import Training
  import Records
  import Util

  /** Placeholder shown while the game-over commentary is being fetched. */
  const AnalysingMessage: string := "A IA está analisando seu desempenho..."

  /** Every field of the application state, as one value. */
  datatype Snapshot = Snapshot(
    gameState: GameState,
    score: nat,
    finalScore: nat,
    highScore: nat,
    newRecord: bool,
    isTrainingMode: bool,
    trainingConfig: seq<ObstacleType>,
    aiMessage: string,
    loadingAi: bool)

  class App {
    var gameState: GameState
    var score: nat
    var finalScore: nat
    var highScore: nat
    var newRecord: bool
    var isTrainingMode: bool
    var trainingConfig: seq<ObstacleType>
    var aiMessage: string
    var loadingAi: bool

    function View(): Snapshot
      reads this
    {
      Snapshot(gameState, score, finalScore, highScore, newRecord, isTrainingMode,
               trainingConfig, aiMessage, loadingAi)
    }

    /** A record flag belongs to the arcade run that set it, and the allow-list holds no type twice. */
    ghost predicate Valid()
      reads this
    {
      (newRecord ==> !isTrainingMode && highScore == finalScore) &&
      Training.NoDuplicates(trainingConfig)
    }

    /** The initial state: main menu, arcade mode, nothing scored, NORMAL the only training obstacle. */
    constructor ()
      ensures Valid()
      ensures View() == Snapshot(Menu, 0, 0, 0, false, false, Training.InitialConfig, "", false)
    {
      gameState := Menu;
      score := 0;
      finalScore := 0;
      highScore := 0;
      aiMessage := "";
      loadingAi := false;
      newRecord := false;
      trainingConfig := Training.InitialConfig;
      isTrainingMode := false;
    }

    /** The running score reported by the game canvas. */
    method OnScoreUpdate(s: nat)
      requires Valid()
      modifies this
      ensures Valid()
      ensures View() == old(View()).(score := s)
    {
      score := s;
    }

    /**
     * The synchronous part of game over: store the final score, settle the record and
     * request commentary. isRecord is the flag handed to the commentary service.
     */
    method HandleGameOver(scoreResult: nat) returns (isRecord: bool)
      requires Valid()
      modifies this
      ensures Valid()
      ensures Records.RecordOutcome(scoreResult, old(highScore), old(isTrainingMode))
                == Records.Outcome(isRecord, highScore)
      ensures isRecord == newRecord
      // The next four follow from the RecordOutcome clause above; they spell out the promised properties.
      ensures isRecord <==> !old(isTrainingMode) && scoreResult > old(highScore)
      ensures highScore >= old(highScore)
      ensures old(isTrainingMode) ==> highScore == old(highScore)
      ensures !old(isTrainingMode) ==> highScore == Util.Max(old(highScore), scoreResult)
      ensures View() == old(View()).(finalScore := scoreResult, highScore := highScore, newRecord := isRecord,
                                      loadingAi := true, aiMessage := AnalysingMessage)
    {
      finalScore := scoreResult;
      isRecord := false;
      if !isTrainingMode && scoreResult > highScore {
        highScore := scoreResult;
        isRecord := true;
        newRecord := true;
      } else {
        newRecord := false;
      }
      loadingAi := true;
      aiMessage := AnalysingMessage;
    }

    /** The continuation of game over, once the commentary service has answered. */
    method ReceiveCommentary(commentary: string)
      requires Valid()
      modifies this
      ensures Valid()
      ensures View() == old(View()).(aiMessage := commentary, loadingAi := false)
    {
      aiMessage := commentary;
      loadingAi := false;
    }

    /** Start an arcade run; always succeeds and keeps the best score and the allow-list. */
    method StartArcadeGame()
      requires Valid()
      modifies this
      ensures Valid()
      ensures View() == old(View()).(isTrainingMode := false, gameState := Playing, score := 0,
                                      aiMessage := "", newRecord := false)
    {
      isTrainingMode := false;
      gameState := Playing;
      score := 0;
      aiMessage := "";
      newRecord := false;
    }

    /** Start a training run; with an empty allow-list the call is rejected and nothing changes. */
    method StartTrainingGame()
      requires Valid()
      modifies this
      ensures Valid()
      ensures |old(trainingConfig)| == 0 ==> View() == old(View())
      ensures |old(trainingConfig)| > 0 ==>
                View() == old(View()).(isTrainingMode := true, gameState := Playing, score := 0,
                                        aiMessage := "", newRecord := false)
    {
      if |trainingConfig| == 0 {
        return;
      }
      isTrainingMode := true;
      gameState := Playing;
      score := 0;
      aiMessage := "";
      newRecord := false;
    }

    /** Flip whether obstacle type t is in the training allow-list. */
    method ToggleTrainingObstacle(t: ObstacleType)
      requires Valid()
      modifies this
      ensures Valid()
      ensures View() == old(View()).(trainingConfig := Training.Toggle(old(trainingConfig), t))
    {
      Training.ToggleKeepsNoDuplicates(trainingConfig, t);
      trainingConfig := Training.Toggle(trainingConfig, t);
    }

    method GoToTrainingMenu()
      requires Valid()
      modifies this
      ensures Valid()
      ensures View() == old(View()).(gameState := TrainingMenu)
    {
      gameState := TrainingMenu;
    }

    method GoToMenu()
      requires Valid()
      modifies this
      ensures Valid()
      ensures View() == old(View()).(gameState := Menu)
    {
      gameState := Menu;
    }

    /** The game-over screen's retry button: start again in the mode just played. */
    method Retry()
      requires Valid()
      modifies this
      ensures Valid()
      ensures old(isTrainingMode) && |old(trainingConfig)| == 0 ==> View() == old(View())
      ensures old(isTrainingMode) && |old(trainingConfig)| > 0 ==>
                View() == old(View()).(gameState := Playing, score := 0, aiMessage := "", newRecord := false)
      ensures !old(isTrainingMode) ==>
                View() == old(View()).(gameState := Playing, score := 0, aiMessage := "", newRecord := false)
    {
      if isTrainingMode {
        StartTrainingGame();
      } else {
        StartArcadeGame();
      }
    }
  }
}
