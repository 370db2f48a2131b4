/** Sample sessions: what a caller can conclude from the handlers' contracts alone. */
module Scenarios {
  import opened Types
  import opened AppState

  /** An arcade record, then a better training run that does not count, then a rejected training start. */
  method RecordThenTraining() {
    var app := new App();
    app.StartArcadeGame();
    assert app.gameState == Playing && !app.isTrainingMode;
    app.OnScoreUpdate(120);
    var isRecord := app.HandleGameOver(120);
    assert isRecord && app.highScore == 120 && app.finalScore == 120;

    app.GoToTrainingMenu();
    app.StartTrainingGame();
    assert app.isTrainingMode && app.gameState == Playing && !app.newRecord;
    isRecord := app.HandleGameOver(500);
    assert !isRecord && app.highScore == 120 && app.finalScore == 500;

    app.GoToTrainingMenu();
    app.ToggleTrainingObstacle(Normal);
    assert app.trainingConfig == [];
    var before := app.View();
    app.StartTrainingGame();
    assert app.View() == before;

    app.ToggleTrainingObstacle(Pulsing);
    app.ToggleTrainingObstacle(Chaser);
    assert app.trainingConfig == [Pulsing, Chaser];
    app.Retry();
    assert app.isTrainingMode && app.gameState == Playing && app.highScore == 120;
  }
}
