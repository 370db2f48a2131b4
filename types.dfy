/** The two enumerations of the game (types.ts). */
module Types {

  /** The screen the application is showing. */
  datatype GameState = Menu | TrainingMenu | Playing | GameOver

  /** The kinds of falling obstacle; the training menu lets the player pick a subset. */
  datatype ObstacleType = Normal | Sine | Diagonal | Chaser | Zigzag | Pulsing
}
