# Rush Arrow: application state model

Rush Arrow is a browser dodging game. The player drags a token to dodge falling obstacles. The top-level
component in `App.tsx` holds the application state: the screen shown (`GameState`), the running and final
score, the best score, the new-record flag, arcade versus training mode, the training allow-list of obstacle
types and the commentary text. It updates that state through a few handlers. This project models those
handlers and their pure helpers, and proves their contracts:

- `types.dfy` — module `Types`: the enums `GameState` and `ObstacleType` as datatypes.
- `util.dfy` — module `Util`: `Max` on naturals.
- `training.dfy` — module `Training`: the allow-list toggle (`prev.filter(...)` or `[...prev, type]`) and
  what it keeps: the order, the counts, the absence of duplicates, and the round trip when the same type is
  toggled twice.
- `hud.dfy` — module `Hud`: `score.toString().padStart(6, '0')` written as `Decimal` plus `PadStart`,
  with `ParseDecimal` (the `parseInt(s, 10)` used on the stored best score) as its inverse.
- `records.dfy` — module `Records`: the decision taken on game over (is this a new record, what is the best
  score now), its effect over any series of runs, and the HUD's "beating the record" highlight.
- `app.dfy` — module `AppState`: class `App`, with one field per piece of state the handlers touch and one
  method per handler. Each method's `ensures` gives the whole new state as the old `View()` with only the
  named fields replaced. Every handler keeps `Valid()`:
  - a set `newRecord` flag always belongs to an arcade run whose score is the best score;
  - the allow-list never holds a type twice.
- `scenarios.dfy` — module `Scenarios`: one sample session, proved only from the methods' contracts.

Scores are `nat`. Each handler is one atomic update of the state. The asynchronous `handleGameOver` is
split at its `await`. `HandleGameOver` covers everything before the await and returns the record flag sent
to the commentary service. `ReceiveCommentary(commentary)` covers the rest, with the service's answer as a
parameter.

The obstacle simulation (spawning, per-type kinematics, collision, particles, the score counter) lives in
`components/GameCanvas`. That file is not part of this model. The component hands the canvas three
callbacks; the model sees it through two of them: `OnScoreUpdate` (`setScore`) and `HandleGameOver`
(`setGameState` is left out, see below).

Two facts about the code shape the model:
- The training allow-list is a list. The toggle appends at the end and removes every copy.
  `Training.ReachableConfigsHaveNoDuplicates` shows that, starting from a duplicate-free list, no sequence
  of toggles ever makes a list with a repeat.
- Starting training with an empty allow-list only shows an alert and returns. `StartTrainingGame` leaves
  the state unchanged in that case.

## Model

| member | source | states |
|---|---|---|
| Training.Without | App.tsx:80 | filtering removes every t, keeps every other type that was present and adds nothing, and never lengthens the list |
| Training.Toggle | App.tsx:77-85 | the toggle flips t's membership and keeps every other type's membership; for an absent t the result is the old list plus t appended at the end |
| Training.WithoutCounts | App.tsx:80 | filtering keeps each other type exactly as many times as it occurred and drops every copy of t |
| Training.WithoutIsSubsequence | App.tsx:80 | the filtered list is a subsequence of the original: the survivors keep their original order |
| Training.TogglePresent | App.tsx:79-80 | toggling a listed type gives the old list with every copy removed, counts of the rest and their order kept |
| Training.ToggleTwiceRestores | App.tsx:77-85 | toggling an unlisted type twice returns exactly the original list |
| Training.ToggleKeepsNoDuplicates | App.tsx:77-85 | a toggle keeps a duplicate-free list duplicate-free |
| Training.ReachableConfigsHaveNoDuplicates | App.tsx:77-85 | any sequence of toggles from a duplicate-free allow-list (such as the initial [NORMAL]) yields a duplicate-free list |
| Hud.Decimal | App.tsx:117 | toString of a non-negative integer: a non-empty string of decimal digits with no leading zero, and exactly "0" for 0 |
| Hud.ParseDecimal | App.tsx:24 | parseInt of a non-empty digit string (the stored value is non-empty by the guard at line 23) yields a value below 10 to the power of its length |
| Hud.DecimalRoundTrip | App.tsx:42 | the best score written with toString is read back unchanged by parseInt (line 24) |
| Hud.DecimalLength | App.tsx:117 | the decimal text of n has exactly as many digits as n needs: 10^(k-1) <= n < 10^k |
| Hud.PadStart | App.tsx:117 | padStart: length is max(target, length), the original string is the suffix, and the prefix is all fill characters |
| Hud.ScoreText | App.tsx:117 | the score read-out has length max(6, digit count), is all decimal digits, ends with the score's decimal text and is left-padded only with '0' |
| Hud.ScoreTextRoundTrip | App.tsx:117 | the zero-padded read-out still denotes the score |
| Hud.ScoreTextFixedWidth | App.tsx:117 | the read-out is exactly six characters wide if and only if the score is below one million (it is never truncated) |
| Records.RecordOutcome | App.tsx:38-47 | a run is a new record iff it is an arcade run that beats the best score; the best score becomes max(old, score) in arcade mode and is untouched in training mode |
| Records.HighScoreIsBestArcadeScore | App.tsx:40-41 | after any series of runs the best score equals the larger of the starting best and the best arcade score; training scores never enter it |
| Records.HighScoreMonotone | App.tsx:38-46 | the best score never decreases over a series of runs, and a series of training runs leaves it untouched |
| Records.BeatingRecord | App.tsx:116 | the HUD highlights the running score exactly when ending the run now would set a new record (arcade mode, score above the best) over a positive best score |
| Records.FirstRecordNotHighlighted | App.tsx:116 | a first record set over a best score of 0 is a new record at game over but is never highlighted during the run |
| AppState.App.constructor | App.tsx:8-19 | initial state: MENU, all scores 0, no record, arcade mode, empty message, not loading, allow-list [NORMAL] |
| AppState.App.OnScoreUpdate | App.tsx:127 | the canvas's score callback sets score and nothing else |
| AppState.App.HandleGameOver | App.tsx:35-50 | finalScore := scoreResult; newRecord and the returned flag are true iff arcade mode and the score beats the best; the best is raised to the score exactly then and never decreases; loading set and placeholder message shown; nothing else changes |
| AppState.App.ReceiveCommentary | App.tsx:52-54 | the commentary replaces the message and loading ends; nothing else changes |
| AppState.App.StartArcadeGame | App.tsx:57-63 | always starts: arcade mode, PLAYING, score 0, empty message, no record; best score, final score and allow-list unchanged |
| AppState.App.StartTrainingGame | App.tsx:65-75 | with an empty allow-list no state changes; otherwise training mode, PLAYING, score 0, empty message, no record, nothing else changed |
| AppState.App.ToggleTrainingObstacle | App.tsx:77-85 | the allow-list becomes its toggle by the given type, nothing else changes, and it stays duplicate-free |
| AppState.App.GoToTrainingMenu | App.tsx:87-89 | the screen becomes TRAINING_MENU, nothing else changes |
| AppState.App.GoToMenu | App.tsx:91-93 | the screen becomes MENU, nothing else changes |
| AppState.App.Retry | App.tsx:240 | retry restarts in the mode just played: as StartTrainingGame in training mode (rejected on an empty list), as StartArcadeGame otherwise |

## Left out

- The obstacle simulation: spawning, kinematics, collision, particles and the score counter. It lives in `components/GameCanvas`, and GameCanvas is not part of this model.
- The `setGameState` callback handed to the canvas (App.tsx:126): the canvas is not part of this model, so its uses of that callback are unknown.
- `localStorage` reads and writes of the best score (App.tsx:22-25, App.tsx:42): persistence I/O. `highScore` is a plain field. Only the toString/parseInt round trip of the stored value is modelled, for digit strings; parseInt's handling of signs, blanks and trailing garbage is not.
- The lore fetch and the `lore` field (App.tsx:15, App.tsx:28-32): an asynchronous network call whose result only fills in display text.
- The commentary service itself (App.tsx:52): a network call. Its answer is a parameter of `ReceiveCommentary`. A reply that arrives after a new run has started still overwrites the message in the model, as it does in the app.
- The `alert` shown on a rejected training start (App.tsx:67), and all JSX markup and styling (App.tsx:95-256), including the training menu's disabled button and highlighted choices: UI only.
- React scheduling and stale closures: each handler is one atomic sequential update.
- Hud.Decimal: scores are unbounded naturals. JavaScript numbers above 2^53 lose precision, and from 10^21 upward toString switches to exponent notation. The model covers neither.
- Hud.PadStart: modelled for a one-character fill string only, which is the only form the app uses.
- `constants.ts` and the `Obstacle`, `Particle` and `Point` shapes (types.ts:17-42): plain data with no behaviour in the modelled code.
