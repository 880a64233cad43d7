# Bunny Click — a Dafny model of the session bookkeeping

Bunny Click is a browser tapping game. A player taps as fast as possible for
a fixed time, alone or against a second local player. The game shows a score
and a live taps-per-second (TPS) figure. This project models the game's
bookkeeping in Dafny and proves properties of it. The bookkeeping lives in
three places:

* **The session engine** (`src/services/GameEngine.js`), module `Engine`.
  It holds the module-level `GameState` record and the `GameEngine` object.
  Both are modelled as one class, `Engine.GameEngine`. It starts, pauses,
  resumes, exits and resets sessions. It counts taps per participant. It
  keeps a one-second sliding window of tap times, from which a timer samples
  the TPS. It also keeps a registry of named listeners. `Date.now()` is a
  parameter `now` in milliseconds. Each `setInterval` callback is a tick
  method (`CountdownTick`, `UpdateTick`, `TpsTick`). Every emitted event is
  appended to a ghost `trace`.
* **The page controller** (`src/main.js`, class `BunnyClickGame`), modules
  `Encouragement` and `Controller`. This is the game the page actually runs.
  It keeps one tap-time list per participant and recomputes that
  participant's TPS on every tap, with an *inclusive* window boundary. It
  counts a fixed 30-second game down and fills in the result view when time
  runs out. A tap reads the clock twice, once for the time it records and
  once for the end of the window; the model keeps the two readings apart as
  `tapTime` and `now`. It shows an encouragement message picked from a table of 30
  tap-rate bands.
* **The score board's styling rules**
  (`src/components/ScoreBoard/ScoreBoard.js`), module `ScoreBoard`. These
  are total functions from a TPS value, a level or a time to the CSS class it
  earns, applied to a set of class names.

Module `Common` holds the participant keys (`single`, `player1`, `player2`),
the modes, and `PerKey`, the three-entry record type the source's score, TPS
and click-list objects all share.

Five behaviours of the code are worth knowing:

* The engine's `handleClick` does not recompute the TPS when a tap arrives.
  Only the 100 ms timers do. A click event therefore reports the TPS of the
  last recomputation (`GameEngine.HandleClick`).
* Starting a session while one is playing silently resets it. There is no
  guard (`GameEngine.StartSinglePlayer`, `GameEngine.StartDualPlayer`).
* Pausing keeps the tap window, and resuming does not clear it.
* Exiting a *paused* session emits no `game:ended`, because `pause` has
  already cleared `isPlaying` (`Engine.PauseThenExit`).
* The controller's `startTimer` installs a new countdown interval without
  clearing one that is already installed. The model counts the installed
  intervals (`liveIntervals`). `BunnyClickGame.StartGame` states that the
  count grows by one on every start. It also states that a start from an
  idle, steady controller leaves exactly one interval installed.

## Model

| member | source | states |
|---|---|---|
| Common.ParseKey | src/services/GameEngine.js:222-226 | only `single`, `player1` and `player2` name a participant; a parsed key's name is the string given, and any other string parses to nothing |
| Common.ParseKeyName | src/services/GameEngine.js:222-226 | each participant's name parses back to that participant |
| Engine.TpsLevel | src/services/GameEngine.js:351-355 | the effect level is always in [1, 10]; for a whole-number TPS it is `min(10, 2*tps + 1)`; it is 10 exactly from 5 TPS on, and odd exactly below that |
| Engine.TpsLevelMonotone | src/services/GameEngine.js:351-355 | a higher TPS never gives a lower level |
| Engine.After | src/services/GameEngine.js:332-337 | the pruned window is no longer than the old list, and every kept time is strictly newer than the cutoff |
| Engine.AfterIsSubseq | src/services/GameEngine.js:337 | the pruned window is an order-preserving sub-list of the old list |
| Engine.AfterCounts | src/services/GameEngine.js:337 | every occurrence of a time newer than the cutoff is kept, and no occurrence of any other time |
| Engine.AfterAppend | src/services/GameEngine.js:219 | a tap recorded after the last pruning enters the window exactly when it is newer than the cutoff |
| Engine.AfterTwice | src/services/GameEngine.js:332-346 | pruning twice equals pruning once against the later cutoff, so repeated recomputation at one instant is idempotent |
| Engine.AfterAllStale | src/services/GameEngine.js:332-340 | once every recorded tap is a full window old, the window is empty and the TPS is 0 |
| Engine.AfterOfSortedIsSuffix | src/services/GameEngine.js:332-340 | for timestamps recorded in time order, the window is a suffix of the list |
| Engine.Credit | src/services/GameEngine.js:221-226 | a tap adds exactly one to the score whose name it carries and leaves the other two alone; an unknown name changes no score |
| Engine.CreditAllCounts | src/services/GameEngine.js:221-226 | after any interleaving of taps, each score equals its starting value plus the number of taps naming it |
| Engine.CreditTotal | src/services/GameEngine.js:221-229 | a tap raises the total score by one exactly when it names a participant |
| Engine.ReportedScore | src/services/GameEngine.js:250-255 | a click event carries the new score of the named participant, and no score for an unknown name |
| Engine.IndexOf | src/services/GameEngine.js:482 | returns the first index holding the callback, or -1 exactly when it is absent |
| Engine.RemoveFirstAt | src/services/GameEngine.js:482-485 | splicing at the first occurrence removes that one entry and keeps the rest in order |
| Engine.RemoveFirstAbsent | src/services/GameEngine.js:479-487 | removing an unregistered callback changes nothing |
| Engine.RemoveFirstMultiset | src/services/GameEngine.js:479-487 | `off` removes exactly one registration of the callback, if it has one |
| Engine.RemoveFirstAfterAppend | src/services/GameEngine.js:469-487 | `off` right after `on` of a new callback restores the list |
| Engine.Registered | src/services/GameEngine.js:469-474 | `on` appends the callback to its name's list, creates the list for a new name, and leaves the other names alone |
| Engine.GameEngine.constructor | src/services/GameEngine.js:13-39 | the engine starts idle, with default settings, zero scores and statistics, a 30-second clock, no taps and no listeners |
| Engine.GameEngine.GetState | src/services/GameEngine.js:492-498 | the snapshot copies the session record and adds the current TPS and its level, which lies in [1, 10] |
| Engine.GameEngine.ResetGame | src/services/GameEngine.js:261-275 | zero scores, a full clock, not playing, not started, an empty window and TPS 0; mode, settings, statistics and listeners unchanged; `game:reset` emitted |
| Engine.GameEngine.ClearAllTimers | src/services/GameEngine.js:446-450 | the countdown and update intervals are removed |
| Engine.GameEngine.Start | src/services/GameEngine.js:115-152 | everything `ResetGame` does, then playing and started in the given mode with a full clock and both session timers installed; emits `game:reset` then `game:started` |
| Engine.GameEngine.StartSinglePlayer | src/services/GameEngine.js:115-131 | as `Start`, in single mode |
| Engine.GameEngine.StartDualPlayer | src/services/GameEngine.js:136-152 | as `Start`, in dual mode |
| Engine.GameEngine.ExitGame | src/services/GameEngine.js:157-183 | always leaves the session not playing and not started and emits `game:exited`; emits `game:ended` with the scores and TPS first only if it was playing; scores, clock and window unchanged |
| Engine.GameEngine.Pause | src/services/GameEngine.js:188-195 | a playing session stops, keeps `hasStarted` and emits `game:paused`; otherwise nothing changes; scores, clock and window are never touched |
| Engine.GameEngine.Resume | src/services/GameEngine.js:200-208 | acts only when started and not playing: playing again, with timers, and emits `game:resumed`; scores, clock and window are never touched |
| Engine.GameEngine.HandleClick | src/services/GameEngine.js:213-256 | changes nothing unless playing; otherwise appends exactly one tap time, credits the named participant, adds one to `totalClicks`, and emits a click event with the previous TPS |
| Engine.GameEngine.UpdateTPS | src/services/GameEngine.js:332-346 | the window becomes the old list pruned at `now - 1000`, the TPS is its length, and the best TPS becomes the larger of the old best and the new TPS, so it never decreases |
| Engine.GameEngine.CountdownTick | src/services/GameEngine.js:283-294 | when playing with time left, the clock drops by exactly one and a tick is emitted, and at zero the session exits with `game:ended` and `game:exited`; otherwise nothing changes; the clock never goes below zero |
| Engine.GameEngine.UpdateTick | src/services/GameEngine.js:303-315 | while playing, the TPS is recomputed and an update with the scores, clock and TPS is emitted; only `highestTPS` among the statistics can change; otherwise nothing changes |
| Engine.GameEngine.TpsTick | src/services/GameEngine.js:324-326 | the TPS is recomputed whether or not a session is playing; only `highestTPS` among the statistics can change, and the session itself is untouched |
| Engine.GameEngine.On | src/services/GameEngine.js:469-474 | the registry becomes `Registered(old, name, callback)` |
| Engine.GameEngine.Off | src/services/GameEngine.js:479-487 | the name's list loses its first registration of the callback; an unknown name or an absent callback changes nothing |
| Engine.ExitTwice | src/services/GameEngine.js:157-183 | two exits in a row emit at most one `game:ended` and leave the scores unchanged |
| Engine.PauseThenExit | src/services/GameEngine.js:157-195 | exiting a paused session emits `game:paused` then only `game:exited`, with no `game:ended` |
| Encouragement.TableShape | src/main.js:14-56 | 30 bands; the first starts at 1; each ends where the next begins and starts below its end; only the last is open-ended |
| Encouragement.BandsOrdered | src/main.js:14-56 | a band ends no later than any later band begins |
| Encouragement.MatchUnique | src/main.js:14-56 | at most one band matches a rate |
| Encouragement.MatchExists | src/main.js:14-56 | every rate of at least 1 matches exactly one band |
| Encouragement.NoMatchBelowOne | src/main.js:14-56 | a rate below 1, zero included, matches no band |
| Encouragement.FirstMatchFrom | src/main.js:60-64 | finds the first matching band at or after an index, or none when no later band matches |
| Encouragement.MessageOfBand | src/main.js:59-66 | a rate inside a band gets that band's message |
| Encouragement.MessageBelowOne | src/main.js:59-66 | a rate below 1 gets the last band's message |
| Encouragement.GetEncouragementMessage | src/main.js:59-66 | the scan returns the first matching band's message, or the last entry's when none matches |
| Controller.SideKey | src/main.js:414-415 | zone 1 maps to `player1` and zone 2 to `player2`, never to `single` |
| Controller.Within | src/main.js:438 | the pruned list is no longer than the old one, and every kept tap is at most 1000 ms old |
| Controller.WithinIsShiftedAfter | src/main.js:438 | the page's inclusive window equals the engine's strict window with the cutoff one millisecond earlier |
| Controller.WindowsDisagreeAtBoundary | src/main.js:438 | a tap exactly 1000 ms old is counted by the page and dropped by the engine |
| Controller.WithinAppend | src/main.js:433-441 | a tap recorded after the others is counted exactly when it is at most 1000 ms older than the window's end, and the earlier taps are counted as before |
| Controller.Winner | src/main.js:639-665 | player 1 wins exactly when ahead, player 2 wins exactly when ahead, and a tie exactly when level |
| Controller.WinnerSymmetric | src/main.js:639-665 | swapping the players swaps the verdict |
| Controller.MaxTps | src/main.js:595 | the single-player result TPS is one of the three TPS values and at least each of them |
| Controller.ResultsOf | src/main.js:565-634 | single mode shows the single score and the best TPS; dual mode shows both scores, both TPS values and the verdict |
| Controller.BunnyClickGame.constructor | src/main.js:72-106 | no game, single mode, 30 seconds, zero scores and TPS, no taps, one interval count of zero |
| Controller.BunnyClickGame.ResetGameStats | src/main.js:323-343 | zero scores, zero TPS, empty tap lists |
| Controller.BunnyClickGame.StartTimer | src/main.js:348-359 | one more interval installed, and its handle held |
| Controller.BunnyClickGame.StartGame | src/main.js:249-267 | the given mode, active, 30 seconds, everything zeroed, one more interval; from a steady idle controller exactly one interval is installed |
| Controller.BunnyClickGame.PlayAgain | src/main.js:670-673 | restarts in the current mode, with the start prompt shown in single mode |
| Controller.BunnyClickGame.ClearTimer | src/main.js:534-537 | the held interval, if any, is cleared |
| Controller.BunnyClickGame.EndGame | src/main.js:529-541 | inactive, the held interval cleared, and the result view filled from the final scores and TPS |
| Controller.BunnyClickGame.ExitGame | src/main.js:686-697 | inactive and the held interval cleared; scores and results unchanged |
| Controller.BunnyClickGame.TimerTick | src/main.js:351-358 | the clock drops by exactly one, and the game ends once it is at or below zero; while time remains, the interval count, the handle and the encouragement line are unchanged; at the end only the held interval is cleared; in steady play the clock stays in [0, 30] and reads zero exactly when the game is over |
| Controller.BunnyClickGame.CalculateTPS | src/main.js:433-476 | that key's list is pruned to the last 1000 ms inclusive, its TPS is the count, the other keys are unchanged, and for `single` the encouragement shows the matching message |
| Controller.BunnyClickGame.Tap | src/main.js:388-392 | one point and one recorded tap for that key; its window is pruned at the second clock reading, and its TPS is at least one when the two readings are at most 1000 ms apart; other keys unchanged |
| Controller.BunnyClickGame.HandleSingleClick | src/main.js:383-399 | nothing unless active; otherwise `single` gains exactly one point and one tap, its TPS is recomputed and is at least 1 when the two clock readings are at most 1000 ms apart, and its encouragement is updated |
| Controller.BunnyClickGame.HandleDualClick | src/main.js:404-428 | nothing unless active and a zone was hit; otherwise only that zone's player gains a point and a tap, and its recomputed TPS is at least 1 when the two clock readings are at most 1000 ms apart |
| Controller.PlayOut | src/main.js:348-359 | from an idle steady controller, 30 countdown firings end the game at zero with no interval left and the result view filled |
| ScoreBoard.TpsStyleOf | src/components/ScoreBoard/ScoreBoard.js:238-246 | extreme from 20, high in [10, 20), medium in [5, 10), low in (0, 5), and no class for 0 or less |
| ScoreBoard.TpsStyleMonotone | src/components/ScoreBoard/ScoreBoard.js:238-246 | a faster rate never earns a lower class |
| ScoreBoard.ApplyTpsStyle | src/components/ScoreBoard/ScoreBoard.js:232-247 | the other classes are kept; the TPS classes left are exactly the earned one, so at most one |
| ScoreBoard.LevelStyleOf | src/components/ScoreBoard/ScoreBoard.js:258-266 | max from 10, high in [7, 10), medium in [4, 7), and low below 4 |
| ScoreBoard.ApplyLevelStyle | src/components/ScoreBoard/ScoreBoard.js:252-267 | exactly one level class remains, the earned one, and the other classes are kept |
| ScoreBoard.LevelStyleOfRate | src/components/ScoreBoard/ScoreBoard.js:252-267 | the engine's level for a TPS is styled low up to 1 TPS, medium at 2, high at 3 or 4, and max from 5 |
| ScoreBoard.ApplyTime | src/components/ScoreBoard/ScoreBoard.js:192-203 | `time-warning` is present exactly when `timeLeft <= 10`; the other classes are kept |
| ScoreBoard.FinalHighlight | src/components/ScoreBoard/ScoreBoard.js:294-311 | single mode marks only `final-score`; in dual mode the strictly larger score gets `winner`, and equal scores get `tie` on both; no other class is added |
| ScoreBoard.DualHighlightExclusive | src/components/ScoreBoard/ScoreBoard.js:297-307 | in dual mode exactly one of: player 1 wins, player 2 wins, or both tie |
| ScoreBoard.UpdateScores | src/components/ScoreBoard/ScoreBoard.js:175-187 | a display is overwritten exactly when the given object has its key |
| ScoreBoard.ClickUpdate | src/components/ScoreBoard/ScoreBoard.js:153-157 | a click event's object holds only the clicking participant's key, or no key for an unknown name |
| ScoreBoard.ClickUpdatesOneDisplay | src/components/ScoreBoard/ScoreBoard.js:153-187 | a click event leaves the other participants' displays unchanged |
| ScoreBoard.FullUpdateShowsScores | src/components/ScoreBoard/ScoreBoard.js:135-187 | an update carrying all three scores makes the displays equal them, and repeating it changes nothing |

## Left out

- DOM work: element lookup, `style`, `textContent` (apart from the encouragement line and the result view), `aria-hidden`, screen and modal switching, and `addClickEffect`.
- Whole files: `src/components/ControlPanel/ControlPanel.js` (button wiring) and `src/components/GameBoard/GameBoard.js` (click geometry in floating point) are not part of this model.
- Real timers and clocks: `setInterval`, `setTimeout` and `Date.now` become tick methods and the clock-reading parameters `now` and `tapTime`. The 3-second highlight removal is not modelled. The 1-second encouragement timeout in `updateEncouragementText` has an empty callback, so it never changes what is shown, and the model leaves it out.
- Listener invocation in `emit`, with its `try`/`catch`: events are recorded in a ghost trace, and callbacks are never run.
- Floating point: `calculateClickVolume`, the vibration intensity, and the one-decimal TPS text in `ScoreBoard.updateTPS`. The model's TPS is always a whole number of taps.
- Engine `init`, `start`, `destroy`, `bindKeyboardEvents`, `loadSettings` and `saveGameResult`: these use asynchronous storage, the keyboard, or run at start-up. Settings therefore stay at their defaults. The `gamesPlayed` and `totalPlayTime` counters that `saveGameResult` updates are not modelled.
- Audio, visual effects, vibration, the PWA files, and the storage service.
- Engine.GameEngine.ExitGame: `statistics` is unchanged. The source's `saveGameResult` raises `gamesPlayed` and `totalPlayTime` only after its asynchronous storage write completes, and storage is not part of this model.
- Engine.GameEngine.GetState: the source's copy is shallow, so its nested `scores`, `settings` and `statistics` objects are shared with the live state. The model returns values and does not capture that aliasing.
- Controller.BunnyClickGame.HandleDualClick: only the two player zones, `data-player` "1" and "2", are modelled. A zone with any other value would make the source throw on `clickCounts[playerKey].push`.
- Controller.BunnyClickGame.TimerTick: requires an installed interval, because a firing only comes from one. With several intervals installed, each firing is one call.
- Controller.BunnyClickGame.constructor: the encouragement line starts as `None`, which stands for the page markup's own text.
