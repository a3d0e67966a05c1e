# Mental Refocus Game — a Dafny model of the stage state machine

The game component `ADHDRefocusGame` runs ten stages. In each stage, shapes in
colours flash at a rate that rises with the stage. When the stage's minute is
up, the player clicks the shapes back in order. Every position recalled
correctly earns ten points. After each scored stage the player may enter a name
for an in-memory top-five leaderboard. Then either the Next Stage button or, at
stage 10, Game Over is shown.

The model covers the component's state logic in Dafny:

- `wrappers.dfy` (`Wrappers`): the `Option` type for the name prompt's answer. `None` stands for `null`.
- `items.dfy` (`Items`): the shape and colour enumerations, the `{shape, color}` item, and `getRandomElement` with the `Math.random()` result as an argument.
- `schedule.dfy` (`Schedule`): the tick interval in both copies' forms, and the effect's stage cap.
- `scoring.dfy` (`Scoring`): the `filter` that finds the recalled positions, the points and the new score. An index-set definition of the count serves as the reference.
- `leaderboard.dfy` (`Leaderboard`): append, stable sort by descending score, keep five.
- `screens.dfy` (`Screens`): the render conditions. They decide when the recall buttons, the results, Next Stage and Game Over appear, and so which handlers can be called.
- `session.dfy` (`Session`): the class `GameSession`, described below.

`GameSession` holds the component's `useState` variables as fields. It adds
three fields for the running effect: its `flashes` buffer, its interval, and
whether its timers are armed. Its methods are:

- `StartStage`: the effect on `[stage, muted]`. It cleans up the previous run, then runs the effect body.
- `Tick`: the interval callback.
- `Timeout`: the 60-second timeout.
- `Guess`: `handleUserGuess`.
- `ScoreStage`: the scoring part of `renderResults`.
- `NextStage`: `handleNextStage`, followed by the effect it triggers.
- `ToggleMute`: the mute button, followed by the effect it triggers.

`Valid()` is the invariant that every method keeps. It says:

- Armed timers exist only during a flashing phase, so no stale tick can reach a later stage's buffer.
- The stage lies in 1..10.
- Every item and every guess comes from the enumerations.
- The score is a multiple of ten.
- The leaderboard is sorted and holds at most five named entries, none above the score.

The repository holds the component twice. `src/App.jsx` is the copy that
`src/index.js` mounts. `App.jsx` at the root is a near-line-for-line duplicate.
Their state logic is the same, and the model describes both. The two places
where they differ get a member for each copy and a lemma relating them:

- The interval: an `if` clamp in one copy, `Math.max` in the other (`Schedule.CopiesAgree`).
- The panel condition: the duplicate shows "Get ready..." while flashing (`Screens.PanelsAgree`).

This table maps the operations between the two copies:

| operation | src/App.jsx | App.jsx |
|---|---|---|
| shapes, colours, `getRandomElement` | 5-10 | 6-11 |
| effect: stage cap and interval | 76-78 | 78-79 |
| effect: start flashing, tick | 80-90 | 80-91 |
| effect: timeout, cleanup | 92-103 | 93-104 |
| `handleUserGuess` | 105-110 | 106-111 |
| `handleNextStage` | 112-116 | 113-117 |
| scoring and leaderboard | 119-133 | 120-134 |
| Next Stage / Game Over | 141-158 | 142-159 |
| recall and results conditions | 178-199 | 193-208 |
| mute button | 171 | 185 |

Four behaviours of the code that are easy to misread:

- Guesses are not capped at the number of flashes. The guess buttons stay on screen beside the results, and `Guess` appends whenever the game is not flashing.
- Nothing makes scoring run once per stage. After `ScoreStage` the results condition still holds.
- Toggling mute is not only about sound. `muted` is a dependency of the effect, so the current stage starts flashing again with an empty buffer. The old history and guesses are kept (`ToggleMute`).
- At stage 10 the interval is 750 ms, not 500 ms. The 500 ms floor only applies from stage 11, and stage 11 is never played (`Schedule.FloorBindsAfterLastStage`).

## Model

| member | source | states |
|---|---|---|
| Items.RandomElement | src/App.jsx:8-10 | `arr[floor(roll * len)]` is always an element of the array, for every roll in [0, 1) |
| Items.RandomElementPicks | src/App.jsx:8-10 | a roll picks index `i` exactly when `roll * len` lies in [i, i + 1) |
| Items.Draw | src/App.jsx:84-86 | a tick's item has its shape from `shapes` and its colour from `colors` |
| Schedule.Interval | src/App.jsx:77-78 | the interval is at least 500 and at least `3000 - (stage-1)*250`, equals one of the two (so it is their maximum), and is at most 3000 from stage 1 on |
| Schedule.FlashingRate | src/App.jsx:76-78 | the effect starts no flashing phase exactly when stage > 10; otherwise it ticks at the stage's interval, between 750 and 3000 ms |
| Schedule.IntervalMax | App.jsx:79 | `Math.max(500, 3000 - (stage-1)*250)` is at least both of its arguments |
| Schedule.CopiesAgree | App.jsx:78-79 | the duplicate's `Math.max` form gives the same interval as the mounted copy's clamp, on every stage |
| Schedule.IntervalNonIncreasing | src/App.jsx:77-78 | a later stage never ticks more slowly |
| Schedule.FloorUnreachedInPlay | src/App.jsx:76-78 | on stages 1 to 10 the interval is the unclamped value, between 750 and 3000, and 750 only at stage 10 |
| Schedule.FloorBindsAfterLastStage | src/App.jsx:76-78 | the 500 ms floor applies exactly from stage 11 on |
| Scoring.Matched | src/App.jsx:119 | the filtered items number at most one per flash and at most one per guess, and are all taken from the history |
| Scoring.CorrectCountsMatchIndices | src/App.jsx:119 | `correct.length` is the number of indices `i` with `flashHistory[i].shape === selections[i]` |
| Scoring.Points | src/App.jsx:120 | the points are a multiple of ten and at most ten per flash |
| Scoring.NewScore | src/App.jsx:121 | the new score is the old one plus ten per recalled index, so it never decreases and rises by at most ten per flash |
| Scoring.ColorIgnored | src/App.jsx:119 | two histories with the same shapes score alike, whatever their colours |
| Scoring.PerfectRecall | src/App.jsx:119-120 | guessing every flashed shape in order recalls every position |
| Scoring.CorrectBoundedByBoth | src/App.jsx:119 | 0 <= correct <= number of flashes, and correct <= number of guesses |
| Scoring.TwoOfThree | App.jsx:120-122 | circle, square, star against circle, triangle, star recalls 2 and earns 20 points |
| Leaderboard.InsertAfterTiesShape | src/App.jsx:130 | one step of the stable sort puts the new entry right after the leading entries scoring at least as much, and keeps the others in order |
| Leaderboard.InsertAfterTiesAdds | src/App.jsx:129-130 | that step adds exactly the new entry, as a multiset |
| Leaderboard.InsertAfterTiesSorted | src/App.jsx:130 | that step keeps a board sorted by descending score |
| Leaderboard.SortDesc | src/App.jsx:130 | `sort((a, b) => b.score - a.score)` returns a permutation of its input, sorted by descending score |
| Leaderboard.SortDescOfSorted | src/App.jsx:130 | the sort leaves an already sorted board exactly as it is |
| Leaderboard.Take | src/App.jsx:131 | `slice(0, n)` is the prefix of length min(len, n) |
| Leaderboard.Update | src/App.jsx:127-133 | a null or empty name leaves the leaderboard unchanged; with a name, the board has min(old length + 1, 5) entries, sorted by descending score |
| Leaderboard.UpdateSubMultiset | src/App.jsx:129-131 | with a name, the new board is a sub-multiset of the old board plus the new entry: nothing is invented or duplicated |
| Leaderboard.UpdateNamed | src/App.jsx:128-132 | with a name, every entry of the new board is an old entry or the new one |
| Leaderboard.UpdateKeepsWellKept | App.jsx:127-133 | a score no lower than every recorded score keeps the board at most five named, sorted entries, none above the new score |
| Leaderboard.UpdateSortedBoard | src/App.jsx:128-132 | on a sorted board, the update inserts the new entry after its ties and keeps the first five |
| Leaderboard.NewEntryPlace | src/App.jsx:128-132 | on a sorted board, the new entry lands at the place equal to the number of entries scoring at least as much, if that place is below 5; otherwise it is dropped, a tie with fifth place included, and the first five old entries remain |
| Leaderboard.UpdateKeepsBest | src/App.jsx:130-131 | the kept entries are the front of the sorted list, and none of them scores below an entry cut off |
| Screens.MountedScreen | src/App.jsx:178-199 | the flasher shows exactly while flashing; recall exactly when not flashing with a non-empty history; results exactly when, in addition, there are as many guesses as flashes; Next Stage exactly when, in addition, stage < 10 (src/App.jsx:141-158) |
| Screens.PanelsAgree | App.jsx:193-211 | the duplicate's panel shows recall, results, Next Stage and Game Over under the same conditions as the mounted copy, and "Get ready..." while flashing |
| Session.GameSession.constructor | src/App.jsx:65-103 | the `useState` initial values (lines 65-72): stage 1, score 0, no history, guesses or leaderboard; then the mount effect (lines 75-103) runs and stage 1 flashes every 3000 ms from an empty buffer |
| Session.GameSession.StartStage | src/App.jsx:75-103 | the effect cancels the old timers, sets `isFlashing`, starts an empty buffer and arms the timers at the stage's unclamped interval; the stage, history, guesses, score and leaderboard are untouched; the invariant is kept |
| Session.GameSession.Tick | src/App.jsx:83-90 | a tick, possible only while the timers are armed, appends exactly one item from `shapes` x `colors` to the buffer, leaves earlier items unchanged and shows that item |
| Session.GameSession.Timeout | src/App.jsx:92-97 | the timeout publishes exactly the buffer as `flashHistory`, clears `isFlashing` and disarms the timers; the screen then shows recall or results if anything flashed, and "Get ready..." otherwise |
| Session.GameSession.Guess | src/App.jsx:105-110 | a guess while flashing leaves the guesses unchanged; otherwise the shape is appended at the end with the earlier guesses unchanged, with no cap at the number of flashes |
| Session.GameSession.ScoreStage | src/App.jsx:118-133 | when results are shown: correct is the number of recalled indices and at most the number of flashes, points = 10 x correct, the score rises by the points, the leaderboard is the update with the prompted name, and the results condition still holds afterwards |
| Session.GameSession.NextStage | src/App.jsx:112-116 | reachable only from results below stage 10: guesses and history are emptied, the stage rises by exactly one, the score and leaderboard are kept, and flashing restarts at a strictly shorter interval |
| Session.GameSession.ToggleMute | src/App.jsx:171 | flips `muted` and, through the effect's dependency, restarts flashing at the same stage with an empty buffer |
| Session.PlayLastStage | App.jsx:142-159 | at stage 10, one flash recalled correctly earns ten points and the results end in Game Over, with no Next Stage |

## Left out

- Rendering and animation are left out because they only present state: `ShapeFlasher`, `TopographicBackground`, the JSX layout, framer-motion and `AnimatePresence`. Only the render conditions that gate handlers and scoring are modelled.
- `playSound`, `confetti()` and the `muted` check before each sound are left out. They are fire-and-forget browser side effects that no state depends on.
- Real time is left out: `setInterval`, `setTimeout` and the 60 000 ms duration. Ticks and the timeout are explicit calls, so the number of ticks per stage is not determined. Timer cancellation is modelled by the `timersLive` field.
- `Math.random()` values are arguments. The product `roll * arr.length` is computed on exact reals, not in floating point.
- `prompt(...)` is an argument of `ScoreStage`: `None` for `null`, or the string typed.
- The Play Again button's `window.location.reload()` is left out. It restarts the page, which is outside the component.
- `src/index.js` is left out. It only creates the root and renders the component.
- Session.GameSession.ScoreStage: runs the scoring once, as one explicit step. In the source, `renderResults` runs during render and calls `setScore`, and `setLeaderboard` too when a name is given. A state update during render makes React render again at once, so the prompt, the score update and the insert repeat on every re-render while the results condition holds, until React stops at its re-render limit with an error. That repetition is not modelled. The contract states only that the triggering condition stays true.
- Session.GameSession.NextStage: runs the effect right after the handler's state updates. The single render between them is not modelled. In that render the game is not flashing and has no history, so no guess button exists.
- Session.GameSession.StartStage: the `stage > 10` early return exists in the code but cannot be reached. Every reachable state has stage <= 10, so the method's contract covers only the flashing branch. `Schedule.FlashingRate` states the cap itself.
- Stale timer callbacks, and the `flashHistory` array shared with the buffer, are not modelled. Both timers are cancelled on every cleanup and the buffer is not pushed to after the timeout, so neither can have an effect.
