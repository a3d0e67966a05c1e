/**
 * The game component `ADHDRefocusGame` (src/App.jsx:64-116): its React state as
 * the fields of one object, the flashing effect and the event handlers as
 * methods. Timer callbacks, clicks and the name prompt are explicit calls;
 * `Math.random()` results and the prompt's answer are their arguments.
 */
module Session {
  import opened Wrappers
  import opened Items
  import Schedule
  import Scoring
  import Leaderboard
  import Screens

  class GameSession {
    // Component state (`useState`).
    var stage: int
    var currentShape: Option<FlashItem>
    var isFlashing: bool
    var selections: seq<string>
    var flashHistory: seq<FlashItem>
    var score: int
    var leaderboard: seq<Leaderboard.Entry>
    var muted: bool

    // The running effect: the buffer its tick callback pushes into, the period
    // of its interval timer, and whether its two timers are still armed.
    var flashes: seq<FlashItem>
    var tickInterval: int
    var timersLive: bool

    /**
     * What holds in every state the component can reach: armed timers belong
     * to a flashing phase of a played stage, every item and guess comes from
     * the enumerations, the score is a multiple of ten, and the leaderboard is
     * at most five named entries, sorted, none above the current score.
     */
    ghost predicate Valid()
      reads this
    {
      && 1 <= stage <= Schedule.LastStage
      && (timersLive ==> isFlashing)
      && (forall i :: 0 <= i < |flashes| ==> WellFormed(flashes[i]))
      && (forall i :: 0 <= i < |flashHistory| ==> WellFormed(flashHistory[i]))
      && (forall i :: 0 <= i < |selections| ==> selections[i] in Shapes)
      && score >= 0 && score % Scoring.PointsPerMatch == 0
      && Leaderboard.WellKept(leaderboard, score)
    }

    /** What the main panel shows in this state. */
    function View(): Screens.Screen
      reads this
    {
      Screens.MountedScreen(isFlashing, |flashHistory|, |selections|, stage)
    }

    /** The initial `useState` values, then the effect's first run on mount. */
    constructor ()
      ensures Valid()
      ensures stage == 1 && score == 0 && leaderboard == [] && !muted && currentShape == None
      ensures selections == [] && flashHistory == []
      ensures isFlashing && timersLive && flashes == [] && tickInterval == Schedule.StartMs
    {
      stage, currentShape, isFlashing := 1, None, false;
      selections, flashHistory := [], [];
      score, leaderboard, muted := 0, [], false;
      flashes, tickInterval, timersLive := [], 0, false;
      new;
      StartStage();
    }

    /**
     * The effect on `[stage, muted]`: the previous run's cleanup cancels both
     * timers; then, unless the stage is past the last one, a flashing phase
     * starts with an empty buffer and an interval timer at the stage's rate.
     */
    method StartStage()
      requires Valid()
      modifies this`isFlashing, this`flashes, this`tickInterval, this`timersLive
      ensures Valid()
      ensures isFlashing && timersLive && flashes == []
      ensures tickInterval == Schedule.Interval(stage)
      ensures Schedule.Interval(stage) == Schedule.Unclamped(stage)
    {
      timersLive := false;
      var rate := Schedule.FlashingRate(stage);
      if rate.None? {
        return;
      }
      tickInterval := rate.value;
      Schedule.FloorUnreachedInPlay(stage);
      isFlashing := true;
      flashes := [];
      timersLive := true;
    }

    /**
     * The interval callback: draw an item from the two rolls, show it, and push
     * it onto the running effect's buffer.
     */
    method Tick(shapeRoll: real, colorRoll: real) returns (item: FlashItem)
      requires Valid() && timersLive
      requires 0.0 <= shapeRoll < 1.0 && 0.0 <= colorRoll < 1.0
      modifies this`currentShape, this`flashes
      ensures Valid()
      ensures item == Draw(shapeRoll, colorRoll) && WellFormed(item)
      ensures currentShape == Some(item)
      ensures flashes == old(flashes) + [item]
    {
      item := Draw(shapeRoll, colorRoll);
      currentShape := Some(item);
      flashes := flashes + [item];
    }

    /**
     * The 60-second timeout: stop ticking, publish the buffer as the history
     * to recall, and leave the flashing phase.
     */
    method Timeout()
      requires Valid() && timersLive
      modifies this`timersLive, this`flashHistory, this`isFlashing
      ensures Valid()
      ensures !timersLive && !isFlashing
      ensures flashHistory == flashes
      ensures View() == if flashes == [] then Screens.GetReady
                        else if |selections| == |flashes| then Screens.Results(stage < Schedule.LastStage)
                        else Screens.Recall
    {
      timersLive := false;
      flashHistory := flashes;
      isFlashing := false;
    }

    /**
     * `handleUserGuess`: while flashing the guess is ignored; otherwise it is
     * appended. Nothing caps the guesses at the number of flashes.
     */
    method Guess(shape: string)
      requires Valid() && shape in Shapes
      modifies this`selections
      ensures Valid()
      ensures old(isFlashing) ==> selections == old(selections)
      ensures !old(isFlashing) ==> selections == old(selections) + [shape]
    {
      if !isFlashing {
        selections := selections + [shape];
      }
    }

    /**
     * The scoring part of `renderResults`, run once here as one step while the
     * results are on screen: count the recalled positions, add ten points for
     * each to the score, and record the new score under the prompted name. The
     * results stay on screen afterwards: nothing in the step clears the
     * condition under which the source evaluates it.
     */
    method ScoreStage(name: Option<string>) returns (correct: nat, points: nat, newScore: int)
      requires Valid()
      requires !isFlashing && |flashHistory| > 0 && |selections| == |flashHistory|
      modifies this`score, this`leaderboard
      ensures Valid()
      ensures correct == |Scoring.MatchIndices(flashHistory, selections)| && correct <= |flashHistory|
      ensures points == Scoring.PointsPerMatch * correct
      ensures newScore == old(score) + points && score == newScore
      ensures leaderboard == Leaderboard.Update(old(leaderboard), name, newScore)
      ensures View().Results?
    {
      correct := Scoring.Correct(flashHistory, selections);
      Scoring.CorrectCountsMatchIndices(flashHistory, selections);
      points := Scoring.Points(flashHistory, selections);
      newScore := Scoring.NewScore(score, flashHistory, selections);
      var board := Leaderboard.Update(leaderboard, name, newScore);
      assert Leaderboard.WellKept(board, newScore) by {
        Leaderboard.UpdateKeepsWellKept(leaderboard, name, score, newScore);
      }
      score, leaderboard := newScore, board;
    }

    /**
     * `handleNextStage`, reachable only through the Next Stage button: forget
     * the guesses and the history and advance the stage; the effect then
     * restarts flashing for the new stage.
     */
    method NextStage()
      requires Valid()
      requires View() == Screens.Results(true)
      modifies this`selections, this`flashHistory, this`stage,
               this`isFlashing, this`flashes, this`tickInterval, this`timersLive
      ensures Valid()
      ensures stage == old(stage) + 1
      ensures selections == [] && flashHistory == []
      ensures isFlashing && timersLive && flashes == []
      ensures tickInterval == Schedule.Unclamped(stage) && tickInterval < Schedule.Interval(old(stage))
    {
      Schedule.FloorUnreachedInPlay(stage);
      selections := [];
      flashHistory := [];
      stage := stage + 1;
      StartStage();
    }

    /**
     * The mute button. `muted` is one of the effect's dependencies, so the
     * effect restarts: a fresh flashing phase with an empty buffer begins at
     * the same stage, while the history and the guesses are kept.
     */
    method ToggleMute()
      requires Valid()
      modifies this`muted, this`isFlashing, this`flashes, this`tickInterval, this`timersLive
      ensures Valid()
      ensures muted == !old(muted)
      ensures isFlashing && timersLive && flashes == []
      ensures tickInterval == Schedule.Interval(stage)
    {
      muted := !muted;
      StartStage();
    }
  }

  /**
   * A last stage played through: one flash, recalled correctly, is worth ten
   * points, and the results end in Game Over instead of a Next Stage button.
   */
  method PlayLastStage(g: GameSession, shapeRoll: real, colorRoll: real, name: Option<string>)
    requires g.Valid() && g.stage == Schedule.LastStage
    requires g.timersLive && g.flashes == [] && g.selections == []
    requires 0.0 <= shapeRoll < 1.0 && 0.0 <= colorRoll < 1.0
    modifies g
    ensures g.Valid()
    ensures g.score == old(g.score) + Scoring.PointsPerMatch
    ensures g.View() == Screens.Results(false)
  {
    var item := g.Tick(shapeRoll, colorRoll);
    g.Timeout();
    g.Guess(item.shape);
    Scoring.PerfectRecall(g.flashHistory, g.selections);
    var correct, points, total := g.ScoreStage(name);
    Scoring.CorrectCountsMatchIndices(g.flashHistory, g.selections);
  }
}
