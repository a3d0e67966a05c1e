/**
 * The tick interval of the flashing phase. Each copy of the component computes
 * it in its own way: the mounted copy subtracts and then raises the result to
 * the floor (src/App.jsx:77-78), the duplicate takes `Math.max` (App.jsx:79).
 */
module Schedule {
  import opened Wrappers

  /** Milliseconds between ticks never fall below this floor. */
  const FloorMs := 500
  /** The interval of stage 1. */
  const StartMs := 3000
  /** How much faster each further stage ticks. */
  const StepMs := 250
  /** The last stage; the effect starts no flashing phase beyond it. */
  const LastStage := 10

  /** The interval before clamping. */
  function Unclamped(stage: int): int {
    StartMs - (stage - 1) * StepMs
  }

  /** The mounted copy: `interval = 3000 - (stage-1)*250; if (interval < 500) interval = 500`. */
  function Interval(stage: int): (ms: int)
    ensures ms >= FloorMs && ms >= Unclamped(stage)
    ensures ms == FloorMs || ms == Unclamped(stage)
    ensures stage >= 1 ==> ms <= StartMs
  {
    var interval := Unclamped(stage);
    if interval < FloorMs then FloorMs else interval
  }

  /**
   * The effect's decision for a stage: `if (stage > 10) return;` starts nothing,
   * any other stage flashes at its interval.
   */
  function FlashingRate(stage: int): (rate: Option<int>)
    ensures rate.None? <==> stage > LastStage
    ensures rate.Some? ==> rate.value == Interval(stage)
    ensures rate.Some? && stage >= 1 ==> 750 <= rate.value <= StartMs
  {
    if stage > LastStage then None
    else
      var interval := Interval(stage);
      assert stage >= 1 ==> interval == Unclamped(stage);
      Some(interval)
  }

  function Max(a: int, b: int): (m: int)
    ensures m >= a && m >= b && (m == a || m == b)
  {
    if a >= b then a else b
  }

  /** The duplicate copy: `Math.max(500, 3000 - (stage-1)*250)`. */
  function IntervalMax(stage: int): (ms: int)
    ensures ms >= FloorMs && ms >= Unclamped(stage)
  {
    Max(FloorMs, Unclamped(stage))
  }

  /** Both copies tick at the same rate on every stage. */
  lemma CopiesAgree(stage: int)
    ensures Interval(stage) == IntervalMax(stage)
  {
  }

  /** Later stages never tick more slowly. */
  lemma IntervalNonIncreasing(s: int, t: int)
    requires s <= t
    ensures Interval(t) <= Interval(s)
  {
  }

  /**
   * On the stages that are played, 1 to 10, the floor never binds: the interval
   * is the unclamped value, and the fastest is 750 ms at stage 10.
   */
  lemma FloorUnreachedInPlay(stage: int)
    requires 1 <= stage <= LastStage
    ensures Interval(stage) == Unclamped(stage)
    ensures 750 <= Interval(stage) <= StartMs
    ensures Interval(stage) == 750 <==> stage == LastStage
  {
  }

  /** The floor binds only from stage 11 on, which is never played. */
  lemma FloorBindsAfterLastStage(stage: int)
    ensures Interval(stage) == FloorMs <==> stage >= 11
  {
  }
}
