/**
 * The render conditions that decide what the player sees and which handlers
 * can be reached: the recall buttons, the results with their Next Stage
 * button, and Game Over.
 */
module Screens {
  import Schedule

  /** What the main panel shows. `Results(true)` carries the Next Stage button, `Results(false)` Game Over. */
  datatype Screen = Flashing | GetReady | Recall | Results(nextStage: bool)

  /**
   * The mounted copy: `isFlashing ? <flasher> : flashHistory.length > 0 ?
   * <recall> : "Get ready..."`, results inside the recall panel once there are
   * as many guesses as flashes, and Next Stage only below stage 10.
   */
  function MountedScreen(isFlashing: bool, historyLen: nat, selectionsLen: nat, stage: int): (v: Screen)
    ensures v.Flashing? <==> isFlashing
    ensures (v.Recall? || v.Results?) <==> !isFlashing && historyLen > 0
    ensures v.Results? <==> !isFlashing && historyLen > 0 && selectionsLen == historyLen
    ensures v.Results? ==> (v.nextStage <==> stage < Schedule.LastStage)
  {
    if isFlashing then Flashing
    else if historyLen > 0 then
      if selectionsLen == historyLen then Results(stage < Schedule.LastStage) else Recall
    else GetReady
  }

  /**
   * The duplicate copy's panel: `!isFlashing && flashHistory.length > 0 ?
   * <recall> : "Get ready..."`; its flasher sits in the header instead.
   */
  function DuplicatePanel(isFlashing: bool, historyLen: nat, selectionsLen: nat, stage: int): Screen {
    if !isFlashing && historyLen > 0 then
      if selectionsLen == historyLen then Results(stage < Schedule.LastStage) else Recall
    else GetReady
  }

  /**
   * The two copies offer recall, results, Next Stage and Game Over under the
   * same conditions; they differ only in showing "Get ready..." while flashing.
   */
  lemma PanelsAgree(isFlashing: bool, historyLen: nat, selectionsLen: nat, stage: int)
    ensures DuplicatePanel(isFlashing, historyLen, selectionsLen, stage)
            == if isFlashing then GetReady else MountedScreen(isFlashing, historyLen, selectionsLen, stage)
  {
  }
}
