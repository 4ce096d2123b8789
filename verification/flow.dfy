/** What a stage hands back to the flow executor that drives it. */
module Flow {

  /** The three ways a challenge stage can finish handling one submission:
      - Ok:       `executor.stage_ok()`, the flow moves on to its next stage;
      - Reprompt: the default `challenge_invalid`, the same challenge is shown
                  again together with the response's field errors;
      - Cancel:   `executor.stage_invalid()`, the flow is aborted. */
  datatype StageResult = Ok | Reprompt | Cancel {

    /** Ok and Cancel leave this stage; only Reprompt keeps the user in it. */
    predicate IsTerminal() {
      !Reprompt?
    }
  }

  /** What a series of calls into a stage returned, in order, and the state
      it left behind. */
  datatype Trace<S> = Trace(results: seq<StageResult>, last: S)
}
