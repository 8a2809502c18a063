/** The first checkpoint of the Xray fixtures (checkpoints/checkpoint_1_standalone): the same
    snap as the third checkpoint, and a step executor whose screenshots are not guarded, so
    that a failing screenshot takes part in the step's error handling. */
module Checkpoint1 {
  import opened Common
  import opened Records
  import opened StepBodies
  import XrayHelper
  import XraySteps
  import Checkpoint3

  const SuccessName := "success.png"
  const FailureName := "failure.png"

  /** The error the try block ends with: the body's, or else that of the success
      screenshot, which is taken when asked for and there is a page. */
  function TryError(c: StepCall, run: BodyRun): Option<string> {
    match run.completion
    case Throws(m) => Some(m)
    case Completes =>
      if c.opts.captureScreenshot && c.page.Some? && c.page.value.success.ShotError? then
        Some(c.page.value.success.message)
      else None
  }

  /** One call of executeXrayStep. When the failure screenshot itself throws, no record is
      pushed, the step stays active and that screenshot's error is what propagates. */
  function StepSpec(st: StepState, c: StepCall): (r: (StepState, StepExit))
    ensures || OneRecordAppended(st.steps, r.0.steps, c.name, r.1.Raised?)
            || (r.0.steps == st.steps && r.1.Raised? && r.0.active.Some?)
  {
    if AnyFailed(st.steps) then (st.(steps := st.steps + [SkippedRecord(c.name)]), Returned)
    else
      var run := RunBody(Checkpoint3.Rule(), st.files, [], c.body.snaps, c.body.end);
      var ran := st.ran + [c.name];
      match TryError(c, run)
      case None =>
        var shot := if c.opts.captureScreenshot && c.page.Some? then
                      [Evidence(Base64(c.page.value.success.png), SuccessName, XraySteps.PngType)]
                    else [];
        var evs := Checkpoint3.Evidences(run.files, Dedup(c.opts.additionalEvidences + run.extracted));
        (StepState(st.steps + [StepRecord(PASSED, c.name, shot + evs)], None, run.files, ran), Returned)
      case Some(m) =>
        if c.page.Some? && c.page.value.failure.ShotError? then
          (StepState(st.steps, Some(run.extracted), run.files, ran), Raised(c.page.value.failure.message))
        else
          var shot := if c.page.Some? then
                        [Evidence(Base64(c.page.value.failure.png), FailureName, XraySteps.PngType)]
                      else [];
          (StepState(st.steps + [StepRecord(FAILED, c.name + " - FAILED: " + m, shot)], None, run.files, ran),
           Raised(m))
  }

  /** A success screenshot that throws fails the step with its own message, although the
      body completed. */
  lemma SuccessShotFailsStep(st: StepState, c: StepCall, m: string)
    requires !AnyFailed(st.steps)
    requires Checkpoint3.Outcome(c) == Completes
    requires c.opts.captureScreenshot && c.page.Some? && c.page.value.success == ShotError(m)
    requires c.page.value.failure.Captured?
    ensures var (st', exit) := StepSpec(st, c);
      && exit == Raised(m) && |st'.steps| == |st.steps| + 1
      && st'.steps[|st.steps|] == StepRecord(FAILED, c.name + " - FAILED: " + m,
                                              [Evidence(Base64(c.page.value.failure.png), FailureName, XraySteps.PngType)])
  {
    RunBodyCompletion(Checkpoint3.Rule(), st.files, [], c.body.snaps, c.body.end);
  }

  /** A failure screenshot that throws loses the step: no record is added, the step stays
      active, and the next step is not skipped but runs its body. */
  lemma FailureShotLosesStep(st: StepState, c: StepCall, next: StepCall)
    requires !AnyFailed(st.steps)
    requires TryError(c, RunBody(Checkpoint3.Rule(), st.files, [], c.body.snaps, c.body.end)).Some?
    requires c.page.Some? && c.page.value.failure.ShotError?
    ensures var (st', exit) := StepSpec(st, c);
      && exit == Raised(c.page.value.failure.message)
      && st'.steps == st.steps && st'.active.Some?
      && StepSpec(st', next).0.ran == st'.ran + [next.name]
  {
  }

  /** Without a page no screenshot is taken, and the step behaves exactly as in the third
      checkpoint. */
  lemma NoPageAsCheckpoint3(st: StepState, c: StepCall)
    requires c.page.None?
    ensures StepSpec(st, c) == Checkpoint3.StepSpec(st, c)
  {
    var run := RunBody(Checkpoint3.Rule(), st.files, [], c.body.snaps, c.body.end);
    assert XraySteps.SuccessShot(c.page, c.opts, |st.steps|) == [];
    assert XraySteps.FailureShot(c.page, |st.steps|) == [];
  }

  /** Every call that returns, or that fails with its screenshot taken, adds exactly one
      record; only a throwing failure screenshot adds none. */
  lemma RecordUnlessShotFails(st: StepState, c: StepCall)
    ensures var (st', exit) := StepSpec(st, c);
      var lost := !AnyFailed(st.steps)
        && TryError(c, RunBody(Checkpoint3.Rule(), st.files, [], c.body.snaps, c.body.end)).Some?
        && c.page.Some? && c.page.value.failure.ShotError?;
      && (lost ==> st'.steps == st.steps)
      && (!lost ==> |st'.steps| == |st.steps| + 1 && st'.steps[..|st.steps|] == st.steps
                    && st'.steps[|st.steps|].status == (if AnyFailed(st.steps) then TODO else
                         if exit.Returned? then PASSED else FAILED))
  {
  }

  /** executeXrayStep(testInfo, stepName, stepFunction, page, options) */
  method ExecuteStep(ctx: TestContext, c: StepCall) returns (exit: StepExit)
    modifies ctx`steps, ctx`active, ctx`files, ctx`ran
    ensures (ctx.State(), exit) == StepSpec(old(ctx.State()), c)
  {
    if AnyFailed(ctx.steps) {
      ctx.steps := ctx.steps + [SkippedRecord(c.name)];
      return Returned;
    }
    ctx.active := Some([]);
    ctx.ran := ctx.ran + [c.name];
    var completion := Checkpoint3.RunSnaps(ctx, c.body);
    var error: Option<string> := None;
    var evidences: seq<Evidence> := [];
    if completion.Throws? {
      error := Some(completion.message);
    } else if c.opts.captureScreenshot && c.page.Some? {
      if c.page.value.success.ShotError? {
        error := Some(c.page.value.success.message);
      } else {
        evidences := [Evidence(Base64(c.page.value.success.png), SuccessName, XraySteps.PngType)];
      }
    }
    if error.Some? {
      if c.page.Some? {
        if c.page.value.failure.ShotError? {
          return Raised(c.page.value.failure.message);
        }
        evidences := [Evidence(Base64(c.page.value.failure.png), FailureName, XraySteps.PngType)];
      }
      ctx.active := None;
      ctx.steps := ctx.steps + [StepRecord(FAILED, c.name + " - FAILED: " + error.value, evidences)];
      return Raised(error.value);
    }
    var extracted := ctx.active.value;
    ctx.active := None;
    var evs := Checkpoint3.CollectEvidence(ctx.files, Dedup(c.opts.additionalEvidences + extracted));
    ctx.steps := ctx.steps + [StepRecord(PASSED, c.name, evidences + evs)];
    exit := Returned;
  }
}
