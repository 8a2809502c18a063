/** The records the Xray fixtures produce and consume, the JavaScript values a test hands to
    them, and the two pieces of mutable state they work on: one test's `testInfo` and the
    run-level workspace (results directory, global result list, manual-report directories). */
module Records {
  import opened Common

  /** The file system as the fixtures see it: path to contents. */
  type FileStore = map<string, seq<byte>>

  // ---------------------------------------------------------------------------------------
  // Step and test records (the JSON sent to Xray)

  datatype Status = PASSED | FAILED | TODO

  datatype Evidence = Evidence(data: string, filename: string, contentType: string)

  datatype StepRecord = StepRecord(status: Status, actualResult: string, evidences: seq<Evidence>)

  /** The record of a step that was not run because an earlier step failed. */
  function SkippedRecord(name: string): StepRecord {
    StepRecord(TODO, name + " (Skipped)", [])
  }

  /** testInfo.steps.some(s => s.status === 'FAILED') */
  predicate AnyFailed(steps: seq<StepRecord>) {
    exists i :: 0 <= i < |steps| && steps[i].status == FAILED
  }

  /** A step call appended one record after the earlier ones: it is named after the step, and
      it is FAILED exactly when the call throws. */
  predicate OneRecordAppended(before: seq<StepRecord>, after: seq<StepRecord>, name: string, thrown: bool) {
    && |after| == |before| + 1 && after[..|before|] == before
    && StartsWith(after[|before|].actualResult, name)
    && (thrown <==> after[|before|].status == FAILED)
  }

  /** One test's result. `specFile` and `targetExecutionKey` are the internal fields
      `_specFile` and `_targetExecutionKey`; None stands for a deleted or missing field. */
  datatype TestResult = TestResult(
    testKey: string,
    start: string,
    finish: string,
    status: Status,
    comment: string,
    steps: seq<StepRecord>,
    specFile: Option<string>,
    targetExecutionKey: Option<string>)

  // ---------------------------------------------------------------------------------------
  // What a test hands to the fixtures

  /** What one call of page.screenshot() (or of an element's screenshot()) gives. */
  datatype Shot = Captured(png: seq<byte>) | ShotError(message: string)

  /** How a piece of user code ends: it returns, or it throws an error with a message. */
  datatype Completion = Completes | Throws(message: string)

  /** The JavaScript value passed to snap as its content. An object either has a callable
      `screenshot` member (what calling it gives) or not; `json` is its JSON.stringify text.
      A function either returns or throws when snap runs it. */
  datatype Value =
    | Str(text: string)
    | Null
    | Obj(screenshot: Option<Shot>, json: string)
    | Fun(run: Completion)
    | Primitive  // undefined, a number or a boolean

  /** One call of snap inside a step body; `page` is the page fixture handed to snap. */
  datatype SnapCall = SnapCall(name: string, content: Value, page: Option<Shot>)

  /** How one call of snap ends: it returns the written path (if any) or it throws. */
  datatype SnapExit = SnapReturned(path: Option<string>) | SnapRaised(message: string)

  /** A step body: the snaps it performs, in order, and how it ends if none of them throws. */
  datatype Body = Body(snaps: seq<SnapCall>, end: Completion)

  /** The page a step may screenshot: what a screenshot on the success path and on the
      failure path gives. */
  datatype StepShots = StepShots(success: Shot, failure: Shot)

  datatype StepOptions = StepOptions(captureScreenshot: bool, additionalEvidences: seq<string>)

  const DefaultStepOptions := StepOptions(true, [])

  /** One call of executeXrayStep: the step name, its body, the page (None when the test
      has none) and the options. */
  datatype StepCall = StepCall(name: string, body: Body, page: Option<StepShots>, opts: StepOptions)

  /** How executeXrayStep ends: it returns, or it re-throws an error. */
  datatype StepExit = Returned | Raised(message: string)

  // ---------------------------------------------------------------------------------------
  // One test's testInfo

  /** A reading of the clock: milliseconds since the epoch and Date.prototype.toISOString. */
  datatype Instant = Instant(ms: int, iso: string)

  /** The state of a test as the step executor sees it. */
  datatype StepState = StepState(
    steps: seq<StepRecord>,
    active: Option<seq<string>>,
    files: FileStore,
    ran: seq<string>)

  /** testInfo, restricted to what the Xray fixtures read and write. `active` is
      testInfo.activeXrayStep.extractedEvidences (None when the field is absent or null);
      `ran` records, for the proofs, the names of the step bodies that were invoked. */
  class TestContext {
    const outputDir: string
    var steps: seq<StepRecord>
    var active: Option<seq<string>>
    var files: FileStore
    var startTime: Instant
    ghost var ran: seq<string>

    constructor (outputDir: string, files: FileStore, now: Instant)
      ensures this.outputDir == outputDir && this.files == files && startTime == now
      ensures steps == [] && active == None && ran == []
    {
      this.outputDir := outputDir;
      this.files := files;
      startTime := now;
      steps := [];
      active := None;
      ran := [];
    }

    ghost function State(): StepState
      reads this
    {
      StepState(steps, active, files, ran)
    }
  }

  // ---------------------------------------------------------------------------------------
  // The run-level workspace

  /** A file in the results directory: a result that parses, or one that does not. */
  datatype EntryContent = ResultJson(result: TestResult) | Unparsable

  datatype DirEntry = DirEntry(name: string, content: EntryContent)

  /** fs.writeFileSync into a directory listing: an existing name is overwritten in place,
      a new one is added at the end. */
  function WriteEntry(entries: seq<DirEntry>, name: string, content: EntryContent): (r: seq<DirEntry>)
    ensures DirEntry(name, content) in r
    ensures forall e :: e in entries && e.name != name ==> e in r
    ensures forall e :: e in r ==> e == DirEntry(name, content) || e in entries
    decreases |entries|
  {
    if |entries| == 0 then [DirEntry(name, content)]
    else if entries[0].name == name then [DirEntry(name, content)] + entries[1..]
    else [entries[0]] + WriteEntry(entries[1..], name, content)
  }

  /** One manual-import file: the `info` block and the tests. */
  datatype ManualReport = ManualReport(
    summary: string,
    description: string,
    project: Option<string>,
    testPlanKey: Option<string>,
    tests: seq<TestResult>)

  /** manual-reports/<timestamp>: one file per spec group, and the moved HTML report. */
  datatype ReportDir = ReportDir(bundles: seq<(string, ManualReport)>, html: Option<seq<byte>>)

  /** The contents of the workspace at one moment. */
  datatype WsState = WsState(
    resultsDir: Option<seq<DirEntry>>,
    globalResults: seq<TestResult>,
    manualReports: map<string, ReportDir>,
    customReport: Option<seq<byte>>)

  /** The state shared by every test of a run and by the teardown: `resultsDir` is
      .xray-results (None once removed), `globalResults` is global.xrayTestResults,
      `manualReports` maps a timestamp to manual-reports/<timestamp>, and `customReport` is
      custom-report/index.html. */
  class Workspace {
    var resultsDir: Option<seq<DirEntry>>
    var globalResults: seq<TestResult>
    var manualReports: map<string, ReportDir>
    var customReport: Option<seq<byte>>

    /** The state when the fixtures module is loaded: the results directory is created if
        it is missing and the global list is initialised if it is absent. */
    constructor (dir: Option<seq<DirEntry>>, reports: map<string, ReportDir>, html: Option<seq<byte>>)
      ensures resultsDir == (if dir.Some? then dir else Some([]))
      ensures globalResults == [] && manualReports == reports && customReport == html
    {
      resultsDir := if dir.Some? then dir else Some([]);
      globalResults := [];
      manualReports := reports;
      customReport := html;
    }

    function State(): WsState
      reads this
    {
      WsState(resultsDir, globalResults, manualReports, customReport)
    }
  }
}
