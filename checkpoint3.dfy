/** The third checkpoint of the Xray fixtures (checkpoints/checkpoint_3_monocart): a snap that
    also takes screenshots, a step executor that files snapped paths through the helper's
    evidence builder, a single-execution batched upload, and a result collector without the
    internal grouping fields. */
module Checkpoint3 {
  import opened Common
  import opened Records
  import opened StepBodies
  import XrayHelper
  import XraySteps
  import XrayResults
  import XrayUpload

  // ---------------------------------------------------------------------------------------
  // snap

  /** Where this version's snap writes, whatever the test's output directory. */
  const OutputDir := "test-results"

  predicate IsKept(c: char) { IsAlnum(c) || c == '.' || c == '-' }

  /** name.replace(/[^a-z0-9.-]/gi, '_'): letters of both cases, digits, dots and dashes
      are kept, every other UTF-16 code unit becomes '_'. */
  function SafeName(name: string): (r: string)
    ensures |r| >= |name|
    ensures forall i :: 0 <= i < |r| ==> IsKept(r[i]) || r[i] == '_'
    ensures InBmp(name) ==>
      && |r| == |name|
      && (forall i :: 0 <= i < |r| && IsKept(name[i]) ==> r[i] == name[i])
      && (forall i :: 0 <= i < |r| && !IsKept(name[i]) ==> r[i] == '_')
  {
    ReplaceOutsideBmp(name, IsKept);
    ReplaceOutside(name, IsKept)
  }

  /** A safe name is its own safe name and never holds a '/'. */
  lemma SafeNameIdempotent(name: string)
    ensures SafeName(SafeName(name)) == SafeName(name)
    ensures '/' !in SafeName(name)
  {
    ReplaceOutsideFixed(SafeName(name), IsKept);
  }

  /** What one call of snap does: a string is written as text; an object with a screenshot
      method has it take a PNG into the file (its error propagates); any other object,
      null included, is written as JSON; functions and primitives give nothing. */
  function SnapSpec(c: SnapCall): (o: SnapOutcome)
    ensures o.Wrote? && c.content.Str? ==>
      o.path == Join(OutputDir, SafeName(c.name) + ".txt") && Utf8Decode(o.bytes) == c.content.text
    ensures o.Wrote? && c.content.Obj? && c.content.screenshot.Some? ==>
      c.content.screenshot.value.Captured? && o.path == Join(OutputDir, SafeName(c.name) + ".png")
      && o.bytes == c.content.screenshot.value.png
    ensures o.Wrote? && (c.content.Null? || (c.content.Obj? && c.content.screenshot.None?)) ==>
      && o.path == Join(OutputDir, SafeName(c.name) + ".json")
      && Utf8Decode(o.bytes) == (if c.content.Obj? then c.content.json else "null")
    ensures o.Failed? <==> c.content.Obj? && c.content.screenshot.Some? && c.content.screenshot.value.ShotError?
  {
    var safe := SafeName(c.name);
    match c.content
    case Str(text) => Utf8RoundTrip(text); Wrote(Join(OutputDir, safe + ".txt"), Utf8Encode(text))
    case Obj(Some(shot), _) =>
      if shot.Captured? then Wrote(Join(OutputDir, safe + ".png"), shot.png) else Failed(shot.message)
    case Obj(None, json) => Utf8RoundTrip(json); Wrote(Join(OutputDir, safe + ".json"), Utf8Encode(json))
    case Null => Utf8RoundTrip("null"); Wrote(Join(OutputDir, safe + ".json"), Utf8Encode("null"))
    case Fun(_) => NoFile
    case Primitive => NoFile
  }

  function Rule(): SnapRule {
    c => SnapSpec(c)
  }

  /** snap fails only when a screenshot fails; it writes a file exactly for a string, for
      an object (null included) and for a screenshot that was taken, and never runs a
      function. */
  lemma SnapWritesFile(c: SnapCall)
    ensures var o := SnapSpec(c);
      && (o.Failed? <==> c.content.Obj? && c.content.screenshot.Some? && c.content.screenshot.value.ShotError?)
      && (o.Wrote? <==> c.content.Str? || c.content.Null?
                        || (c.content.Obj? && (c.content.screenshot.None? || c.content.screenshot.value.Captured?)))
      && (c.content.Fun? ==> o == NoFile)
  {
  }

  /** The file lies in test-results, and its name is the safe name with the suffix of its
      kind; a screenshot's evidence is typed image/png (a nameless snap gives the dot file
      ".png", which has no extension). */
  lemma SnapFileName(c: SnapCall)
    requires SnapSpec(c).Wrote?
    ensures var p := SnapSpec(c).path;
      var ext := if c.content.Str? then ".txt" else if c.content.Obj? && c.content.screenshot.Some? then ".png" else ".json";
      && StartsWith(p, OutputDir + "/")
      && Basename(p) == SafeName(c.name) + ext
      && (ext == ".png" && |c.name| > 0 ==> XrayHelper.GetMimeType(Basename(p)) == "image/png")
  {
    var safe := SafeName(c.name);
    SafeNameIdempotent(c.name);
    var ext := if c.content.Str? then ".txt" else if c.content.Obj? && c.content.screenshot.Some? then ".png" else ".json";
    var p := Join(OutputDir, safe + ext);
    assert p == OutputDir + "/" + (safe + ext);
    assert p[..|OutputDir + "/"|] == OutputDir + "/";
    BasenameJoin(OutputDir, safe + ext);
    if ext == ".png" && |c.name| > 0 {
      PngType(safe);
    }
  }

  lemma PngType(stem: string)
    requires '/' !in stem && |stem| > 0
    ensures XrayHelper.GetMimeType(stem + ".png") == "image/png"
  {
    var e := "png";
    assert e[0] != '.' && forall i :: 0 <= i < |e| ==> e[i] != '.' && e[i] != '/' && !IsUpper(e[i]);
    assert "." + e == ".png" && XrayHelper.MimeTypes[".png"] == "image/png";
    XrayHelper.MimeTypeOfListed(stem, e);
    assert stem + ".png" == stem + "." + e;
  }

  /** snap(testInfo, name, contentOrPage) */
  method Snap(ctx: TestContext, c: SnapCall) returns (exit: SnapExit)
    modifies ctx`files, ctx`active
    ensures var o := SnapSpec(c);
      && exit == ExitOf(o)
      && ctx.files == Store(old(ctx.files), o)
      && ctx.active == Register(old(ctx.active), o)
  {
    var safe := SafeName(c.name);
    var filePath: Option<string> := None;
    match c.content {
      case Str(text) =>
        filePath := Some(Join(OutputDir, safe + ".txt"));
        ctx.files := ctx.files[filePath.value := Utf8Encode(text)];
      case Obj(shot, json) =>
        if shot.Some? {
          filePath := Some(Join(OutputDir, safe + ".png"));
          if shot.value.ShotError? {
            return SnapRaised(shot.value.message);
          }
          ctx.files := ctx.files[filePath.value := shot.value.png];
        } else {
          filePath := Some(Join(OutputDir, safe + ".json"));
          ctx.files := ctx.files[filePath.value := Utf8Encode(json)];
        }
      case Null =>
        filePath := Some(Join(OutputDir, safe + ".json"));
        ctx.files := ctx.files[filePath.value := Utf8Encode("null")];
      case Fun(_) =>
      case Primitive =>
    }
    if filePath.Some? && ctx.active.Some? {
      ctx.active := Some(ctx.active.value + [filePath.value]);
    }
    return SnapReturned(filePath);
  }

  // ---------------------------------------------------------------------------------------
  // executeXrayStep

  /** The paths the helper can turn into evidence (an existing, non-empty file), in the
      order given. */
  function Readable(files: FileStore, paths: seq<string>): (r: seq<string>)
    ensures |r| <= |paths|
    ensures forall p :: p in r <==> p in paths && XrayHelper.CreateEvidence(files, p).Some?
    decreases |paths|
  {
    if |paths| == 0 then []
    else
      var init := paths[..|paths| - 1];
      var last := paths[|paths| - 1];
      assert paths == init + [last];
      var r := Readable(files, init);
      if XrayHelper.CreateEvidence(files, last).Some? then r + [last] else r
  }

  /** The evidence the helper builds for each path, in order; a path it cannot turn into
      evidence (missing or empty file) is dropped. */
  function Evidences(files: FileStore, paths: seq<string>): (r: seq<Evidence>)
    ensures |r| <= |paths|
    ensures var ps := Readable(files, paths);
      |r| == |ps| && forall i :: 0 <= i < |r| ==> XrayHelper.CreateEvidence(files, ps[i]) == Some(r[i])
    ensures forall p :: p in paths && XrayHelper.CreateEvidence(files, p).Some? ==>
      XrayHelper.CreateEvidence(files, p).value in r
    ensures forall e :: e in r ==> exists p :: p in paths && XrayHelper.CreateEvidence(files, p) == Some(e)
    decreases |paths|
  {
    if |paths| == 0 then []
    else
      var init := paths[..|paths| - 1];
      var last := paths[|paths| - 1];
      assert paths == init + [last];
      var r := Evidences(files, init);
      var ev := XrayHelper.CreateEvidence(files, last);
      if ev.Some? then r + [ev.value] else r
  }

  /** The record of a step that ran: on success the screenshot and the evidence of every
      distinct path (the additional ones first); on failure the raw error message and the
      failure screenshot alone. */
  function Finish(c: StepCall, n: nat, run: BodyRun): (StepRecord, StepExit) {
    match run.completion
    case Completes =>
      (StepRecord(PASSED, c.name, XraySteps.SuccessShot(c.page, c.opts, n)
                                  + Evidences(run.files, Dedup(c.opts.additionalEvidences + run.extracted))),
       Returned)
    case Throws(m) =>
      (StepRecord(FAILED, c.name + " - FAILED: " + m, XraySteps.FailureShot(c.page, n)), Raised(m))
  }

  function StepSpec(st: StepState, c: StepCall): (r: (StepState, StepExit))
    ensures OneRecordAppended(st.steps, r.0.steps, c.name, r.1.Raised?)
  {
    if AnyFailed(st.steps) then (st.(steps := st.steps + [SkippedRecord(c.name)]), Returned)
    else
      var run := RunBody(Rule(), st.files, [], c.body.snaps, c.body.end);
      var (rec, exit) := Finish(c, |st.steps|, run);
      (StepState(st.steps + [rec], None, run.files, st.ran + [c.name]), exit)
  }

  function Outcome(c: StepCall): Completion {
    BodyCompletion(Rule(), c.body.snaps, c.body.end)
  }

  /** Every call appends exactly one record and keeps the earlier ones; after a FAILED step
      the body is not run and the record is TODO "<name> (Skipped)". */
  lemma OneRecordPerStep(st: StepState, c: StepCall)
    ensures var (st', exit) := StepSpec(st, c);
      && |st'.steps| == |st.steps| + 1 && st'.steps[..|st.steps|] == st.steps
      && st'.steps[|st.steps|].status ==
           (if AnyFailed(st.steps) then TODO else if Outcome(c).Completes? then PASSED else FAILED)
      && (AnyFailed(st.steps) ==> st'.steps[|st.steps|] == SkippedRecord(c.name) && st'.ran == st.ran
                                  && exit == Returned)
      && (!AnyFailed(st.steps) ==> st'.ran == st.ran + [c.name] && st'.active.None?)
  {
    RunBodyCompletion(Rule(), st.files, [], c.body.snaps, c.body.end);
  }

  /** A failed step carries the unmodified error message and at most the failure
      screenshot: what it snapped is not attached. */
  lemma FailureHasNoSnaps(st: StepState, c: StepCall, m: string)
    requires !AnyFailed(st.steps) && Outcome(c) == Throws(m)
    ensures var (st', exit) := StepSpec(st, c);
      var rec := st'.steps[|st.steps|];
      && exit == Raised(m) && rec.status == FAILED
      && rec.actualResult == c.name + " - FAILED: " + m
      && rec.evidences == XraySteps.FailureShot(c.page, |st.steps|) && |rec.evidences| <= 1
  {
    RunBodyCompletion(Rule(), st.files, [], c.body.snaps, c.body.end);
  }

  /** On success every snapped file and every additional path the helper can read becomes
      evidence of the record, and nothing else does besides the screenshot: one evidence
      per readable distinct path, in path order. */
  lemma SuccessCollectsEvidence(st: StepState, c: StepCall)
    requires !AnyFailed(st.steps) && Outcome(c) == Completes
    ensures var (st', exit) := StepSpec(st, c);
      var run := RunBody(Rule(), st.files, [], c.body.snaps, c.body.end);
      var rec := st'.steps[|st.steps|];
      var paths := c.opts.additionalEvidences + run.extracted;
      var shot := XraySteps.SuccessShot(c.page, c.opts, |st.steps|);
      && exit == Returned && rec.status == PASSED && rec.actualResult == c.name
      && rec.evidences[..|shot|] == shot
      && (forall p :: p in paths && XrayHelper.CreateEvidence(run.files, p).Some? ==>
            XrayHelper.CreateEvidence(run.files, p).value in rec.evidences[|shot|..])
      && (forall e :: e in rec.evidences[|shot|..] ==>
            exists p :: p in paths && XrayHelper.CreateEvidence(run.files, p) == Some(e))
      && var ps := Readable(run.files, Dedup(paths));
         && |rec.evidences| == |shot| + |ps|
         && forall i :: 0 <= i < |ps| ==> XrayHelper.CreateEvidence(run.files, ps[i]) == Some(rec.evidences[|shot| + i])
  {
    RunBodyCompletion(Rule(), st.files, [], c.body.snaps, c.body.end);
    var run := RunBody(Rule(), st.files, [], c.body.snaps, c.body.end);
    var paths := c.opts.additionalEvidences + run.extracted;
    var shot := XraySteps.SuccessShot(c.page, c.opts, |st.steps|);
    var evs := Evidences(run.files, Dedup(paths));
    var rec := StepSpec(st, c).0.steps[|st.steps|];
    assert rec.evidences == shot + evs;
    assert rec.evidences[..|shot|] == shot;
    assert rec.evidences[|shot|..] == evs;
    assert forall p :: p in paths <==> p in Dedup(paths);
  }

  /** A sequence of calls, each made whatever the previous one threw. */
  function RunSteps(st: StepState, calls: seq<StepCall>): StepState
    decreases |calls|
  {
    if |calls| == 0 then st
    else StepSpec(RunSteps(st, calls[..|calls| - 1]), calls[|calls| - 1]).0
  }

  predicate FirstFailure(calls: seq<StepCall>, k: nat) {
    && k <= |calls|
    && (forall i :: 0 <= i < k ==> Outcome(calls[i]).Completes?)
    && (k < |calls| ==> Outcome(calls[k]).Throws?)
  }

  /** Auto-skip, as in the final version: PASSED before the first failing step, FAILED at
      it, TODO after it, and only the bodies up to it run. */
  lemma {:induction false} AutoSkip(files: FileStore, calls: seq<StepCall>, k: nat)
    requires FirstFailure(calls, k)
    ensures var st := RunSteps(StepState([], None, files, []), calls);
      && XraySteps.SkipPattern(st.steps, calls, k)
      && st.ran == XraySteps.Names(calls[..if k < |calls| then k + 1 else |calls|])
    decreases |calls|
  {
    var st0 := StepState([], None, files, []);
    if |calls| > 0 {
      var n := |calls| - 1;
      var init := calls[..n];
      var k' := if k < n then k else n;
      assert FirstFailure(init, k') by {
        assert forall i :: 0 <= i < k' ==> init[i] == calls[i];
      }
      AutoSkip(files, init, k');
      var prev := RunSteps(st0, init);
      XraySteps.SkipPatternFailed(prev.steps, init, k');
      XraySteps.SkipPatternWiden(prev.steps, init, k', k);
      AutoSkipLast(prev, init, calls[n], k);
      XraySteps.RanPrefix(calls, k);
    }
  }

  /** One more call after a run that follows the auto-skip pattern keeps following it. */
  lemma AutoSkipLast(prev: StepState, init: seq<StepCall>, c: StepCall, k: nat)
    requires XraySteps.SkipPattern(prev.steps, init, k)
    requires AnyFailed(prev.steps) <==> k < |init|
    requires k == |init| ==> Outcome(c).Throws?
    requires k > |init| ==> Outcome(c).Completes?
    ensures var st := StepSpec(prev, c).0;
      && XraySteps.SkipPattern(st.steps, init + [c], k)
      && st.ran == (if k < |init| then prev.ran else prev.ran + [c.name])
  {
    OneRecordPerStep(prev, c);
    var st := StepSpec(prev, c).0;
    assert st.steps == prev.steps + [st.steps[|init|]];
    XraySteps.SkipPatternExtend(prev.steps, init, k, st.steps[|init|], c);
  }

  /** for (const filePath of uniquePaths) { ... createEvidence ... } */
  method CollectEvidence(files: FileStore, paths: seq<string>) returns (evs: seq<Evidence>)
    ensures evs == Evidences(files, paths)
  {
    evs := [];
    var i := 0;
    while i < |paths|
      invariant 0 <= i <= |paths|
      invariant evs == Evidences(files, paths[..i])
    {
      assert paths[..i + 1][..i] == paths[..i];
      var ev := XrayHelper.CreateEvidence(files, paths[i]);
      if ev.Some? {
        evs := evs + [ev.value];
      }
      i := i + 1;
    }
    assert paths[..i] == paths;
  }

  /** Runs the snaps of a body while a step is active, stopping at the first that throws. */
  method RunSnaps(ctx: TestContext, body: Body) returns (completion: Completion)
    requires ctx.active.Some?
    modifies ctx`files, ctx`active
    ensures ctx.active.Some?
    ensures BodyRun(ctx.files, ctx.active.value, completion)
         == RunBody(Rule(), old(ctx.files), old(ctx.active.value), body.snaps, body.end)
  {
    ghost var run := RunBody(Rule(), ctx.files, ctx.active.value, body.snaps, body.end);
    var i := 0;
    var failed: Option<string> := None;
    while i < |body.snaps| && failed.None?
      invariant 0 <= i <= |body.snaps|
      invariant ctx.active.Some?
      invariant failed.None? ==> run == RunBody(Rule(), ctx.files, ctx.active.value, body.snaps[i..], body.end)
      invariant failed.Some? ==> run == BodyRun(ctx.files, ctx.active.value, Throws(failed.value))
      decreases |body.snaps| - i, if failed.None? then 1 else 0
    {
      var e := Snap(ctx, body.snaps[i]);
      if e.SnapRaised? {
        failed := Some(e.message);
      } else {
        i := i + 1;
      }
    }
    completion := if failed.Some? then Throws(failed.value) else body.end;
  }

  /** executeXrayStep(testInfo, stepName, stepFunction, page, options) */
  method ExecuteStep(ctx: TestContext, c: StepCall) returns (exit: StepExit)
    modifies ctx`steps, ctx`active, ctx`files, ctx`ran
    ensures (ctx.State(), exit) == StepSpec(old(ctx.State()), c)
  {
    if AnyFailed(ctx.steps) {
      ctx.steps := ctx.steps + [SkippedRecord(c.name)];
      return Returned;
    }
    ctx.active := Some([]);
    ctx.ran := ctx.ran + [c.name];
    var completion := RunSnaps(ctx, c.body);
    var n := |ctx.steps|;
    if completion.Throws? {
      var shot := XraySteps.FailureShot(c.page, n);
      ctx.active := None;
      ctx.steps := ctx.steps + [StepRecord(FAILED, c.name + " - FAILED: " + completion.message, shot)];
      return Raised(completion.message);
    }
    var extracted := ctx.active.value;
    ctx.active := None;
    var evs := CollectEvidence(ctx.files, Dedup(c.opts.additionalEvidences + extracted));
    ctx.steps := ctx.steps + [StepRecord(PASSED, c.name, XraySteps.SuccessShot(c.page, c.opts, n) + evs)];
    exit := Returned;
  }

  // ---------------------------------------------------------------------------------------
  // uploadToXray

  /** The helper's fields before a batch: once a key is known it is set, and a set plan or
      project is deleted; before that nothing changes. */
  function Prepared(f: XrayHelper.Fields, key: Option<string>): XrayHelper.Fields {
    if Truthy(key) then
      f.(testExecutionKey := key,
         testPlanKey := if Truthy(f.testPlanKey) then None else f.testPlanKey,
         projectKey := if Truthy(f.projectKey) then None else f.projectKey)
    else f
  }

  /** The batches from helper state s with the current key; the key of the first response
      that has one is adopted when there is none yet. */
  function Batches(s: XrayHelper.ClientState, key: Option<string>, chunks: seq<seq<TestResult>>,
                   server: nat -> XrayHelper.Exchange, n: nat): (r: (XrayHelper.ClientState, Option<string>, nat))
    ensures Truthy(key) ==> r.1 == key
    ensures Truthy(r.1) || r.1 == key
    decreases |chunks|
  {
    if |chunks| == 0 then (s, key, n)
    else
      var s1 := s.(fields := Prepared(s.fields, key));
      var (s2, resp) := XrayHelper.Uploaded(s1, chunks[0], server(n));
      var key' := if resp.Some? && Truthy(resp.value.key) && !Truthy(key) then resp.value.key else key;
      Batches(s2, key', chunks[1..], server, n + 1)
  }

  /** Every chunk is uploaded whatever happens to the one before; once there is a key it is
      kept and every import appends to it. */
  lemma {:induction false} BatchesKeepGoing(s: XrayHelper.ClientState, key: Option<string>,
                                            chunks: seq<seq<TestResult>>, server: nat -> XrayHelper.Exchange, n: nat)
    ensures var (s', key', n') := Batches(s, key, chunks, server, n);
      && n' == n + |chunks|
      && |s.sent| <= |s'.sent| && s'.sent[..|s.sent|] == s.sent
      && (Truthy(key) ==> key' == key && XrayUpload.AllAppendTo(s'.sent[|s.sent|..], key))
      && (Truthy(key') || key' == key)
    decreases |chunks|
  {
    if |chunks| > 0 {
      var s1 := s.(fields := Prepared(s.fields, key));
      var (s2, resp) := XrayHelper.Uploaded(s1, chunks[0], server(n));
      var key' := if resp.Some? && Truthy(resp.value.key) && !Truthy(key) then resp.value.key else key;
      XrayUpload.UploadedSends(s1, chunks[0], server(n));
      BatchesKeepGoing(s2, key', chunks[1..], server, n + 1);
      var s' := Batches(s2, key', chunks[1..], server, n + 1).0;
      assert s'.sent[..|s.sent|] == s'.sent[..|s2.sent|][..|s.sent|];
      if Truthy(key) {
        var tail := s'.sent[|s.sent|..];
        forall i | 0 <= i < |tail| && tail[i].Import?
          ensures tail[i].payload.testExecutionKey == key && tail[i].payload.info.None?
        {
          if i < |s2.sent| - |s.sent| {
            assert tail[i] == s2.sent[|s.sent| + i];
          } else {
            assert tail[i] == s'.sent[|s2.sent|..][i - (|s2.sent| - |s.sent|)];
          }
        }
      }
    }
  }

  /** Without a key, neither given nor in the helper, the first batch creates an execution.
      When its response carries a key K, K is secured: the run ends with K and every later
      import appends to it. When it carries none, the remaining batches run exactly as if
      they were the first, so the next one creates an execution again. */
  lemma BatchesAdoptKey(s: XrayHelper.ClientState, key: Option<string>, chunks: seq<seq<TestResult>>,
                        server: nat -> XrayHelper.Exchange, n: nat)
    requires !Truthy(key) && !Truthy(s.fields.testExecutionKey) && |chunks| > 0
    ensures var (s2, resp) := XrayHelper.Uploaded(s.(fields := Prepared(s.fields, key)), chunks[0], server(n));
      var (s', key', n') := Batches(s, key, chunks, server, n);
      && |s.sent| <= |s2.sent| <= |s'.sent|
      && XrayUpload.AllCreate(s2.sent[|s.sent|..])
      && (resp.Some? && Truthy(resp.value.key) ==>
            key' == resp.value.key && XrayUpload.AllAppendTo(s'.sent[|s2.sent|..], resp.value.key))
      && (!(resp.Some? && Truthy(resp.value.key)) ==> (s', key', n') == Batches(s2, key, chunks[1..], server, n + 1))
  {
    var s1 := s.(fields := Prepared(s.fields, key));
    var (s2, resp) := XrayHelper.Uploaded(s1, chunks[0], server(n));
    var key' := if resp.Some? && Truthy(resp.value.key) then resp.value.key else key;
    XrayUpload.UploadedSends(s1, chunks[0], server(n));
    BatchesKeepGoing(s2, key', chunks[1..], server, n + 1);
    var tail := s2.sent[|s.sent|..];
    forall i | 0 <= i < |tail| && tail[i].Import?
      ensures tail[i].payload.testExecutionKey.None? && tail[i].payload.info.Some?
    {
      assert tail[i] == s2.sent[|s.sent| + i];
    }
  }

  /** How this version's uploadToXray ends: nothing to upload (and nothing cleaned up), or
      the given number of batches sent. */
  datatype UploadOutcome = NothingToUpload | UploadDone(batches: nat)

  function Teardown(w: WsState, c: XrayHelper.ClientState, server: nat -> XrayHelper.Exchange)
    : (r: (WsState, XrayHelper.ClientState, UploadOutcome))
    ensures |c.sent| <= |r.1.sent| && r.1.sent[..|c.sent|] == c.sent
    ensures r.0.manualReports == w.manualReports && r.0.customReport == w.customReport
  {
    var rs := XrayUpload.ResultsToUpload(w.resultsDir, w.globalResults);
    if |rs| == 0 then (w, c, NothingToUpload)
    else
      var (c', _, n) := Batches(c, c.fields.testExecutionKey, XrayUpload.Chunks(rs), server, 0);
      BatchesKeepGoing(c, c.fields.testExecutionKey, XrayUpload.Chunks(rs), server, 0);
      (w.(resultsDir := None, globalResults := []), c', UploadDone(n))
  }

  /** Without results the teardown returns early and leaves everything as it was; with
      results it sends ceil(n / 20) batches, removes the results directory and empties the
      global list; with a key in the environment every import appends to it. */
  lemma TeardownEffects(w: WsState, c: XrayHelper.ClientState, server: nat -> XrayHelper.Exchange)
    ensures var (w', c', out) := Teardown(w, c, server);
      var rs := XrayUpload.ResultsToUpload(w.resultsDir, w.globalResults);
      && (out == NothingToUpload <==> |rs| == 0)
      && (out == NothingToUpload ==> w' == w && c' == c)
      && (out.UploadDone? ==> w'.resultsDir.None? && w'.globalResults == [] && w'.manualReports == w.manualReports
                              && out.batches == (|rs| + XrayUpload.BatchSize - 1) / XrayUpload.BatchSize)
      && (Truthy(c.fields.testExecutionKey) ==>
            |c.sent| <= |c'.sent| && XrayUpload.AllAppendTo(c'.sent[|c.sent|..], c.fields.testExecutionKey))
  {
    var rs := XrayUpload.ResultsToUpload(w.resultsDir, w.globalResults);
    if |rs| > 0 {
      BatchesKeepGoing(c, c.fields.testExecutionKey, XrayUpload.Chunks(rs), server, 0);
    } else {
      assert c.sent[|c.sent|..] == [];
    }
  }

  method PrepareFields(client: XrayHelper.Client, key: Option<string>)
    modifies client
    ensures client.State() == old(client.State()).(fields := Prepared(old(client.State()).fields, key))
  {
    if Truthy(key) {
      client.testExecutionKey := key;
      if Truthy(client.testPlanKey) {
        client.testPlanKey := None;
      }
      if Truthy(client.projectKey) {
        client.projectKey := None;
      }
    }
  }

  /** The batch loop. */
  method UploadBatches(client: XrayHelper.Client, rs: seq<TestResult>, server: nat -> XrayHelper.Exchange)
    returns (n: nat)
    modifies client
    ensures (client.State(), n) == (var b := Batches(old(client.State()), old(client.testExecutionKey),
                                                    XrayUpload.Chunks(rs), server, 0); (b.0, b.2))
  {
    ghost var want := Batches(client.State(), client.testExecutionKey, XrayUpload.Chunks(rs), server, 0);
    var key := client.testExecutionKey;
    n := 0;
    var i := 0;
    assert XrayUpload.From(rs, 0) == rs;
    while i < |rs|
      invariant want == Batches(client.State(), key, XrayUpload.Chunks(XrayUpload.From(rs, i)), server, n)
      decreases |rs| - i
    {
      var end := if i + XrayUpload.BatchSize < |rs| then i + XrayUpload.BatchSize else |rs|;
      XrayUpload.ChunksFrom(rs, i);
      PrepareFields(client, key);
      var response := client.UploadResults(rs[i..end], server(n));
      if response.Some? && Truthy(response.value.key) && !Truthy(key) {
        key := response.value.key;
      }
      n := n + 1;
      i := i + XrayUpload.BatchSize;
    }
  }

  /** uploadToXray() */
  method UploadToXray(ws: Workspace, client: XrayHelper.Client, server: nat -> XrayHelper.Exchange)
    returns (out: UploadOutcome)
    modifies ws, client
    ensures (ws.State(), client.State(), out) == Teardown(old(ws.State()), old(client.State()), server)
  {
    var rs := XrayUpload.ReadResultFiles(ws.resultsDir);
    if |rs| == 0 && |ws.globalResults| > 0 {
      rs := ws.globalResults;
    }
    if |rs| == 0 {
      return NothingToUpload;
    }
    var n := UploadBatches(client, rs, server);
    ws.resultsDir := None;
    ws.globalResults := [];
    out := UploadDone(n);
  }

  // ---------------------------------------------------------------------------------------
  // autoTestContext

  /** The comment keeps the error message as it is. */
  function Comment(error: Option<string>, ms: int): (r: string)
    ensures error.Some? ==> StartsWith(r, error.value + "\n\n")
    ensures error.None? ==> StartsWith(r, XrayResults.SuccessLine)
    ensures EndsWith(r, XrayResults.DurationText(ms))
    ensures |r| == (if error.Some? then |error.value| + 2 else |XrayResults.SuccessLine|) + |XrayResults.DurationText(ms)|
  {
    var head := if error.Some? then error.value + "\n\n" else XrayResults.SuccessLine;
    var r := head + XrayResults.DurationText(ms);
    assert r[..|head|] == head;
    assert r[|r| - |XrayResults.DurationText(ms)|..] == XrayResults.DurationText(ms);
    r
  }

  /** The result of a test, or None when its title carries no Xray key; the spec file and
      the annotations are not recorded. */
  function BuildResult(steps: seq<StepRecord>, start: Instant, e: XrayResults.TestEnd): (r: Option<TestResult>)
    ensures r.Some? <==> XrayResults.ExtractXrayKey(e.title).Some?
    ensures r.Some? ==> r.value.testKey == XrayResults.ExtractXrayKey(e.title).value && r.value.steps == steps
    ensures r.Some? ==> r.value.specFile.None? && r.value.targetExecutionKey.None?
  {
    match XrayResults.ExtractXrayKey(e.title)
    case None => None
    case Some(key) =>
      Some(TestResult(key, start.iso, e.end.iso, XrayResults.ResultStatus(e.status),
                      Comment(e.error, e.end.ms - start.ms), steps, None, None))
  }

  /** This version's result is the final version's without the internal fields, except that
      an error message keeps its ANSI codes. */
  lemma ResultAsFinal(steps: seq<StepRecord>, start: Instant, e: XrayResults.TestEnd)
    ensures var r := BuildResult(steps, start, e);
      var f := XrayResults.BuildResult(steps, start, e);
      && (r.Some? <==> f.Some?)
      && (r.Some? ==> r.value.specFile.None? && r.value.targetExecutionKey.None?)
      && (r.Some? && (e.error.None? || StripAnsi(e.error.value) == e.error.value) ==>
            r.value == XrayUpload.ForUpload(f.value))
  {
  }

  /** The end of the fixture, once the test body has run. */
  method Record(ws: Workspace, ctx: TestContext, e: XrayResults.TestEnd) returns (out: XrayResults.RecordOutcome)
    modifies ws`resultsDir, ws`globalResults
    ensures (ws.resultsDir, ws.globalResults, out)
      == XrayResults.RecordSpec(old(ws.resultsDir), old(ws.globalResults), BuildResult(ctx.steps, ctx.startTime, e), e.stamp)
  {
    var result := BuildResult(ctx.steps, ctx.startTime, e);
    if result.None? {
      return XrayResults.NotRecorded;
    }
    out := XrayResults.Store(ws, result.value, e.stamp);
  }
}
