/** The evidence collector (snap) and the step executor (executeXrayStep) of
    fixture/xray-fixtures.js. */
module XraySteps {
  import opened Common
  import opened Records
  import opened StepBodies
  import XrayHelper

  // ---------------------------------------------------------------------------------------
  // snap

  predicate IsSafeChar(c: char) { IsDigit(c) || 'a' <= c <= 'z' || c == '_' }

  /** name.replace(/[^a-z0-9]/gi, '_').toLowerCase(): letters and digits are kept, lower-cased,
      and every other UTF-16 code unit becomes '_'. */
  function SafeName(name: string): (r: string)
    ensures |r| >= |name|
    ensures forall i :: 0 <= i < |r| ==> IsSafeChar(r[i])
    ensures InBmp(name) ==>
      && |r| == |name|
      && (forall i :: 0 <= i < |r| ==> (r[i] == '_' <==> !IsAlnum(name[i])))
      && (forall i :: 0 <= i < |r| && IsAlnum(name[i]) ==> r[i] == LowerChar(name[i]))
  {
    var u := ReplaceOutside(name, IsAlnum);
    ReplaceOutsideBmp(name, IsAlnum);
    ToLower(u)
  }

  /** A character outside the Basic Multilingual Plane is two code units, so it becomes two
      '_'. */
  lemma SafeNameOutsideBmp()
    ensures SafeName("a\U{1F600}") == "a__"
  {
    var s := "a\U{1F600}";
    assert s[1..] == "\U{1F600}";
    assert ReplaceOutside(s[1..], IsAlnum) == "__";
    assert ReplaceOutside(s, IsAlnum) == "a__";
  }

  /** A safe name is its own safe name, and it never holds a '/' or a '.'. */
  lemma SafeNameIdempotent(name: string)
    ensures SafeName(SafeName(name)) == SafeName(name)
    ensures '/' !in SafeName(name) && '.' !in SafeName(name)
  {
    var s := SafeName(name);
    ReplaceOutsideFixed(s, IsAlnum);
    ToLowerKeepsLower(s);
  }

  /** What one call of snap does, by the kind of its content; the object with a screenshot
      method is checked before the plain object. */
  function SnapSpec(dir: string, c: SnapCall): (o: SnapOutcome)
    ensures o.Wrote? && c.content.Str? ==>
      o.path == Join(dir, SafeName(c.name) + ".txt") && Utf8Decode(o.bytes) == c.content.text
    ensures o.Wrote? && !c.content.Str? ==>
      && o.path == Join(dir, SafeName(c.name) + ".json")
      && Utf8Decode(o.bytes) == (if c.content.Obj? then c.content.json else "null")
    ensures o.Failed? <==>
      || (c.content.Obj? && c.content.screenshot.Some? && c.content.screenshot.value.ShotError?)
      || (c.content.Fun? && (c.content.run.Throws? || (c.page.Some? && c.page.value.ShotError?)))
  {
    var safe := SafeName(c.name);
    match c.content
    case Str(text) => Utf8RoundTrip(text); Wrote(Join(dir, safe + ".txt"), Utf8Encode(text))
    case Obj(Some(shot), _) => if shot.ShotError? then Failed(shot.message) else NoFile
    case Obj(None, json) => Utf8RoundTrip(json); Wrote(Join(dir, safe + ".json"), Utf8Encode(json))
    case Null => Utf8RoundTrip("null"); Wrote(Join(dir, safe + ".json"), Utf8Encode("null"))
    case Fun(Throws(m)) => Failed(m)
    case Fun(Completes) =>
      if c.page.Some? && c.page.value.ShotError? then Failed(c.page.value.message) else NoFile
    case Primitive => NoFile
  }

  function MainSnap(dir: string): SnapRule {
    c => SnapSpec(dir, c)
  }

  /** Only strings and plain objects (null included) produce a file, and snap returns a path
      exactly when it wrote one. */
  lemma SnapWritesFile(dir: string, c: SnapCall)
    ensures var o := SnapSpec(dir, c);
      && (o.Wrote? <==> c.content.Str? || c.content.Null? || (c.content.Obj? && c.content.screenshot.None?))
      && (ExitOf(o).SnapReturned? && ExitOf(o).path.Some? <==> o.Wrote?)
  {
  }

  /** The file snap writes lies in the output directory; its name is the safe name with
      ".txt" for a string and ".json" otherwise, which is also what the MIME table says of
      it when the name is not empty. */
  lemma SnapFileName(dir: string, c: SnapCall)
    requires SnapSpec(dir, c).Wrote?
    ensures var p := SnapSpec(dir, c).path;
      && Basename(p) == SafeName(c.name) + (if c.content.Str? then ".txt" else ".json")
      && (|c.name| > 0 ==>
            XrayHelper.GetMimeType(Basename(p)) == (if c.content.Str? then TextType else JsonType))
  {
    var safe := SafeName(c.name);
    SafeNameIdempotent(c.name);
    var name := safe + (if c.content.Str? then ".txt" else ".json");
    BasenameJoin(dir, name);
    if |c.name| > 0 {
      if c.content.Str? {
        TextFileType(safe);
      } else {
        JsonFileType(safe);
      }
    }
  }

  lemma TextFileType(stem: string)
    requires '/' !in stem && '.' !in stem && |stem| > 0
    ensures XrayHelper.GetMimeType(stem + ".txt") == TextType
  {
    var e := "txt";
    assert e[0] != '.' && forall i :: 0 <= i < |e| ==> e[i] != '.' && e[i] != '/' && !IsUpper(e[i]);
    assert "." + e == ".txt" && XrayHelper.MimeTypes[".txt"] == "text/plain";
    XrayHelper.MimeTypeOfListed(stem, e);
    assert stem + ".txt" == stem + "." + e;
  }

  lemma JsonFileType(stem: string)
    requires '/' !in stem && '.' !in stem && |stem| > 0
    ensures XrayHelper.GetMimeType(stem + ".json") == JsonType
  {
    var e := "json";
    assert e[0] != '.' && forall i :: 0 <= i < |e| ==> e[i] != '.' && e[i] != '/' && !IsUpper(e[i]);
    assert "." + e == ".json" && XrayHelper.MimeTypes[".json"] == "application/json";
    XrayHelper.MimeTypeOfListed(stem, e);
    assert stem + ".json" == stem + "." + e;
  }

  /** snap(testInfo, name, content, page) */
  method Snap(ctx: TestContext, c: SnapCall) returns (exit: SnapExit)
    modifies ctx`files, ctx`active
    ensures var o := SnapSpec(ctx.outputDir, c);
      && exit == ExitOf(o)
      && ctx.files == Store(old(ctx.files), o)
      && ctx.active == Register(old(ctx.active), o)
  {
    var safe := SafeName(c.name);
    var filePath: Option<string> := None;
    match c.content {
      case Str(text) =>
        filePath := Some(Join(ctx.outputDir, safe + ".txt"));
        ctx.files := ctx.files[filePath.value := Utf8Encode(text)];
      case Obj(shot, json) =>
        if shot.Some? {
          if shot.value.ShotError? {
            return SnapRaised(shot.value.message);
          }
        } else {
          filePath := Some(Join(ctx.outputDir, safe + ".json"));
          ctx.files := ctx.files[filePath.value := Utf8Encode(json)];
        }
      case Null =>
        filePath := Some(Join(ctx.outputDir, safe + ".json"));
        ctx.files := ctx.files[filePath.value := Utf8Encode("null")];
      case Fun(run) =>
        if run.Throws? {
          return SnapRaised(run.message);
        }
        if c.page.Some? && c.page.value.ShotError? {
          return SnapRaised(c.page.value.message);
        }
      case Primitive =>
    }
    if filePath.Some? && ctx.active.Some? {
      ctx.active := Some(ctx.active.value + [filePath.value]);
    }
    return SnapReturned(filePath);
  }

  // ---------------------------------------------------------------------------------------
  // Evidence of a step

  const JsonType := "application/json"
  const TextType := "text/plain"

  /** The evidence of a file snapped during the step, typed by its ".json" suffix. */
  function SnappedOf(files: FileStore, p: string): Evidence
    requires p in files
  {
    Evidence(Base64(files[p]), Basename(p), if EndsWith(p, ".json") then JsonType else TextType)
  }

  /** extractedEvidences.forEach(...): one evidence per readable path, in order; a path that
      cannot be read is skipped. */
  function SnappedEvidence(files: FileStore, paths: seq<string>): (r: seq<Evidence>)
    ensures |r| <= |paths|
    decreases |paths|
  {
    if |paths| == 0 then []
    else
      var init := paths[..|paths| - 1];
      var last := paths[|paths| - 1];
      assert forall p :: p in init ==> p in paths;
      var r := SnappedEvidence(files, init);
      if last in files then r + [SnappedOf(files, last)] else r
  }

  /** When every path can be read, the evidence is one per path, in order. */
  lemma {:induction false} SnappedEvidenceAll(files: FileStore, paths: seq<string>)
    requires forall i :: 0 <= i < |paths| ==> paths[i] in files
    ensures var r := SnappedEvidence(files, paths);
      |r| == |paths| && forall i :: 0 <= i < |paths| ==> r[i] == SnappedOf(files, paths[i])
    decreases |paths|
  {
    if |paths| > 0 {
      var init := paths[..|paths| - 1];
      SnappedEvidenceAll(files, init);
      SnappedEvidenceSnoc(files, init, paths);
    }
  }

  /** One readable path more adds its evidence at the end. */
  lemma SnappedEvidenceSnoc(files: FileStore, init: seq<string>, paths: seq<string>)
    requires |paths| > 0 && init == paths[..|paths| - 1] && paths[|paths| - 1] in files
    requires var pre := SnappedEvidence(files, init);
      |pre| == |init| && forall i :: 0 <= i < |init| ==> init[i] in files && pre[i] == SnappedOf(files, init[i])
    ensures var r := SnappedEvidence(files, paths);
      |r| == |paths| && forall i :: 0 <= i < |paths| ==> paths[i] in files && r[i] == SnappedOf(files, paths[i])
  {
    var pre := SnappedEvidence(files, init);
    var r := SnappedEvidence(files, paths);
    var last := SnappedOf(files, paths[|paths| - 1]);
    assert r == pre + [last];
    SnocPointwise(init, paths, pre, last, r, (p: string) => p in files,
                  (p: string, e: Evidence) => p in files && e == SnappedOf(files, p));
  }

  /** Every snapped evidence comes from a readable path of the list. */
  lemma {:induction false} SnappedEvidenceFrom(files: FileStore, paths: seq<string>)
    ensures forall e :: e in SnappedEvidence(files, paths) ==> exists p :: p in paths && p in files && e == SnappedOf(files, p)
    decreases |paths|
  {
    if |paths| > 0 {
      var init := paths[..|paths| - 1];
      var last := paths[|paths| - 1];
      SnappedEvidenceFrom(files, init);
      assert forall p :: p in init ==> p in paths;
    }
  }

  /** The additional paths kept by the second loop: taken from the de-duplicated list, skipping
      those that were snapped and those that cannot be read. */
  function ExtraPaths(files: FileStore, unique: seq<string>, extracted: seq<string>): (r: seq<string>)
    ensures forall p :: p in r <==> p in unique && p !in extracted && p in files
    ensures Distinct(unique) ==> Distinct(r)
    decreases |unique|
  {
    if |unique| == 0 then []
    else
      var init := unique[..|unique| - 1];
      var last := unique[|unique| - 1];
      assert unique == init + [last];
      var r := ExtraPaths(files, init, extracted);
      if last in extracted || last !in files then r else r + [last]
  }

  function OctetOf(files: FileStore, p: string): Evidence
    requires p in files
  {
    Evidence(Base64(files[p]), Basename(p), XrayHelper.OctetStream)
  }

  /** uniquePaths.forEach(...): the additional evidence, one octet-stream evidence per kept
      path, in order. */
  function ExtraEvidence(files: FileStore, unique: seq<string>, extracted: seq<string>): (r: seq<Evidence>)
    ensures var ps := ExtraPaths(files, unique, extracted);
      |r| == |ps| && forall i :: 0 <= i < |ps| ==> ps[i] in files && r[i] == OctetOf(files, ps[i])
    decreases |unique|
  {
    if |unique| == 0 then []
    else
      var init := unique[..|unique| - 1];
      var last := unique[|unique| - 1];
      var r := ExtraEvidence(files, init, extracted);
      if last in extracted || last !in files then r else r + [OctetOf(files, last)]
  }

  /** The merge rule: the paths handed in as additional evidence that were neither snapped
      during the step nor repeated, and that can be read, each give exactly one evidence. */
  lemma ExtraPathsOfMerge(files: FileStore, additional: seq<string>, extracted: seq<string>)
    ensures var ps := ExtraPaths(files, Dedup(additional + extracted), extracted);
      && Distinct(ps)
      && forall p :: p in ps <==> p in additional && p !in extracted && p in files
  {
    var u := Dedup(additional + extracted);
    assert forall p :: p in additional + extracted <==> p in additional || p in extracted;
  }

  // ---------------------------------------------------------------------------------------
  // executeXrayStep

  const PngType := "image/png"

  /** The success screenshot, taken only when asked for and when there is a page; a failed
      screenshot is only logged. */
  function SuccessShot(page: Option<StepShots>, opts: StepOptions, n: nat): seq<Evidence> {
    if opts.captureScreenshot && page.Some? && page.value.success.Captured? then
      [Evidence(Base64(page.value.success.png), "step-" + NatToString(n + 1) + "-success.png", PngType)]
    else []
  }

  /** The full-page failure screenshot, taken whenever there is a page; a failed screenshot
      is only logged. */
  function FailureShot(page: Option<StepShots>, n: nat): seq<Evidence> {
    if page.Some? && page.value.failure.Captured? then
      [Evidence(Base64(page.value.failure.png), "step-" + NatToString(n + 1) + "-failure.png", PngType)]
    else []
  }

  /** The record of a step that ran, and how the call ends, from what its body did; n is
      the number of records before it. */
  function Finish(c: StepCall, n: nat, run: BodyRun): (StepRecord, StepExit) {
    var snapped := SnappedEvidence(run.files, run.extracted);
    var extra := ExtraEvidence(run.files, Dedup(c.opts.additionalEvidences + run.extracted), run.extracted);
    match run.completion
    case Completes =>
      (StepRecord(PASSED, c.name, SuccessShot(c.page, c.opts, n) + snapped + extra), Returned)
    case Throws(m) =>
      (StepRecord(FAILED, c.name + " - FAILED: " + StripAnsi(m), FailureShot(c.page, n) + snapped + extra),
       Raised(m))
  }

  /** One call of executeXrayStep: the new state of the test and how the call ends. */
  function StepSpec(dir: string, st: StepState, c: StepCall): (r: (StepState, StepExit))
    ensures OneRecordAppended(st.steps, r.0.steps, c.name, r.1.Raised?)
  {
    if AnyFailed(st.steps) then (st.(steps := st.steps + [SkippedRecord(c.name)]), Returned)
    else
      var run := RunBody(MainSnap(dir), st.files, [], c.body.snaps, c.body.end);
      var (rec, exit) := Finish(c, |st.steps|, run);
      (StepState(st.steps + [rec], None, run.files, st.ran + [c.name]), exit)
  }

  /** How the body of a step would end. */
  function Outcome(dir: string, c: StepCall): Completion {
    BodyCompletion(MainSnap(dir), c.body.snaps, c.body.end)
  }

  /** Every call appends exactly one record and keeps the earlier ones: TODO
      "<name> (Skipped)" without running the body once a step has FAILED, otherwise PASSED or
      FAILED as the body ends. The active step is gone afterwards. */
  lemma {:induction false} OneRecordPerStep(dir: string, st: StepState, c: StepCall)
    ensures var (st', _) := StepSpec(dir, st, c);
      && |st'.steps| == |st.steps| + 1 && st'.steps[..|st.steps|] == st.steps
      && st'.steps[|st.steps|].status ==
           (if AnyFailed(st.steps) then TODO else if Outcome(dir, c).Completes? then PASSED else FAILED)
      && (AnyFailed(st.steps) ==> st'.steps[|st.steps|] == SkippedRecord(c.name) && st'.ran == st.ran
                                  && st'.files == st.files && st'.active == st.active)
      && (!AnyFailed(st.steps) ==> st'.ran == st.ran + [c.name] && st'.active.None?)
  {
    RunBodyCompletion(MainSnap(dir), st.files, [], c.body.snaps, c.body.end);
  }

  /** The success path: one PASSED record named after the step; the screenshot, named after
      the number of records before it, comes first exactly when it was asked for, there is a
      page and it was taken; then come the snapped and the additional evidence. */
  lemma SuccessPath(dir: string, st: StepState, c: StepCall)
    requires !AnyFailed(st.steps) && Outcome(dir, c) == Completes
    ensures var (st', exit) := StepSpec(dir, st, c);
      var run := RunBody(MainSnap(dir), st.files, [], c.body.snaps, c.body.end);
      var rec := st'.steps[|st.steps|];
      && exit == Returned && |st'.steps| == |st.steps| + 1
      && rec.status == PASSED && rec.actualResult == c.name
      && (c.opts.captureScreenshot && c.page.Some? && c.page.value.success.Captured? ==>
            rec.evidences[0] == Evidence(Base64(c.page.value.success.png),
                                         "step-" + NatToString(|st.steps| + 1) + "-success.png", PngType))
      && rec.evidences == SuccessShot(c.page, c.opts, |st.steps|)
           + SnappedEvidence(run.files, run.extracted)
           + ExtraEvidence(run.files, Dedup(c.opts.additionalEvidences + run.extracted), run.extracted)
  {
    RunBodyCompletion(MainSnap(dir), st.files, [], c.body.snaps, c.body.end);
  }

  /** The failure path: one FAILED record carrying the error without ANSI codes, whatever the
      failure screenshot did; the original error is thrown again. */
  lemma FailurePath(dir: string, st: StepState, c: StepCall, m: string)
    requires !AnyFailed(st.steps) && Outcome(dir, c) == Throws(m)
    ensures var (st', exit) := StepSpec(dir, st, c);
      var run := RunBody(MainSnap(dir), st.files, [], c.body.snaps, c.body.end);
      var rec := st'.steps[|st.steps|];
      && exit == Raised(m) && |st'.steps| == |st.steps| + 1 && st'.active.None?
      && rec.status == FAILED && rec.actualResult == c.name + " - FAILED: " + StripAnsi(m)
      && rec.evidences == FailureShot(c.page, |st.steps|)
           + SnappedEvidence(run.files, run.extracted)
           + ExtraEvidence(run.files, Dedup(c.opts.additionalEvidences + run.extracted), run.extracted)
  {
    RunBodyCompletion(MainSnap(dir), st.files, [], c.body.snaps, c.body.end);
  }

  /** The evidences `ev` hold, from index `from` on, one snapped evidence per extracted path,
      in order. */
  predicate SnappedFrom(ev: seq<Evidence>, from: nat, files: FileStore, extracted: seq<string>) {
    && from + |extracted| <= |ev|
    && forall i :: 0 <= i < |extracted| ==>
         extracted[i] in files && ev[from + i] == SnappedOf(files, extracted[i])
  }

  /** Every file snapped during a step that ran becomes one evidence of its record, in the
      order of the snaps, right after the screenshot. */
  lemma SnapsBecomeEvidence(dir: string, st: StepState, c: StepCall)
    requires !AnyFailed(st.steps)
    ensures var run := RunBody(MainSnap(dir), st.files, [], c.body.snaps, c.body.end);
      var shot := if run.completion.Completes? then SuccessShot(c.page, c.opts, |st.steps|)
                  else FailureShot(c.page, |st.steps|);
      && |StepSpec(dir, st, c).0.steps| == |st.steps| + 1
      && SnappedFrom(StepSpec(dir, st, c).0.steps[|st.steps|].evidences, |shot|, run.files, run.extracted)
  {
    var run := RunBody(MainSnap(dir), st.files, [], c.body.snaps, c.body.end);
    RunBodyRegistersWrittenFiles(MainSnap(dir), st.files, [], c.body.snaps, c.body.end);
    FinishSnapped(c, |st.steps|, run);
    StepSpecRecord(dir, st, c);
  }

  lemma StepSpecRecord(dir: string, st: StepState, c: StepCall)
    requires !AnyFailed(st.steps)
    ensures StepSpec(dir, st, c).0.steps
      == st.steps + [Finish(c, |st.steps|, RunBody(MainSnap(dir), st.files, [], c.body.snaps, c.body.end)).0]
  {
  }

  lemma FinishSnapped(c: StepCall, n: nat, run: BodyRun)
    requires forall p :: p in run.extracted ==> p in run.files
    ensures var shot := if run.completion.Completes? then SuccessShot(c.page, c.opts, n) else FailureShot(c.page, n);
      SnappedFrom(Finish(c, n, run).0.evidences, |shot|, run.files, run.extracted)
  {
    var shot := if run.completion.Completes? then SuccessShot(c.page, c.opts, n) else FailureShot(c.page, n);
    var snapped := SnappedEvidence(run.files, run.extracted);
    var extra := ExtraEvidence(run.files, Dedup(c.opts.additionalEvidences + run.extracted), run.extracted);
    assert Finish(c, n, run).0.evidences == shot + snapped + extra by {
      if run.completion.Completes? {
        assert Finish(c, n, run).0 == StepRecord(PASSED, c.name, shot + snapped + extra);
      }
    }
    assert forall i :: 0 <= i < |run.extracted| ==> run.extracted[i] in run.files;
    SnappedEvidenceAll(run.files, run.extracted);
    SnappedAfter(shot, snapped, extra, run.files, run.extracted);
  }

  lemma SnappedAfter(shot: seq<Evidence>, snapped: seq<Evidence>, extra: seq<Evidence>, files: FileStore,
                     extracted: seq<string>)
    requires forall i :: 0 <= i < |extracted| ==> extracted[i] in files
    requires |snapped| == |extracted| && forall i :: 0 <= i < |extracted| ==> snapped[i] == SnappedOf(files, extracted[i])
    ensures SnappedFrom(shot + snapped + extra, |shot|, files, extracted)
  {
    forall i | 0 <= i < |extracted|
      ensures (shot + snapped + extra)[|shot| + i] == snapped[i]
    {
    }
  }

  /** A sequence of calls, each made whatever the previous one threw. */
  function RunSteps(dir: string, st: StepState, calls: seq<StepCall>): StepState
    decreases |calls|
  {
    if |calls| == 0 then st
    else StepSpec(dir, RunSteps(dir, st, calls[..|calls| - 1]), calls[|calls| - 1]).0
  }

  function Names(calls: seq<StepCall>): (r: seq<string>)
    ensures |r| == |calls| && forall i :: 0 <= i < |calls| ==> r[i] == calls[i].name
  {
    seq(|calls|, i requires 0 <= i < |calls| => calls[i].name)
  }

  /** k is the index of the first call whose body throws (|calls| when none does). */
  predicate FirstFailure(dir: string, calls: seq<StepCall>, k: nat) {
    && k <= |calls|
    && (forall i :: 0 <= i < k ==> Outcome(dir, calls[i]).Completes?)
    && (k < |calls| ==> Outcome(dir, calls[k]).Throws?)
  }

  /** The records the auto-skip rule gives for calls whose first failing one is k: PASSED
      before it, FAILED at it, TODO "<name> (Skipped)" after it. */
  predicate SkipPattern(steps: seq<StepRecord>, calls: seq<StepCall>, k: nat) {
    && |steps| == |calls|
    && forall i :: 0 <= i < |steps| ==>
         && steps[i].status == (if i < k then PASSED else if i == k then FAILED else TODO)
         && (k < i ==> steps[i] == SkippedRecord(calls[i].name))
  }

  lemma SkipPatternFailed(steps: seq<StepRecord>, calls: seq<StepCall>, k: nat)
    requires SkipPattern(steps, calls, k)
    ensures AnyFailed(steps) <==> k < |steps|
  {
    if k < |steps| { assert steps[k].status == FAILED; }
  }

  lemma SkipPatternExtend(steps: seq<StepRecord>, calls: seq<StepCall>, k: nat, rec: StepRecord, c: StepCall)
    requires SkipPattern(steps, calls, k)
    requires rec.status == (if |steps| < k then PASSED else if |steps| == k then FAILED else TODO)
    requires k < |steps| ==> rec == SkippedRecord(c.name)
    ensures SkipPattern(steps + [rec], calls + [c], k)
  {
    var s', c' := steps + [rec], calls + [c];
    forall i | 0 <= i < |s'|
      ensures s'[i].status == (if i < k then PASSED else if i == k then FAILED else TODO)
      ensures k < i ==> s'[i] == SkippedRecord(c'[i].name)
    {
      if i < |steps| { assert s'[i] == steps[i] && c'[i] == calls[i]; }
    }
  }

  /** Auto-skip: in a fresh test, the steps before the first failing one are PASSED, it is
      FAILED, and every later one is TODO "<name> (Skipped)"; exactly the bodies up to the
      failing one run. */
  lemma {:induction false} AutoSkip(dir: string, files: FileStore, calls: seq<StepCall>, k: nat)
    requires FirstFailure(dir, calls, k)
    ensures var st := RunSteps(dir, StepState([], None, files, []), calls);
      && SkipPattern(st.steps, calls, k)
      && st.ran == Names(calls[..if k < |calls| then k + 1 else |calls|])
    decreases |calls|
  {
    var st0 := StepState([], None, files, []);
    if |calls| > 0 {
      var n := |calls| - 1;
      var init := calls[..n];
      var k' := if k < n then k else n;
      FirstFailureInit(dir, calls, k);
      AutoSkip(dir, files, init, k');
      var prev := RunSteps(dir, st0, init);
      assert RunSteps(dir, st0, calls) == StepSpec(dir, prev, calls[n]).0;
      SkipPatternFailed(prev.steps, init, k');
      SkipPatternWiden(prev.steps, init, k', k);
      OneRecordPerStep(dir, prev, calls[n]);
      var st := StepSpec(dir, prev, calls[n]).0;
      assert st.steps == prev.steps + [st.steps[n]];
      SkipPatternExtend(prev.steps, init, k, st.steps[n], calls[n]);
      RanPrefix(calls, k);
    }
  }

  /** Without the last call, the first failure is where it was, or nowhere. */
  lemma FirstFailureInit(dir: string, calls: seq<StepCall>, k: nat)
    requires |calls| > 0 && FirstFailure(dir, calls, k)
    ensures var n := |calls| - 1;
      FirstFailure(dir, calls[..n], if k < n then k else n)
  {
    var n := |calls| - 1;
    assert forall i :: 0 <= i < n ==> calls[..n][i] == calls[i];
  }

  lemma SkipPatternWiden(steps: seq<StepRecord>, calls: seq<StepCall>, k': nat, k: nat)
    requires SkipPattern(steps, calls, k') && (k' == k || (k' == |steps| && k' <= k))
    ensures SkipPattern(steps, calls, k)
  {
  }

  /** The bodies run after one more call, as prefixes of the calls. */
  lemma RanPrefix(calls: seq<StepCall>, k: nat)
    requires |calls| > 0
    ensures var n := |calls| - 1;
      && calls == calls[..n] + [calls[n]]
      && (k < n ==> calls[..n][..k + 1] == calls[..k + 1])
      && (k >= n ==> Names(calls[..if k < |calls| then k + 1 else |calls|]) == Names(calls[..n][..n]) + [calls[n].name])
  {
    var n := |calls| - 1;
    assert calls[..n][..n] == calls[..n];
    assert calls[..n + 1] == calls;
  }

  /** extractedEvidences.forEach over the snapped paths. */
  method CollectSnapped(files: FileStore, paths: seq<string>) returns (evs: seq<Evidence>)
    ensures evs == SnappedEvidence(files, paths)
  {
    evs := [];
    var i := 0;
    while i < |paths|
      invariant 0 <= i <= |paths|
      invariant evs == SnappedEvidence(files, paths[..i])
    {
      assert paths[..i + 1][..i] == paths[..i];
      var p := paths[i];
      if p in files {
        evs := evs + [SnappedOf(files, p)];
      }
      i := i + 1;
    }
    assert paths[..i] == paths;
  }

  /** uniquePaths.forEach over the de-duplicated paths. */
  method CollectExtra(files: FileStore, unique: seq<string>, extracted: seq<string>) returns (evs: seq<Evidence>)
    ensures evs == ExtraEvidence(files, unique, extracted)
  {
    evs := [];
    var i := 0;
    while i < |unique|
      invariant 0 <= i <= |unique|
      invariant evs == ExtraEvidence(files, unique[..i], extracted)
    {
      assert unique[..i + 1][..i] == unique[..i];
      var p := unique[i];
      if p !in extracted && p in files {
        evs := evs + [OctetOf(files, p)];
      }
      i := i + 1;
    }
    assert unique[..i] == unique;
  }

  /** Runs the snaps of a body while a step is active, stopping at the first that throws. */
  method RunSnaps(ctx: TestContext, body: Body) returns (completion: Completion)
    requires ctx.active.Some?
    modifies ctx`files, ctx`active
    ensures ctx.active.Some?
    ensures BodyRun(ctx.files, ctx.active.value, completion)
         == RunBody(MainSnap(ctx.outputDir), old(ctx.files), old(ctx.active.value), body.snaps, body.end)
  {
    ghost var run := RunBody(MainSnap(ctx.outputDir), ctx.files, ctx.active.value, body.snaps, body.end);
    var i := 0;
    var failed: Option<string> := None;
    while i < |body.snaps| && failed.None?
      invariant 0 <= i <= |body.snaps|
      invariant ctx.active.Some?
      invariant failed.None? ==>
        run == RunBody(MainSnap(ctx.outputDir), ctx.files, ctx.active.value, body.snaps[i..], body.end)
      invariant failed.Some? ==> run == BodyRun(ctx.files, ctx.active.value, Throws(failed.value))
      decreases |body.snaps| - i, if failed.None? then 1 else 0
    {
      RunBodyAt(MainSnap(ctx.outputDir), ctx.files, ctx.active.value, body.snaps, i, body.end);
      assert MainSnap(ctx.outputDir)(body.snaps[i]) == SnapSpec(ctx.outputDir, body.snaps[i]);
      var e := Snap(ctx, body.snaps[i]);
      if e.SnapRaised? {
        failed := Some(e.message);
      } else {
        i := i + 1;
      }
    }
    completion := if failed.Some? then Throws(failed.value) else body.end;
  }

  /** Builds the record of a step that ran: status, actual result, screenshot, snapped and
      additional evidence. */
  method RecordOf(c: StepCall, n: nat, files: FileStore, extracted: seq<string>, completion: Completion)
    returns (rec: StepRecord, exit: StepExit)
    ensures (rec, exit) == Finish(c, n, BodyRun(files, extracted, completion))
  {
    var status := PASSED;
    var actual := c.name;
    var evidences: seq<Evidence> := [];
    if completion.Completes? {
      if c.opts.captureScreenshot && c.page.Some? && c.page.value.success.Captured? {
        evidences := [Evidence(Base64(c.page.value.success.png), "step-" + NatToString(n + 1) + "-success.png", PngType)];
      }
    } else {
      status := FAILED;
      actual := c.name + " - FAILED: " + StripAnsi(completion.message);
      if c.page.Some? && c.page.value.failure.Captured? {
        evidences := [Evidence(Base64(c.page.value.failure.png), "step-" + NatToString(n + 1) + "-failure.png", PngType)];
      }
    }
    var snapped := CollectSnapped(files, extracted);
    var extra := CollectExtra(files, Dedup(c.opts.additionalEvidences + extracted), extracted);
    rec := StepRecord(status, actual, evidences + snapped + extra);
    exit := if completion.Throws? then Raised(completion.message) else Returned;
  }

  /** executeXrayStep(testInfo, name, body, page, options) */
  method ExecuteStep(ctx: TestContext, c: StepCall) returns (exit: StepExit)
    modifies ctx`steps, ctx`active, ctx`files, ctx`ran
    ensures (ctx.State(), exit) == StepSpec(ctx.outputDir, old(ctx.State()), c)
  {
    if AnyFailed(ctx.steps) {
      ctx.steps := ctx.steps + [SkippedRecord(c.name)];
      return Returned;
    }
    ctx.active := Some([]);
    ctx.ran := ctx.ran + [c.name];
    var completion := RunSnaps(ctx, c.body);
    var rec;
    rec, exit := RecordOf(c, |ctx.steps|, ctx.files, ctx.active.value, completion);
    ctx.steps := ctx.steps + [rec];
    ctx.active := None;
  }
}
