/** The result recorder of fixture/xray-fixtures.js (the `autoTestContext` fixture): after a
    test it reads the Xray key off the title, builds the result record and writes it to the
    results directory and to the global result list. */
module XrayResults {
  import opened Common
  import opened Records

  // ---------------------------------------------------------------------------------------
  // extractXrayKey: title.match(/^([A-Z]+-\d+):/)

  /** The length of the longest prefix of upper-case letters. */
  function UpperRun(s: string): (n: nat)
    ensures n <= |s|
    ensures forall i :: 0 <= i < n ==> IsUpper(s[i])
    ensures n < |s| ==> !IsUpper(s[n])
    decreases |s|
  {
    if |s| == 0 || !IsUpper(s[0]) then 0 else 1 + UpperRun(s[1..])
  }

  /** The length of the longest prefix of decimal digits. */
  function DigitRun(s: string): (n: nat)
    ensures n <= |s|
    ensures AllDigits(s[..n])
    ensures n < |s| ==> !IsDigit(s[n])
    decreases |s|
  {
    if |s| == 0 || !IsDigit(s[0]) then 0
    else
      var n := 1 + DigitRun(s[1..]);
      assert s[..n] == [s[0]] + s[1..][..n - 1];
      n
  }

  /** k is an Xray key like "PROJ-123" whose dash is at index u. */
  predicate KeyAt(k: string, u: int) {
    && 0 < u < |k| - 1
    && (forall i :: 0 <= i < u ==> IsUpper(k[i]))
    && k[u] == '-'
    && AllDigits(k[u + 1..])
  }

  /** k matches [A-Z]+-\d+ as a whole. */
  predicate KeyShaped(k: string) {
    exists u :: 0 < u < |k| && KeyAt(k, u)
  }

  /** The key of an Xray-linked title ("PROJ-123: does something"), None for any other title. */
  function ExtractXrayKey(title: string): (r: Option<string>)
    ensures r.Some? ==> KeyShaped(r.value) && StartsWith(title, r.value + ":")
  {
    var u := UpperRun(title);
    if 0 < u < |title| && title[u] == '-' then
      var d := DigitRun(title[u + 1..]);
      if 0 < d && u + 1 + d < |title| && title[u + 1 + d] == ':' then
        var k := title[..u + 1 + d];
        assert k[u + 1..] == title[u + 1..][..d];
        assert KeyAt(k, u);
        assert title[..|k + ":"|] == k + ":";
        Some(k)
      else None
    else None
  }

  /** The key is exactly what the pattern matches: the title is "<key>:..." for a key of the
      form [A-Z]+-\d+, and then no other key can be read off it. */
  lemma ExtractXrayKeyIff(title: string, k: string)
    ensures ExtractXrayKey(title) == Some(k) <==> KeyShaped(k) && StartsWith(title, k + ":")
  {
    if KeyShaped(k) && StartsWith(title, k + ":") {
      ExtractKnownKey(title, k);
    }
  }

  /** A title that starts with a key and a colon gives that key. */
  lemma ExtractKnownKey(title: string, k: string)
    requires KeyShaped(k) && StartsWith(title, k + ":")
    ensures ExtractXrayKey(title) == Some(k)
  {
    var u: int :| 0 < u < |k| && KeyAt(k, u);
    assert forall i :: 0 <= i < |k| ==> title[i] == k[i] by {
      assert title[..|k| + 1] == k + ":";
      forall i | 0 <= i < |k| ensures title[i] == k[i] {
        assert title[..|k| + 1][i] == (k + ":")[i];
      }
    }
    assert title[|k|] == ':' by { assert title[..|k| + 1][|k|] == (k + ":")[|k|]; }
    var n := UpperRun(title);
    assert !IsUpper(title[u]);
    assert n == u;
    var rest := title[u + 1..];
    var d := DigitRun(rest);
    var want := |k| - u - 1;
    assert forall i :: 0 <= i < want ==> IsDigit(rest[i]) by {
      forall i | 0 <= i < want ensures IsDigit(rest[i]) {
        assert rest[i] == k[u + 1 + i] == k[u + 1..][i];
      }
    }
    assert !IsDigit(rest[want]);
    assert d == want;
    assert title[..|k|] == k;
  }

  /** A key has only letters, digits and its one dash. */
  lemma KeyShapedChars(k: string)
    requires KeyShaped(k)
    ensures forall i :: 0 <= i < |k| ==> IsAlnum(k[i]) || k[i] == '-'
  {
    var u: int :| 0 < u < |k| && KeyAt(k, u);
    forall i | 0 <= i < |k| ensures IsAlnum(k[i]) || k[i] == '-' {
      if i > u { assert k[i] == k[u + 1..][i - u - 1]; }
    }
  }

  // ---------------------------------------------------------------------------------------
  // Status, duration and comment

  /** testInfo.status as Playwright reports it. */
  datatype RunnerStatus = Passed | Failed | TimedOut | Skipped | Interrupted

  function ResultStatus(s: RunnerStatus): (r: Status)
    ensures r == PASSED <==> s == Passed
    ensures r != TODO
  {
    if s == Passed then PASSED else FAILED
  }

  /** Math.floor(ms / 60000); Dafny's division by a positive divisor rounds down too. */
  function Minutes(ms: int): int {
    ms / 60000
  }

  /** JavaScript's %, whose result takes the sign of the dividend. */
  function JsRem(a: int, b: int): (r: int)
    requires b > 0
    ensures a >= 0 ==> 0 <= r < b
    ensures a < 0 ==> -b < r <= 0
  {
    if a >= 0 then a % b else -((-a) % b)
  }

  /** Math.floor((ms % 60000) / 1000). */
  function Seconds(ms: int): int {
    JsRem(ms, 60000) / 1000
  }

  /** For a run that did not go back in time, the duration is shown as whole minutes and a
      seconds part below 60, which together lose less than one second. */
  lemma DurationSplit(ms: int)
    requires ms >= 0
    ensures Minutes(ms) >= 0 && 0 <= Seconds(ms) < 60
    ensures Minutes(ms) * 60000 + Seconds(ms) * 1000 <= ms < Minutes(ms) * 60000 + Seconds(ms) * 1000 + 1000
  {
    var m, r := ms / 60000, ms % 60000;
    assert ms == m * 60000 + r;
    assert JsRem(ms, 60000) == r;
    var s := r / 1000;
    assert r == s * 1000 + r % 1000;
  }

  /** String(i) for any integer. */
  function IntToString(i: int): (r: string)
    ensures i >= 0 ==> r == NatToString(i)
    ensures i < 0 ==> r == "-" + NatToString(-i)
  {
    if i < 0 then "-" + NatToString(-i) else NatToString(i)
  }

  /** The stopwatch emoji, U+23F1 followed by the emoji variation selector. */
  const Stopwatch := "\U{23F1}\U{FE0F}"

  function DurationText(ms: int): string {
    Stopwatch + " Duration: " + IntToString(Minutes(ms)) + "m " + IntToString(Seconds(ms)) + "s"
  }

  const SuccessLine := "Test completed successfully\n"

  /** The comment: the error message without ANSI codes and a blank line, or a fixed line,
      then the duration, with nothing in between. */
  function Comment(error: Option<string>, ms: int): (r: string)
    ensures error.Some? ==> StartsWith(r, StripAnsi(error.value) + "\n\n")
    ensures error.None? ==> StartsWith(r, SuccessLine)
    ensures EndsWith(r, DurationText(ms))
    ensures |r| == (if error.Some? then |StripAnsi(error.value)| + 2 else |SuccessLine|) + |DurationText(ms)|
  {
    var head := if error.Some? then StripAnsi(error.value) + "\n\n" else SuccessLine;
    var r := head + DurationText(ms);
    assert r[..|head|] == head;
    assert r[|r| - |DurationText(ms)|..] == DurationText(ms);
    r
  }

  // ---------------------------------------------------------------------------------------
  // The execution-key annotation

  datatype Annotation = Annotation(kind: string, description: Option<string>)

  const ExecutionAnnotation := "xray_execution"

  /** The description of the first `xray_execution` annotation, None without one. */
  function TargetKey(anns: seq<Annotation>): Option<string>
    decreases |anns|
  {
    if |anns| == 0 then None
    else if anns[0].kind == ExecutionAnnotation then anns[0].description
    else TargetKey(anns[1..])
  }

  /** annotations.find: the first annotation of the right type wins. */
  lemma {:induction false} TargetKeyIsFirst(anns: seq<Annotation>, i: nat)
    requires i < |anns| && anns[i].kind == ExecutionAnnotation
    requires forall j :: 0 <= j < i ==> anns[j].kind != ExecutionAnnotation
    ensures TargetKey(anns) == anns[i].description
    decreases i
  {
    if i > 0 {
      assert anns[0].kind != ExecutionAnnotation;
      TargetKeyIsFirst(anns[1..], i - 1);
    }
  }

  /** Without such an annotation the target is null. */
  lemma {:induction false} TargetKeyAbsent(anns: seq<Annotation>)
    requires forall j :: 0 <= j < |anns| ==> anns[j].kind != ExecutionAnnotation
    ensures TargetKey(anns) == None
    decreases |anns|
  {
    if |anns| > 0 {
      TargetKeyAbsent(anns[1..]);
    }
  }

  // ---------------------------------------------------------------------------------------
  // The result and its file

  /** What Playwright reports about a finished test, and the clock readings the fixture
      takes after it: the end time and the Date.now() stamp of the file name. */
  datatype TestEnd = TestEnd(
    title: string,
    file: string,
    status: RunnerStatus,
    error: Option<string>,
    annotations: seq<Annotation>,
    end: Instant,
    stamp: nat)

  /** The result of a test, or None when its title carries no Xray key. */
  function BuildResult(steps: seq<StepRecord>, start: Instant, e: TestEnd): (r: Option<TestResult>)
    ensures r.Some? <==> ExtractXrayKey(e.title).Some?
    ensures r.Some? ==> r.value.testKey == ExtractXrayKey(e.title).value && r.value.steps == steps
  {
    match ExtractXrayKey(e.title)
    case None => None
    case Some(key) =>
      Some(TestResult(key, start.iso, e.end.iso, ResultStatus(e.status),
                      Comment(e.error, e.end.ms - start.ms), steps,
                      Some(Basename(e.file)), TargetKey(e.annotations)))
  }

  /** A result is built exactly for a title with a key; it carries that key, the verdict,
      the steps as recorded, the spec file's base name and the annotation's target. */
  lemma ResultFields(steps: seq<StepRecord>, start: Instant, e: TestEnd)
    ensures BuildResult(steps, start, e).Some? <==> ExtractXrayKey(e.title).Some?
    ensures match BuildResult(steps, start, e)
      case None => true
      case Some(r) =>
        && KeyShaped(r.testKey) && StartsWith(e.title, r.testKey + ":")
        && (r.status == PASSED <==> e.status == Passed) && r.status != TODO
        && r.steps == steps && r.start == start.iso && r.finish == e.end.iso
        && r.specFile == Some(Basename(e.file)) && r.targetExecutionKey == TargetKey(e.annotations)
        && (e.error.Some? ==> StartsWith(r.comment, StripAnsi(e.error.value) + "\n\n"))
  {
    match BuildResult(steps, start, e)
    case None =>
    case Some(r) =>
      if e.error.Some? {
        var head := StripAnsi(e.error.value) + "\n\n";
        assert r.comment == head + DurationText(e.end.ms - start.ms);
        assert r.comment[..|head|] == head;
      }
  }

  /** key.replace(/[^a-z0-9]/gi, '_'): letters and digits are kept and every other UTF-16
      code unit becomes '_'. */
  function SafeKey(key: string): (r: string)
    ensures |r| >= |key|
    ensures forall i :: 0 <= i < |r| ==> IsAlnum(r[i]) || r[i] == '_'
    ensures InBmp(key) ==>
      && |r| == |key|
      && (forall i :: 0 <= i < |key| ==> (r[i] == '_' <==> !IsAlnum(key[i])))
      && (forall i :: 0 <= i < |key| && IsAlnum(key[i]) ==> r[i] == key[i])
  {
    ReplaceOutsideBmp(key, IsAlnum);
    ReplaceOutside(key, IsAlnum)
  }

  function ResultFileName(key: string, stamp: nat): string {
    "result-" + SafeKey(key) + "-" + NatToString(stamp) + ".json"
  }

  /** The part of the file name between "result-" and ".json". */
  lemma ResultFileNameMiddle(k: string, t: nat)
    ensures var n := ResultFileName(k, t);
      |n| >= 12 && n[7..|n| - 5] == SafeKey(k) + "-" + NatToString(t)
  {
    var m := SafeKey(k) + "-" + NatToString(t);
    var n := ResultFileName(k, t);
    assert n == "result-" + m + ".json";
    assert n[7..|n| - 5] == m;
  }

  /** Two strings split at their first dash split the same way. */
  lemma SplitAtDash(a: string, b: string, c: string, d: string)
    requires '-' !in a && '-' !in c
    requires a + "-" + b == c + "-" + d
    ensures a == c && b == d
  {
    var s := a + "-" + b;
    assert |a| == |c| by {
      assert s[|a|] == '-' && (c + "-" + d)[|c|] == '-';
    }
    assert a == s[..|a|] == c;
    assert b == s[|a| + 1..] == d;
  }

  /** Two keys with the same safe form are the same key. */
  lemma SafeKeyInjective(k1: string, k2: string)
    requires KeyShaped(k1) && KeyShaped(k2) && SafeKey(k1) == SafeKey(k2)
    ensures k1 == k2
  {
    KeyShapedChars(k1);
    KeyShapedChars(k2);
    assert InBmp(k1) && InBmp(k2);
    forall i | 0 <= i < |k1| ensures k1[i] == k2[i] {
      assert SafeKey(k1)[i] == SafeKey(k2)[i];
    }
  }

  /** Result files of different keys, or written at different milliseconds, have different
      names: one test's result never overwrites another's. */
  lemma ResultFileNameInjective(k1: string, t1: nat, k2: string, t2: nat)
    requires KeyShaped(k1) && KeyShaped(k2)
    requires ResultFileName(k1, t1) == ResultFileName(k2, t2)
    ensures k1 == k2 && t1 == t2
  {
    ResultFileNameMiddle(k1, t1);
    ResultFileNameMiddle(k2, t2);
    SplitAtDash(SafeKey(k1), NatToString(t1), SafeKey(k2), NatToString(t2));
    SafeKeyInjective(k1, k2);
    NatToStringInjective(t1, t2);
  }

  /** What recording does: nothing without a key; otherwise the result is written to its
      file (the write fails when the directory is gone, and then nothing is pushed) and
      appended to the global list. */
  datatype RecordOutcome = NotRecorded | Recorded(name: string) | WriteFailed

  function RecordSpec(dir: Option<seq<DirEntry>>, global: seq<TestResult>, result: Option<TestResult>, stamp: nat)
    : (r: (Option<seq<DirEntry>>, seq<TestResult>, RecordOutcome))
    ensures r.2.Recorded? <==> result.Some? && dir.Some?
    ensures r.2.Recorded? ==>
      r.0.Some? && DirEntry(r.2.name, ResultJson(result.value)) in r.0.value && r.1 == global + [result.value]
    ensures !r.2.Recorded? ==> r.0 == dir && r.1 == global
  {
    match result
    case None => (dir, global, NotRecorded)
    case Some(r) =>
      if dir.None? then (dir, global, WriteFailed)
      else
        var name := ResultFileName(r.testKey, stamp);
        (Some(WriteEntry(dir.value, name, ResultJson(r))), global + [r], Recorded(name))
  }

  /** A recorded result is in its file and at the end of the global list; every other file
      is kept and no other result is pushed. */
  lemma RecordedKeepsOthers(dir: seq<DirEntry>, global: seq<TestResult>, r: TestResult, stamp: nat)
    ensures var (dir', global', out) := RecordSpec(Some(dir), global, Some(r), stamp);
      && out == Recorded(ResultFileName(r.testKey, stamp)) && global' == global + [r] && dir'.Some?
      && DirEntry(ResultFileName(r.testKey, stamp), ResultJson(r)) in dir'.value
      && (forall e :: e in dir && e.name != ResultFileName(r.testKey, stamp) ==> e in dir'.value)
      && (forall e :: e in dir'.value ==> e in dir || e == DirEntry(ResultFileName(r.testKey, stamp), ResultJson(r)))
  {
  }

  /** Two tests recorded one after the other both keep their files, unless they have the
      same key and the same millisecond stamp. */
  lemma TwoResultsTwoFiles(dir: seq<DirEntry>, r1: TestResult, t1: nat, r2: TestResult, t2: nat)
    requires KeyShaped(r1.testKey) && KeyShaped(r2.testKey)
    requires r1.testKey != r2.testKey || t1 != t2
    ensures var d1 := WriteEntry(dir, ResultFileName(r1.testKey, t1), ResultJson(r1));
      var d2 := WriteEntry(d1, ResultFileName(r2.testKey, t2), ResultJson(r2));
      DirEntry(ResultFileName(r1.testKey, t1), ResultJson(r1)) in d2
  {
    if ResultFileName(r1.testKey, t1) == ResultFileName(r2.testKey, t2) {
      ResultFileNameInjective(r1.testKey, t1, r2.testKey, t2);
    }
  }

  /** The start of the fixture: the test starts with no steps at the given time. */
  method Begin(ctx: TestContext, now: Instant)
    modifies ctx`steps, ctx`startTime
    ensures ctx.steps == [] && ctx.startTime == now
  {
    ctx.steps := [];
    ctx.startTime := now;
  }

  /** The end of the fixture, once the test body has run. */
  method Record(ws: Workspace, ctx: TestContext, e: TestEnd) returns (out: RecordOutcome)
    modifies ws`resultsDir, ws`globalResults
    ensures (ws.resultsDir, ws.globalResults, out)
      == RecordSpec(old(ws.resultsDir), old(ws.globalResults), BuildResult(ctx.steps, ctx.startTime, e), e.stamp)
  {
    var result := BuildResult(ctx.steps, ctx.startTime, e);
    if result.None? {
      return NotRecorded;
    }
    out := Store(ws, result.value, e.stamp);
  }

  /** The result is written to its file and pushed onto the global list; without a results
      directory the write throws and nothing is kept. */
  method Store(ws: Workspace, r: TestResult, stamp: nat) returns (out: RecordOutcome)
    modifies ws`resultsDir, ws`globalResults
    ensures (ws.resultsDir, ws.globalResults, out) == RecordSpec(old(ws.resultsDir), old(ws.globalResults), Some(r), stamp)
  {
    if ws.resultsDir.None? {
      return WriteFailed;
    }
    var name := ResultFileName(r.testKey, stamp);
    ws.resultsDir := Some(WriteEntry(ws.resultsDir.value, name, ResultJson(r)));
    ws.globalResults := ws.globalResults + [r];
    out := Recorded(name);
  }
}
