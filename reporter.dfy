/** The single-file HTML reporter (single-html-reporter.js): how a finished test's step tree
    is filtered and flattened, how its attachments are handed out to the steps, each at most
    once, and how the run's results are counted. */
module HtmlReporter {
  import opened Common
  import opened Records

  // ---------------------------------------------------------------------------------------
  // stripAnsi

  /** The reporter's stripAnsi: '' for a falsy value, the text without escape sequences
      otherwise. */
  function StripAnsiOrEmpty(s: Option<string>): (r: string)
    ensures !Truthy(s) ==> r == ""
    ensures Truthy(s) ==> |r| <= |s.value| && (NoIntroducer(s.value) ==> r == s.value)
  {
    if !Truthy(s) then "" else StripAnsi(s.value)
  }

  /** stripAnsi(message).trim(), as applied to every error message before the report is
      written. */
  function CleanMessage(m: string): (r: string)
    ensures |r| <= |m|
    ensures m == "" ==> r == ""
    ensures NoIntroducer(m) ==> r == Trim(m)
  {
    Trim(StripAnsiOrEmpty(Some(m)))
  }

  // ---------------------------------------------------------------------------------------
  // Attachments

  /** An attachment as the runner reports it: a file path, an in-memory body, or both. */
  datatype Attachment = Attachment(name: string, contentType: string, path: Option<string>, body: Option<seq<byte>>)

  /** A data URI for an image, the bytes read as UTF-8 text for anything else. */
  datatype Content = DataUri(uri: string) | Text(text: string)

  datatype Processed = Processed(name: string, contentType: string, content: Option<Content>)

  function Encode(contentType: string, bytes: seq<byte>): Content {
    if StartsWith(contentType, "image/") then DataUri("data:" + contentType + ";base64," + Base64(bytes))
    else Text(Utf8Decode(bytes))
  }

  /** The pre-processing of one attachment: a path (when truthy) is read, and a missing
      file gives no content; otherwise the body is used when there is one. */
  function Preprocess(files: FileStore, a: Attachment): (p: Processed)
    ensures p.name == a.name && p.contentType == a.contentType
    ensures p.content.None? <==> (Truthy(a.path) && a.path.value !in files) || (!Truthy(a.path) && a.body.None?)
  {
    var bytes := if Truthy(a.path) then (if a.path.value in files then Some(files[a.path.value]) else None)
                 else a.body;
    Processed(a.name, a.contentType, if bytes.Some? then Some(Encode(a.contentType, bytes.value)) else None)
  }

  /** Content is missing exactly when there is neither a readable file nor a body; an
      image becomes the data URI of its type and the Base64 of its bytes, anything else
      UTF-8 text. */
  predicate ProcessedFrom(files: FileStore, a: Attachment, p: Processed) {
    && p.name == a.name && p.contentType == a.contentType
    && (p.content.None? <==> (Truthy(a.path) && a.path.value !in files) || (!Truthy(a.path) && a.body.None?))
    && (p.content.Some? ==>
          var bytes := if Truthy(a.path) then files[a.path.value] else a.body.value;
          && (StartsWith(a.contentType, "image/") ==>
                && p.content.value == DataUri("data:" + a.contentType + ";base64," + Base64(bytes))
                && StartsWith(p.content.value.uri, "data:" + a.contentType + ";base64,"))
          && (!StartsWith(a.contentType, "image/") ==> p.content.value == Text(Utf8Decode(bytes))))
  }

  lemma PreprocessContent(files: FileStore, a: Attachment)
    ensures ProcessedFrom(files, a, Preprocess(files, a))
  {
    var p := Preprocess(files, a);
    if p.content.Some? && StartsWith(a.contentType, "image/") {
      var bytes := if Truthy(a.path) then files[a.path.value] else a.body.value;
      var head := "data:" + a.contentType + ";base64,";
      assert p.content.value.uri == head + Base64(bytes);
      assert (head + Base64(bytes))[..|head|] == head;
    }
  }

  lemma PreprocessEach(files: FileStore, atts: seq<Attachment>)
    ensures forall i :: 0 <= i < |atts| ==> ProcessedFrom(files, atts[i], Preprocess(files, atts[i]))
  {
    forall i | 0 <= i < |atts| ensures ProcessedFrom(files, atts[i], Preprocess(files, atts[i])) {
      PreprocessContent(files, atts[i]);
    }
  }

  /** attachments.map(preprocess): every attachment processed in place. */
  function PreprocessAll(files: FileStore, atts: seq<Attachment>): (r: seq<Processed>)
    ensures |r| == |atts| && forall i :: 0 <= i < |atts| ==> ProcessedFrom(files, atts[i], r[i])
  {
    PreprocessEach(files, atts);
    seq(|atts|, i requires 0 <= i < |atts| => Preprocess(files, atts[i]))
  }

  // ---------------------------------------------------------------------------------------
  // Claiming an attachment

  const AttachPrefix := "Attach \""

  /** Whether /Attach "([^"]+)"/ matches at the very start of t. */
  predicate AttachHere(t: string) {
    && StartsWith(t, AttachPrefix)
    && '"' in t[|AttachPrefix|..]
    && IndexOf(t[|AttachPrefix|..], '"') > 0
  }

  /** The name captured by the first match of /Attach "([^"]+)"/ in t. */
  function AttachName(t: string): (r: Option<string>)
    ensures r.Some? ==> |r.value| > 0 && '"' !in r.value
    decreases |t|
  {
    if AttachHere(t) then
      var rest := t[|AttachPrefix|..];
      Some(rest[..IndexOf(rest, '"')])
    else if |t| == 0 then None
    else AttachName(t[1..])
  }

  /** Any title holding Attach "NAME" with a non-empty NAME free of quotes asks for an
      attachment by name. */
  lemma {:induction false} AttachNameFound(t: string, n: string)
    requires |n| > 0 && '"' !in n
    requires Contains(t, AttachPrefix + n + "\"")
    ensures AttachName(t).Some?
    decreases |t|
  {
    var w := AttachPrefix + n + "\"";
    if StartsWith(t, w) {
      var rest := t[|AttachPrefix|..];
      assert t[..|w|] == w && w[|AttachPrefix|..] == n + "\"";
      assert rest[..|n| + 1] == t[|AttachPrefix|..|w|];
      assert rest[..|n| + 1] == n + "\"";
      assert rest == n + ['"'] + rest[|n| + 1..];
      IndexOfAfter(n, '"', rest[|n| + 1..]);
      assert AttachHere(t);
    } else if !AttachHere(t) {
      AttachNameFound(t[1..], n);
    }
  }

  /** Whether attachment a is what a step with this title claims: the exact name asked for
      with Attach "NAME", otherwise any name the title contains. */
  predicate Wanted(title: string, a: Processed) {
    match AttachName(title)
    case Some(n) => a.name == n
    case None => Contains(title, a.name)
  }

  /** findIndex: the first attachment of the pool the title claims. */
  function FirstWanted(title: string, pool: seq<Processed>): (r: Option<nat>)
    ensures r.Some? ==> r.value < |pool| && Wanted(title, pool[r.value])
    ensures r.Some? ==> forall j :: 0 <= j < r.value ==> !Wanted(title, pool[j])
    ensures r.None? ==> forall j :: 0 <= j < |pool| ==> !Wanted(title, pool[j])
    decreases |pool|
  {
    if |pool| == 0 then None
    else if Wanted(title, pool[0]) then Some(0)
    else
      var r := FirstWanted(title, pool[1..]);
      if r.None? then None else Some(r.value + 1)
  }

  /** The claim of one step: the first wanted attachment is taken out of the pool (splice);
      without one the pool is unchanged. */
  function Claim(title: string, pool: seq<Processed>): (r: (Option<Processed>, seq<Processed>))
    ensures r.0.None? ==> r.1 == pool && forall a :: a in pool ==> !Wanted(title, a)
    ensures r.0.Some? ==> Wanted(title, r.0.value) && multiset(pool) == multiset(r.1) + multiset{r.0.value}
    ensures r.0.Some? ==> exists i :: 0 <= i < |pool| && pool[i] == r.0.value && r.1 == pool[..i] + pool[i + 1..]
                                      && forall j :: 0 <= j < i ==> !Wanted(title, pool[j])
  {
    match FirstWanted(title, pool)
    case None => (None, pool)
    case Some(i) =>
      assert pool == pool[..i] + [pool[i]] + pool[i + 1..];
      (Some(pool[i]), pool[..i] + pool[i + 1..])
  }

  // ---------------------------------------------------------------------------------------
  // Processing the step tree

  /** A step as the runner reports it. */
  datatype RunnerStep = RunnerStep(title: string, error: Option<string>, duration: int, steps: seq<RunnerStep>)

  /** A step as the report keeps it. */
  datatype StepData = StepData(
    title: string,
    status: string,
    duration: int,
    error: Option<string>,
    steps: seq<StepData>,
    attachment: Option<Processed>,
    metaInfo: Option<string>)

  const SnapPrefix := "Snap: "

  predicate IsHook(title: string) {
    Contains(title, "Before Hooks") || Contains(title, "After Hooks")
  }

  predicate IsNoisy(t: string) {
    t == "Screenshot" || StartsWith(t, "Attach")
  }

  predicate IsInteresting(t: string) {
    && !IsNoisy(t)
    && (|| Contains(t, "Screenshot") || Contains(t, "expect") || Contains(t, "locator") || Contains(t, "Navigate")
        || Contains(t, "click") || Contains(t, "fill") || Contains(t, "press") || Contains(t, "type"))
  }

  /** Whether some step of ss, at any depth, has the title t. */
  predicate TitleBelow(ss: seq<RunnerStep>, t: string)
    decreases ss
  {
    exists i :: 0 <= i < |ss| && (ss[i].title == t || TitleBelow(ss[i].steps, t))
  }

  /** A title is below a non-empty list when it is the first step's, below the first step,
      or below the rest. */
  lemma TitleBelowCons(ss: seq<RunnerStep>)
    requires |ss| > 0
    ensures forall t :: TitleBelow(ss, t) <==>
      ss[0].title == t || TitleBelow(ss[0].steps, t) || TitleBelow(ss[1..], t)
  {
    forall t ensures TitleBelow(ss, t) <==>
      ss[0].title == t || TitleBelow(ss[0].steps, t) || TitleBelow(ss[1..], t)
    {
      if TitleBelow(ss, t) {
        var i :| 0 <= i < |ss| && (ss[i].title == t || TitleBelow(ss[i].steps, t));
        if i > 0 {
          assert ss[1..][i - 1] == ss[i];
        }
      }
      if TitleBelow(ss[1..], t) {
        var i :| 0 <= i < |ss[1..]| && (ss[1..][i].title == t || TitleBelow(ss[1..][i].steps, t));
        assert ss[i + 1] == ss[1..][i];
      }
    }
  }

  /** extractInfo: the interesting titles of the descendants, depth first, parents before
      their children, hooks included; exactly the interesting titles found at any depth. */
  function InterestingLogs(ss: seq<RunnerStep>): (r: seq<string>)
    ensures forall t :: t in r <==> IsInteresting(t) && TitleBelow(ss, t)
    decreases ss
  {
    if |ss| == 0 then []
    else
      TitleBelowCons(ss);
      (if IsInteresting(ss[0].title) then [ss[0].title] else [])
        + InterestingLogs(ss[0].steps) + InterestingLogs(ss[1..])
  }

  /** stepData.steps.find(child => child.attachment): the attachment of the first child that
      has one. */
  function FirstAttachment(kids: seq<StepData>): (r: Option<Processed>)
    ensures r.Some? ==> exists j :: 0 <= j < |kids| && kids[j].attachment == r
                                    && forall i :: 0 <= i < j ==> kids[i].attachment.None?
    ensures r.None? ==> forall k :: k in kids ==> k.attachment.None?
    decreases |kids|
  {
    if |kids| == 0 then None
    else if kids[0].attachment.Some? then kids[0].attachment
    else
      var r := FirstAttachment(kids[1..]);
      assert forall k :: k in kids ==> k == kids[0] || k in kids[1..];
      assert r.Some? ==> exists j :: 0 <= j < |kids| && kids[j].attachment == r
                                     && forall i :: 0 <= i < j ==> kids[i].attachment.None? by {
        if r.Some? {
          var j :| 0 <= j < |kids[1..]| && kids[1..][j].attachment == r
                   && forall i :: 0 <= i < j ==> kids[1..][i].attachment.None?;
          assert kids[j + 1] == kids[1..][j];
          assert forall i :: 1 <= i <= j ==> kids[i] == kids[1..][i - 1];
        }
      }
      r
  }

  /** processStep: a hook is dropped with its whole subtree and claims nothing; otherwise the
      children are processed first, then the step claims an attachment from what they left. */
  function ProcessStep(s: RunnerStep, pool: seq<Processed>): (r: (Option<StepData>, seq<Processed>))
    ensures r.0.None? <==> IsHook(s.title)
    ensures r.0.None? ==> r.1 == pool
    ensures r.0.Some? ==> r.0.value.title == s.title && r.0.value.error == s.error
    decreases s
  {
    if IsHook(s.title) then (None, pool)
    else
      var after := ProcessSteps(s.steps, pool);
      var claim := Claim(s.title, after.1);
      (Some(Build(s, after.0, claim.0)), claim.1)
  }

  /** The kept step once its children are processed and its claim is made. A Snap step loses
      its children, keeps the interesting titles below it as metaInfo, and falls back to a
      child's attachment. */
  function Build(s: RunnerStep, kids: seq<StepData>, att: Option<Processed>): (d: StepData)
    ensures d.title == s.title && d.error == s.error && d.duration == s.duration
    ensures (d.status == "failed" <==> s.error.Some?) && (d.status == "passed" <==> s.error.None?)
    ensures !StartsWith(s.title, SnapPrefix) ==> d.steps == kids && d.attachment == att && d.metaInfo.None?
  {
    var status := if s.error.Some? then "failed" else "passed";
    if StartsWith(s.title, SnapPrefix) then
      var logs := InterestingLogs(s.steps);
      var meta := if |logs| > 0 then Some(JoinWith(Dedup(logs), " | ")) else None;
      StepData(s.title, status, s.duration, s.error, [], if att.None? then FirstAttachment(kids) else att, meta)
    else StepData(s.title, status, s.duration, s.error, kids, att, None)
  }

  /** A Snap step keeps no children; its metaInfo is absent exactly when no interesting title
      lies below it, and otherwise joins with " | " every such title once, in the order of
      their first occurrences; without a claim of its own it takes the first child's
      attachment. */
  lemma BuildSnap(s: RunnerStep, kids: seq<StepData>, att: Option<Processed>)
    requires StartsWith(s.title, SnapPrefix)
    ensures var d := Build(s, kids, att);
      && d.steps == []
      && (d.metaInfo.None? <==> forall t :: !(IsInteresting(t) && TitleBelow(s.steps, t)))
      && (d.metaInfo.Some? ==>
            exists logs :: && d.metaInfo.value == JoinWith(logs, " | ") && Distinct(logs)
                           && InFirstOccurrenceOrder(logs, InterestingLogs(s.steps))
                           && forall t :: t in logs <==> IsInteresting(t) && TitleBelow(s.steps, t))
      && d.attachment == (if att.Some? then att else FirstAttachment(kids))
  {
    var logs := InterestingLogs(s.steps);
    if |logs| > 0 {
      DedupOrder(logs);
      assert logs[0] in logs;
    } else {
      forall t ensures !(IsInteresting(t) && TitleBelow(s.steps, t)) {
        assert t !in logs;
      }
    }
  }

  /** steps.map(processStep).filter(Boolean), the pool passed from one step to the next. */
  function ProcessSteps(ss: seq<RunnerStep>, pool: seq<Processed>): (seq<StepData>, seq<Processed>)
    decreases ss
  {
    if |ss| == 0 then ([], pool)
    else
      var (r, pool1) := ProcessStep(ss[0], pool);
      var (rest, pool2) := ProcessSteps(ss[1..], pool1);
      ((if r.Some? then [r.value] else []) + rest, pool2)
  }

  /** A kept step: no hook anywhere, the status read off the error, a Snap step flat and
      the only kind with metaInfo. */
  predicate Shaped(d: StepData)
    decreases d
  {
    && !IsHook(d.title)
    && (d.status == "failed" <==> d.error.Some?)
    && (d.status == "failed" || d.status == "passed")
    && (StartsWith(d.title, SnapPrefix) ==> d.steps == [])
    && (!StartsWith(d.title, SnapPrefix) ==> d.metaInfo.None?)
    && forall k :: k in d.steps ==> Shaped(k)
  }

  /** Every step that is kept, at every depth, is shaped; exactly a hook is dropped, and it
      leaves the pool as it was. */
  lemma {:induction false} ProcessStepShaped(s: RunnerStep, pool: seq<Processed>)
    ensures var (r, pool') := ProcessStep(s, pool);
      && (r.None? <==> IsHook(s.title))
      && (r.None? ==> pool' == pool)
      && (r.Some? ==> Shaped(r.value) && r.value.title == s.title)
    decreases s
  {
    if !IsHook(s.title) {
      ProcessStepsShaped(s.steps, pool);
    }
  }

  lemma {:induction false} ProcessStepsShaped(ss: seq<RunnerStep>, pool: seq<Processed>)
    ensures var (kids, _) := ProcessSteps(ss, pool);
      && |kids| <= |ss|
      && forall k :: k in kids ==> Shaped(k)
    decreases ss
  {
    if |ss| > 0 {
      var (r, pool1) := ProcessStep(ss[0], pool);
      ProcessStepShaped(ss[0], pool);
      ProcessStepsShaped(ss[1..], pool1);
    }
  }

  // ---------------------------------------------------------------------------------------
  // Where the attachments go

  /** The attachments held by a kept step tree. */
  function Held(d: StepData): seq<Processed>
    decreases d
  {
    (if d.attachment.Some? then [d.attachment.value] else []) + HeldAll(d.steps)
  }

  function HeldAll(ds: seq<StepData>): seq<Processed>
    decreases ds
  {
    if |ds| == 0 then [] else Held(ds[0]) + HeldAll(ds[1..])
  }

  function HeldOpt(r: Option<StepData>): seq<Processed> {
    if r.Some? then Held(r.value) else []
  }

  lemma {:induction false} FirstAttachmentHeld(kids: seq<StepData>)
    requires FirstAttachment(kids).Some?
    ensures multiset{FirstAttachment(kids).value} <= multiset(HeldAll(kids))
    decreases |kids|
  {
    if kids[0].attachment.None? {
      FirstAttachmentHeld(kids[1..]);
    }
  }

  /** No Snap step anywhere in the runner's tree. */
  predicate NoSnap(s: RunnerStep)
    decreases s
  {
    !StartsWith(s.title, SnapPrefix) && forall k :: k in s.steps ==> NoSnap(k)
  }

  function OptSeq(att: Option<Processed>): seq<Processed> {
    if att.Some? then [att.value] else []
  }

  /** A built step holds at most its own claim and what its children held; exactly that
      when it is not a Snap step. */
  lemma BuildHeld(s: RunnerStep, kids: seq<StepData>, att: Option<Processed>)
    ensures multiset(Held(Build(s, kids, att))) <= multiset(OptSeq(att)) + multiset(HeldAll(kids))
    ensures !StartsWith(s.title, SnapPrefix) ==>
      multiset(Held(Build(s, kids, att))) == multiset(OptSeq(att)) + multiset(HeldAll(kids))
  {
    var d := Build(s, kids, att);
    if StartsWith(s.title, SnapPrefix) {
      assert HeldAll(d.steps) == [];
      if att.None? && FirstAttachment(kids).Some? {
        FirstAttachmentHeld(kids);
      }
    } else {
      assert Held(d) == OptSeq(att) + HeldAll(kids);
    }
  }

  lemma ClaimConserves(title: string, pool: seq<Processed>)
    ensures multiset(OptSeq(Claim(title, pool).0)) + multiset(Claim(title, pool).1) == multiset(pool)
  {
  }

  /** No attachment is handed out twice: what the kept tree holds and what is left in the
      pool together are at most the pool it started from. Without Snap steps nothing is
      lost either: each attachment is held by exactly one step or stays in the pool. */
  lemma {:induction false} ProcessStepConserves(s: RunnerStep, pool: seq<Processed>)
    ensures var (r, pool') := ProcessStep(s, pool);
      && multiset(HeldOpt(r)) + multiset(pool') <= multiset(pool)
      && (NoSnap(s) ==> multiset(HeldOpt(r)) + multiset(pool') == multiset(pool))
    decreases s
  {
    if !IsHook(s.title) {
      var after := ProcessSteps(s.steps, pool);
      var claim := Claim(s.title, after.1);
      ProcessStepsConserve(s.steps, pool);
      ClaimConserves(s.title, after.1);
      BuildHeld(s, after.0, claim.0);
      if NoSnap(s) {
        assert forall k :: k in s.steps ==> NoSnap(k);
      }
    }
  }

  lemma {:induction false} ProcessStepsConserve(ss: seq<RunnerStep>, pool: seq<Processed>)
    ensures var (kids, pool') := ProcessSteps(ss, pool);
      && multiset(HeldAll(kids)) + multiset(pool') <= multiset(pool)
      && ((forall k :: k in ss ==> NoSnap(k)) ==> multiset(HeldAll(kids)) + multiset(pool') == multiset(pool))
    decreases ss
  {
    if |ss| > 0 {
      var (r, pool1) := ProcessStep(ss[0], pool);
      ProcessStepConserves(ss[0], pool);
      ProcessStepsConserve(ss[1..], pool1);
      var (rest, pool2) := ProcessSteps(ss[1..], pool1);
      var kids := (if r.Some? then [r.value] else []) + rest;
      if r.Some? {
        assert kids[0] == r.value && kids[1..] == rest;
      } else {
        assert kids == rest;
      }
      assert HeldAll(kids) == HeldOpt(r) + HeldAll(rest);
      if forall k :: k in ss ==> NoSnap(k) {
        assert NoSnap(ss[0]);
        assert forall k :: k in ss[1..] ==> k in ss;
      }
    }
  }

  /** Children get the first pick: of a parent and its only child that both want the one
      attachment in the pool, the child gets it. */
  lemma ChildFirst(title: string, child: RunnerStep, a: Processed)
    requires !IsHook(title) && !StartsWith(title, SnapPrefix) && Wanted(title, a)
    requires !IsHook(child.title) && !StartsWith(child.title, SnapPrefix) && child.steps == [] && Wanted(child.title, a)
    ensures var p := RunnerStep(title, None, 0, [child]);
      var (r, pool') := ProcessStep(p, [a]);
      && r.Some? && r.value.attachment.None? && pool' == []
      && |r.value.steps| == 1 && r.value.steps[0].attachment == Some(a)
  {
    var p := RunnerStep(title, None, 0, [child]);
    assert ProcessSteps(child.steps, [a]) == ([], [a]);
    assert Claim(child.title, [a]) == (Some(a), []);
    var c := Build(child, [], Some(a));
    assert ProcessStep(child, [a]) == (Some(c), []);
    assert p.steps[1..] == [];
    ProcessStepsCons(p.steps, [a]);
    assert [c] + [] == [c];
    assert ProcessSteps(p.steps, [a]) == ([c], []);
    assert Claim(title, []) == (None, []);
  }

  /** A step without children claims straight from the pool it is given: it holds the
      first attachment of that pool it wants, and the pool loses exactly that one. */
  lemma LeafClaims(s: RunnerStep, pool: seq<Processed>)
    requires !IsHook(s.title) && s.steps == []
    ensures var (r, pool') := ProcessStep(s, pool);
      && r.Some? && r.value.steps == []
      && r.value.attachment == Claim(s.title, pool).0 && pool' == Claim(s.title, pool).1
  {
    assert ProcessSteps(s.steps, pool) == ([], pool);
  }

  /** The first kept child, after any leading hooks, is processed against the whole pool:
      the hooks before it are dropped and leave the pool as it was. */
  lemma {:induction false} FirstKeptChild(ss: seq<RunnerStep>, pool: seq<Processed>, j: nat)
    requires j < |ss| && !IsHook(ss[j].title)
    requires forall i :: 0 <= i < j ==> IsHook(ss[i].title)
    ensures |ProcessSteps(ss, pool).0| > 0 && Some(ProcessSteps(ss, pool).0[0]) == ProcessStep(ss[j], pool).0
    decreases j
  {
    ProcessStepsCons(ss, pool);
    if j > 0 {
      assert forall i :: 0 <= i < j - 1 ==> ss[1..][i] == ss[i + 1];
      FirstKeptChild(ss[1..], pool, j - 1);
    }
  }

  /** Children get the first pick: the first child, when it is kept, is processed against the whole
      pool as if it stood alone, and a parent that is not a Snap step claims only from what
      its whole subtree left. So what the children hold, the parent's claim and the pool
      left over together are at most the pool, and among distinct attachments the parent
      never holds one that a child holds. */
  lemma ChildrenFirst(s: RunnerStep, pool: seq<Processed>)
    requires !IsHook(s.title) && !StartsWith(s.title, SnapPrefix)
    ensures var (r, pool') := ProcessStep(s, pool);
      var (kids, left) := ProcessSteps(s.steps, pool);
      && r.Some? && r.value.steps == kids
      && r.value.attachment == Claim(s.title, left).0 && pool' == Claim(s.title, left).1
      && (|s.steps| > 0 && !IsHook(s.steps[0].title) ==>
            |kids| > 0 && Some(kids[0]) == ProcessStep(s.steps[0], pool).0)
      && multiset(HeldAll(kids)) + multiset(OptSeq(r.value.attachment)) + multiset(pool') <= multiset(pool)
      && (Distinct(pool) ==> forall a :: a in HeldAll(kids) ==> r.value.attachment != Some(a))
  {
    var (kids, left) := ProcessSteps(s.steps, pool);
    ProcessStepsConserve(s.steps, pool);
    ClaimConserves(s.title, left);
    if |s.steps| > 0 {
      ProcessStepsCons(s.steps, pool);
    }
    var att := Claim(s.title, left).0;
    if Distinct(pool) {
      forall a | a in HeldAll(kids) ensures att != Some(a) {
        DistinctOnce(pool, a);
        assert multiset(HeldAll(kids))[a] >= 1;
      }
    }
  }

  // ---------------------------------------------------------------------------------------
  // The reporter

  /** What the runner reports about one finished test. */
  datatype RunnerTest = RunnerTest(
    title: string,
    file: string,
    status: string,
    duration: int,
    errors: seq<string>,
    steps: seq<RunnerStep>,
    attachments: seq<Attachment>)

  datatype TestData = TestData(
    title: string,
    file: string,
    status: string,
    duration: int,
    errors: seq<string>,
    steps: seq<StepData>,
    attachments: seq<Processed>)

  /** onTestEnd: the processed steps, and the attachments no step claimed. */
  function TestDataOf(files: FileStore, t: RunnerTest): TestData {
    var (steps, left) := ProcessSteps(t.steps, PreprocessAll(files, t.attachments));
    TestData(t.title, t.file, t.status, t.duration, t.errors, steps, left)
  }

  /** The results with exactly this status. */
  function CountStatus(results: seq<TestData>, status: string): (n: nat)
    ensures n <= |results|
    decreases |results|
  {
    if |results| == 0 then 0
    else CountStatus(results[..|results| - 1], status) + (if results[|results| - 1].status == status then 1 else 0)
  }

  /** Each result is counted under its own status only: the three counts never add up to
      more than the results, and exactly to them when every status is one of the three. */
  lemma {:induction false} CountsPartition(results: seq<TestData>)
    ensures CountStatus(results, "passed") + CountStatus(results, "failed") + CountStatus(results, "skipped") <= |results|
    ensures (forall i :: 0 <= i < |results| ==> results[i].status in {"passed", "failed", "skipped"}) ==>
      CountStatus(results, "passed") + CountStatus(results, "failed") + CountStatus(results, "skipped") == |results|
    decreases |results|
  {
    if |results| > 0 {
      var init := results[..|results| - 1];
      CountsPartition(init);
      if forall i :: 0 <= i < |results| ==> results[i].status in {"passed", "failed", "skipped"} {
        assert forall i :: 0 <= i < |init| ==> init[i] == results[i];
        assert results[|results| - 1].status in {"passed", "failed", "skipped"};
      }
    }
  }

  /** One more result raises the count of its own status by one and no other. */
  lemma CountAfterPush(results: seq<TestData>, d: TestData, status: string)
    ensures CountStatus(results + [d], status) == CountStatus(results, status) + (if d.status == status then 1 else 0)
  {
    assert (results + [d])[..|results|] == results;
  }

  /** The error sanitising of onEnd, through the whole kept step tree: every error message
      is cleaned and nothing else changes. */
  function CleanStep(d: StepData): (r: StepData)
    ensures r.(error := d.error, steps := d.steps) == d
    ensures |r.steps| == |d.steps|
    ensures r.error.Some? <==> d.error.Some?
    ensures d.error.Some? ==> r.error.value == CleanMessage(d.error.value)
    decreases d
  {
    d.(error := if d.error.Some? then Some(CleanMessage(d.error.value)) else None, steps := CleanSteps(d.steps))
  }

  function CleanSteps(ds: seq<StepData>): (r: seq<StepData>)
    ensures |r| == |ds|
    ensures forall i :: 0 <= i < |ds| ==> r[i] == CleanStep(ds[i])
    decreases ds
  {
    if |ds| == 0 then [] else [CleanStep(ds[0])] + CleanSteps(ds[1..])
  }

  function CleanTest(t: TestData): (r: TestData)
    ensures r.(errors := t.errors, steps := t.steps) == t
    ensures |r.errors| == |t.errors| && forall i :: 0 <= i < |t.errors| ==> r.errors[i] == CleanMessage(t.errors[i])
    ensures r.steps == CleanSteps(t.steps)
  {
    t.(errors := seq(|t.errors|, i requires 0 <= i < |t.errors| => CleanMessage(t.errors[i])),
       steps := CleanSteps(t.steps))
  }

  /** Cleaning leaves every status, and so every count, as it was. */
  lemma {:induction false} CleanKeepsCounts(results: seq<TestData>, cleaned: seq<TestData>, status: string)
    requires |cleaned| == |results| && forall i :: 0 <= i < |results| ==> cleaned[i] == CleanTest(results[i])
    ensures CountStatus(cleaned, status) == CountStatus(results, status)
    decreases |results|
  {
    if |results| > 0 {
      CleanKeepsCounts(results[..|results| - 1], cleaned[..|results| - 1], status);
    }
  }

  /** The attachments not yet claimed during one test. */
  class Pool {
    var items: seq<Processed>

    constructor (items: seq<Processed>)
      ensures this.items == items
    {
      this.items := items;
    }
  }

  /** findIndex and splice on the pool. */
  method ClaimFrom(pool: Pool, title: string) returns (att: Option<Processed>)
    modifies pool
    ensures (att, pool.items) == Claim(title, old(pool.items))
  {
    var idx := FirstWanted(title, pool.items);
    if idx.None? {
      return None;
    }
    att := Some(pool.items[idx.value]);
    pool.items := pool.items[..idx.value] + pool.items[idx.value + 1..];
  }

  /** processStep */
  method ProcessStepIn(pool: Pool, s: RunnerStep) returns (r: Option<StepData>)
    modifies pool
    ensures (r, pool.items) == ProcessStep(s, old(pool.items))
    decreases s, 1
  {
    if IsHook(s.title) {
      return None;
    }
    var kids := ProcessStepsIn(pool, s.steps);
    var att := ClaimFrom(pool, s.title);
    r := Some(Build(s, kids, att));
  }

  /** One more step of the map and filter. */
  lemma ProcessStepsCons(ss: seq<RunnerStep>, pool: seq<Processed>)
    requires |ss| > 0
    ensures var (r, pool1) := ProcessStep(ss[0], pool);
      var (rest, pool2) := ProcessSteps(ss[1..], pool1);
      ProcessSteps(ss, pool) == ((if r.Some? then [r.value] else []) + rest, pool2)
  {
  }

  /** steps.map(processStep).filter(Boolean) */
  method ProcessStepsIn(pool: Pool, ss: seq<RunnerStep>) returns (kids: seq<StepData>)
    modifies pool
    ensures (kids, pool.items) == ProcessSteps(ss, old(pool.items))
    decreases ss, 0
  {
    ghost var want := ProcessSteps(ss, pool.items);
    kids := [];
    var i := 0;
    assert ss[i..] == ss;
    while i < |ss|
      invariant 0 <= i <= |ss|
      invariant want.0 == kids + ProcessSteps(ss[i..], pool.items).0
      invariant want.1 == ProcessSteps(ss[i..], pool.items).1
    {
      ProcessStepsCons(ss[i..], pool.items);
      assert ss[i..][1..] == ss[i + 1..];
      var r := ProcessStepIn(pool, ss[i]);
      if r.Some? {
        kids := kids + [r.value];
      }
      i := i + 1;
    }
    assert ss[i..] == [];
    assert kids + [] == kids;
  }

  class Reporter {
    const outputFile: string
    var results: seq<TestData>
    var startTime: int

    constructor (outputFile: Option<string>)
      ensures this.outputFile == (if Truthy(outputFile) then outputFile.value else "custom-report/index.html")
      ensures results == []
    {
      this.outputFile := if Truthy(outputFile) then outputFile.value else "custom-report/index.html";
      results := [];
      startTime := 0;
    }

    method OnBegin(now: int)
      modifies this
      ensures results == [] && startTime == now
    {
      results := [];
      startTime := now;
    }

    method OnTestEnd(files: FileStore, t: RunnerTest)
      modifies this`results
      ensures results == old(results) + [TestDataOf(files, t)]
    {
      var pool := new Pool(PreprocessAll(files, t.attachments));
      var steps := ProcessStepsIn(pool, t.steps);
      results := results + [TestData(t.title, t.file, t.status, t.duration, t.errors, steps, pool.items)];
    }

    /** onEnd: the counts and the duration shown in the summary, taken before the error
        messages of every result are cleaned. Writing the HTML file is not modelled. */
    method OnEnd(now: int) returns (passed: nat, failed: nat, skipped: nat, duration: int)
      modifies this`results
      ensures passed == CountStatus(old(results), "passed")
      ensures failed == CountStatus(old(results), "failed")
      ensures skipped == CountStatus(old(results), "skipped")
      ensures duration == now - startTime
      ensures |results| == |old(results)| && forall i :: 0 <= i < |results| ==> results[i] == CleanTest(old(results)[i])
    {
      duration := now - startTime;
      passed := CountStatus(results, "passed");
      failed := CountStatus(results, "failed");
      skipped := CountStatus(results, "skipped");
      var cleaned: seq<TestData> := [];
      var i := 0;
      while i < |results|
        invariant 0 <= i <= |results|
        invariant |cleaned| == i && forall j :: 0 <= j < i ==> cleaned[j] == CleanTest(results[j])
      {
        cleaned := cleaned + [CleanTest(results[i])];
        i := i + 1;
      }
      results := cleaned;
    }
  }
}
