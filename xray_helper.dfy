/** The Xray client of utils/xray-helper.js: the MIME table, file evidence, the token cache and
    the upload of one batch of results, with the HTTP exchange taken as an input. */
module XrayHelper {
  import opened Common
  import opened Records

  // ---------------------------------------------------------------------------------------
  // File names and evidence

  /** The index of the last '.' in s. */
  function LastDot(s: string): (r: Option<nat>)
    ensures r.Some? ==> r.value < |s| && s[r.value] == '.' && '.' !in s[r.value + 1..]
    ensures r.None? ==> '.' !in s
    decreases |s|
  {
    if |s| == 0 then None
    else if s[|s| - 1] == '.' then Some(|s| - 1)
    else
      var r := LastDot(s[..|s| - 1]);
      assert s == s[..|s| - 1] + [s[|s| - 1]];
      assert r.Some? ==> s[r.value + 1..] == s[..|s| - 1][r.value + 1..] + [s[|s| - 1]];
      r
  }

  /** path.extname: from the last '.' of the last path segment to its end; empty when the
      segment has no '.', when its only leading '.' is that one, or when it is "..". */
  function Extname(path: string): (r: string)
    ensures r == "" || (r[0] == '.' && '.' !in r[1..] && '/' !in r)
  {
    var base := Basename(path);
    BasenameHasNoSlash(path);
    match LastDot(base)
    case None => ""
    case Some(d) => if d == 0 || base == ".." then "" else base[d..]
  }

  lemma {:induction false} BasenameHasNoSlash(p: string)
    ensures '/' !in Basename(p)
    decreases |p|
  {
    if |p| > 0 && p[|p| - 1] != '/' {
      BasenameHasNoSlash(p[..|p| - 1]);
    }
  }

  lemma {:induction false} LastDotOfSuffix(prefix: string, e: string)
    requires '.' !in e
    ensures LastDot(prefix + "." + e) == Some(|prefix|)
    decreases |e|
  {
    var s := prefix + "." + e;
    if |e| > 0 {
      LastDotOfSuffix(prefix, e[..|e| - 1]);
      assert s[..|s| - 1] == prefix + "." + e[..|e| - 1];
      assert s[|s| - 1] == e[|e| - 1];
    }
  }

  /** A file "<stem>.<e>" has the extension ".<e>" whenever <e> holds no '.', the stem is
      not empty and the whole name is not "..". */
  lemma ExtnameOfSuffix(stem: string, e: string)
    requires '/' !in stem && '/' !in e && '.' !in e
    requires |stem| > 0 && !(stem == "." && e == "")
    ensures Extname(stem + "." + e) == "." + e
  {
    var name := stem + "." + e;
    assert '/' !in name;
    BasenameJoin("", name);
    LastDotOfSuffix(stem, e);
    assert name[|stem|..] == "." + e;
  }

  const OctetStream := "application/octet-stream"

  const MimeTypes: map<string, string> := map[
    ".png" := "image/png",
    ".jpg" := "image/jpeg",
    ".jpeg" := "image/jpeg",
    ".pdf" := "application/pdf",
    ".txt" := "text/plain",
    ".json" := "application/json",
    ".csv" := "text/csv"
  ]

  /** getMimeType: the lower-cased extension looked up in the fixed table. */
  function GetMimeType(filename: string): (r: string)
    ensures r == OctetStream || r in MimeTypes.Values
  {
    var ext := ToLower(Extname(filename));
    if ext in MimeTypes then MimeTypes[ext] else OctetStream
  }

  /** The type of "<stem>.<e>" is the table entry of ".<e>" in lower case, and
      application/octet-stream for an extension the table does not list. */
  lemma MimeTypeOfExtension(stem: string, e: string)
    requires '/' !in stem && '/' !in e && '.' !in e
    requires |stem| > 0 && !(stem == "." && e == "")
    ensures var ext := "." + ToLower(e);
      GetMimeType(stem + "." + e) == (if ext in MimeTypes then MimeTypes[ext] else OctetStream)
  {
    ExtnameOfSuffix(stem, e);
    ToLowerAppend(".", e);
    assert ToLower(".") == ".";
  }

  /** A listed lower-case extension gives its table entry. */
  lemma MimeTypeOfListed(stem: string, e: string)
    requires '/' !in stem && '/' !in e && '.' !in e && |stem| > 0
    requires forall i :: 0 <= i < |e| ==> !IsUpper(e[i])
    requires "." + e in MimeTypes
    ensures GetMimeType(stem + "." + e) == MimeTypes["." + e]
  {
    ToLowerKeepsLower(e);
    MimeTypeOfExtension(stem, e);
  }

  /** A name without an extension is application/octet-stream. */
  lemma MimeTypeWithoutDot(name: string)
    requires '.' !in name
    ensures GetMimeType(name) == OctetStream
  {
    BasenameIsSuffix(name);
    assert '.' !in Basename(name);
    assert Extname(name) == "";
    assert ToLower("") == "";
  }

  lemma {:induction false} BasenameIsSuffix(p: string)
    ensures forall c :: c in Basename(p) ==> c in p
    decreases |p|
  {
    if |p| > 0 && p[|p| - 1] != '/' {
      BasenameIsSuffix(p[..|p| - 1]);
      assert forall c :: c in p[..|p| - 1] ==> c in p;
    }
  }

  /** createEvidence: null when the file is missing, unreadable or empty (its base64 text is
      then empty, hence falsy); otherwise the file's base64 text, its basename, and the MIME
      type of that basename. */
  function CreateEvidence(files: FileStore, path: string): (r: Option<Evidence>)
    ensures r.Some? <==> path in files && |files[path]| > 0
    ensures r.Some? ==> r.value.data == Base64(files[path]) && r.value.filename == Basename(path)
    ensures r.Some? ==> r.value.contentType == GetMimeType(r.value.filename)
  {
    if path !in files then None
    else
      var data := Base64(files[path]);
      assert |files[path]| > 0 ==> |data| > 0;
      if data == "" then None
      else
        var filename := Basename(path);
        Some(Evidence(data, filename, GetMimeType(filename)))
  }

  // ---------------------------------------------------------------------------------------
  // Payload and client state

  datatype Info = Info(summary: string, description: string, testPlanKey: Option<string>, project: Option<string>)

  /** The body of POST /import/execution. */
  datatype Payload = Payload(tests: seq<TestResult>, testExecutionKey: Option<string>, info: Option<Info>)

  datatype Request = Login | Import(payload: Payload)

  /** The part of a successful import response the fixtures read. */
  datatype ResponseData = ResponseData(key: Option<string>)

  /** What the outside world does during one call of uploadResults: the clock and its ISO text
      at that moment, the token the login returns (None when it fails) and the response of
      the import (None when it fails). */
  datatype Exchange = Exchange(now: int, iso: string, login: Option<string>, response: Option<ResponseData>)

  /** The fields of the helper that the upload code assigns and deletes; None stands for a
      field that is undefined or deleted. */
  datatype Fields = Fields(
    testExecutionKey: Option<string>,
    testPlanKey: Option<string>,
    projectKey: Option<string>,
    customSummary: Option<string>)

  /** Everything about the helper that changes: its fields, the cached token and its expiry,
      the requests sent so far and the last debug dump. */
  datatype ClientState = ClientState(
    fields: Fields,
    token: Option<string>,
    tokenExpiry: Option<int>,
    sent: seq<Request>,
    debugDump: Option<seq<TestResult>>)

  const TokenLifetime := 55 * 60000

  const DefaultSummaryPrefix := "Automated Test Execution - "
  const ImportDescription := "Imported via Playwright Xray Integration"

  /** The cached token is used while it is non-empty, an expiry is set, and the clock is
      before that expiry. */
  predicate TokenValid(s: ClientState, now: int) {
    Truthy(s.token) && s.tokenExpiry.Some? && now < s.tokenExpiry.value
  }

  /** authenticate(): the new state and the token, None when the login throws. */
  function Authenticated(s: ClientState, now: int, login: Option<string>): (r: (ClientState, Option<string>))
    ensures r.1 == (if TokenValid(s, now) then s.token else login)
    ensures r.0.fields == s.fields && r.0.debugDump == s.debugDump
    ensures |s.sent| <= |r.0.sent| <= |s.sent| + 1 && r.0.sent[..|s.sent|] == s.sent
  {
    if TokenValid(s, now) then (s, s.token)
    else
      var s' := s.(sent := s.sent + [Login]);
      if login.None? then (s', None)
      else (s'.(token := login, tokenExpiry := Some(now + TokenLifetime)), login)
  }

  /** While the token is valid authenticate returns it and sends nothing; otherwise it sends
      exactly one login, and a successful login is cached for 55 minutes. */
  lemma AuthenticatedCache(s: ClientState, now: int, login: Option<string>)
    ensures var (s', t) := Authenticated(s, now, login);
      && s'.fields == s.fields && s'.debugDump == s.debugDump
      && (TokenValid(s, now) ==> s' == s && t == s.token)
      && (!TokenValid(s, now) ==> s'.sent == s.sent + [Login] && t == login)
      && (!TokenValid(s, now) && login.Some? ==> s'.token == login && s'.tokenExpiry == Some(now + TokenLifetime))
      && (!TokenValid(s, now) && login.None? ==> s'.token == s.token && s'.tokenExpiry == s.tokenExpiry)
  {
  }

  /** After a fresh login that gave a non-empty token at time t, every call made before
      t + 55 minutes is served from the cache, and the first call at or after it logs in
      again. */
  lemma TokenReusedForFiftyFiveMinutes(s: ClientState, t: int, token: string, later: int, login: Option<string>)
    requires !TokenValid(s, t) && token != ""
    ensures var s1 := Authenticated(s, t, Some(token)).0;
      && (t <= later < t + TokenLifetime ==> Authenticated(s1, later, login) == (s1, Some(token)))
      && (later >= t + TokenLifetime ==> Authenticated(s1, later, login).0.sent == s1.sent + [Login])
  {
  }

  /** The payload rule of uploadResults. */
  function BuildPayload(f: Fields, tests: seq<TestResult>, iso: string): (p: Payload)
    ensures p.tests == tests
    ensures Truthy(f.testExecutionKey) ==> p.testExecutionKey == f.testExecutionKey && p.info.None?
    ensures !Truthy(f.testExecutionKey) ==> p.testExecutionKey.None? && p.info.Some?
    ensures p.info.Some? ==> p.info.value.description == ImportDescription
    ensures p.info.Some? ==>
      p.info.value.summary == (if Truthy(f.customSummary) then f.customSummary.value else DefaultSummaryPrefix + iso)
    ensures p.info.Some? ==> (p.info.value.testPlanKey.Some? <==> Truthy(f.testPlanKey))
    ensures p.info.Some? ==> (p.info.value.project.Some? <==> Truthy(f.projectKey))
    ensures p.info.Some? && p.info.value.testPlanKey.Some? ==> p.info.value.testPlanKey == f.testPlanKey
    ensures p.info.Some? && p.info.value.project.Some? ==> p.info.value.project == f.projectKey
  {
    if Truthy(f.testExecutionKey) then Payload(tests, f.testExecutionKey, None)
    else
      var summary := if Truthy(f.customSummary) then f.customSummary.value else DefaultSummaryPrefix + iso;
      var plan := if Truthy(f.testPlanKey) then f.testPlanKey else None;
      var project := if Truthy(f.projectKey) then f.projectKey else None;
      Payload(tests, None, Some(Info(summary, ImportDescription, plan, project)))
  }

  /** uploadResults(tests): authenticate, send the payload, and return the response data; any
      failure is caught, the batch is dumped to the debug file and undefined is returned. */
  function Uploaded(s: ClientState, tests: seq<TestResult>, x: Exchange): (r: (ClientState, Option<ResponseData>))
    ensures r.0.fields == s.fields
    ensures r.1.Some? ==> r.1 == x.response
    ensures r.1.None? ==> r.0.debugDump == Some(tests)
    ensures |s.sent| <= |r.0.sent| <= |s.sent| + 2 && r.0.sent[..|s.sent|] == s.sent
  {
    var (s1, token) := Authenticated(s, x.now, x.login);
    if token.None? then (s1.(debugDump := Some(tests)), None)
    else
      var s2 := s1.(sent := s1.sent + [Import(BuildPayload(s1.fields, tests, x.iso))]);
      if x.response.None? then (s2.(debugDump := Some(tests)), None)
      else (s2, x.response)
  }

  /** uploadResults never throws: it returns the response exactly when the login and the
      import both succeed, and otherwise the batch it was given is what the debug file holds.
      It never changes the helper's fields, and an import is sent exactly when a token was
      obtained. */
  lemma UploadedOutcome(s: ClientState, tests: seq<TestResult>, x: Exchange)
    ensures var (s', r) := Uploaded(s, tests, x);
      var token := Authenticated(s, x.now, x.login).1;
      && s'.fields == s.fields
      && (r.Some? <==> token.Some? && x.response.Some?)
      && (r.Some? ==> r == x.response && s'.debugDump == s.debugDump)
      && (r.None? ==> s'.debugDump == Some(tests))
      && (token.Some? <==> |s'.sent| > 0 && s'.sent[|s'.sent| - 1] == Import(BuildPayload(s.fields, tests, x.iso)))
  {
    AuthenticatedCache(s, x.now, x.login);
  }

  /** The helper object: its fields are assigned and deleted by the upload code between
      batches. */
  class Client {
    var testExecutionKey: Option<string>
    var testPlanKey: Option<string>
    var projectKey: Option<string>
    var customSummary: Option<string>
    var token: Option<string>
    var tokenExpiry: Option<int>
    var sent: seq<Request>
    var debugDump: Option<seq<TestResult>>

    /** new XrayHelper({...}): the keys come from the environment; no token yet. */
    constructor (executionKey: Option<string>, planKey: Option<string>, projectKey: Option<string>)
      ensures State() == ClientState(Fields(executionKey, planKey, projectKey, None), None, None, [], None)
    {
      testExecutionKey := executionKey;
      testPlanKey := planKey;
      this.projectKey := projectKey;
      customSummary := None;
      token := None;
      tokenExpiry := None;
      sent := [];
      debugDump := None;
    }

    function State(): ClientState
      reads this
    {
      ClientState(Fields(testExecutionKey, testPlanKey, projectKey, customSummary), token, tokenExpiry, sent, debugDump)
    }

    method Authenticate(now: int, login: Option<string>) returns (t: Option<string>)
      modifies this
      ensures (State(), t) == Authenticated(old(State()), now, login)
    {
      if Truthy(token) && tokenExpiry.Some? && now < tokenExpiry.value {
        return token;
      }
      sent := sent + [Login];
      if login.None? {
        return None;
      }
      token := login;
      tokenExpiry := Some(now + TokenLifetime);
      return token;
    }

    method UploadResults(tests: seq<TestResult>, x: Exchange) returns (r: Option<ResponseData>)
      modifies this
      ensures (State(), r) == Uploaded(old(State()), tests, x)
    {
      var t := Authenticate(x.now, x.login);
      if t.None? {
        debugDump := Some(tests);
        return None;
      }
      var payload := Payload(tests, None, None);
      if Truthy(testExecutionKey) {
        payload := payload.(testExecutionKey := testExecutionKey);
      } else {
        var summary := if Truthy(customSummary) then customSummary.value else DefaultSummaryPrefix + x.iso;
        var info := Info(summary, ImportDescription, None, None);
        if Truthy(testPlanKey) {
          info := info.(testPlanKey := testPlanKey);
        }
        if Truthy(projectKey) {
          info := info.(project := projectKey);
        }
        payload := payload.(info := Some(info));
      }
      sent := sent + [Import(payload)];
      if x.response.None? {
        debugDump := Some(tests);
        return None;
      }
      return x.response;
    }
  }
}
