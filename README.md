# Xray evidence and upload pipeline — a Dafny model

This project models the part of a Playwright test framework that reports tests to Xray. It covers:

- **Step executor.** `executeXrayStep` runs one step of a test. It appends exactly one record (PASSED, FAILED or TODO) to the test's step list. Once a step has FAILED, every later step is recorded as `"<name> (Skipped)"` and its body is not run. The evidence of a record comes from the screenshots, the files snapped during the step and the additional paths given by the caller.
- **Evidence collector.** `snap` writes a string as `.txt` and a plain object as `.json` under a safe file name. It registers the path with the step that is running.
- **Result recorder.** The `autoTestContext` fixture extracts the `[A-Z]+-\d+:` key from the test title. It maps the runner's status to PASSED or FAILED, formats the duration in minutes and seconds, and writes one result file per test.
- **Upload orchestrator.** `uploadToXray` does the following:
  - reads the results, falling back to the in-memory list;
  - files the results as manual import bundles per spec;
  - sorts the specs;
  - maps the spec at sorted index *i* to the *i*-th configured execution key;
  - gives every spec that creates a new execution the next custom summary;
  - uploads in batches of 20;
  - cleans up afterwards.
- **Xray helper.** This covers the MIME table, evidence creation, the token cache with its 55-minute lifetime, and the import payload rule: append to a key, or create an execution whose plan and project are added only when set.
- **Two older versions of the fixtures.**
  - Checkpoint 3 has a simpler snap and step executor, and single-key batching.
  - Checkpoint 1 has screenshots that are not guarded, so a failing screenshot changes the outcome of a step.
- **HTML reporter.**
  - The reporter filters each test's step tree of hook steps.
  - It hands each attachment to at most one step, children first and matched by name, and flattens "Snap: " steps.
  - When the run ends it counts the statuses and strips ANSI codes from the error messages.
- **Access gate and select box.** The access gate skips a test based on configuration values and permissions. The select box encoding turns an option index into a `___n___` token and back.

Everything is sequential. The outside world enters as parameters:

| Real dependency | How the model represents it |
|---|---|
| File system | `FileStore`, a map from path to bytes, and a results directory of `DirEntry` values. |
| Screenshots | `Shot`, either captured bytes or an error message. |
| A step body | A list of `snap` calls followed by an end (`Completes` / `Throws`). |
| Clock | An `Instant`, or the date parts of one. |
| HTTP | A `server` function from call number to `Exchange` (the login outcome and the import response). |
| Environment variables | An `Env` value. |

Modules follow the source files:

| Module | Models |
|---|---|
| `Common` | String, number, Base64, UTF-8 and path helpers shared by all modules, and `stripAnsi`. |
| `Records` | The step records, results, test context, workspace and body datatypes. |
| `XrayHelper` | utils/xray-helper.js |
| `XraySteps` | `snap` and `executeXrayStep` of fixture/xray-fixtures.js |
| `XrayResults` | `extractXrayKey` and the `autoTestContext` result recorder |
| `XrayUpload` | `uploadToXray` |
| `Checkpoint3` | The checkpoint 3 fixtures. |
| `Checkpoint1` | The checkpoint 1 fixtures. |
| `HtmlReporter` | single-html-reporter.js |
| `Platform` | fixture/platform.js |
| `SelectBox` | fixture/selectbox.js |

Every state-changing operation of the source is a method:

- methods on the `Client`, `TestContext`, `Workspace`, `Pool` and `Reporter` classes;
- methods that take those objects as arguments.

Each method's `ensures` ties its new state to a specification function. The properties of that function are proved as lemmas.

## Model

| member | source | states |
|---|---|---|
| Common.StripAnsi | fixture/xray-fixtures.js:31 | Stripping never lengthens a string, and a string without an escape introducer is returned unchanged. |
| Common.StripAnsiColour | fixture/xray-fixtures.js:31 | A leading colour sequence ESC `[` digits `m` is removed entirely. |
| Common.Trim | single-html-reporter.js:196 | Neither end of the result is whitespace, and the result is no longer than the input. |
| Common.TrimIsSlice | single-html-reporter.js:196 | The result is a slice of the input with only whitespace cut from both ends. |
| Common.TrimIdempotent | single-html-reporter.js:196 | Trimming twice is trimming once. |
| Common.TrimKeeps | single-html-reporter.js:196 | A string without whitespace at its ends is its own trim. |
| Common.ToLower | utils/xray-helper.js:128 | The length is kept and no capital is left. An ASCII capital becomes the small letter 32 code points below it, and every other character is kept. |
| Common.ToLowerIdempotent | utils/xray-helper.js:128 | Lower-casing twice is lower-casing once. |
| Common.Dedup | fixture/xray-fixtures.js:205 | The de-duplicated list holds exactly the elements of the input, each once, and is no longer than the input. |
| Common.DedupOrder | fixture/xray-fixtures.js:205 | The kept elements are in the order of their first occurrences in the input, as a `Set` iterates. |
| Common.DedupOfDistinct | fixture/xray-fixtures.js:205 | A list without repeats is kept as it is. |
| Common.Base64Length | fixture/xray-fixtures.js:114 | The encoding has length 4 * ceil(n / 3). |
| Common.Utf8AsciiRoundTrip | single-html-reporter.js:46 | An ASCII text is written as one byte per character and read back unchanged. |
| Common.Utf8RoundTrip | single-html-reporter.js:46 | Any text written as UTF-8 and read back with `toString('utf-8')` is the same text. |
| Common.Utf8DecodeTruncated | single-html-reporter.js:46 | The bytes E2 82 41 read as one U+FFFD followed by `A`: a cut-short sequence is replaced as a whole, and the byte that cut it short is decoded on its own. |
| Common.ReplaceOutside | fixture/xray-fixtures.js:42 | A replacement without the `u` flag: kept characters stay, and every other one becomes one `_` per UTF-16 code unit. No result is shorter than its input. |
| Common.ReplaceOutsideBmp | fixture/xray-fixtures.js:42 | Inside the Basic Multilingual Plane the length is kept, a position is `_` exactly when its character is not kept, and kept characters are unchanged. |
| Common.ReplaceOutsideFixed | fixture/xray-fixtures.js:42 | Text made only of kept characters and `_` is its own replacement. |
| Common.BasenameJoin | fixture/xray-fixtures.js:46 | The base name of dir/name is name when name has no slash. |
| Common.NatToStringInjective | fixture/xray-fixtures.js:115 | Different numbers are written differently, so the step screenshot names differ. |
| XrayHelper.LastDot | utils/xray-helper.js:128 | Finds the last dot of a string, or reports that there is none. |
| XrayHelper.Extname | utils/xray-helper.js:128 | The extension is empty, or a dot followed by text with no dot and no slash. |
| XrayHelper.ExtnameOfSuffix | utils/xray-helper.js:128 | The extension of stem.e is .e for a non-empty stem without slashes. |
| XrayHelper.GetMimeType | utils/xray-helper.js:127-139 | The type is one of the seven table entries or application/octet-stream. |
| XrayHelper.MimeTypeOfExtension | utils/xray-helper.js:127-139 | The type of stem.e is the table entry for the lower-cased .e, and application/octet-stream when there is none. |
| XrayHelper.MimeTypeWithoutDot | utils/xray-helper.js:127-139 | A name without a dot has type application/octet-stream. |
| XrayHelper.BasenameHasNoSlash | utils/xray-helper.js:145 | A base name never holds a slash. |
| XrayHelper.BasenameIsSuffix | utils/xray-helper.js:145 | Every character of a base name occurs in the path. |
| XrayHelper.CreateEvidence | utils/xray-helper.js:141-151 | Evidence exists exactly when the file exists and is not empty. Its data is the Base64 of the file, its name the base name, and its type the MIME type of that name. |
| XrayHelper.AuthenticatedCache | utils/xray-helper.js:92-112 | A token that is set and not expired is returned without a request. Otherwise one login request is sent, and a successful login sets the token and an expiry 55 minutes ahead. |
| XrayHelper.Authenticated | utils/xray-helper.js:92-112 | The token is the cached one while it is valid, and otherwise the login's outcome. The fields and the debug file are kept, and at most one request is added after the earlier ones. |
| XrayHelper.TokenReusedForFiftyFiveMinutes | utils/xray-helper.js:94-106 | After a login at t, calls before t + 55 min reuse the token, and a call at or after that logs in again. |
| XrayHelper.BuildPayload | utils/xray-helper.js:157-181 | With a truthy execution key the payload is tests plus that key, with no info. Otherwise the info holds the custom or default summary and the fixed description, and plan and project appear exactly when they are truthy. |
| XrayHelper.Uploaded | utils/xray-helper.js:153-220 | The fields never change. A returned value is the server's response, and when nothing is returned the debug file holds the batch. At most a login and an import are added after the earlier requests. |
| XrayHelper.UploadedOutcome | utils/xray-helper.js:153-220 | The upload returns the response data exactly when there is a token and a response. On failure the batch is dumped to the debug file. When there is a token, the last request is the import of the payload built from the current fields. The fields do not change. |
| XrayHelper.Client.constructor | utils/xray-helper.js:6-21 | Keeps the three keys; there is no token, no expiry and nothing sent. |
| XrayHelper.Client.Authenticate | utils/xray-helper.js:92-112 | The new token, expiry and requests are those of the cache rule. |
| XrayHelper.Client.UploadResults | utils/xray-helper.js:153-220 | The new state and the result are those of the upload rule. |
| XraySteps.SafeName | fixture/xray-fixtures.js:42 | Only lower-case letters, digits and `_` remain. The regular expression has no `u` flag, so it works per UTF-16 code unit and a character outside the Basic Multilingual Plane becomes two `_`. Inside that plane the length is kept, a position is `_` exactly when its character is not a letter or digit, and a letter or digit is kept lower-cased. |
| XraySteps.SafeNameIdempotent | fixture/xray-fixtures.js:42 | A safe name is its own safe name and holds no slash and no dot. |
| XraySteps.SafeNameOutsideBmp | fixture/xray-fixtures.js:42 | The name `a` followed by U+1F600 becomes `a__`. |
| XraySteps.SnapSpec | fixture/xray-fixtures.js:44-75 | A written file is named by the safe name, with .txt for a string and .json otherwise. Its bytes decode back to the string, the object's JSON or `null`. snap fails exactly when an object's screenshot fails, or a function throws, or the page screenshot after it fails. |
| XraySteps.SnapWritesFile | fixture/xray-fixtures.js:44-81 | Only a string, null or a plain object produces a file. A screenshot-capable object is checked first and gives no path. snap returns a path exactly when it wrote a file. |
| XraySteps.SnapFileName | fixture/xray-fixtures.js:44-62 | The file is the safe name plus .txt for a string and .json otherwise, and the MIME table types it text/plain or application/json. |
| XraySteps.Snap | fixture/xray-fixtures.js:36-82 | The written file, the returned path and the registration with the active step follow the snap rule. A path is registered only when there is a path and an active step. |
| XraySteps.SnappedEvidence | fixture/xray-fixtures.js:191-202 | At most one evidence per snapped path. |
| XraySteps.SnappedEvidenceAll | fixture/xray-fixtures.js:191-202 | When every snapped path can be read: one evidence per path, in order, typed application/json for a `.json` path and text/plain otherwise. |
| XraySteps.SnappedEvidenceFrom | fixture/xray-fixtures.js:191-202 | Every evidence comes from a snapped path that can be read; unreadable paths give nothing. |
| XraySteps.ExtraPaths | fixture/xray-fixtures.js:204-218 | The kept additional paths are exactly the de-duplicated paths that were not snapped and can be read, without repeats. |
| XraySteps.ExtraEvidence | fixture/xray-fixtures.js:207-218 | One application/octet-stream evidence per kept path, in order. |
| XraySteps.ExtraPathsOfMerge | fixture/xray-fixtures.js:204-208 | The merged extra paths are exactly the additional paths that were neither snapped nor repeated and can be read, each once. |
| XraySteps.OneRecordPerStep | fixture/xray-fixtures.js:92-221 | Every call appends exactly one record and keeps the earlier ones. After a FAILED record it appends TODO `"<name> (Skipped)"` and runs nothing. Otherwise the record is PASSED or FAILED as the body ends, and the active step is gone afterwards. |
| XraySteps.StepSpec | fixture/xray-fixtures.js:87-223 | Each call appends one record after the earlier ones. The record begins with the step name, and it is FAILED exactly when the call re-throws. |
| XraySteps.SuccessPath | fixture/xray-fixtures.js:105-128 | On success the record is PASSED with the step name. The step-(n+1)-success.png screenshot comes first exactly when asked for, there is a page and it was taken. Then come the snapped and the extra evidence. |
| XraySteps.FailurePath | fixture/xray-fixtures.js:129-187 | On failure the record is FAILED with `"<name> - FAILED: " + stripAnsi(message)`. A failed screenshot does not change that. The evidence is the failure screenshot, then the snapped and the extra evidence. The original error is re-thrown and the active step is deleted. |
| XraySteps.SnapsBecomeEvidence | fixture/xray-fixtures.js:191-202 | Every file snapped during a step becomes one evidence of its record, in snap order, right after the screenshot. |
| XraySteps.AutoSkip | fixture/xray-fixtures.js:94-98 | For a fresh test whose first failing body is k, the statuses are PASSED before k, FAILED at k and TODO `"<name> (Skipped)"` after it. Exactly the bodies up to k run. |
| XraySteps.CollectSnapped | fixture/xray-fixtures.js:191-202 | The loop over the snapped paths builds exactly the snapped evidence. |
| XraySteps.CollectExtra | fixture/xray-fixtures.js:207-218 | The loop over the de-duplicated paths builds exactly the extra evidence. |
| XraySteps.RunSnaps | fixture/xray-fixtures.js:107-108 | Running the body's snaps, stopping at the first that throws, gives the files, registered paths and completion of the body specification. |
| XraySteps.RecordOf | fixture/xray-fixtures.js:105-218 | Builds the record and exit that the specification prescribes for the body's outcome. |
| XraySteps.ExecuteStep | fixture/xray-fixtures.js:87-223 | The new steps, active step, files and run bodies, and the exit, are those of the step specification. |
| XrayResults.ExtractXrayKey | fixture/xray-fixtures.js:25-28 | A found key has the form `[A-Z]+-[0-9]+`, and the title starts with it followed by a colon. |
| XrayResults.ExtractXrayKeyIff | fixture/xray-fixtures.js:25-28 | The key is k exactly when k is key-shaped and the title starts with k followed by a colon. |
| XrayResults.KeyShapedChars | fixture/xray-fixtures.js:521 | A key consists of letters, digits and one dash only. |
| XrayResults.ResultStatus | fixture/xray-fixtures.js:498 | PASSED exactly for the runner status passed, and FAILED otherwise; never TODO. |
| XrayResults.JsRem | fixture/xray-fixtures.js:497 | The remainder truncates toward zero: it has the sign of the dividend and is smaller than the divisor in magnitude. |
| XrayResults.DurationSplit | fixture/xray-fixtures.js:494-497 | For a non-negative duration the seconds are below 60, and minutes*60000 + seconds*1000 is within one second below the duration. |
| XrayResults.Comment | fixture/xray-fixtures.js:511-513 | With an error the comment starts with the ANSI-stripped message and a blank line; without one it starts with the success line. It ends with the duration text, and nothing else lies between. |
| XrayResults.TargetKeyIsFirst | fixture/xray-fixtures.js:503-504 | The target execution key is the description of the first xray_execution annotation. |
| XrayResults.TargetKeyAbsent | fixture/xray-fixtures.js:503-504 | Without an xray_execution annotation there is no target key. |
| XrayResults.ResultFields | fixture/xray-fixtures.js:491-517 | A result exists exactly when the title has a key. Its status, steps, times, spec file, target key and comment are taken from the test as the recorder states. |
| XrayResults.BuildResult | fixture/xray-fixtures.js:491-517 | A result exists exactly when the title has a key, and it carries that key and the recorded steps. |
| XrayResults.SafeKey | fixture/xray-fixtures.js:521 | Only letters, digits and `_` remain, one `_` per UTF-16 code unit of any other character. Inside the Basic Multilingual Plane the length is kept, a position is `_` exactly when the key's character is not a letter or digit, and letters and digits are kept. |
| XrayResults.SafeKeyInjective | fixture/xray-fixtures.js:521 | Different Xray keys (of the form `[A-Z]+-[0-9]+`) have different safe forms. Arbitrary strings can collide, as `A-1` and `A_1` do. |
| XrayResults.ResultFileNameInjective | fixture/xray-fixtures.js:521-522 | The file name `result-<safe key>-<now>.json` determines both the key and the time. |
| XrayResults.RecordedKeepsOthers | fixture/xray-fixtures.js:521-525 | Recording writes the result's file, appends the result to the global list and keeps every other file. |
| XrayResults.RecordSpec | fixture/xray-fixtures.js:521-525 | A result is recorded exactly when there is one and the results directory exists. Then the directory holds its entry under the reported name and the global list ends with it. Otherwise the directory and the list are unchanged. |
| XrayResults.TwoResultsTwoFiles | fixture/xray-fixtures.js:521-525 | Two results with different keys or times are both kept as files. |
| XrayResults.Begin | fixture/xray-fixtures.js:486-487 | The steps are emptied and the start time set. |
| XrayResults.Record | fixture/xray-fixtures.js:485-526 | The results directory, the global list and the outcome are those of the recording rule. |
| XrayResults.Store | fixture/xray-fixtures.js:521-525 | A result is written under its file name and appended to the global list, or, without a results directory, the write fails and nothing changes. |
| XrayUpload.ParsedResults | fixture/xray-fixtures.js:235-245 | No more results than directory entries. |
| XrayUpload.ParsedResultsMembers | fixture/xray-fixtures.js:235-245 | A result is read exactly when some `.json` file holds it. Other files and unparsable ones are skipped. |
| XrayUpload.Listing | fixture/xray-fixtures.js:236 | `readdirSync` lists the entries sorted by name, in the order of their UTF-8 bytes, which is code point order. The listing holds the same entries. |
| XrayUpload.ReadResults | fixture/xray-fixtures.js:235-245 | No results without a directory, and otherwise no more results than entries. |
| XrayUpload.ReadResultsMembers | fixture/xray-fixtures.js:235-245 | Listing keeps the entries, and a result is read exactly when some `.json` entry holds it. |
| XrayUpload.InsertEntry | fixture/xray-fixtures.js:236 | Inserting an entry into a listing sorted by name keeps it sorted and adds exactly that entry. |
| XrayUpload.ResultsToUpload | fixture/xray-fixtures.js:247-249 | The results read from the directory in listing order, or the global list when none were read. |
| XrayUpload.ReadResultFiles | fixture/xray-fixtures.js:235-245 | The read loop goes over the listing in name order and gives exactly the results read from the directory, and none without a directory. |
| XrayUpload.CleanNameOfSpec | fixture/xray-fixtures.js:278 | x.spec.js is grouped as x.json. |
| XrayUpload.CleanNameOfScript | fixture/xray-fixtures.js:278 | x.js is grouped as x.json. |
| XrayUpload.NoSpecFileGroup | fixture/xray-fixtures.js:277-278 | A result without a spec file is grouped as consolidated.json.json. |
| XrayUpload.Grouping | fixture/xray-fixtures.js:275-285 | The group names are distinct and each has a group. |
| XrayUpload.GroupingIsFilter | fixture/xray-fixtures.js:276-285 | A group exists exactly when some result belongs to it, and it holds exactly those results in order, without spec file. |
| XrayUpload.GroupingKeepsCount | fixture/xray-fixtures.js:276-285 | The group sizes add up to the number of results. |
| XrayUpload.GroupBySpec | fixture/xray-fixtures.js:275-285 | The grouping loop builds exactly the grouping. |
| XrayUpload.Pad2 | fixture/xray-fixtures.js:262 | At least two digits, exactly two below 100. |
| XrayUpload.Pad2Value | fixture/xray-fixtures.js:262 | The padded digits read back as the number. |
| XrayUpload.TimestampInjective | fixture/xray-fixtures.js:261-270 | The ddmmyyyyHHmmss stamp of a valid date with a four-digit year determines the date. |
| XrayUpload.IfTruthy | fixture/xray-fixtures.js:299-301 | An info field is kept exactly when it is truthy. |
| XrayUpload.BundlesHoldResults | fixture/xray-fixtures.js:288-297 | Every result ends up, without its spec file, in the bundle named after its group. |
| XrayUpload.BuildBundles | fixture/xray-fixtures.js:288-306 | The bundle loop builds exactly one bundle per group in group order. |
| XrayUpload.Split | fixture/xray-fixtures.js:361 | Splitting gives at least one part, none holding the separator. |
| XrayUpload.JoinSplit | fixture/xray-fixtures.js:361 | Joining the parts with the separator gives the string back. |
| XrayUpload.SplitJoin | fixture/xray-fixtures.js:361 | Splitting parts joined by a separator they do not hold gives the parts back. |
| XrayUpload.CleanQuoted | fixture/xray-fixtures.js:361 | A bare item between one pair of quotes is cleaned to the item. |
| XrayUpload.CleanPart | fixture/xray-fixtures.js:361 | A cleaned item is its part trimmed, with at most one quote cut from each end. |
| XrayUpload.CleanAll | fixture/xray-fixtures.js:361 | One item per part. Each item is its part trimmed, with at most one quote cut from each end. |
| XrayUpload.CleanAllBare | fixture/xray-fixtures.js:361 | Bare items are kept as they are. |
| XrayUpload.RemoveBrackets | fixture/xray-fixtures.js:357 | No bracket is left. |
| XrayUpload.RemoveOuterBrackets | fixture/xray-fixtures.js:357 | Around text without brackets, removing the brackets gives that text. |
| XrayUpload.NoBrackets | fixture/xray-fixtures.js:357 | Text without brackets is kept. |
| XrayUpload.SplitCleanJoin | fixture/xray-fixtures.js:361 | Items joined by commas are split and cleaned back into the items. |
| XrayUpload.CommaListRoundTrip | fixture/xray-fixtures.js:344-363 | A comma list of items that does not start with a bracket parses into the items. |
| XrayUpload.PlainList | fixture/xray-fixtures.js:359-362 | A list that does not start with `[` takes the comma-split branch, whatever JSON.parse would give. |
| XrayUpload.BracketedList | fixture/xray-fixtures.js:348-358 | A bracketed list that does not parse as JSON falls back to removing the brackets and splitting. |
| XrayUpload.BracketedListFallback | fixture/xray-fixtures.js:354-358 | `[a,b,c]` without JSON quoting still gives the items. |
| XrayUpload.ParseEnvList | fixture/xray-fixtures.js:344-363 | An unset or empty variable gives no items, and a bracketed value that parses gives the parsed list. Otherwise there is one item per comma-separated part, of the value without its brackets when it is bracketed. Each item is its part trimmed, with at most one quote cut from each end. |
| XrayUpload.Insert | fixture/xray-fixtures.js:382 | Inserting into a sorted list keeps it sorted and adds exactly the element. |
| XrayUpload.Sort | fixture/xray-fixtures.js:382 | The specs come out sorted character by character, a proper prefix first, and as a permutation of the input. |
| XrayUpload.SortedUnique | fixture/xray-fixtures.js:382 | Two sorted permutations of each other are equal. |
| XrayUpload.SortIgnoresOrder | fixture/xray-fixtures.js:382 | The sorted order does not depend on the order in which the groups were found. |
| XrayUpload.TargetMapping | fixture/xray-fixtures.js:404-423 | The spec at i < \|keys\| with a non-empty key appends to keys[i] and takes no summary. Every other spec creates an execution and takes the summary of its rank among those while summaries last; an empty key counts as none. |
| XrayUpload.NewBeforeGrows | fixture/xray-fixtures.js:418-420 | Two specs that create executions never take the same summary. |
| XrayUpload.NewBeforePastKeys | fixture/xray-fixtures.js:418-420 | Past the configured keys, every spec takes the next summary. |
| XrayUpload.Chunks | fixture/xray-fixtures.js:425-428 | ceil(n / 20) chunks, each of 1 to 20 results, whose concatenation is the input. |
| XrayUpload.ChunksFull | fixture/xray-fixtures.js:425-426 | Every chunk but the last holds exactly 20 results. |
| XrayUpload.CleanResults | fixture/xray-fixtures.js:395-400 | One result per result. Each has no spec file and no target key and otherwise equals the original. |
| XrayUpload.PreparedPayload | fixture/xray-fixtures.js:432-454 | With a key, the batch payload appends to it and carries no plan or project. Without one, it creates an execution with the spec's summary or the default, and the environment's plan and project when truthy. |
| XrayUpload.BatchesKeepGoing | fixture/xray-fixtures.js:425-465 | Every chunk is uploaded whatever the previous one did, and earlier requests are kept. A key once known is kept, and every import appends to it. |
| XrayUpload.BatchesAdoptKey | fixture/xray-fixtures.js:425-465 | Without a key, the first batch creates an execution. When its response carries a key, that key is adopted and every later import appends to it. When it carries none, the rest runs as if from the start, so the next batch creates again. |
| XrayUpload.Batches | fixture/xray-fixtures.js:425-465 | A key the spec already has is kept, and the key it ends with is either the one it started with or a non-empty one. |
| XrayUpload.UploadedSends | utils/xray-helper.js:153-201 | An upload only adds login requests and the import of the current payload. |
| XrayUpload.SpecsUploadEverything | fixture/xray-fixtures.js:388-466 | The spec loop makes the sum of ceil(size / 20) uploads over the specs. |
| XrayUpload.Specs | fixture/xray-fixtures.js:388-466 | The spec loop keeps every earlier request. |
| XrayUpload.TeardownCleansUp | fixture/xray-fixtures.js:231-472 | The teardown throws exactly when there are results and the report directory of this second exists, and then nothing changes. Otherwise the results directory and global list are cleared, and nothing is sent unless UPLOAD_JIRA is exactly ON. |
| XrayUpload.TeardownWritesReports | fixture/xray-fixtures.js:251-328 | With results, one bundle per group is filed under this second's stamp with the moved HTML report. Earlier report directories are kept. |
| XrayUpload.UploadPhaseCount | fixture/xray-fixtures.js:382-466 | The upload phase makes one upload per chunk of every spec. |
| XrayUpload.TeardownBatchCount | fixture/xray-fixtures.js:388-466 | A teardown that uploads sends the sum of ceil(size / 20) batches. |
| XrayUpload.Teardown | fixture/xray-fixtures.js:231-472 | Earlier requests and earlier report directories are kept. An upload is made only when UPLOAD_JIRA is exactly ON. |
| XrayUpload.TotalBatchesOfPermutation | fixture/xray-fixtures.js:382 | The batch count does not depend on the order of the specs. |
| XrayUpload.PrepareFields | fixture/xray-fixtures.js:432-454 | The helper's key, summary, plan and project are set as the batch rule prescribes. |
| XrayUpload.UploadBatches | fixture/xray-fixtures.js:425-465 | The batch loop gives the state, key and count of the batch specification. |
| XrayUpload.NextTarget | fixture/xray-fixtures.js:404-423 | Picks the spec's key and summary and moves the summary cursor as the mapping prescribes. |
| XrayUpload.UploadSpecs | fixture/xray-fixtures.js:388-466 | The spec loop gives the state and count of the spec specification. |
| XrayUpload.ExportReports | fixture/xray-fixtures.js:251-320 | Reports are filed exactly when there are results and the timestamp folder is new; when the folder already exists, creating it throws: the workspace is left as it was and the teardown ends there. |
| XrayUpload.UploadAll | fixture/xray-fixtures.js:358-466 | The client state and batch count are those of uploading every spec, in sorted order, to its target. |
| XrayUpload.ClearResults | fixture/xray-fixtures.js:468-471 | The results directory is gone and the global list is empty; nothing else in the workspace changes. |
| XrayUpload.UploadToXray | fixture/xray-fixtures.js:231-472 | The workspace, helper state and outcome are those of the teardown specification. |
| Checkpoint3.SafeName | checkpoints/checkpoint_3_monocart/xray-fixtures.js:40 | Only letters, digits, dots, dashes and `_` remain. Any other character becomes one `_` per UTF-16 code unit, so one outside the Basic Multilingual Plane becomes two. Inside that plane the length is kept, and a kept character is unchanged. |
| Checkpoint3.SafeNameIdempotent | checkpoints/checkpoint_3_monocart/xray-fixtures.js:40 | A safe name is its own safe name and holds no slash. |
| Checkpoint3.SnapWritesFile | checkpoints/checkpoint_3_monocart/xray-fixtures.js:44-59 | snap fails only when a screenshot fails. It writes a file for a string, an object and a screenshot taken, and never runs a function. |
| Checkpoint3.SnapFileName | checkpoints/checkpoint_3_monocart/xray-fixtures.js:44-59 | The file lies in test-results, named by the safe name and the suffix of its kind, and a screenshot is typed image/png. |
| Checkpoint3.SnapSpec | checkpoints/checkpoint_3_monocart/xray-fixtures.js:44-59 | A string is written as .txt and decodes back to itself. A taken screenshot is written as .png with its bytes. Any other object, and null, is written as .json and decodes back to its JSON or `null`. snap fails exactly when a screenshot fails. |
| Checkpoint3.Snap | checkpoints/checkpoint_3_monocart/xray-fixtures.js:34-66 | The written file, returned path and registration follow this version's snap rule, including the .png path. |
| Checkpoint3.Readable | checkpoints/checkpoint_3_monocart/xray-fixtures.js:131-136 | The paths the helper can turn into evidence, in the order given; missing and empty files are dropped. |
| Checkpoint3.Evidences | checkpoints/checkpoint_3_monocart/xray-fixtures.js:131-136 | One evidence per readable path, in path order: the i-th evidence is the helper's evidence of the i-th readable path. |
| Checkpoint3.OneRecordPerStep | checkpoints/checkpoint_3_monocart/xray-fixtures.js:74-138 | Every call appends one record and keeps the earlier ones. After a FAILED record it appends TODO `"<name> (Skipped)"` and runs nothing. |
| Checkpoint3.StepSpec | checkpoints/checkpoint_3_monocart/xray-fixtures.js:71-139 | Each call appends one record after the earlier ones. The record begins with the step name, and it is FAILED exactly when the call re-throws. |
| Checkpoint3.FailureHasNoSnaps | checkpoints/checkpoint_3_monocart/xray-fixtures.js:104-124 | A failed step ends with the raw error message and at most the failure screenshot, and the error is re-thrown. |
| Checkpoint3.SuccessCollectsEvidence | checkpoints/checkpoint_3_monocart/xray-fixtures.js:126-138 | On success the screenshot comes first. After it comes one evidence per readable distinct additional or snapped path, in the order of first occurrence, and nothing else. |
| Checkpoint3.AutoSkip | checkpoints/checkpoint_3_monocart/xray-fixtures.js:76-80 | PASSED before the first failing step, FAILED at it, TODO after it, and only the bodies up to it run. |
| Checkpoint3.CollectEvidence | checkpoints/checkpoint_3_monocart/xray-fixtures.js:131-136 | The evidence loop builds exactly the evidence list. |
| Checkpoint3.RunSnaps | checkpoints/checkpoint_3_monocart/xray-fixtures.js:89-90 | Running the snaps gives the body specification's files, paths and completion. |
| Checkpoint3.ExecuteStep | checkpoints/checkpoint_3_monocart/xray-fixtures.js:71-139 | The new state and exit are those of this version's step specification. |
| Checkpoint3.BatchesKeepGoing | checkpoints/checkpoint_3_monocart/xray-fixtures.js:178-205 | Every chunk is uploaded whatever happened before. A configured or captured key is kept and every import appends to it. |
| Checkpoint3.BatchesAdoptKey | checkpoints/checkpoint_3_monocart/xray-fixtures.js:178-205 | Without a key, the first batch creates an execution. A key in its response is adopted and appended to afterwards; without one the next batch creates again. |
| Checkpoint3.Batches | checkpoints/checkpoint_3_monocart/xray-fixtures.js:178-205 | A key already known is kept, and the key it ends with is either the one it started with or a non-empty one. |
| Checkpoint3.TeardownEffects | checkpoints/checkpoint_3_monocart/xray-fixtures.js:147-211 | Without results nothing changes, with no cleanup. With results, ceil(n / 20) batches are sent and the directory and global list are cleared. |
| Checkpoint3.Teardown | checkpoints/checkpoint_3_monocart/xray-fixtures.js:147-211 | Earlier requests are kept, and the report directories and the custom report are untouched. |
| Checkpoint3.PrepareFields | checkpoints/checkpoint_3_monocart/xray-fixtures.js:186-191 | Once a key is known it is set and a set plan or project is deleted. |
| Checkpoint3.UploadBatches | checkpoints/checkpoint_3_monocart/xray-fixtures.js:178-205 | The loop gives the state and count of this version's batch specification. |
| Checkpoint3.UploadToXray | checkpoints/checkpoint_3_monocart/xray-fixtures.js:147-211 | The workspace, helper state and outcome are those of this version's teardown. |
| Checkpoint3.Comment | checkpoints/checkpoint_3_monocart/xray-fixtures.js:244-246 | The comment starts with the raw error and a blank line, or with the success text, and ends with the duration; nothing else lies between. |
| Checkpoint3.ResultAsFinal | checkpoints/checkpoint_3_monocart/xray-fixtures.js:239-248 | Results exist for the same titles as in the final version and equal its upload form without internal fields, unless the error holds ANSI codes. |
| Checkpoint3.BuildResult | checkpoints/checkpoint_3_monocart/xray-fixtures.js:239-248 | A result exists exactly when the title has a key. It carries that key and the recorded steps, and no internal fields. |
| Checkpoint3.Record | checkpoints/checkpoint_3_monocart/xray-fixtures.js:224-257 | The results directory, global list and outcome follow this version's recording rule. |
| Checkpoint1.SuccessShotFailsStep | checkpoints/checkpoint_1_standalone/xray-fixtures.js:73-90 | A success screenshot that throws fails the step with its own message and the failure.png evidence, although the body completed. |
| Checkpoint1.FailureShotLosesStep | checkpoints/checkpoint_1_standalone/xray-fixtures.js:83-89 | A failure screenshot that throws adds no record and keeps the step active, and the next step then runs its body. |
| Checkpoint1.NoPageAsCheckpoint3 | checkpoints/checkpoint_1_standalone/xray-fixtures.js:61-101 | Without a page the step behaves exactly as in checkpoint 3. |
| Checkpoint1.RecordUnlessShotFails | checkpoints/checkpoint_1_standalone/xray-fixtures.js:64-100 | Every call adds exactly one record, of the expected status, except one whose failure screenshot throws, which adds none. |
| Checkpoint1.StepSpec | checkpoints/checkpoint_1_standalone/xray-fixtures.js:61-101 | A call appends one record that begins with the step name and is FAILED exactly when the call re-throws. The exception is a failure screenshot that throws: then no record is added, the step stays active and the call re-throws. |
| Checkpoint1.ExecuteStep | checkpoints/checkpoint_1_standalone/xray-fixtures.js:61-101 | The new state and exit are those of this version's step specification, with success.png and failure.png evidence. |
| HtmlReporter.StripAnsiOrEmpty | single-html-reporter.js:5-8 | A falsy value gives ''. Otherwise the result is no longer than the input and leaves text without escapes unchanged. |
| HtmlReporter.CleanMessage | single-html-reporter.js:196 | The cleaned message is no longer than the original, '' stays '', and text without escapes is only trimmed. |
| HtmlReporter.PreprocessContent | single-html-reporter.js:35-65 | Name and type are kept, and content is null exactly when the file is missing or there is neither path nor body. An image becomes `data:<type>;base64,` followed by the Base64 of its file or body bytes, and anything else the UTF-8 text of those bytes. |
| HtmlReporter.Preprocess | single-html-reporter.js:35-65 | Name and type are kept, and content is null exactly when a truthy path names a missing file or there is neither path nor body. |
| HtmlReporter.PreprocessAll | single-html-reporter.js:35-65 | One processed attachment per attachment, in order. Each keeps its name and type, and its content is null, the data URI of the Base64 of its bytes for an image, or their UTF-8 text. |
| HtmlReporter.AttachName | single-html-reporter.js:89-91 | A matched name is non-empty and holds no quote. |
| HtmlReporter.AttachNameFound | single-html-reporter.js:89-91 | A title containing `Attach "NAME"` always matches. |
| HtmlReporter.FirstWanted | single-html-reporter.js:92-109 | The index of the first attachment the title wants, or none when it wants none. |
| HtmlReporter.Claim | single-html-reporter.js:89-110 | The claimed attachment is the first wanted one, it is removed from the pool, and the rest keeps its order. Without one the pool is unchanged. |
| HtmlReporter.InterestingLogs | single-html-reporter.js:117-133 | A title is collected exactly when it is interesting and belongs to some step below, at any depth. |
| HtmlReporter.FirstAttachment | single-html-reporter.js:141-147 | The attachment of a child before which no child has one, or none when no child has one. |
| HtmlReporter.Build | single-html-reporter.js:76-150 | Title, duration and error are kept, and the status is failed exactly when there is an error. A step that is not a Snap keeps its children and its own claim and has no metaInfo. |
| HtmlReporter.BuildSnap | single-html-reporter.js:112-149 | A Snap step keeps no children. Its metaInfo is absent exactly when no interesting title lies below it. Otherwise the metaInfo joins with " \| " every such title once, in the order of first occurrence. Without a claim of its own it takes the first child's attachment. |
| HtmlReporter.ProcessStep | single-html-reporter.js:71-153 | A step is dropped exactly when it is a hook, and then the pool is unchanged. A kept step keeps its title and error. |
| HtmlReporter.ProcessStepShaped | single-html-reporter.js:71-153 | A step is dropped exactly when its title names a hook, and then nothing is claimed. A kept step keeps its title, is failed exactly when it has an error, holds no hook at any depth, and is flat when it is a Snap step. |
| HtmlReporter.ProcessStepsShaped | single-html-reporter.js:83 | Processing a list keeps at most its steps and shapes every kept one. |
| HtmlReporter.ClaimConserves | single-html-reporter.js:92-109 | The claimed attachment and the new pool together are the old pool. |
| HtmlReporter.ProcessStepConserves | single-html-reporter.js:71-153 | The attachments held in the processed tree and the remaining pool never exceed the pool. Without Snap steps they are exactly the pool: each attachment is in one place. |
| HtmlReporter.ProcessStepsConserve | single-html-reporter.js:156-159 | The same partition for the steps of a test and the attachments left to the test. |
| HtmlReporter.ChildFirst | single-html-reporter.js:83-110 | One instance: when the pool holds one attachment that a parent and its only, childless child both want, the child gets it and the parent gets nothing. |
| HtmlReporter.LeafClaims | single-html-reporter.js:83-110 | A kept step without children holds the first attachment of its pool that it wants, and the pool loses exactly that one. |
| HtmlReporter.FirstKeptChild | single-html-reporter.js:70-83 | The first child that is not a hook is processed against the whole pool, since the hooks before it are dropped and leave the pool as it is. |
| HtmlReporter.ChildrenFirst | single-html-reporter.js:83-110 | For any pool and children, the first child, when it is kept, is processed against the whole pool, and a parent that is not a Snap step claims only from what its subtree left. The children's attachments, the parent's and the pool left over add up to at most the pool. Among distinct attachments the parent never holds one that a child holds. |
| HtmlReporter.CountStatus | single-html-reporter.js:166-168 | A count never exceeds the number of results. |
| HtmlReporter.CountsPartition | single-html-reporter.js:166-168 | The three counts add up to at most the number of results, and to it when every status is passed, failed or skipped. |
| HtmlReporter.CountAfterPush | single-html-reporter.js:161-168 | A new result adds one to the count of its own status only. |
| HtmlReporter.CleanStep | single-html-reporter.js:205-209 | Only the error message is cleaned; everything else of the step is kept. |
| HtmlReporter.CleanSteps | single-html-reporter.js:203-211 | Every step of a list is cleaned in place. |
| HtmlReporter.CleanTest | single-html-reporter.js:193-212 | Every error is cleaned in place, the steps are cleaned, and nothing else changes. |
| HtmlReporter.CleanKeepsCounts | single-html-reporter.js:164-213 | Cleaning does not change the counts. |
| HtmlReporter.ClaimFrom | single-html-reporter.js:89-110 | The splice on the pool gives the claim's attachment and pool. |
| HtmlReporter.ProcessStepIn | single-html-reporter.js:71-154 | Processing a step against the pool gives the step specification's tree and pool. |
| HtmlReporter.ProcessStepsIn | single-html-reporter.js:156 | Processing a list against the pool gives the list specification's trees and pool. |
| HtmlReporter.Pool.constructor | single-html-reporter.js:68 | The pool starts as a copy of all processed attachments. |
| HtmlReporter.Reporter.constructor | single-html-reporter.js:11-13 | The output file is the option when truthy, else custom-report/index.html. |
| HtmlReporter.Reporter.OnBegin | single-html-reporter.js:15-20 | The results are emptied and the start time set. |
| HtmlReporter.Reporter.OnTestEnd | single-html-reporter.js:22-162 | Exactly one test datum is appended: the processed steps and the attachments left over. |
| HtmlReporter.Reporter.OnEnd | single-html-reporter.js:164-213 | The counts are those of each exact status and the duration is now minus the start. Every result is then cleaned in place. |
| Platform.FirstMismatch | fixture/platform.js:33-47 | The index of the first pair whose value is not met, or none exactly when all are met. |
| Platform.MissingPermissions | fixture/platform.js:64 | Exactly the required permissions not granted, none more. |
| Platform.MismatchRules | fixture/platform.js:38-46 | `_exist_` fails on undefined, null or ''. `!_exist_` fails on any other value. Anything else needs strict equality: an expected NaN is never met, and an object or array only by the same reference. |
| Platform.NaNAndReferences | fixture/platform.js:38-45 | NaN mismatches whatever is configured. Two references match exactly when they are the same. Both count as present for `_exist_`. |
| Platform.OtherSpellingIsLiteral | fixture/platform.js:37-45 | The spelling `_!exist_` of the comment is compared literally. |
| Platform.RunIff | fixture/platform.js:27-71 | A test runs exactly when every pair is met and no permission is missing; absent or non-array fields require nothing. |
| Platform.Decide | fixture/platform.js:27-71 | A skip needs an entry for the title. A configuration skip reports the value looked up and a pair it does not meet. A permission skip lists at least one permission, and none of them is granted. |
| Platform.ConfigBeforePermissions | fixture/platform.js:31-58 | A pair that is not met decides the skip whatever the permissions, and the pair reported is the first one not met. |
| Platform.KeyIsLastTitle | fixture/platform.js:28 | Only the last title of the path selects the entry. |
| SelectBox.IntToString | fixture/selectbox.js:25 | String(n) is never empty. |
| SelectBox.GetAt | fixture/selectbox.js:25 | The token starts and ends with `___`. |
| SelectBox.ParseInt | fixture/selectbox.js:37 | A string of digits reads as its value. |
| SelectBox.ParseIntToString | fixture/selectbox.js:37 | Number(String(n)) is n. |
| SelectBox.GetValueAt | fixture/selectbox.js:36-47 | A found value is one of the options. |
| SelectBox.RemoveFix | fixture/selectbox.js:37 | Removing every `___` from around a numeral leaves the numeral. |
| SelectBox.GetValueAtGetAt | fixture/selectbox.js:36-47 | The token of n selects option n, or n + 1 when the first option is "Select All", and undefined when there is no such option. |
| SelectBox.ValueToSelect | fixture/selectbox.js:105-109 | A value is resolved by index exactly when it is a string starting and ending with `___`; any other is selected literally. |
| SelectBox.LiteralUnlessWrapped | fixture/selectbox.js:105-109 | The number 13 and the text "13" are selected literally, and only `___13___` is an index. |
| SelectBox.BareFixIsFirst | fixture/selectbox.js:105-109 | The bare `___` is an index token that selects the same option as index 0. |

## Left out

- Playwright itself is not modelled: `page.screenshot`, `test.step`, `testInfo.attach` and `test.skip`. Screenshots are given outcomes, and the attachments that snap and the step executor hand to the runner are not recorded.
- The file system is modelled as maps; `mkdir`, `rename` and `rm` only have their effect on those maps.
- File names that contain a newline or are relative to a changing working directory are not considered.
- HTTP, axios and credentials are given exchanges. `addAttachment`, the Jira multipart upload, is not modelled because it is never called by the core.
- Clocks are parameters: `Date.now`, `new Date` and ISO strings. The teardown reads the report timestamp once. Each request has its own clock reading, the `now` and `iso` of its `Exchange`.
- JSON.parse of the environment lists is taken as an optional parsed list. `JSON.stringify` of results is not modelled: a result file holds the result itself.
- A JSON.parse that yields something other than a list of strings is not modelled.
- Common.StripAnsi: a simplified escape-sequence stripper; the parameter runs are not limited to four digits and the regular expression's backtracking is not reproduced.
- XrayUpload.Sort: compares characters by code point, while JavaScript compares UTF-16 code units; the orders differ only for characters outside the Basic Multilingual Plane.
- Common.ToLower: ASCII letters only; other scripts are kept as they are.
- SelectBox.ParseInt: only signed decimal digits and the empty string are read; decimals, exponents, hexadecimal, surrounding white space and Infinity give None (NaN) instead of their JavaScript value.
- The DOM side of `addToSelectBox`, and `getBySelectBox` and `removeFromSelectBox`, are not modelled (locators and clicks only).
- Nested steps inside a step body are not modelled; a body is a list of snaps and an end.
- The reporter's attachment read errors and all console logging are not modelled, and neither are the verbose messages of the access gate.
- The HTML, CSS and browser script the reporter writes after `onEnd` is presentation only and not modelled.
- Thrown values are modelled by their messages: `Throws` carries a string. A thrown value without a string `message` is not modelled. With such a value, `stripAnsi(error.message)` at fixture/xray-fixtures.js:133 and `stripAnsi(testInfo.error.message)` at fixture/xray-fixtures.js:512 would themselves throw a TypeError, so the step record or the result would not be built.
- Text is a sequence of Unicode scalar values. A JavaScript string holding a lone surrogate cannot be written down, and UTF-8 encoding such a string (which gives EF BF BD) is not modelled.
- The reporter's errors are modelled as message strings; error objects with `value` fields and non-string step errors are not distinguished.
- Checkpoint 1's `uploadToXray` has an empty body, and its `autoTestContext` only resets the steps and the start time, which is what XrayResults.Begin states; neither has a member of its own.
- Common.Basename: a path ending in '/' gives "", where `path.basename` first drops the trailing '/'; the core never passes such a path.
- Platform.Mismatch: the configuration values it compares are undefined, null, strings, integers, NaN, booleans and object references. Fractional and infinite numbers are not modelled, and neither are the contents of objects and arrays (only their identity counts for `!==`).
- Concurrency between Playwright workers, and the uniqueness of `Date.now()` file names across them, cannot be stated in this sequential model.
