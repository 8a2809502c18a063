/** The upload orchestrator of fixture/xray-fixtures.js (`uploadToXray`, run once in the
    global teardown): it reads the recorded results, writes one manual-import bundle per spec
    file, and, when uploading is switched on, maps every spec to an execution key or a new
    execution with the next custom summary and uploads its results in batches of 20. Both
    ways end by removing the results directory and emptying the global list. */
module XrayUpload {
  import opened Common
  import opened Records
  import opened XrayHelper

  // ---------------------------------------------------------------------------------------
  // Reading the results

  predicate IsJsonName(name: string) { EndsWith(name, ".json") }

  /** The results of the `.json` files of the directory that parse, in listing order. */
  function ParsedResults(entries: seq<DirEntry>): (r: seq<TestResult>)
    ensures |r| <= |entries|
    decreases |entries|
  {
    if |entries| == 0 then []
    else
      var init := ParsedResults(entries[..|entries| - 1]);
      var e := entries[|entries| - 1];
      if IsJsonName(e.name) && e.content.ResultJson? then init + [e.content.result] else init
  }

  /** A result is read exactly when some `.json` file holds it; files that do not parse and
      files of other types are skipped. */
  lemma {:induction false} ParsedResultsMembers(entries: seq<DirEntry>, t: TestResult)
    ensures t in ParsedResults(entries) <==>
      exists i :: 0 <= i < |entries| && IsJsonName(entries[i].name) && entries[i].content == ResultJson(t)
    decreases |entries|
  {
    if |entries| > 0 {
      var init := entries[..|entries| - 1];
      ParsedResultsMembers(init, t);
      assert forall i :: 0 <= i < |init| ==> init[i] == entries[i];
    }
  }

  predicate ByName(s: seq<DirEntry>) {
    forall i, j :: 0 <= i < j < |s| ==> StrLe(s[i].name, s[j].name)
  }

  lemma InsertEntryFront(x: DirEntry, s: seq<DirEntry>)
    requires ByName(s) && |s| > 0 && StrLe(x.name, s[0].name)
    ensures ByName([x] + s)
  {
    var r := [x] + s;
    forall i, j | 0 <= i < j < |r| ensures StrLe(r[i].name, r[j].name) {
      if i == 0 && j > 1 { StrLeTrans(x.name, s[0].name, s[j - 1].name); }
    }
  }

  lemma InsertEntryBehind(x: DirEntry, s: seq<DirEntry>, t: seq<DirEntry>)
    requires ByName(s) && |s| > 0 && !StrLe(x.name, s[0].name)
    requires ByName(t) && multiset(t) == multiset(s[1..]) + multiset{x}
    ensures ByName([s[0]] + t) && multiset([s[0]] + t) == multiset(s) + multiset{x}
  {
    StrLeTotal(x.name, s[0].name);
    var r := [s[0]] + t;
    forall i, j | 0 <= i < j < |r| ensures StrLe(r[i].name, r[j].name) {
      if i == 0 {
        var y := t[j - 1];
        assert y in multiset(t);
        if y != x {
          assert y in multiset(s[1..]);
          var k :| 0 <= k < |s[1..]| && s[1..][k] == y;
          assert s[k + 1] == y;
        }
      }
    }
    assert s == [s[0]] + s[1..];
  }

  function InsertEntry(x: DirEntry, s: seq<DirEntry>): (r: seq<DirEntry>)
    requires ByName(s)
    ensures ByName(r) && multiset(r) == multiset(s) + multiset{x}
    decreases |s|
  {
    if |s| == 0 then [x]
    else if StrLe(x.name, s[0].name) then
      InsertEntryFront(x, s);
      [x] + s
    else
      var t := InsertEntry(x, s[1..]);
      InsertEntryBehind(x, s, t);
      [s[0]] + t
  }

  /** fs.readdirSync: the entries in the order of their names' UTF-8 bytes, which is the
      order of their code points. */
  function Listing(entries: seq<DirEntry>): (r: seq<DirEntry>)
    ensures ByName(r) && multiset(r) == multiset(entries)
    decreases |entries|
  {
    if |entries| == 0 then []
    else
      assert entries == entries[..|entries| - 1] + [entries[|entries| - 1]];
      InsertEntry(entries[|entries| - 1], Listing(entries[..|entries| - 1]))
  }

  /** What uploadToXray reads from the results directory: the results of its listing. */
  function ReadResults(dir: Option<seq<DirEntry>>): (r: seq<TestResult>)
    ensures dir.None? ==> r == []
    ensures dir.Some? ==> |r| <= |dir.value|
  {
    if dir.Some? then
      var l := Listing(dir.value);
      assert |l| == |multiset(l)| == |multiset(dir.value)| == |dir.value|;
      ParsedResults(l)
    else []
  }

  /** The results read are those of the `.json` files that parse, whatever order the
      directory holds them in. */
  lemma ReadResultsMembers(entries: seq<DirEntry>, t: TestResult)
    ensures t in ReadResults(Some(entries)) <==>
      exists i :: 0 <= i < |entries| && IsJsonName(entries[i].name) && entries[i].content == ResultJson(t)
    ensures forall e :: e in entries <==> e in Listing(entries)
  {
    var l := Listing(entries);
    ParsedResultsMembers(l, t);
    assert forall e :: e in entries <==> e in multiset(entries);
    assert forall e :: e in l <==> e in multiset(l);
    if t in ReadResults(Some(entries)) {
      var i :| 0 <= i < |l| && IsJsonName(l[i].name) && l[i].content == ResultJson(t);
      assert l[i] in entries;
    }
    if exists i :: 0 <= i < |entries| && IsJsonName(entries[i].name) && entries[i].content == ResultJson(t) {
      var i :| 0 <= i < |entries| && IsJsonName(entries[i].name) && entries[i].content == ResultJson(t);
      assert entries[i] in l;
    }
  }

  /** The results to export: those read from the directory, or the global list when the
      directory gave none. */
  function ResultsToUpload(dir: Option<seq<DirEntry>>, global: seq<TestResult>): (r: seq<TestResult>)
    ensures |ReadResults(dir)| > 0 ==> r == ReadResults(dir)
    ensures |ReadResults(dir)| == 0 ==> r == global
  {
    var read := ReadResults(dir);
    if |read| == 0 && |global| > 0 then global else read
  }

  /** The loop over the directory listing. */
  method ReadResultFiles(dir: Option<seq<DirEntry>>) returns (rs: seq<TestResult>)
    ensures rs == ReadResults(dir)
  {
    rs := [];
    if dir.None? {
      return;
    }
    var entries := Listing(dir.value);
    var i := 0;
    while i < |entries|
      invariant 0 <= i <= |entries|
      invariant rs == ParsedResults(entries[..i])
    {
      assert entries[..i + 1][..i] == entries[..i];
      var e := entries[i];
      if IsJsonName(e.name) && e.content.ResultJson? {
        rs := rs + [e.content.result];
      }
      i := i + 1;
    }
    assert entries[..|entries|] == entries;
  }

  // ---------------------------------------------------------------------------------------
  // Grouping by spec file

  const ConsolidatedName := "consolidated.json"

  /** r._specFile || 'consolidated.json' */
  function SpecName(r: TestResult): string {
    if Truthy(r.specFile) then r.specFile.value else ConsolidatedName
  }

  /** specName.replace(/\.(spec\.)?js$/, '') + '.json': of the two suffixes the regular
      expression can match, ".spec.js" starts further left and wins. */
  function CleanName(spec: string): string {
    if EndsWith(spec, ".spec.js") then spec[..|spec| - 8] + ".json"
    else if EndsWith(spec, ".js") then spec[..|spec| - 3] + ".json"
    else spec + ".json"
  }

  function GroupOf(r: TestResult): string {
    CleanName(SpecName(r))
  }

  lemma CleanNameOfSpec(stem: string)
    ensures CleanName(stem + ".spec.js") == stem + ".json"
  {
    var s := stem + ".spec.js";
    assert s[|s| - 8..] == ".spec.js";
    assert s[..|s| - 8] == stem;
  }

  lemma CleanNameOfScript(stem: string)
    requires !EndsWith(stem, ".spec")
    ensures CleanName(stem + ".js") == stem + ".json"
  {
    var s := stem + ".js";
    assert s[|s| - 3..] == ".js";
    assert s[..|s| - 3] == stem;
    assert |s| >= 8 ==> s[|s| - 8..|s| - 3] == stem[|stem| - 5..];
  }

  /** A result without a spec file name (or with an empty one) lands in
      "consolidated.json.json". */
  lemma NoSpecFileGroup(r: TestResult)
    requires !Truthy(r.specFile)
    ensures GroupOf(r) == "consolidated.json.json"
  {
    var s := ConsolidatedName;
    assert s[|s| - 3..] == "son";
  }

  /** The copy that goes into a bundle: `_specFile` is deleted, `_targetExecutionKey` kept. */
  function ForReport(r: TestResult): TestResult {
    r.(specFile := None)
  }

  /** The grouped object: its keys in insertion order and the results under each. */
  datatype Groups = Groups(names: seq<string>, byName: map<string, seq<TestResult>>)

  predicate WellFormed(g: Groups) {
    && Distinct(g.names)
    && (forall k :: k in g.byName ==> k in g.names)
    && (forall k :: k in g.names ==> k in g.byName)
  }

  function Grouping(rs: seq<TestResult>): (g: Groups)
    ensures WellFormed(g)
    decreases |rs|
  {
    if |rs| == 0 then Groups([], map[])
    else
      var g := Grouping(rs[..|rs| - 1]);
      var r := rs[|rs| - 1];
      var k := GroupOf(r);
      if k in g.byName then Groups(g.names, g.byName[k := g.byName[k] + [ForReport(r)]])
      else Groups(g.names + [k], g.byName[k := [ForReport(r)]])
  }

  /** The results of one group, in the order they were read. */
  function Members(rs: seq<TestResult>, k: string): seq<TestResult>
    decreases |rs|
  {
    if |rs| == 0 then []
    else
      var r := rs[|rs| - 1];
      Members(rs[..|rs| - 1], k) + (if GroupOf(r) == k then [ForReport(r)] else [])
  }

  /** There is a group exactly for every spec name that occurs, and it holds the results of
      that spec, each once and in order. */
  lemma {:induction false} GroupingIsFilter(rs: seq<TestResult>, k: string)
    ensures var g := Grouping(rs);
      && (k in g.byName <==> Members(rs, k) != [])
      && (k in g.byName ==> g.byName[k] == Members(rs, k))
    decreases |rs|
  {
    if |rs| > 0 {
      GroupingIsFilter(rs[..|rs| - 1], k);
    }
  }

  function SumSizes(names: seq<string>, byName: map<string, seq<TestResult>>): nat
    requires forall k :: k in names ==> k in byName
    decreases |names|
  {
    if |names| == 0 then 0 else |byName[names[0]]| + SumSizes(names[1..], byName)
  }

  lemma {:induction false} SumSizesOther(names: seq<string>, byName: map<string, seq<TestResult>>, k: string, v: seq<TestResult>)
    requires forall n :: n in names ==> n in byName
    requires k !in names
    ensures SumSizes(names, byName[k := v]) == SumSizes(names, byName)
    decreases |names|
  {
    if |names| > 0 {
      SumSizesOther(names[1..], byName, k, v);
    }
  }

  lemma {:induction false} SumSizesGrow(names: seq<string>, byName: map<string, seq<TestResult>>, k: string, x: TestResult)
    requires forall n :: n in names ==> n in byName
    requires Distinct(names) && k in names
    ensures SumSizes(names, byName[k := byName[k] + [x]]) == SumSizes(names, byName) + 1
    decreases |names|
  {
    var m := byName[k := byName[k] + [x]];
    if names[0] == k {
      assert k !in names[1..] by {
        forall j | 0 <= j < |names[1..]| ensures names[1..][j] != k {
          assert names[1..][j] == names[j + 1];
        }
      }
      SumSizesOther(names[1..], byName, k, byName[k] + [x]);
    } else {
      assert Distinct(names[1..]) by {
        forall i, j | 0 <= i < j < |names[1..]| ensures names[1..][i] != names[1..][j] {
          assert names[1..][i] == names[i + 1] && names[1..][j] == names[j + 1];
        }
      }
      SumSizesGrow(names[1..], byName, k, x);
    }
  }

  lemma {:induction false} SumSizesAppend(names: seq<string>, byName: map<string, seq<TestResult>>, k: string, v: seq<TestResult>)
    requires forall n :: n in names ==> n in byName
    requires k !in names
    ensures SumSizes(names + [k], byName[k := v]) == SumSizes(names, byName) + |v|
    decreases |names|
  {
    if |names| == 0 {
      assert names + [k] == [k];
    } else {
      assert (names + [k])[1..] == names[1..] + [k];
      SumSizesAppend(names[1..], byName, k, v);
    }
  }

  /** No result is lost or duplicated by the grouping: the groups together hold as many
      results as were read. */
  lemma {:induction false} GroupingKeepsCount(rs: seq<TestResult>)
    ensures var g := Grouping(rs); SumSizes(g.names, g.byName) == |rs|
    decreases |rs|
  {
    if |rs| > 0 {
      var init := rs[..|rs| - 1];
      GroupingKeepsCount(init);
      var g := Grouping(init);
      var r := rs[|rs| - 1];
      var k := GroupOf(r);
      if k in g.byName {
        SumSizesGrow(g.names, g.byName, k, ForReport(r));
      } else {
        SumSizesAppend(g.names, g.byName, k, [ForReport(r)]);
      }
    }
  }

  /** The forEach that fills the grouped object. */
  method GroupBySpec(rs: seq<TestResult>) returns (g: Groups)
    ensures g == Grouping(rs)
  {
    var names: seq<string> := [];
    var byName: map<string, seq<TestResult>> := map[];
    var i := 0;
    while i < |rs|
      invariant 0 <= i <= |rs|
      invariant Groups(names, byName) == Grouping(rs[..i])
    {
      assert rs[..i + 1][..i] == rs[..i];
      var r := rs[i];
      var k := GroupOf(r);
      if k in byName {
        byName := byName[k := byName[k] + [ForReport(r)]];
      } else {
        names := names + [k];
        byName := byName[k := [ForReport(r)]];
      }
      i := i + 1;
    }
    assert rs[..|rs|] == rs;
    g := Groups(names, byName);
  }

  // ---------------------------------------------------------------------------------------
  // Manual-import bundles

  /** The parts of the teardown's clock that name the report directory; `month0` counts from
      0 as Date.prototype.getMonth does. */
  datatype DateParts = DateParts(day: nat, month0: nat, year: nat, hours: nat, minutes: nat, seconds: nat)

  predicate ValidDate(d: DateParts) {
    1 <= d.day <= 31 && d.month0 < 12 && 1000 <= d.year <= 9999 && d.hours < 24 && d.minutes < 60 && d.seconds < 60
  }

  /** n.toString().padStart(2, '0') */
  function Pad2(n: nat): (r: string)
    ensures AllDigits(r) && |r| >= 2
    ensures n < 100 ==> |r| == 2
  {
    var s := NatToString(n);
    if n < 10 then "0" + s
    else
      assert s == NatToString(n / 10) + [DigitChar(n % 10)];
      s
  }

  lemma Pad2Value(n: nat)
    requires n < 100
    ensures DigitsValue(Pad2(n)) == n
  {
    var r := Pad2(n);
    DigitsValueOfNatToString(n);
    if n < 10 {
      assert r[..1] == "0";
      assert DigitsValue(r[..1]) == 0 by { assert r[..1][..0] == ""; }
    }
  }

  lemma YearDigits(y: nat)
    requires 1000 <= y <= 9999
    ensures |NatToString(y)| == 4
  {
    assert NatToString(y) == NatToString(y / 10) + [DigitChar(y % 10)];
    assert NatToString(y / 10) == NatToString(y / 100) + [DigitChar(y / 10 % 10)];
    assert NatToString(y / 100) == NatToString(y / 1000) + [DigitChar(y / 100 % 10)];
  }

  /** ddmmyyyyHHmmss */
  function Timestamp(d: DateParts): string {
    Pad2(d.day) + Pad2(d.month0 + 1) + NatToString(d.year) + Pad2(d.hours) + Pad2(d.minutes) + Pad2(d.seconds)
  }

  /** Where each field of the date sits in the stamp. */
  lemma TimestampParts(d: DateParts)
    requires ValidDate(d)
    ensures var t := Timestamp(d);
      && |t| == 14
      && t[0..2] == Pad2(d.day) && t[2..4] == Pad2(d.month0 + 1) && t[4..8] == NatToString(d.year)
      && t[8..10] == Pad2(d.hours) && t[10..12] == Pad2(d.minutes) && t[12..14] == Pad2(d.seconds)
  {
    YearDigits(d.year);
    var a, b, c := Pad2(d.day), Pad2(d.month0 + 1), NatToString(d.year);
    var e, f, g := Pad2(d.hours), Pad2(d.minutes), Pad2(d.seconds);
    var t := a + b + c + e + f + g;
    assert t == Timestamp(d);
    assert t[0..2] == a && t[2..4] == b && t[4..8] == c;
    assert t[8..10] == e && t[10..12] == f && t[12..14] == g;
  }

  /** Two teardowns only pick the same report directory when they run in the same second:
      the stamp has fourteen digits and determines the date. */
  lemma TimestampInjective(d1: DateParts, d2: DateParts)
    requires ValidDate(d1) && ValidDate(d2) && Timestamp(d1) == Timestamp(d2)
    ensures d1 == d2
  {
    TimestampParts(d1);
    TimestampParts(d2);
    Pad2Value(d1.day); Pad2Value(d2.day);
    Pad2Value(d1.month0 + 1); Pad2Value(d2.month0 + 1);
    Pad2Value(d1.hours); Pad2Value(d2.hours);
    Pad2Value(d1.minutes); Pad2Value(d2.minutes);
    Pad2Value(d1.seconds); Pad2Value(d2.seconds);
    NatToStringInjective(d1.year, d2.year);
  }

  /** The environment variables the teardown reads. `parsedKeys` and `parsedSummaries` are
      what JSON.parse makes of the bracketed form of the lists (None when it throws). */
  datatype Env = Env(
    uploadJira: Option<string>,
    executionKeys: Option<string>,
    parsedKeys: Option<seq<string>>,
    summaries: Option<string>,
    parsedSummaries: Option<seq<string>>,
    projectKey: Option<string>,
    testPlanKey: Option<string>)

  const ManualSummaryPrefix := "Manual Test Export - "

  /** A falsy value is deleted. */
  function IfTruthy(o: Option<string>): (r: Option<string>)
    ensures r.Some? <==> Truthy(o)
    ensures r.Some? ==> r == o
  {
    if Truthy(o) then o else None
  }

  function BundleOf(name: string, tests: seq<TestResult>, iso: string, env: Env): ManualReport {
    ManualReport(ManualSummaryPrefix + iso,
                 "Generated by Playwright for Manual Xray Import (" + name + ")",
                 IfTruthy(env.projectKey), IfTruthy(env.testPlanKey), tests)
  }

  function Bundles(g: Groups, iso: string, env: Env): seq<(string, ManualReport)>
    requires WellFormed(g)
  {
    seq(|g.names|, i requires 0 <= i < |g.names| => (g.names[i], BundleOf(g.names[i], g.byName[g.names[i]], iso, env)))
  }

  /** Every result read ends up, without its spec file name, in the bundle of its spec, and
      the bundles are named after the groups in insertion order. */
  lemma BundlesHoldResults(rs: seq<TestResult>, iso: string, env: Env, i: nat)
    requires i < |rs|
    ensures var g := Grouping(rs);
      var b := Bundles(g, iso, env);
      exists j :: 0 <= j < |b| && b[j].0 == GroupOf(rs[i]) && ForReport(rs[i]) in b[j].1.tests
  {
    var g := Grouping(rs);
    var b := Bundles(g, iso, env);
    var k := GroupOf(rs[i]);
    MembersHas(rs, i);
    GroupingIsFilter(rs, k);
    var j :| 0 <= j < |g.names| && g.names[j] == k;
    assert b[j].0 == k && b[j].1.tests == Members(rs, k);
  }

  lemma {:induction false} MembersHas(rs: seq<TestResult>, i: nat)
    requires i < |rs|
    ensures ForReport(rs[i]) in Members(rs, GroupOf(rs[i]))
    decreases |rs|
  {
    if i < |rs| - 1 {
      MembersHas(rs[..|rs| - 1], i);
    }
  }

  /** The loop that writes the bundle files. */
  method BuildBundles(g: Groups, iso: string, env: Env) returns (bundles: seq<(string, ManualReport)>)
    requires WellFormed(g)
    ensures bundles == Bundles(g, iso, env)
  {
    bundles := [];
    var i := 0;
    while i < |g.names|
      invariant 0 <= i <= |g.names|
      invariant bundles == Bundles(g, iso, env)[..i]
    {
      var name := g.names[i];
      var report := ManualReport(ManualSummaryPrefix + iso,
                                 "Generated by Playwright for Manual Xray Import (" + name + ")",
                                 env.projectKey, env.testPlanKey, g.byName[name]);
      if !Truthy(report.project) {
        report := report.(project := None);
      }
      if !Truthy(report.testPlanKey) {
        report := report.(testPlanKey := None);
      }
      bundles := bundles + [(name, report)];
      i := i + 1;
    }
  }

  // ---------------------------------------------------------------------------------------
  // Execution keys and summaries from the environment

  /** String.prototype.split with a one-character separator. */
  function Split(s: string, sep: char): (r: seq<string>)
    ensures |r| > 0
    ensures forall i :: 0 <= i < |r| ==> sep !in r[i]
    decreases |s|
  {
    if sep !in s then [s]
    else
      var i := IndexOf(s, sep);
      [s[..i]] + Split(s[i + 1..], sep)
  }

  /** Splitting and joining again gives back the string. */
  lemma {:induction false} JoinSplit(s: string, sep: char)
    ensures JoinWith(Split(s, sep), [sep]) == s
    decreases |s|
  {
    if sep in s {
      var i := IndexOf(s, sep);
      JoinSplit(s[i + 1..], sep);
      assert Split(s, sep)[1..] == Split(s[i + 1..], sep);
      assert s == s[..i] + [sep] + s[i + 1..];
    }
  }

  lemma SplitAfter(p: string, sep: char, rest: string)
    requires sep !in p
    ensures Split(p + [sep] + rest, sep) == [p] + Split(rest, sep)
  {
    var s := p + [sep] + rest;
    assert s[|p|] == sep;
    IndexOfAfter(p, sep, rest);
    assert s[..|p|] == p;
    assert s[|p| + 1..] == rest;
  }

  /** Joining parts that do not contain the separator and splitting again gives the parts. */
  lemma {:induction false} SplitJoin(parts: seq<string>, sep: char)
    requires |parts| > 0
    requires forall i :: 0 <= i < |parts| ==> sep !in parts[i]
    ensures Split(JoinWith(parts, [sep]), sep) == parts
    decreases |parts|
  {
    var p0 := parts[0];
    assert sep !in p0;
    if |parts| == 1 {
      assert JoinWith(parts, [sep]) == p0;
    } else {
      var tail := parts[1..];
      var rest := JoinWith(tail, [sep]);
      assert JoinWith(parts, [sep]) == p0 + [sep] + rest;
      SplitAfter(p0, sep, rest);
      assert forall i :: 0 <= i < |tail| ==> sep !in tail[i] by {
        forall i | 0 <= i < |tail| ensures sep !in tail[i] {
          assert tail[i] == parts[i + 1];
        }
      }
      SplitJoin(tail, sep);
      assert parts == [p0] + tail;
    }
  }

  predicate IsQuote(c: char) { c == '"' || c == '\'' }

  /** replace(/^["']|["']$/g, ''): one quote is removed at the start, then one at the end of
      what remains. */
  function StripQuotes(s: string): string {
    var t := if |s| > 0 && IsQuote(s[0]) then s[1..] else s;
    if |t| > 0 && IsQuote(t[|t| - 1]) then t[..|t| - 1] else t
  }

  /** r is t with at most one quote taken off each end, and nothing else changed. */
  predicate QuotesStripped(t: string, r: string) {
    && |r| <= |t| <= |r| + 2
    && (StartsWith(t, r) || (|t| > 0 && IsQuote(t[0]) && StartsWith(t[1..], r)))
    && (EndsWith(t, r) || (|t| > 0 && IsQuote(t[|t| - 1]) && EndsWith(t[..|t| - 1], r)))
  }

  /** One list item: the white space around it trimmed, then a quote at either end removed. */
  function CleanPart(p: string): (r: string)
    ensures QuotesStripped(Trim(p), r)
  {
    StripQuotesStrips(Trim(p));
    StripQuotes(Trim(p))
  }

  lemma StripQuotesStrips(t: string)
    ensures QuotesStripped(t, StripQuotes(t))
  {
    var u := if |t| > 0 && IsQuote(t[0]) then t[1..] else t;
    var r := StripQuotes(t);
    assert u[..|r|] == r;
    if |t| > 0 && IsQuote(t[0]) {
      assert StartsWith(t[1..], r);
      assert t[|t| - |u|..] == u;
    } else {
      assert StartsWith(t, r);
    }
    if |u| > 0 && IsQuote(u[|u| - 1]) {
      assert t[..|t| - 1][|t| - 1 - |r|..] == r;
    } else {
      assert t[|t| - |r|..] == r;
    }
  }

  /** A list item as it appears between commas: no space and no quote at its ends. */
  predicate Bare(k: string) {
    |k| > 0 ==> !IsSpace(k[0]) && !IsSpace(k[|k| - 1]) && !IsQuote(k[0]) && !IsQuote(k[|k| - 1])
  }

  lemma CleanBare(k: string)
    requires Bare(k)
    ensures CleanPart(k) == k
  {
  }

  /** "KEY" and 'KEY' lose their quotes. */
  lemma CleanQuoted(k: string, q: char)
    requires IsQuote(q) && Bare(k)
    ensures CleanPart([q] + k + [q]) == k
  {
    var s := [q] + k + [q];
    assert !IsSpace(q);
    TrimKeeps(s);
    assert s[1..] == k + [q];
    assert (k + [q])[..|k|] == k;
  }

  /** .split(',').map(k => k.trim().replace(/^["']|["']$/g, '')) */
  function SplitClean(s: string): seq<string> {
    CleanAll(Split(s, ','))
  }

  function CleanAll(parts: seq<string>): (r: seq<string>)
    ensures |r| == |parts|
    ensures forall i :: 0 <= i < |r| ==> QuotesStripped(Trim(parts[i]), r[i])
  {
    seq(|parts|, i requires 0 <= i < |parts| => CleanPart(parts[i]))
  }

  lemma CleanAllBare(parts: seq<string>)
    requires forall i :: 0 <= i < |parts| ==> Bare(parts[i])
    ensures CleanAll(parts) == parts
  {
    var r := CleanAll(parts);
    forall i | 0 <= i < |parts| ensures r[i] == parts[i] {
      CleanBare(parts[i]);
    }
  }

  /** replace(/[\[\]]/g, '') */
  function RemoveBrackets(s: string): (r: string)
    ensures forall i :: 0 <= i < |r| ==> r[i] != '[' && r[i] != ']'
    decreases |s|
  {
    if |s| == 0 then ""
    else
      var rest := RemoveBrackets(s[1..]);
      if s[0] == '[' || s[0] == ']' then rest else [s[0]] + rest
  }

  /** How a list-valued variable is read: nothing when it is unset or empty; the JSON array
      when it is written in brackets and parses; otherwise the comma-separated items, trimmed
      and unquoted, after removing every bracket from a bracketed value. */
  function ParseEnvList(raw: Option<string>, parsed: Option<seq<string>>): (r: seq<string>)
    ensures !Truthy(raw) ==> r == []
    ensures Truthy(raw) && StartsWith(raw.value, "[") && EndsWith(raw.value, "]") && parsed.Some? ==>
      r == parsed.value
    ensures Truthy(raw) && StartsWith(raw.value, "[") && EndsWith(raw.value, "]") && parsed.None? ==>
      var parts := Split(RemoveBrackets(raw.value), ',');
      |r| == |parts| && forall i :: 0 <= i < |r| ==> QuotesStripped(Trim(parts[i]), r[i])
    ensures Truthy(raw) && !(StartsWith(raw.value, "[") && EndsWith(raw.value, "]")) ==>
      var parts := Split(raw.value, ',');
      |r| == |parts| && forall i :: 0 <= i < |r| ==> QuotesStripped(Trim(parts[i]), r[i])
  {
    if !Truthy(raw) then []
    else if StartsWith(raw.value, "[") && EndsWith(raw.value, "]") then
      if parsed.Some? then parsed.value else SplitClean(RemoveBrackets(raw.value))
    else SplitClean(raw.value)
  }

  lemma {:induction false} JoinWithChars(parts: seq<string>, sep: string, c: char)
    requires c !in sep && forall i :: 0 <= i < |parts| ==> c !in parts[i]
    ensures c !in JoinWith(parts, sep)
    decreases |parts|
  {
    if |parts| > 1 {
      JoinWithChars(parts[1..], sep, c);
    }
  }

  lemma JoinWithHead(parts: seq<string>, sep: string)
    requires |parts| > 0
    ensures StartsWith(JoinWith(parts, sep), parts[0])
  {
    if |parts| > 1 {
      var s := JoinWith(parts, sep);
      assert s == parts[0] + (sep + JoinWith(parts[1..], sep));
    }
  }

  /** A key as written inside a list-valued variable. */
  predicate ListItem(k: string) {
    ',' !in k && '[' !in k && ']' !in k && Bare(k)
  }

  /** Splitting the joined items and cleaning each one gives the items back. */
  lemma SplitCleanJoin(keys: seq<string>)
    requires |keys| > 0 && forall i :: 0 <= i < |keys| ==> ListItem(keys[i])
    ensures SplitClean(JoinWith(keys, ",")) == keys
  {
    assert forall i :: 0 <= i < |keys| ==> ',' !in keys[i];
    SplitJoin(keys, ',');
    assert forall i :: 0 <= i < |keys| ==> Bare(keys[i]);
    CleanAllBare(keys);
  }

  /** "K1,K2,K3" (or with spaces and quotes around each key, see CleanQuoted) gives
      [K1, K2, K3]. */
  lemma CommaListRoundTrip(keys: seq<string>, parsed: Option<seq<string>>)
    requires |keys| > 0 && keys[0] != ""
    requires forall i :: 0 <= i < |keys| ==> ListItem(keys[i])
    ensures ParseEnvList(Some(JoinWith(keys, ",")), parsed) == keys
  {
    var s := JoinWith(keys, ",");
    JoinWithHead(keys, ",");
    assert s[0] == keys[0][0];
    assert ListItem(keys[0]);
    SplitCleanJoin(keys);
    PlainList(s, parsed);
  }

  lemma PlainList(s: string, parsed: Option<seq<string>>)
    requires s != "" && s[0] != '['
    ensures ParseEnvList(Some(s), parsed) == SplitClean(s)
  {
    assert s[..1][0] == s[0];
    assert !StartsWith(s, "[");
  }

  lemma BracketedList(s: string)
    requires |s| >= 2 && s[0] == '[' && s[|s| - 1] == ']'
    ensures ParseEnvList(Some(s), None) == SplitClean(RemoveBrackets(s))
  {
    assert s[..1] == "[" && s[|s| - 1..] == "]";
    assert Truthy(Some(s)) && StartsWith(s, "[") && EndsWith(s, "]");
  }

  /** "[K1,K2]" whose items are not JSON strings falls back to the comma split. */
  lemma BracketedListFallback(keys: seq<string>)
    requires |keys| > 0
    requires forall i :: 0 <= i < |keys| ==> ListItem(keys[i])
    ensures ParseEnvList(Some("[" + JoinWith(keys, ",") + "]"), None) == keys
  {
    var inner := JoinWith(keys, ",");
    var s := "[" + inner + "]";
    JoinedItemsUnbracketed(keys);
    RemoveOuterBrackets(inner);
    BracketedList(s);
    SplitCleanJoin(keys);
  }

  lemma JoinedItemsUnbracketed(keys: seq<string>)
    requires forall i :: 0 <= i < |keys| ==> ListItem(keys[i])
    ensures '[' !in JoinWith(keys, ",") && ']' !in JoinWith(keys, ",")
  {
    assert forall i :: 0 <= i < |keys| ==> '[' !in keys[i] && ']' !in keys[i];
    JoinWithChars(keys, ",", '[');
    JoinWithChars(keys, ",", ']');
  }

  lemma RemoveOuterBrackets(inner: string)
    requires '[' !in inner && ']' !in inner
    ensures RemoveBrackets("[" + inner + "]") == inner
  {
    var s := "[" + inner + "]";
    assert s[1..] == inner + "]";
    BracketsAtEnd(inner);
  }

  lemma {:induction false} NoBrackets(s: string)
    requires '[' !in s && ']' !in s
    ensures RemoveBrackets(s) == s
    decreases |s|
  {
    if |s| > 0 {
      NoBrackets(s[1..]);
    }
  }

  lemma {:induction false} BracketsAtEnd(s: string)
    requires '[' !in s && ']' !in s
    ensures RemoveBrackets(s + "]") == s
    decreases |s|
  {
    if |s| == 0 {
      assert RemoveBrackets("]"[1..]) == "";
    } else {
      assert (s + "]")[1..] == s[1..] + "]";
      BracketsAtEnd(s[1..]);
    }
  }

  // ---------------------------------------------------------------------------------------
  // Sorting the spec names

  /** The default order of Array.prototype.sort on strings, character by character, a
      proper prefix first. */
  predicate StrLe(a: string, b: string)
    decreases |a|
  {
    |a| == 0 || (|b| > 0 && (a[0] < b[0] || (a[0] == b[0] && StrLe(a[1..], b[1..]))))
  }

  lemma {:induction false} StrLeTotal(a: string, b: string)
    ensures StrLe(a, b) || StrLe(b, a)
    decreases |a|
  {
    if |a| > 0 && |b| > 0 && a[0] == b[0] {
      StrLeTotal(a[1..], b[1..]);
    }
  }

  lemma {:induction false} StrLeTrans(a: string, b: string, c: string)
    requires StrLe(a, b) && StrLe(b, c)
    ensures StrLe(a, c)
    decreases |a|
  {
    if |a| > 0 && a[0] == b[0] && b[0] == c[0] {
      StrLeTrans(a[1..], b[1..], c[1..]);
    }
  }

  lemma {:induction false} StrLeAntisym(a: string, b: string)
    requires StrLe(a, b) && StrLe(b, a)
    ensures a == b
    decreases |a|
  {
    if |a| > 0 {
      StrLeAntisym(a[1..], b[1..]);
      assert a == [a[0]] + a[1..] && b == [b[0]] + b[1..];
    }
  }

  lemma {:induction false} StrLeRefl(a: string)
    ensures StrLe(a, a)
    decreases |a|
  {
    if |a| > 0 {
      StrLeRefl(a[1..]);
    }
  }

  predicate Sorted(s: seq<string>) {
    forall i, j :: 0 <= i < j < |s| ==> StrLe(s[i], s[j])
  }

  lemma InsertFront(x: string, s: seq<string>)
    requires Sorted(s) && |s| > 0 && StrLe(x, s[0])
    ensures Sorted([x] + s)
  {
    var r := [x] + s;
    forall i, j | 0 <= i < j < |r| ensures StrLe(r[i], r[j]) {
      if i == 0 && j > 1 { StrLeTrans(x, s[0], s[j - 1]); }
    }
  }

  lemma InsertBehind(x: string, s: seq<string>, t: seq<string>)
    requires Sorted(s) && |s| > 0 && !StrLe(x, s[0])
    requires Sorted(t) && multiset(t) == multiset(s[1..]) + multiset{x}
    ensures Sorted([s[0]] + t) && multiset([s[0]] + t) == multiset(s) + multiset{x}
  {
    StrLeTotal(x, s[0]);
    var r := [s[0]] + t;
    forall i, j | 0 <= i < j < |r| ensures StrLe(r[i], r[j]) {
      if i == 0 {
        var y := t[j - 1];
        assert y in multiset(t);
        if y != x {
          assert y in multiset(s[1..]);
          var k :| 0 <= k < |s[1..]| && s[1..][k] == y;
          assert s[k + 1] == y;
        }
      }
    }
    assert s == [s[0]] + s[1..];
  }

  function Insert(x: string, s: seq<string>): (r: seq<string>)
    requires Sorted(s)
    ensures Sorted(r) && multiset(r) == multiset(s) + multiset{x}
    decreases |s|
  {
    if |s| == 0 then [x]
    else if StrLe(x, s[0]) then
      InsertFront(x, s);
      [x] + s
    else
      var t := Insert(x, s[1..]);
      InsertBehind(x, s, t);
      [s[0]] + t
  }

  /** Object.keys(grouped).sort() */
  function Sort(s: seq<string>): (r: seq<string>)
    ensures Sorted(r) && multiset(r) == multiset(s)
    decreases |s|
  {
    if |s| == 0 then []
    else
      assert s == s[..|s| - 1] + [s[|s| - 1]];
      Insert(s[|s| - 1], Sort(s[..|s| - 1]))
  }

  lemma SortedHeadIsLeast(a: seq<string>, x: string)
    requires Sorted(a) && x in a
    ensures StrLe(a[0], x)
  {
    var i :| 0 <= i < |a| && a[i] == x;
    if i == 0 { StrLeRefl(x); }
  }

  lemma TailMultiset(a: seq<string>)
    requires |a| > 0
    ensures multiset(a[1..]) == multiset(a) - multiset{a[0]}
  {
    assert a == [a[0]] + a[1..];
  }

  /** Two sorted arrangements of the same names are the same: the mapping of specs to keys
      does not depend on the order the result files were listed or the tests finished. */
  lemma {:induction false} SortedUnique(a: seq<string>, b: seq<string>)
    requires Sorted(a) && Sorted(b) && multiset(a) == multiset(b)
    ensures a == b
    decreases |a|
  {
    assert |a| == |multiset(a)| == |multiset(b)| == |b|;
    if |a| > 0 {
      assert b[0] in multiset(a) && a[0] in multiset(b);
      SortedHeadIsLeast(a, b[0]);
      SortedHeadIsLeast(b, a[0]);
      StrLeAntisym(a[0], b[0]);
      TailMultiset(a);
      TailMultiset(b);
      SortedUnique(a[1..], b[1..]);
      assert a == [a[0]] + a[1..] && b == [b[0]] + b[1..];
    }
  }

  lemma SortIgnoresOrder(s1: seq<string>, s2: seq<string>)
    requires multiset(s1) == multiset(s2)
    ensures Sort(s1) == Sort(s2)
  {
    SortedUnique(Sort(s1), Sort(s2));
  }

  // ---------------------------------------------------------------------------------------
  // Mapping specs to executions

  /** The spec at sorted index i creates a new execution unless a non-empty key is
      configured at that index. */
  predicate CreatesNew(keys: seq<string>, i: nat) {
    !(i < |keys| && keys[i] != "")
  }

  /** How many specs before index i create a new execution. */
  function NewBefore(keys: seq<string>, i: nat): nat
    decreases i
  {
    if i == 0 then 0 else NewBefore(keys, i - 1) + (if CreatesNew(keys, i - 1) then 1 else 0)
  }

  /** Where the batches of one spec go: the configured key (None when there is none at that
      index), and the custom summary for a new execution. */
  datatype Target = Target(key: Option<string>, summary: Option<string>)

  function TargetAt(keys: seq<string>, summaries: seq<string>, i: nat): Target {
    var key := if i < |keys| then Some(keys[i]) else None;
    if Truthy(key) then Target(key, None)
    else
      var c := NewBefore(keys, i);
      Target(key, if c < |summaries| then Some(summaries[c]) else None)
  }

  /** The spec at index i < |keys| with a non-empty key appends to keys[i] and takes no
      summary; every other spec creates a new execution and takes the summary of its rank
      among the specs that do, while there are summaries left. */
  lemma TargetMapping(keys: seq<string>, summaries: seq<string>, i: nat)
    ensures var t := TargetAt(keys, summaries, i);
      && (!CreatesNew(keys, i) ==> t == Target(Some(keys[i]), None))
      && (CreatesNew(keys, i) ==>
            && !Truthy(t.key)
            && t.summary == (if NewBefore(keys, i) < |summaries| then Some(summaries[NewBefore(keys, i)]) else None))
  {
  }

  /** Different new executions never take the same summary: the rank grows by one with every
      spec that creates an execution. */
  lemma {:induction false} NewBeforeGrows(keys: seq<string>, i: nat, j: nat)
    requires i < j && CreatesNew(keys, i)
    ensures NewBefore(keys, i) < NewBefore(keys, j)
    decreases j
  {
    if j - 1 > i {
      NewBeforeGrows(keys, i, j - 1);
    }
  }

  /** Past the end of the key list every spec creates an execution, so they take the
      remaining summaries one after the other. */
  lemma {:induction false} NewBeforePastKeys(keys: seq<string>, i: nat)
    requires i >= |keys|
    ensures NewBefore(keys, i) == NewBefore(keys, |keys|) + (i - |keys|)
    decreases i
  {
    if i > |keys| {
      NewBeforePastKeys(keys, i - 1);
    }
  }

  // ---------------------------------------------------------------------------------------
  // Batches

  const BatchSize := 20

  function Flatten(cs: seq<seq<TestResult>>): seq<TestResult>
    decreases |cs|
  {
    if |cs| == 0 then [] else cs[0] + Flatten(cs[1..])
  }

  /** cleanResults.slice(i, i + 20) for i = 0, 20, 40, ... */
  function Chunks(rs: seq<TestResult>): (r: seq<seq<TestResult>>)
    ensures |r| == (|rs| + BatchSize - 1) / BatchSize
    ensures forall i :: 0 <= i < |r| ==> 0 < |r[i]| <= BatchSize
    ensures Flatten(r) == rs
    decreases |rs|
  {
    if |rs| == 0 then []
    else
      var m := if |rs| < BatchSize then |rs| else BatchSize;
      var r := [rs[..m]] + Chunks(rs[m..]);
      assert r[1..] == Chunks(rs[m..]);
      assert rs == rs[..m] + rs[m..];
      r
  }

  /** Every batch but the last is full. */
  lemma {:induction false} ChunksFull(rs: seq<TestResult>, i: nat)
    requires i + 1 < |Chunks(rs)|
    ensures |Chunks(rs)[i]| == BatchSize
    decreases |rs|
  {
    var m := if |rs| < BatchSize then |rs| else BatchSize;
    if i > 0 {
      assert Chunks(rs)[i] == Chunks(rs[m..])[i - 1];
      ChunksFull(rs[m..], i - 1);
    }
  }

  /** The copy that is uploaded: both internal fields are deleted. */
  function ForUpload(r: TestResult): TestResult {
    r.(specFile := None, targetExecutionKey := None)
  }

  function CleanResults(rs: seq<TestResult>): (r: seq<TestResult>)
    ensures |r| == |rs|
    ensures forall i :: 0 <= i < |rs| ==>
      && r[i].specFile.None? && r[i].targetExecutionKey.None?
      && r[i].(specFile := rs[i].specFile, targetExecutionKey := rs[i].targetExecutionKey) == rs[i]
  {
    seq(|rs|, i requires 0 <= i < |rs| => ForUpload(rs[i]))
  }

  /** The helper's fields before a batch: the key of the spec, its custom summary when it
      is non-empty; with a key, a set plan and project are deleted, without one they are
      restored from the environment. */
  function Prepared(f: Fields, key: Option<string>, summary: Option<string>, env: Env): Fields {
    var f1 := f.(testExecutionKey := key, customSummary := IfTruthy(summary));
    if Truthy(key) then
      f1.(testPlanKey := if Truthy(f.testPlanKey) then None else f.testPlanKey,
          projectKey := if Truthy(f.projectKey) then None else f.projectKey)
    else f1.(testPlanKey := env.testPlanKey, projectKey := env.projectKey)
  }

  /** What a batch sends: with a key, the results are appended to it and no plan or project
      goes along; without one, a new execution is created with the custom summary (or the
      default one) and the plan and project of the environment when they are set. */
  lemma PreparedPayload(f: Fields, key: Option<string>, summary: Option<string>, env: Env,
                        tests: seq<TestResult>, iso: string)
    ensures var f' := Prepared(f, key, summary, env);
      var p := BuildPayload(f', tests, iso);
      && (Truthy(key) ==> p == Payload(tests, key, None)
                          && !Truthy(f'.testPlanKey) && !Truthy(f'.projectKey))
      && (!Truthy(key) ==>
            p == Payload(tests, None, Some(Info(
                   if Truthy(summary) then summary.value else DefaultSummaryPrefix + iso,
                   ImportDescription, IfTruthy(env.testPlanKey), IfTruthy(env.projectKey)))))
  {
  }

  /** The batches of one spec from the helper state s: every batch is sent whatever happened
      to the one before; the key of the first response that has one is adopted when the spec
      has no key yet. n counts the uploads of the whole teardown, and `server(n)` is what
      the outside world does during the n-th one. Gives the helper state, the key and the
      count afterwards. */
  function Batches(s: ClientState, key: Option<string>, summary: Option<string>, env: Env,
                   chunks: seq<seq<TestResult>>, server: nat -> Exchange, n: nat)
    : (r: (ClientState, Option<string>, nat))
    ensures Truthy(key) ==> r.1 == key
    ensures Truthy(r.1) || r.1 == key
    decreases |chunks|
  {
    if |chunks| == 0 then (s, key, n)
    else
      var s1 := s.(fields := Prepared(s.fields, key, summary, env));
      var (s2, resp) := Uploaded(s1, chunks[0], server(n));
      var key' := if resp.Some? && Truthy(resp.value.key) && !Truthy(key) then resp.value.key else key;
      Batches(s2, key', summary, env, chunks[1..], server, n + 1)
  }

  /** Every import in reqs appends to the key. */
  predicate AllAppendTo(reqs: seq<Request>, key: Option<string>) {
    forall i :: 0 <= i < |reqs| && reqs[i].Import? ==>
      reqs[i].payload.testExecutionKey == key && reqs[i].payload.info.None?
  }

  /** A failed batch does not stop the loop: every chunk is uploaded. Once a spec has a key,
      it keeps it and every import it sends appends to that key. */
  lemma {:induction false} BatchesKeepGoing(s: ClientState, key: Option<string>, summary: Option<string>, env: Env,
                                            chunks: seq<seq<TestResult>>, server: nat -> Exchange, n: nat)
    ensures var (s', key', n') := Batches(s, key, summary, env, chunks, server, n);
      && n' == n + |chunks|
      && |s.sent| <= |s'.sent| && s'.sent[..|s.sent|] == s.sent
      && (Truthy(key) ==> key' == key && AllAppendTo(s'.sent[|s.sent|..], key))
      && (Truthy(key') || key' == key)
    decreases |chunks|
  {
    if |chunks| > 0 {
      var s1 := s.(fields := Prepared(s.fields, key, summary, env));
      var (s2, resp) := Uploaded(s1, chunks[0], server(n));
      var key' := if resp.Some? && Truthy(resp.value.key) && !Truthy(key) then resp.value.key else key;
      UploadedSends(s1, chunks[0], server(n));
      BatchesKeepGoing(s2, key', summary, env, chunks[1..], server, n + 1);
      var s' := Batches(s2, key', summary, env, chunks[1..], server, n + 1).0;
      assert s'.sent[..|s.sent|] == s'.sent[..|s2.sent|][..|s.sent|];
      if Truthy(key) {
        PreparedPayload(s.fields, key, summary, env, chunks[0], server(n).iso);
        var tail := s'.sent[|s.sent|..];
        forall i | 0 <= i < |tail| && tail[i].Import?
          ensures tail[i].payload.testExecutionKey == key && tail[i].payload.info.None?
        {
          if i < |s2.sent| - |s.sent| {
            assert tail[i] == s2.sent[|s.sent| + i];
          } else {
            assert tail[i] == s'.sent[|s2.sent|..][i - (|s2.sent| - |s.sent|)];
          }
        }
      }
    }
  }

  /** Every import in reqs creates a new execution. */
  predicate AllCreate(reqs: seq<Request>) {
    forall i :: 0 <= i < |reqs| && reqs[i].Import? ==>
      reqs[i].payload.testExecutionKey.None? && reqs[i].payload.info.Some?
  }

  /** A spec without a key creates an execution with its first batch. When that batch's
      response carries a key K, K is secured: the spec ends with K and every later import
      appends to it. When it carries none, the remaining batches run exactly as if they were
      the first, so the next one creates an execution again. */
  lemma BatchesAdoptKey(s: ClientState, key: Option<string>, summary: Option<string>, env: Env,
                        chunks: seq<seq<TestResult>>, server: nat -> Exchange, n: nat)
    requires !Truthy(key) && |chunks| > 0
    ensures var s1 := s.(fields := Prepared(s.fields, key, summary, env));
      var (s2, resp) := Uploaded(s1, chunks[0], server(n));
      var (s', key', n') := Batches(s, key, summary, env, chunks, server, n);
      && |s.sent| <= |s2.sent| <= |s'.sent|
      && AllCreate(s2.sent[|s.sent|..])
      && (resp.Some? && Truthy(resp.value.key) ==>
            key' == resp.value.key && AllAppendTo(s'.sent[|s2.sent|..], resp.value.key))
      && (!(resp.Some? && Truthy(resp.value.key)) ==>
            (s', key', n') == Batches(s2, key, summary, env, chunks[1..], server, n + 1))
  {
    var s1 := s.(fields := Prepared(s.fields, key, summary, env));
    var (s2, resp) := Uploaded(s1, chunks[0], server(n));
    var key' := if resp.Some? && Truthy(resp.value.key) then resp.value.key else key;
    UploadedSends(s1, chunks[0], server(n));
    PreparedPayload(s.fields, key, summary, env, chunks[0], server(n).iso);
    BatchesKeepGoing(s2, key', summary, env, chunks[1..], server, n + 1);
    var tail := s2.sent[|s.sent|..];
    forall i | 0 <= i < |tail| && tail[i].Import?
      ensures tail[i].payload.testExecutionKey.None? && tail[i].payload.info.Some?
    {
      assert tail[i] == s2.sent[|s.sent| + i];
    }
  }

  /** The requests one upload adds: possibly a login, then possibly the import of the batch
      with the helper's current fields. */
  lemma UploadedSends(s: ClientState, tests: seq<TestResult>, x: Exchange)
    ensures var s' := Uploaded(s, tests, x).0;
      && |s.sent| <= |s'.sent| && s'.sent[..|s.sent|] == s.sent
      && forall i :: |s.sent| <= i < |s'.sent| ==>
           s'.sent[i] == Login || s'.sent[i] == Import(BuildPayload(s.fields, tests, x.iso))
  {
    var (s1, token) := Authenticated(s, x.now, x.login);
    AuthenticatedCache(s, x.now, x.login);
    assert s1.fields == s.fields;
  }

  /** The loop over sorted specs from index `index` on, with the count of uploads so far. */
  function Specs(s: ClientState, names: seq<string>, g: Groups, keys: seq<string>, summaries: seq<string>,
                 env: Env, index: nat, server: nat -> Exchange, n: nat): (r: (ClientState, nat))
    requires forall k :: k in names ==> k in g.byName
    ensures |s.sent| <= |r.0.sent| && r.0.sent[..|s.sent|] == s.sent
    decreases |names|
  {
    if |names| == 0 then (s, n)
    else
      var t := TargetAt(keys, summaries, index);
      var chunks := Chunks(CleanResults(g.byName[names[0]]));
      var (s', _, n') := Batches(s, t.key, t.summary, env, chunks, server, n);
      BatchesKeepGoing(s, t.key, t.summary, env, chunks, server, n);
      var r := Specs(s', names[1..], g, keys, summaries, env, index + 1, server, n');
      assert r.0.sent[..|s.sent|] == r.0.sent[..|s'.sent|][..|s.sent|];
      r
  }

  function TotalBatches(names: seq<string>, g: Groups): nat
    requires forall k :: k in names ==> k in g.byName
    decreases |names|
  {
    if |names| == 0 then 0
    else (|g.byName[names[0]]| + BatchSize - 1) / BatchSize + TotalBatches(names[1..], g)
  }

  /** Every spec group is uploaded in ceil(size / 20) batches, whatever the responses. */
  lemma {:induction false} SpecsUploadEverything(s: ClientState, names: seq<string>, g: Groups, keys: seq<string>,
                                                 summaries: seq<string>, env: Env, index: nat,
                                                 server: nat -> Exchange, n: nat)
    requires forall k :: k in names ==> k in g.byName
    ensures Specs(s, names, g, keys, summaries, env, index, server, n).1 == n + TotalBatches(names, g)
    decreases |names|
  {
    if |names| > 0 {
      var t := TargetAt(keys, summaries, index);
      var chunks := Chunks(CleanResults(g.byName[names[0]]));
      BatchesKeepGoing(s, t.key, t.summary, env, chunks, server, n);
      var (s', _, n') := Batches(s, t.key, t.summary, env, chunks, server, n);
      SpecsUploadEverything(s', names[1..], g, keys, summaries, env, index + 1, server, n');
    }
  }

  // ---------------------------------------------------------------------------------------
  // The whole teardown

  /** How uploadToXray ends: it throws because the report directory of this second already
      exists, it skips the upload, or it uploads the given number of batches. */
  datatype UploadOutcome = ReportDirExists | UploadSkipped | UploadDone(batches: nat)

  const ReportsOn := "ON"

  /** The workspace with the manual reports written (when there are results) and not yet
      cleaned up; None when the report directory already exists. */
  function WithReports(w: WsState, rs: seq<TestResult>, d: DateParts, iso: string, env: Env): Option<WsState> {
    if |rs| == 0 then Some(w)
    else
      var ts := Timestamp(d);
      if ts in w.manualReports then None
      else Some(w.(manualReports := w.manualReports[ts := ReportDir(Bundles(Grouping(rs), iso, env), w.customReport)],
                   customReport := None))
  }

  /** The upload part of the teardown: the keys and summaries read from the environment,
      the specs in sorted order, and every spec's batches. */
  function UploadPhase(c: ClientState, g: Groups, env: Env, server: nat -> Exchange): (ClientState, nat)
    requires WellFormed(g)
  {
    var keys := ParseEnvList(env.executionKeys, env.parsedKeys);
    var summaries := ParseEnvList(env.summaries, env.parsedSummaries);
    var names := Sort(g.names);
    assert forall k :: k in names ==> k in multiset(g.names);
    Specs(c, names, g, keys, summaries, env, 0, server, 0)
  }

  function Teardown(w: WsState, c: ClientState, env: Env, d: DateParts, iso: string, server: nat -> Exchange)
    : (r: (WsState, ClientState, UploadOutcome))
    ensures |c.sent| <= |r.1.sent| && r.1.sent[..|c.sent|] == c.sent
    ensures forall k :: k in w.manualReports ==> k in r.0.manualReports && r.0.manualReports[k] == w.manualReports[k]
    ensures r.2.UploadDone? ==> env.uploadJira == Some(ReportsOn)
  {
    var rs := ResultsToUpload(w.resultsDir, w.globalResults);
    var g := Grouping(rs);
    match WithReports(w, rs, d, iso, env)
    case None => (w, c, ReportDirExists)
    case Some(w1) =>
      var w2 := w1.(resultsDir := None, globalResults := []);
      if env.uploadJira != Some(ReportsOn) then (w2, c, UploadSkipped)
      else
        var (c', n) := UploadPhase(c, g, env, server);
        (w2, c', UploadDone(n))
  }

  /** The teardown throws exactly when there are results and the directory for this second
      exists; otherwise, uploading or not, the results directory is gone and the global list
      is empty afterwards. Nothing is sent unless UPLOAD_JIRA is exactly "ON". */
  lemma TeardownCleansUp(w: WsState, c: ClientState, env: Env, d: DateParts, iso: string, server: nat -> Exchange)
    ensures var (w', c', out) := Teardown(w, c, env, d, iso, server);
      var rs := ResultsToUpload(w.resultsDir, w.globalResults);
      && (out == ReportDirExists <==> |rs| > 0 && Timestamp(d) in w.manualReports)
      && (out == ReportDirExists ==> w' == w && c' == c)
      && (out != ReportDirExists ==> w'.resultsDir.None? && w'.globalResults == [])
      && (env.uploadJira != Some(ReportsOn) ==> c' == c)
      && (env.uploadJira == Some(ReportsOn) && out != ReportDirExists ==> out.UploadDone?)
  {
  }

  /** With results to export, the teardown files one bundle per spec group under the stamp
      of this second, moves the HTML report into it, and keeps every earlier report
      directory. */
  lemma TeardownWritesReports(w: WsState, c: ClientState, env: Env, d: DateParts, iso: string, server: nat -> Exchange)
    requires |ResultsToUpload(w.resultsDir, w.globalResults)| > 0
    requires Timestamp(d) !in w.manualReports
    ensures var (w', _, _) := Teardown(w, c, env, d, iso, server);
      var rs := ResultsToUpload(w.resultsDir, w.globalResults);
      && w'.manualReports.Keys == w.manualReports.Keys + {Timestamp(d)}
      && (forall k :: k in w.manualReports ==> w'.manualReports[k] == w.manualReports[k])
      && w'.manualReports[Timestamp(d)] == ReportDir(Bundles(Grouping(rs), iso, env), w.customReport)
      && w'.customReport.None?
  {
    var rs := ResultsToUpload(w.resultsDir, w.globalResults);
    var ts := Timestamp(d);
    var m' := w.manualReports[ts := ReportDir(Bundles(Grouping(rs), iso, env), w.customReport)];
    assert WithReports(w, rs, d, iso, env) == Some(w.(manualReports := m', customReport := None));
    var w' := Teardown(w, c, env, d, iso, server).0;
    assert w'.manualReports == m' && w'.customReport.None?;
  }

  /** The number of batches is the sum over the spec groups of ceil(size / 20), in
      whatever order the specs are taken. */
  lemma UploadPhaseCount(c: ClientState, g: Groups, env: Env, server: nat -> Exchange)
    requires WellFormed(g)
    ensures UploadPhase(c, g, env, server).1 == TotalBatches(g.names, g)
  {
    var keys := ParseEnvList(env.executionKeys, env.parsedKeys);
    var summaries := ParseEnvList(env.summaries, env.parsedSummaries);
    var names := Sort(g.names);
    assert forall k :: k in names ==> k in multiset(g.names);
    SpecsUploadEverything(c, names, g, keys, summaries, env, 0, server, 0);
    TotalBatchesOfPermutation(names, g.names, g);
  }

  /** When uploading, the teardown reports that number of batches. */
  lemma TeardownBatchCount(w: WsState, c: ClientState, env: Env, d: DateParts, iso: string, server: nat -> Exchange)
    ensures var (_, _, out) := Teardown(w, c, env, d, iso, server);
      var g := Grouping(ResultsToUpload(w.resultsDir, w.globalResults));
      out.UploadDone? ==> out.batches == TotalBatches(g.names, g)
  {
    var rs := ResultsToUpload(w.resultsDir, w.globalResults);
    var g := Grouping(rs);
    if WithReports(w, rs, d, iso, env).Some? && env.uploadJira == Some(ReportsOn) {
      UploadPhaseCount(c, g, env, server);
      assert Teardown(w, c, env, d, iso, server).2 == UploadDone(UploadPhase(c, g, env, server).1);
    }
  }

  /** The batch count does not depend on the order of the specs. */
  lemma {:induction false} TotalBatchesOfPermutation(a: seq<string>, b: seq<string>, g: Groups)
    requires multiset(a) == multiset(b)
    requires forall k :: k in b ==> k in g.byName
    ensures forall k :: k in a ==> k in g.byName
    ensures TotalBatches(a, g) == TotalBatches(b, g)
    decreases |a|
  {
    assert forall k :: k in a ==> k in multiset(b);
    if |a| > 0 {
      var x := a[0];
      assert x in multiset(b);
      var i :| 0 <= i < |b| && b[i] == x;
      var b' := b[..i] + b[i + 1..];
      PermutationTail(a, b, i);
      assert forall k :: k in b' ==> k in b;
      TotalBatchesOfPermutation(a[1..], b', g);
      TotalBatchesRemove(b, i, g);
    }
  }

  /** Taking the first element off one list and the same element off the other keeps them
      permutations of each other. */
  lemma PermutationTail<T>(a: seq<T>, b: seq<T>, i: nat)
    requires multiset(a) == multiset(b) && |a| > 0 && i < |b| && b[i] == a[0]
    ensures multiset(a[1..]) == multiset(b[..i] + b[i + 1..])
  {
    var x := a[0];
    assert b == b[..i] + [x] + b[i + 1..];
    assert a == [x] + a[1..];
    assert multiset(b) == multiset(b[..i]) + multiset{x} + multiset(b[i + 1..]);
    assert multiset(a) == multiset{x} + multiset(a[1..]);
    assert multiset(b[..i] + b[i + 1..]) == multiset(b[..i]) + multiset(b[i + 1..]);
    assert multiset(b[..i] + b[i + 1..]) == multiset(b) - multiset{x};
    assert multiset(a[1..]) == multiset(a) - multiset{x};
  }

  lemma {:induction false} TotalBatchesRemove(b: seq<string>, i: nat, g: Groups)
    requires i < |b| && forall k :: k in b ==> k in g.byName
    ensures forall k :: k in b[..i] + b[i + 1..] ==> k in g.byName
    ensures TotalBatches(b, g) == (|g.byName[b[i]]| + BatchSize - 1) / BatchSize + TotalBatches(b[..i] + b[i + 1..], g)
    decreases i
  {
    assert forall k :: k in b[..i] + b[i + 1..] ==> k in b;
    if i > 0 {
      TotalBatchesRemove(b[1..], i - 1, g);
      assert b[1..][..i - 1] + b[1..][i..] == (b[..i] + b[i + 1..])[1..];
    } else {
      assert b[..0] + b[1..] == b[1..];
    }
  }

  // ---------------------------------------------------------------------------------------
  // The teardown as it runs

  /** What is left of the results once the batches up to index i are sent. */
  function From(clean: seq<TestResult>, i: nat): seq<TestResult> {
    if i < |clean| then clean[i..] else []
  }

  /** The batch starting at index i is the next twenty results (or what is left). */
  lemma ChunksFrom(clean: seq<TestResult>, i: nat)
    requires i < |clean|
    ensures var end := if i + BatchSize < |clean| then i + BatchSize else |clean|;
      Chunks(From(clean, i)) == [clean[i..end]] + Chunks(From(clean, i + BatchSize))
  {
    var end := if i + BatchSize < |clean| then i + BatchSize else |clean|;
    var rest := clean[i..];
    assert rest[..end - i] == clean[i..end];
    assert rest[end - i..] == From(clean, i + BatchSize);
  }

  /** The fields set before each batch. */
  method PrepareFields(client: Client, key: Option<string>, summary: Option<string>, env: Env)
    modifies client
    ensures client.State() == old(client.State()).(fields := Prepared(old(client.State()).fields, key, summary, env))
  {
    client.testExecutionKey := key;
    if Truthy(summary) {
      client.customSummary := summary;
    } else {
      client.customSummary := None;
    }
    if Truthy(key) {
      if Truthy(client.testPlanKey) {
        client.testPlanKey := None;
      }
      if Truthy(client.projectKey) {
        client.projectKey := None;
      }
    } else {
      client.projectKey := env.projectKey;
      client.testPlanKey := env.testPlanKey;
    }
  }

  /** The inner loop: the batches of one spec. */
  method UploadBatches(client: Client, clean: seq<TestResult>, key: Option<string>, summary: Option<string>,
                       env: Env, server: nat -> Exchange, n: nat) returns (key': Option<string>, n': nat)
    modifies client
    ensures (client.State(), key', n') == Batches(old(client.State()), key, summary, env, Chunks(clean), server, n)
  {
    ghost var want := Batches(client.State(), key, summary, env, Chunks(clean), server, n);
    key', n' := key, n;
    var i := 0;
    assert From(clean, 0) == clean;
    while i < |clean|
      invariant want == Batches(client.State(), key', summary, env, Chunks(From(clean, i)), server, n')
      decreases |clean| - i
    {
      var end := if i + BatchSize < |clean| then i + BatchSize else |clean|;
      var chunk := clean[i..end];
      ChunksFrom(clean, i);
      PrepareFields(client, key', summary, env);
      var response := client.UploadResults(chunk, server(n'));
      if response.Some? && Truthy(response.value.key) && !Truthy(key') {
        key' := response.value.key;
      }
      n' := n' + 1;
      i := i + BatchSize;
    }
  }

  /** The number of summaries taken before the spec at index i. */
  function Taken(keys: seq<string>, summaries: seq<string>, i: nat): nat {
    if NewBefore(keys, i) < |summaries| then NewBefore(keys, i) else |summaries|
  }

  /** The key and summary of the spec at index i, and the summary cursor moved past it. */
  method NextTarget(keys: seq<string>, summaries: seq<string>, index: nat, counter: nat)
    returns (key: Option<string>, summary: Option<string>, counter': nat)
    requires counter == Taken(keys, summaries, index)
    ensures Target(key, summary) == TargetAt(keys, summaries, index)
    ensures counter' == Taken(keys, summaries, index + 1)
  {
    key, summary, counter' := None, None, counter;
    if index < |keys| {
      key := Some(keys[index]);
    }
    if !Truthy(key) && counter < |summaries| {
      summary := Some(summaries[counter]);
      counter' := counter + 1;
    }
  }

  /** One turn of the outer loop. */
  lemma SpecsStep(s: ClientState, names: seq<string>, g: Groups, keys: seq<string>, summaries: seq<string>,
                  env: Env, index: nat, server: nat -> Exchange, n: nat)
    requires index < |names| && forall k :: k in names ==> k in g.byName
    ensures var t := TargetAt(keys, summaries, index);
      var b := Batches(s, t.key, t.summary, env, Chunks(CleanResults(g.byName[names[index]])), server, n);
      Specs(s, names[index..], g, keys, summaries, env, index, server, n)
        == Specs(b.0, names[index + 1..], g, keys, summaries, env, index + 1, server, b.2)
  {
    var rest := names[index..];
    assert rest[0] == names[index];
    assert rest[1..] == names[index + 1..];
  }

  /** The outer loop over the sorted specs, with the cursor into the summaries. */
  method UploadSpecs(client: Client, names: seq<string>, g: Groups, keys: seq<string>, summaries: seq<string>,
                     env: Env, server: nat -> Exchange) returns (n: nat)
    requires forall k :: k in names ==> k in g.byName
    modifies client
    ensures (client.State(), n) == Specs(old(client.State()), names, g, keys, summaries, env, 0, server, 0)
  {
    ghost var want := Specs(client.State(), names, g, keys, summaries, env, 0, server, 0);
    n := 0;
    var counter := 0;
    var index := 0;
    assert names[0..] == names;
    while index < |names|
      invariant 0 <= index <= |names|
      invariant counter == Taken(keys, summaries, index)
      invariant want == Specs(client.State(), names[index..], g, keys, summaries, env, index, server, n)
    {
      var clean := CleanResults(g.byName[names[index]]);
      var key, summary, counter' := NextTarget(keys, summaries, index, counter);
      SpecsStep(client.State(), names, g, keys, summaries, env, index, server, n);
      var _, n' := UploadBatches(client, clean, key, summary, env, server, n);
      n, counter := n', counter';
      index := index + 1;
    }
  }

  /** The export part of uploadToXray: with results, the reports of this second are filed
      unless their directory is already there. */
  method ExportReports(ws: Workspace, rs: seq<TestResult>, g: Groups, d: DateParts, iso: string, env: Env)
    returns (ok: bool)
    requires g == Grouping(rs)
    modifies ws`manualReports, ws`customReport
    ensures var w := WithReports(old(ws.State()), rs, d, iso, env);
      && ok == w.Some?
      && ws.State() == (if ok then w.value else old(ws.State()))
  {
    if |rs| > 0 {
      var ts := Timestamp(d);
      if ts in ws.manualReports {
        return false;
      }
      var bundles := BuildBundles(g, iso, env);
      ws.manualReports := ws.manualReports[ts := ReportDir(bundles, ws.customReport)];
      ws.customReport := None;
    }
    ok := true;
  }

  /** The upload part of uploadToXray: the specs in sorted order, each with its target. */
  method UploadAll(client: Client, g: Groups, env: Env, server: nat -> Exchange) returns (n: nat)
    requires WellFormed(g)
    modifies client
    ensures (client.State(), n) == UploadPhase(old(client.State()), g, env, server)
  {
    var keys := ParseEnvList(env.executionKeys, env.parsedKeys);
    var summaries := ParseEnvList(env.summaries, env.parsedSummaries);
    var names := Sort(g.names);
    assert forall k :: k in names ==> k in multiset(g.names);
    n := UploadSpecs(client, names, g, keys, summaries, env, server);
  }

  /** The results directory is removed and the global list emptied. */
  method ClearResults(ws: Workspace)
    modifies ws`resultsDir, ws`globalResults
    ensures ws.State() == old(ws.State()).(resultsDir := None, globalResults := [])
  {
    ws.resultsDir := None;
    ws.globalResults := [];
  }

  /** uploadToXray() */
  method UploadToXray(ws: Workspace, client: Client, env: Env, d: DateParts, iso: string, server: nat -> Exchange)
    returns (out: UploadOutcome)
    modifies ws, client
    ensures (ws.State(), client.State(), out) == Teardown(old(ws.State()), old(client.State()), env, d, iso, server)
  {
    ghost var w0 := ws.State();
    var rs := ReadResultFiles(ws.resultsDir);
    if |rs| == 0 && |ws.globalResults| > 0 {
      rs := ws.globalResults;
    }
    assert rs == ResultsToUpload(w0.resultsDir, w0.globalResults);
    var g := GroupBySpec(rs);
    var ok := ExportReports(ws, rs, g, d, iso, env);
    if !ok {
      return ReportDirExists;
    }
    if env.uploadJira != Some(ReportsOn) {
      ClearResults(ws);
      return UploadSkipped;
    }
    var n := UploadAll(client, g, env, server);
    ClearResults(ws);
    out := UploadDone(n);
  }
}
