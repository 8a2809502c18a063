/** The access gate of fixture/platform.js: before each test, the entry of the access map
    for the test's title says which system configuration values and which permissions the
    test needs, and the test is skipped when one of them is not met. */
module Platform {
  import opened Common

  /** A JavaScript value as a configuration lookup or an access-map entry gives it: an
      object or array is known only by its reference, and numbers are integers or NaN. */
  datatype JsValue = Undefined | Null | Str(s: string) | Num(n: int) | NaN | Bool(b: bool) | Ref(id: nat)

  /** a === b: NaN equals nothing, itself included; an object or array equals only the
      same reference; other values are compared by kind and value. */
  predicate StrictEquals(a: JsValue, b: JsValue) {
    a != NaN && a == b
  }

  /** A field of an access-map entry: absent, present but not an array, or an array. */
  datatype Field<T> = Absent | NotArray | Items(items: seq<T>)

  /** accessMap[title]: `config` holds [configKey, configValue] pairs. */
  datatype Access = Access(config: Field<(string, JsValue)>, permissions: Field<string>)

  /** getSystemConfig: a key that was not saved reads as undefined. */
  function Lookup(config: map<string, JsValue>, key: string): JsValue {
    if key in config then config[key] else Undefined
  }

  /** What the gate decides. */
  datatype Decision =
    | Run
    | SkipConfig(key: string, expected: JsValue, received: JsValue)
    | SkipPermissions(missing: seq<string>)

  const ExistToken := Str("_exist_")
  const NotExistToken := Str("!_exist_")

  /** ![undefined, null, ''].includes(value) */
  predicate Present(v: JsValue) {
    v != Undefined && v != Null && v != Str("")
  }

  /** Whether one [configKey, configValue] pair is not met by the actual value: '_exist_'
      asks for a present value, '!_exist_' for an absent one, anything else for that very
      value (strict equality). */
  predicate Mismatch(expected: JsValue, actual: JsValue) {
    if expected == ExistToken then !Present(actual)
    else if expected == NotExistToken then Present(actual)
    else !StrictEquals(actual, expected)
  }

  /** requiredSystemConfigs.find(...): the first pair that is not met. */
  function FirstMismatch(pairs: seq<(string, JsValue)>, config: map<string, JsValue>): (r: Option<nat>)
    ensures r.Some? ==> r.value < |pairs| && Mismatch(pairs[r.value].1, Lookup(config, pairs[r.value].0))
    ensures r.Some? ==> forall j :: 0 <= j < r.value ==> !Mismatch(pairs[j].1, Lookup(config, pairs[j].0))
    ensures r.None? <==> forall j :: 0 <= j < |pairs| ==> !Mismatch(pairs[j].1, Lookup(config, pairs[j].0))
    decreases |pairs|
  {
    if |pairs| == 0 then None
    else if Mismatch(pairs[0].1, Lookup(config, pairs[0].0)) then Some(0)
    else
      var r := FirstMismatch(pairs[1..], config);
      if r.None? then None else Some(r.value + 1)
  }

  /** requiredPermissions.filter(p => !hasPermission(p)), in their order. */
  function MissingPermissions(required: seq<string>, granted: set<string>): (r: seq<string>)
    ensures forall p :: p in r <==> p in required && p !in granted
    ensures |r| <= |required|
    decreases |required|
  {
    if |required| == 0 then []
    else
      var rest := MissingPermissions(required[1..], granted);
      assert forall p :: p in required <==> p == required[0] || p in required[1..];
      if required[0] in granted then rest else [required[0]] + rest
  }

  /** testInfo.titlePath.slice(-1)[0], used as a property key: the empty path gives
      undefined, which is looked up as the key "undefined". */
  function TitleKey(titlePath: seq<string>): string {
    if |titlePath| == 0 then "undefined" else titlePath[|titlePath| - 1]
  }

  /** The beforeEach hook: the configuration is checked first, and the first pair that is
      not met skips the test; only then are the permissions checked. */
  function Decide(accessMap: map<string, Access>, titlePath: seq<string>, config: map<string, JsValue>,
                  granted: set<string>): (d: Decision)
    ensures d != Run ==> TitleKey(titlePath) in accessMap
    ensures d.SkipConfig? ==> Mismatch(d.expected, d.received) && d.received == Lookup(config, d.key)
    ensures d.SkipPermissions? ==> |d.missing| > 0 && forall p :: p in d.missing ==> p !in granted
  {
    var title := TitleKey(titlePath);
    if title !in accessMap then Run
    else
      var entry := accessMap[title];
      var configMiss := if entry.config.Items? then FirstMismatch(entry.config.items, config) else None;
      if configMiss.Some? then
        var (key, expected) := entry.config.items[configMiss.value];
        SkipConfig(key, expected, Lookup(config, key))
      else if entry.permissions.Items? && |MissingPermissions(entry.permissions.items, granted)| > 0 then
        SkipPermissions(MissingPermissions(entry.permissions.items, granted))
      else Run
  }

  /** The pair-wise rules of the configuration check. */
  lemma MismatchRules(expected: JsValue, actual: JsValue)
    ensures expected == Str("_exist_") ==> (Mismatch(expected, actual) <==> actual in {Undefined, Null, Str("")})
    ensures expected == Str("!_exist_") ==> (Mismatch(expected, actual) <==> actual !in {Undefined, Null, Str("")})
    ensures expected != Str("_exist_") && expected != Str("!_exist_") ==>
      (Mismatch(expected, actual) <==> actual != expected || expected == NaN)
  {
  }

  /** An expected NaN is never met, even by a configured NaN, and an expected object or
      array only by that very reference. */
  lemma NaNAndReferences(actual: JsValue, i: nat, j: nat)
    ensures Mismatch(NaN, actual)
    ensures Mismatch(Ref(i), Ref(j)) <==> i != j
    ensures Present(NaN) && Present(Ref(i))
  {
  }

  /** The spelling '_!exist_' is not special: it is compared like any other value, so a
      test that asks for it is skipped unless the configuration holds that very string. */
  lemma OtherSpellingIsLiteral(actual: JsValue)
    ensures Mismatch(Str("_!exist_"), actual) <==> actual != Str("_!exist_")
  {
  }

  /** A test runs exactly when every configuration pair is met and no required permission is
      missing; absent or non-array fields require nothing. */
  lemma RunIff(accessMap: map<string, Access>, titlePath: seq<string>, config: map<string, JsValue>, granted: set<string>)
    ensures var title := TitleKey(titlePath);
      Decide(accessMap, titlePath, config, granted) == Run <==>
        || title !in accessMap
        || (&& (accessMap[title].config.Items? ==>
                  forall j :: 0 <= j < |accessMap[title].config.items| ==>
                    !Mismatch(accessMap[title].config.items[j].1, Lookup(config, accessMap[title].config.items[j].0)))
            && (accessMap[title].permissions.Items? ==>
                  forall p :: p in accessMap[title].permissions.items ==> p in granted))
  {
    var title := TitleKey(titlePath);
    if title in accessMap {
      var entry := accessMap[title];
      if entry.permissions.Items? {
        var missing := MissingPermissions(entry.permissions.items, granted);
        assert |missing| > 0 ==> missing[0] in missing;
      }
    }
  }

  /** The configuration is checked first: a pair that is not met decides the skip whatever
      the permissions, and the reported pair is the first one not met. */
  lemma ConfigBeforePermissions(accessMap: map<string, Access>, titlePath: seq<string>,
                                config: map<string, JsValue>, granted: set<string>, granted': set<string>, i: nat)
    requires TitleKey(titlePath) in accessMap
    requires var e := accessMap[TitleKey(titlePath)];
      e.config.Items? && i < |e.config.items| && Mismatch(e.config.items[i].1, Lookup(config, e.config.items[i].0))
    ensures Decide(accessMap, titlePath, config, granted) == Decide(accessMap, titlePath, config, granted')
    ensures var d := Decide(accessMap, titlePath, config, granted);
      var pairs := accessMap[TitleKey(titlePath)].config.items;
      && d.SkipConfig?
      && exists k :: 0 <= k <= i && (d.key, d.expected) == pairs[k] && d.received == Lookup(config, pairs[k].0)
                     && forall j :: 0 <= j < k ==> !Mismatch(pairs[j].1, Lookup(config, pairs[j].0))
  {
    var pairs := accessMap[TitleKey(titlePath)].config.items;
    var k := FirstMismatch(pairs, config);
    assert k.Some?;
  }

  /** The lookup key is the last title of the path: the describe blocks above it do not
      matter. */
  lemma KeyIsLastTitle(accessMap: map<string, Access>, outer: seq<string>, outer': seq<string>, title: string,
                       config: map<string, JsValue>, granted: set<string>)
    ensures Decide(accessMap, outer + [title], config, granted) == Decide(accessMap, outer' + [title], config, granted)
  {
    assert TitleKey(outer + [title]) == title == TitleKey(outer' + [title]);
  }
}
