/** Shared vocabulary: optional values, bytes, and the string, path and encoding helpers that
    the JavaScript code takes from its runtime (String.prototype, Set, path, Buffer). */
module Common {

  datatype Option<T> = None | Some(value: T)

  newtype byte = x: int | 0 <= x < 256

  /** JavaScript truthiness of a value that is either a string or absent: "" is falsy too. */
  predicate Truthy(o: Option<string>) {
    o.Some? && o.value != ""
  }

  // ---------------------------------------------------------------------------------------
  // Characters and strings

  predicate IsDigit(c: char) { '0' <= c <= '9' }
  predicate IsUpper(c: char) { 'A' <= c <= 'Z' }
  /** What the regular expression class [a-z0-9] with the i flag accepts. */
  predicate IsAlnum(c: char) { IsDigit(c) || 'a' <= c <= 'z' || IsUpper(c) }

  predicate AllDigits(s: string) {
    forall i :: 0 <= i < |s| ==> IsDigit(s[i])
  }

  function LowerChar(c: char): char {
    if IsUpper(c) then (c as int + 32) as char else c
  }

  /** String.prototype.toLowerCase, restricted to the ASCII letters: no upper-case letter is
      left, each one is replaced by its lower-case partner, and every other character is
      kept where it was. */
  function ToLower(s: string): (r: string)
    ensures |r| == |s|
    ensures forall i :: 0 <= i < |s| ==> !IsUpper(r[i])
    ensures forall i :: 0 <= i < |s| && !IsUpper(s[i]) ==> r[i] == s[i]
    ensures forall i :: 0 <= i < |s| && IsUpper(s[i]) ==> 'a' <= r[i] <= 'z' && r[i] as int - 32 == s[i] as int
  {
    seq(|s|, i requires 0 <= i < |s| => LowerChar(s[i]))
  }

  /** Text without upper-case letters is its own lower case. */
  lemma ToLowerKeepsLower(s: string)
    requires forall i :: 0 <= i < |s| ==> !IsUpper(s[i])
    ensures ToLower(s) == s
  {
  }

  /** Lower-casing twice changes nothing more. */
  lemma ToLowerIdempotent(s: string)
    ensures ToLower(ToLower(s)) == ToLower(s)
  {
    ToLowerKeepsLower(ToLower(s));
  }

  /** Lower-casing works character by character. */
  lemma ToLowerAppend(a: string, b: string)
    ensures ToLower(a + b) == ToLower(a) + ToLower(b)
  {
    assert forall i :: 0 <= i < |a + b| ==> ToLower(a + b)[i] == (ToLower(a) + ToLower(b))[i];
  }

  // ---------------------------------------------------------------------------------------
  // Replacing a character class (String.prototype.replace with /[^...]/gi and '_')

  /** A character outside the Basic Multilingual Plane is two UTF-16 code units. */
  predicate InBmp(s: string) {
    forall i :: 0 <= i < |s| ==> s[i] as int < 0x10000
  }

  /** s.replace(/[^...]/gi, '_') for the class that `keep` describes. A regular expression
      without the u flag matches UTF-16 code units, so a character outside the Basic
      Multilingual Plane, which is two of them, becomes two '_'. */
  function ReplaceOutside(s: string, keep: char -> bool): (r: string)
    ensures |r| >= |s|
    ensures forall i :: 0 <= i < |r| ==> r[i] == '_' || (keep(r[i]) && r[i] in s)
    decreases |s|
  {
    if |s| == 0 then ""
    else
      var head := if keep(s[0]) then [s[0]] else if s[0] as int < 0x10000 then "_" else "__";
      var rest := ReplaceOutside(s[1..], keep);
      assert forall c :: c in rest ==> c == '_' || c in s;
      head + rest
  }

  /** Replacing works character by character. */
  lemma {:induction false} ReplaceOutsideAppend(a: string, b: string, keep: char -> bool)
    ensures ReplaceOutside(a + b, keep) == ReplaceOutside(a, keep) + ReplaceOutside(b, keep)
    decreases |a|
  {
    if |a| > 0 {
      assert (a + b)[0] == a[0] && (a + b)[1..] == a[1..] + b;
      ReplaceOutsideAppend(a[1..], b, keep);
    } else {
      assert a + b == b;
    }
  }

  /** Without characters outside the Basic Multilingual Plane the length is kept, and the
      i-th character is '_' exactly when the i-th input character is outside the class. */
  lemma {:induction false} ReplaceOutsideBmp(s: string, keep: char -> bool)
    requires !keep('_')
    ensures InBmp(s) ==> var r := ReplaceOutside(s, keep);
      && |r| == |s|
      && (forall i :: 0 <= i < |s| ==> (r[i] == '_' <==> !keep(s[i])))
      && (forall i :: 0 <= i < |s| && keep(s[i]) ==> r[i] == s[i])
    decreases |s|
  {
    if |s| > 0 && InBmp(s) {
      assert InBmp(s[1..]);
      ReplaceOutsideBmp(s[1..], keep);
      var r := ReplaceOutside(s, keep);
      assert forall i :: 1 <= i < |s| ==> r[i] == ReplaceOutside(s[1..], keep)[i - 1] && s[i] == s[1..][i - 1];
    }
  }

  /** Text made of class characters and '_' is its own replacement. */
  lemma {:induction false} ReplaceOutsideFixed(s: string, keep: char -> bool)
    requires forall i :: 0 <= i < |s| ==> keep(s[i]) || s[i] == '_'
    ensures ReplaceOutside(s, keep) == s
    decreases |s|
  {
    if |s| > 0 {
      ReplaceOutsideFixed(s[1..], keep);
      assert s == [s[0]] + s[1..];
    }
  }

  predicate StartsWith(s: string, prefix: string) {
    |prefix| <= |s| && s[..|prefix|] == prefix
  }

  predicate EndsWith(s: string, suffix: string) {
    |suffix| <= |s| && s[|s| - |suffix|..] == suffix
  }

  /** String.prototype.includes. */
  predicate Contains(s: string, sub: string)
    decreases |s|
  {
    StartsWith(s, sub) || (|s| > 0 && Contains(s[1..], sub))
  }

  /** The index of the first occurrence of c. */
  function IndexOf(s: string, c: char): (i: nat)
    requires c in s
    ensures i < |s| && s[i] == c && c !in s[..i]
    decreases |s|
  {
    if s[0] == c then 0
    else
      var i := 1 + IndexOf(s[1..], c);
      assert s[..i] == [s[0]] + s[1..][..i - 1];
      i
  }

  lemma IndexOfAfter(p: string, c: char, rest: string)
    requires c !in p
    ensures IndexOf(p + [c] + rest, c) == |p|
  {
    var s := p + [c] + rest;
    var i := IndexOf(s, c);
    assert s[|p|] == c;
  }

  /** The characters String.prototype.trim removes: white space and line terminators (tab,
      line feed, vertical tab, form feed, carriage return, the space separators, the no-break
      space, the byte order mark and the line and paragraph separators). */
  predicate IsSpace(c: char) {
    || c == ' ' || '\t' <= c <= '\r' || c == '\U{A0}' || c == '\U{FEFF}' || c == '\U{1680}'
    || '\U{2000}' <= c <= '\U{200A}' || c == '\U{2028}' || c == '\U{2029}' || c == '\U{202F}'
    || c == '\U{205F}' || c == '\U{3000}'
  }

  predicate AllSpace(s: string) {
    forall i :: 0 <= i < |s| ==> IsSpace(s[i])
  }

  function TrimStart(s: string): (r: string)
    ensures |r| <= |s| && r == s[|s| - |r|..] && AllSpace(s[..|s| - |r|])
    ensures |r| > 0 ==> !IsSpace(r[0])
    decreases |s|
  {
    if |s| > 0 && IsSpace(s[0]) then
      var r := TrimStart(s[1..]);
      TrimStartStep(s, |s| - 1 - |r|);
      r
    else s
  }

  /** A leading space followed by a run of k spaces is a run of k + 1 spaces. */
  lemma TrimStartStep(s: string, k: nat)
    requires 0 < |s| && k < |s| && IsSpace(s[0]) && AllSpace(s[1..][..k])
    ensures s[1..][k..] == s[k + 1..] && AllSpace(s[..k + 1])
  {
    forall i | 0 < i < k + 1 ensures IsSpace(s[i]) {
      assert s[i] == s[1..][..k][i - 1];
    }
  }

  function TrimEnd(s: string): (r: string)
    ensures |r| <= |s| && r == s[..|r|] && AllSpace(s[|r|..])
    ensures |r| > 0 ==> !IsSpace(r[|r| - 1])
    decreases |s|
  {
    if |s| > 0 && IsSpace(s[|s| - 1]) then
      var r := TrimEnd(s[..|s| - 1]);
      assert s[|r|..] == s[..|s| - 1][|r|..] + [s[|s| - 1]];
      r
    else s
  }

  /** A list that is a pointwise image of its prefix, with one related element added, is a
      pointwise image of the longer list. */
  lemma SnocPointwise<T, U>(init: seq<T>, paths: seq<T>, pre: seq<U>, last: U, r: seq<U>,
                            ok: T -> bool, rel: (T, U) -> bool)
    requires |paths| > 0 && init == paths[..|paths| - 1] && r == pre + [last]
    requires |pre| == |init| && forall i :: 0 <= i < |init| ==> ok(init[i]) && rel(init[i], pre[i])
    requires ok(paths[|paths| - 1]) && rel(paths[|paths| - 1], last)
    ensures |r| == |paths| && forall i :: 0 <= i < |paths| ==> ok(paths[i]) && rel(paths[i], r[i])
  {
    forall i | 0 <= i < |paths|
      ensures ok(paths[i]) && rel(paths[i], r[i])
    {
      if i < |init| {
        assert init[i] == paths[i];
        assert r[i] == pre[i];
      } else {
        assert r[i] == last;
      }
    }
  }

  /** String.prototype.trim: the text between the leading and the trailing white space. */
  function Trim(s: string): (r: string)
    ensures |r| <= |s|
    ensures |r| > 0 ==> !IsSpace(r[0]) && !IsSpace(r[|r| - 1])
  {
    TrimEnd(TrimStart(s))
  }

  /** The trimmed text is a slice of the original with only white space around it. */
  lemma TrimIsSlice(s: string)
    ensures exists i, j :: 0 <= i <= j <= |s| && Trim(s) == s[i..j] && AllSpace(s[..i]) && AllSpace(s[j..])
  {
    var t := TrimStart(s);
    var r := TrimEnd(t);
    var i := |s| - |t|;
    var j := i + |r|;
    assert t == s[i..] && AllSpace(s[..i]);
    assert r == t[..|r|] && AllSpace(t[|r|..]);
    assert s[i..][..|r|] == s[i..j];
    assert s[j..] == t[|r|..];
    assert Trim(s) == s[i..j] && AllSpace(s[..i]) && AllSpace(s[j..]);
  }

  /** A text that starts and ends with something other than white space is its own trim. */
  lemma TrimKeeps(s: string)
    requires |s| > 0 ==> !IsSpace(s[0]) && !IsSpace(s[|s| - 1])
    ensures TrimStart(s) == s && TrimEnd(s) == s && Trim(s) == s
  {
    if |s| > 0 {
      assert TrimStart(s) == s;
      assert TrimEnd(s) == s;
    }
  }

  /** Trimming twice trims nothing more. */
  lemma TrimIdempotent(s: string)
    ensures Trim(Trim(s)) == Trim(s)
  {
    TrimKeeps(Trim(s));
  }

  /** String.prototype.replaceAll(pattern, ''): every non-overlapping occurrence of the
      pattern, found from left to right, is removed. */
  function RemoveAll(s: string, pattern: string): string
    requires |pattern| > 0
    decreases |s|
  {
    if |s| == 0 then ""
    else if StartsWith(s, pattern) then RemoveAll(s[|pattern|..], pattern)
    else [s[0]] + RemoveAll(s[1..], pattern)
  }

  /** A prefix that cannot begin an occurrence of the pattern anywhere is kept as it is. */
  lemma {:induction false} RemoveAllKeeps(s: string, t: string, pattern: string)
    requires |pattern| > 0
    requires forall i :: 0 <= i < |s| ==> s[i] != pattern[0]
    ensures RemoveAll(s + t, pattern) == s + RemoveAll(t, pattern)
    decreases |s|
  {
    var st := s + t;
    if |s| == 0 {
      assert st == t;
    } else {
      assert st[0] == s[0] && st[1..] == s[1..] + t;
      assert !StartsWith(st, pattern);
      assert RemoveAll(st, pattern) == [s[0]] + RemoveAll(s[1..] + t, pattern);
      RemoveAllKeeps(s[1..], t, pattern);
      assert s == [s[0]] + s[1..];
    }
  }

  /** Joins the parts with the separator between them (Array.prototype.join). */
  function JoinWith(parts: seq<string>, sep: string): string
    decreases |parts|
  {
    if |parts| == 0 then ""
    else if |parts| == 1 then parts[0]
    else parts[0] + sep + JoinWith(parts[1..], sep)
  }

  // ---------------------------------------------------------------------------------------
  // Sequences

  predicate Distinct<T(==)>(s: seq<T>) {
    forall i, j :: 0 <= i < j < |s| ==> s[i] != s[j]
  }

  /** A list without repeats holds each value at most once. */
  lemma {:induction false} DistinctOnce<T>(s: seq<T>, x: T)
    requires Distinct(s)
    ensures multiset(s)[x] <= 1
    decreases |s|
  {
    if |s| > 0 {
      assert s == [s[0]] + s[1..];
      forall i, j | 0 <= i < j < |s[1..]| ensures s[1..][i] != s[1..][j] {
        assert s[1..][i] == s[i + 1] && s[1..][j] == s[j + 1];
      }
      DistinctOnce(s[1..], x);
      if x == s[0] {
        forall j | 0 <= j < |s[1..]| ensures s[1..][j] != x {
          assert s[1..][j] == s[j + 1];
        }
      }
    }
  }

  /** [...new Set(s)]: every element once, at the position of its first occurrence. */
  function Dedup(s: seq<string>): (r: seq<string>)
    ensures forall x :: x in r <==> x in s
    ensures Distinct(r)
    ensures |r| <= |s|
    decreases |s|
  {
    if |s| == 0 then []
    else
      var d := Dedup(s[..|s| - 1]);
      assert forall x :: x in s <==> x in s[..|s| - 1] || x == s[|s| - 1] by {
        assert s == s[..|s| - 1] + [s[|s| - 1]];
      }
      if s[|s| - 1] in d then d else d + [s[|s| - 1]]
  }

  /** Every element of r occurs in s before the first occurrence of each later element of r. */
  predicate InFirstOccurrenceOrder(r: seq<string>, s: seq<string>) {
    forall i, j, k :: 0 <= i < j < |r| && 0 <= k < |s| && s[k] == r[j] ==> r[i] in s[..k]
  }

  /** The elements of [...new Set(s)] come in the order of their first occurrences in s.
      With the membership and the distinctness Dedup ensures, this fixes the result. */
  lemma {:induction false} DedupOrder(s: seq<string>)
    ensures InFirstOccurrenceOrder(Dedup(s), s)
    decreases |s|
  {
    if |s| > 0 {
      var p := s[..|s| - 1];
      var x := s[|s| - 1];
      var d := Dedup(p);
      DedupOrder(p);
      var r := Dedup(s);
      forall i, j, k | 0 <= i < j < |r| && 0 <= k < |s| && s[k] == r[j]
        ensures r[i] in s[..k]
      {
        assert r[i] == d[i] && r[i] in p;
        if j < |d| && k < |p| {
          assert p[k] == r[j] == d[j];
          assert p[..k] == s[..k];
        } else if j < |d| {
          var k' :| 0 <= k' < |p| && p[k'] == d[j];
          assert p[..k'] == s[..k'];
          assert s[..k'] <= s[..k];
        } else {
          assert r[j] == x && x !in d && x !in p;
          assert k == |p|;
        }
      }
    }
  }

  /** A sequence that has no repeated element is its own de-duplication. */
  lemma {:induction false} DedupOfDistinct(s: seq<string>)
    requires Distinct(s)
    ensures Dedup(s) == s
    decreases |s|
  {
    if |s| > 0 {
      var p := s[..|s| - 1];
      assert Distinct(p);
      DedupOfDistinct(p);
      assert s[|s| - 1] !in p;
      assert s == p + [s[|s| - 1]];
    }
  }

  // ---------------------------------------------------------------------------------------
  // Decimal numerals (String(n) for a non-negative integer, and reading one back)

  function DigitChar(d: nat): char
    requires d < 10
  {
    ('0' as int + d) as char
  }

  /** String(n): the decimal numeral of n, most significant digit first. */
  function NatToString(n: nat): (r: string)
    ensures |r| > 0 && AllDigits(r)
    decreases n
  {
    if n < 10 then [DigitChar(n)] else NatToString(n / 10) + [DigitChar(n % 10)]
  }

  /** The value of a string of decimal digits (the empty string reads as 0). */
  function DigitsValue(s: string): nat
    requires AllDigits(s)
    decreases |s|
  {
    if |s| == 0 then 0
    else DigitsValue(s[..|s| - 1]) * 10 + (s[|s| - 1] as int - '0' as int)
  }

  lemma {:induction false} DigitsValueOfNatToString(n: nat)
    ensures DigitsValue(NatToString(n)) == n
    decreases n
  {
    var s := NatToString(n);
    if n >= 10 {
      DigitsValueOfNatToString(n / 10);
      assert s[..|s| - 1] == NatToString(n / 10);
    }
  }

  /** Different numbers have different numerals. */
  lemma NatToStringInjective(a: nat, b: nat)
    requires NatToString(a) == NatToString(b)
    ensures a == b
  {
    DigitsValueOfNatToString(a);
    DigitsValueOfNatToString(b);
  }

  // ---------------------------------------------------------------------------------------
  // Base64 (Buffer.prototype.toString('base64'))

  /** The character of a six-bit value in the alphabet A-Z, a-z, 0-9, '+', '/'. */
  function Sextet(v: int): char
    requires 0 <= v < 64
  {
    if v < 26 then ('A' as int + v) as char
    else if v < 52 then ('a' as int + (v - 26)) as char
    else if v < 62 then ('0' as int + (v - 52)) as char
    else if v == 62 then '+'
    else '/'
  }

  /** The four characters that encode three bytes. */
  function Quad(b0: byte, b1: byte, b2: byte): (r: string)
    ensures |r| == 4
  {
    [Sextet(b0 as int / 4), Sextet((b0 as int % 4) * 16 + b1 as int / 16),
     Sextet((b1 as int % 16) * 4 + b2 as int / 64), Sextet(b2 as int % 64)]
  }

  /** Standard base64 with '=' padding: every three bytes become four characters. */
  function Base64(b: seq<byte>): string
    decreases |b|
  {
    if |b| == 0 then ""
    else if |b| == 1 then Quad(b[0], 0, 0)[..2] + "=="
    else if |b| == 2 then Quad(b[0], b[1], 0)[..3] + "="
    else Quad(b[0], b[1], b[2]) + Base64(b[3..])
  }

  /** Every started group of three bytes gives four characters. */
  lemma {:induction false} Base64Length(b: seq<byte>)
    ensures |Base64(b)| == 4 * ((|b| + 2) / 3)
    decreases |b|
  {
    if |b| > 2 {
      Base64Length(b[3..]);
      assert (|b| - 3 + 2) / 3 + 1 == (|b| + 2) / 3;
    }
  }


  // ---------------------------------------------------------------------------------------
  // UTF-8 (what fs.writeFileSync does with a string, and Buffer.prototype.toString('utf-8'))

  function Utf8Char(c: char): (r: seq<byte>)
    ensures 1 <= |r| <= 4
  {
    var v := c as int;
    if v < 0x80 then [v as byte]
    else if v < 0x800 then [(0xC0 + v / 64) as byte, (0x80 + v % 64) as byte]
    else if v < 0x10000 then
      [(0xE0 + v / 4096) as byte, (0x80 + (v / 64) % 64) as byte, (0x80 + v % 64) as byte]
    else
      [(0xF0 + v / 262144) as byte, (0x80 + (v / 4096) % 64) as byte,
       (0x80 + (v / 64) % 64) as byte, (0x80 + v % 64) as byte]
  }

  function Utf8Encode(s: string): seq<byte>
    decreases |s|
  {
    if |s| == 0 then [] else Utf8Char(s[0]) + Utf8Encode(s[1..])
  }

  predicate IsAscii(s: string) {
    forall i :: 0 <= i < |s| ==> s[i] as int < 0x80
  }

  predicate IsContinuation(b: byte) { 0x80 <= b < 0xC0 }

  /** How many bytes a lead byte says follow it; 0 for ASCII and for the bytes that cannot start
      a sequence (80..C1 and F5..FF). */
  function Utf8Needed(b: byte): (n: nat)
    ensures n <= 3
    ensures n > 0 <==> 0xC2 <= b <= 0xF4
  {
    if 0xC2 <= b <= 0xDF then 1 else if 0xE0 <= b <= 0xEF then 2 else if 0xF0 <= b <= 0xF4 then 3
    else 0
  }

  /** Whether c may stand at position i after the lead byte b0. The first continuation has a range
      that depends on the lead, which is what rules out overlong forms, surrogates and values
      past U+10FFFF; the later ones are any continuation byte. */
  predicate Utf8Fits(b0: byte, i: nat, c: byte) {
    if i == 1 then
      (if b0 == 0xE0 then 0xA0 else if b0 == 0xF0 then 0x90 else 0x80) <= c
      && c <= (if b0 == 0xED then 0x9F else if b0 == 0xF4 then 0x8F else 0xBF)
    else IsContinuation(c)
  }

  /** The last position, from i on and at most need, up to which the bytes after b[0] continue
      the sequence it starts: the maximal subpart is b[..k + 1]. */
  function Utf8Run(b: seq<byte>, i: nat, need: nat): (k: nat)
    requires 1 <= i <= need + 1 && i <= |b|
    ensures i - 1 <= k <= need && k < |b|
    ensures forall j :: i <= j <= k ==> Utf8Fits(b[0], j, b[j])
    ensures k < need ==> k + 1 == |b| || !Utf8Fits(b[0], k + 1, b[k + 1])
    decreases need + 1 - i
  {
    if i <= need && i < |b| && Utf8Fits(b[0], i, b[i]) then Utf8Run(b, i + 1, need) else i - 1
  }

  /** The code point of the complete sequence b[..need + 1]. */
  function Utf8Value(b: seq<byte>, need: nat): int
    requires 1 <= need <= 3 && need < |b|
  {
    if need == 1 then (b[0] as int - 0xC0) * 64 + (b[1] as int - 0x80)
    else if need == 2 then Utf8Three(b[0], b[1], b[2])
    else Utf8Four(b[0], b[1], b[2], b[3])
  }

  function Utf8Three(b0: byte, b1: byte, b2: byte): int {
    (b0 as int - 0xE0) * 4096 + (b1 as int - 0x80) * 64 + (b2 as int - 0x80)
  }

  function Utf8Four(b0: byte, b1: byte, b2: byte, b3: byte): int {
    (b0 as int - 0xF0) * 262144 + (b1 as int - 0x80) * 4096 + (b2 as int - 0x80) * 64
      + (b3 as int - 0x80)
  }

  /** A complete well-formed sequence stands for a Unicode scalar value. */
  lemma Utf8ValueScalar(b: seq<byte>, need: nat)
    requires 0 < need < |b| && need == Utf8Needed(b[0])
    requires forall j :: 1 <= j <= need ==> Utf8Fits(b[0], j, b[j])
    ensures var v := Utf8Value(b, need); 0 <= v < 0xD800 || 0xE000 <= v < 0x110000
  {
    assert Utf8Fits(b[0], 1, b[1]);
    if need == 3 {
      assert Utf8Fits(b[0], 2, b[2]) && Utf8Fits(b[0], 3, b[3]);
      var v0, v1, v2, v3 := b[0] as int - 0xF0, b[1] as int - 0x80, b[2] as int - 0x80, b[3] as int - 0x80;
      assert 0 <= v2 * 64 + v3 < 4096;
      assert 0 <= v0 <= 4 && 0 <= v1 < 64;
      assert v0 == 0 ==> v1 >= 16;
      assert v0 == 4 ==> v1 < 16;
      assert Utf8Value(b, need) == v0 * 262144 + v1 * 4096 + (v2 * 64 + v3);
    } else if need == 2 {
      assert Utf8Fits(b[0], 2, b[2]);
      var v0, v1, v2 := b[0] as int - 0xE0, b[1] as int - 0x80, b[2] as int - 0x80;
      assert 0 <= v0 < 16 && 0 <= v1 < 64 && 0 <= v2 < 64;
      assert v0 == 0 ==> v1 >= 32;
      assert v0 == 13 ==> v1 < 32;
      assert Utf8Value(b, need) == v0 * 4096 + v1 * 64 + v2;
    }
  }

  /** The WHATWG UTF-8 decoder, which Buffer.prototype.toString uses: a complete sequence gives its
      code point; otherwise the maximal subpart (the lead byte and the continuation bytes that
      still fit it) becomes one U+FFFD and decoding resumes at the first byte that did not fit. */
  function Utf8Decode(b: seq<byte>): string
    decreases |b|
  {
    if |b| == 0 then ""
    else if b[0] < 0x80 then [b[0] as int as char] + Utf8Decode(b[1..])
    else
      var need := Utf8Needed(b[0]);
      var k := if need == 0 then 0 else Utf8Run(b, 1, need);
      if need > 0 && k == need then
        Utf8ValueScalar(b, need);
        [Utf8Value(b, need) as char] + Utf8Decode(b[need + 1..])
      else ['\U{FFFD}'] + Utf8Decode(b[k + 1..])
  }

  /** A truncated three-byte sequence followed by ASCII is one replacement character, and the
      ASCII byte that cut it short is decoded on its own. */
  lemma Utf8DecodeTruncated()
    ensures Utf8Decode([0xE2, 0x82, 0x41]) == "\U{FFFD}A"
  {
    var b: seq<byte> := [0xE2, 0x82, 0x41];
    assert Utf8Run(b, 1, 2) == 1;
    assert b[2..] == [0x41];
    assert Utf8Decode(b[2..]) == "A" by {
      assert b[2..][1..] == [];
    }
  }

  /** The encoding of one character, followed by anything, decodes to that character first and
      then to whatever the rest decodes to. */
  lemma Utf8CharDecodes(c: char, rest: seq<byte>)
    ensures Utf8Decode(Utf8Char(c) + rest) == [c] + Utf8Decode(rest)
  {
    var v := c as int;
    if v < 0x80 {
      assert (Utf8Char(c) + rest)[1..] == rest;
    } else if v < 0x800 {
      Utf8TwoDecodes(c, rest);
    } else if v < 0x10000 {
      Utf8ThreeDecodes(c, rest);
    } else {
      Utf8FourDecodes(c, rest);
    }
  }

  lemma Utf8TwoDecodes(c: char, rest: seq<byte>)
    requires 0x80 <= c as int < 0x800
    ensures Utf8Decode(Utf8Char(c) + rest) == [c] + Utf8Decode(rest)
  {
    var v := c as int;
    var b := Utf8Char(c) + rest;
    assert b[0] as int == 0xC0 + v / 64 && b[1] as int == 0x80 + v % 64;
    assert Utf8Needed(b[0]) == 1;
    assert Utf8Run(b, 1, 1) == 1;
    assert Utf8Value(b, 1) == v;
    assert b[2..] == rest;
  }

  lemma Utf8ThreeDecodes(c: char, rest: seq<byte>)
    requires 0x800 <= c as int < 0x10000
    ensures Utf8Decode(Utf8Char(c) + rest) == [c] + Utf8Decode(rest)
  {
    var v := c as int;
    var b := Utf8Char(c) + rest;
    var h, m, l := v / 4096, (v / 64) % 64, v % 64;
    Split3(v);
    assert b[0] as int == 0xE0 + h && b[1] as int == 0x80 + m && b[2] as int == 0x80 + l;
    assert Utf8Needed(b[0]) == 2;
    assert h == 0 ==> m >= 32;
    assert h == 13 ==> m < 32;
    assert Utf8Fits(b[0], 1, b[1]) && Utf8Fits(b[0], 2, b[2]);
    assert Utf8Run(b, 1, 2) == 2;
    assert Utf8Value(b, 2) == v;
    assert b[3..] == rest;
  }

  lemma Utf8FourDecodes(c: char, rest: seq<byte>)
    requires 0x10000 <= c as int
    ensures Utf8Decode(Utf8Char(c) + rest) == [c] + Utf8Decode(rest)
  {
    var v := c as int;
    var b := Utf8Char(c) + rest;
    var h, m1, m2, l := v / 262144, (v / 4096) % 64, (v / 64) % 64, v % 64;
    Split4(v);
    assert b[0] as int == 0xF0 + h && b[1] as int == 0x80 + m1;
    assert b[2] as int == 0x80 + m2 && b[3] as int == 0x80 + l;
    assert Utf8Needed(b[0]) == 3;
    assert h == 0 ==> m1 >= 16;
    assert h == 4 ==> m1 < 16;
    assert Utf8Fits(b[0], 1, b[1]) && Utf8Fits(b[0], 2, b[2]) && Utf8Fits(b[0], 3, b[3]);
    assert Utf8Run(b, 1, 3) == 3;
    assert Utf8Value(b, 3) == v;
    assert b[4..] == rest;
  }

  /** A value below 2^16 in base 64, with the top digit's range. */
  lemma Split3(v: int)
    requires 0x800 <= v < 0x10000 && !(0xD800 <= v < 0xE000)
    ensures v == (v / 4096) * 4096 + ((v / 64) % 64) * 64 + v % 64
    ensures 0 <= v / 4096 < 16 && 0 <= (v / 64) % 64 < 64
    ensures v / 4096 == 0 ==> (v / 64) % 64 >= 32
    ensures v / 4096 == 13 ==> (v / 64) % 64 < 32
  {
    var q := v / 64;
    assert v == q * 64 + v % 64;
    assert q == (q / 64) * 64 + q % 64;
    assert q / 64 == v / 4096;
  }

  /** A value below 2^21 in base 64, with the top digit's range. */
  lemma Split4(v: int)
    requires 0x10000 <= v < 0x110000
    ensures v == (v / 262144) * 262144 + ((v / 4096) % 64) * 4096 + ((v / 64) % 64) * 64 + v % 64
    ensures 0 <= v / 262144 <= 4 && 0 <= (v / 4096) % 64 < 64 && 0 <= (v / 64) % 64 < 64
    ensures v / 262144 == 0 ==> (v / 4096) % 64 >= 16
    ensures v / 262144 == 4 ==> (v / 4096) % 64 < 16
  {
    var q := v / 64;
    var r := q / 64;
    assert v == q * 64 + v % 64;
    assert q == r * 64 + q % 64;
    assert r == (r / 64) * 64 + r % 64;
    assert r == v / 4096;
    assert r / 64 == v / 262144;
  }

  /** Text written to a file as UTF-8 and read back as UTF-8 is the same text. */
  lemma {:induction false} Utf8RoundTrip(s: string)
    ensures Utf8Decode(Utf8Encode(s)) == s
    decreases |s|
  {
    if |s| > 0 {
      Utf8RoundTrip(s[1..]);
      Utf8CharDecodes(s[0], Utf8Encode(s[1..]));
      assert [s[0]] + s[1..] == s;
    }
  }

  /** ASCII text read back from the bytes it was written as is the same text. */
  lemma {:induction false} Utf8AsciiRoundTrip(s: string)
    requires IsAscii(s)
    ensures |Utf8Encode(s)| == |s|
    ensures Utf8Decode(Utf8Encode(s)) == s
    decreases |s|
  {
    if |s| > 0 {
      assert IsAscii(s[1..]);
      Utf8AsciiRoundTrip(s[1..]);
      var e := Utf8Encode(s);
      assert e == [s[0] as int as byte] + Utf8Encode(s[1..]);
      assert e[1..] == Utf8Encode(s[1..]);
    }
  }

  // ---------------------------------------------------------------------------------------
  // Paths (path.join and path.basename for POSIX paths without trailing slashes)

  function Join(dir: string, name: string): string {
    if dir == "" then name else dir + "/" + name
  }

  /** Everything after the last '/'. Unlike path.basename, a trailing '/' is not dropped
      first, so "a/b/" gives "" where node gives "b"; no path the core builds ends in '/'. */
  function Basename(p: string): string
    decreases |p|
  {
    if |p| == 0 then ""
    else if p[|p| - 1] == '/' then ""
    else Basename(p[..|p| - 1]) + [p[|p| - 1]]
  }

  lemma {:induction false} BasenameJoin(dir: string, name: string)
    requires '/' !in name
    ensures Basename(Join(dir, name)) == name
    decreases |name|
  {
    var p := Join(dir, name);
    if |name| > 0 {
      var prefix := name[..|name| - 1];
      assert '/' !in prefix;
      BasenameJoin(dir, prefix);
      assert p[..|p| - 1] == Join(dir, prefix);
      assert name == prefix + [name[|name| - 1]];
    }
  }

  // ---------------------------------------------------------------------------------------
  // ANSI escape sequences: a simplified stripper for the CSI sequences that colour terminal
  // output (an introducer, intermediates, numeric parameters and one final character).

  predicate IsIntroducer(c: char) { c == '\U{1B}' || c == '\U{9B}' }
  predicate IsIntermediate(c: char) {
    c == '[' || c == '(' || c == ')' || c == '#' || c == ';' || c == '?'
  }
  predicate IsParameter(c: char) { IsDigit(c) || c == ';' }
  predicate IsFinal(c: char) {
    IsDigit(c) || ('A' <= c <= 'O') || c == 'R' || c == 'Z' || c == 'c' || ('f' <= c <= 'n')
    || c == 'q' || c == 'r' || c == 'y' || c == '=' || c == '>' || c == '<'
  }

  function IntermediateEnd(s: string, i: nat): (j: nat)
    requires i <= |s|
    ensures i <= j <= |s|
    decreases |s| - i
  {
    if i < |s| && IsIntermediate(s[i]) then IntermediateEnd(s, i + 1) else i
  }

  function ParameterEnd(s: string, i: nat): (j: nat)
    requires i <= |s|
    ensures i <= j <= |s|
    decreases |s| - i
  {
    if i < |s| && IsParameter(s[i]) then ParameterEnd(s, i + 1) else i
  }

  /** Length of the escape sequence at the start of s, or 0 when none starts there. */
  function EscapeLength(s: string): (k: nat)
    ensures k <= |s|
    ensures k > 0 ==> k >= 2 && IsIntroducer(s[0])
  {
    if |s| == 0 || !IsIntroducer(s[0]) then 0
    else
      var j := ParameterEnd(s, IntermediateEnd(s, 1));
      if j < |s| && IsFinal(s[j]) then j + 1 else 0
  }

  predicate NoIntroducer(s: string) {
    forall i :: 0 <= i < |s| ==> !IsIntroducer(s[i])
  }

  function StripAnsi(s: string): (r: string)
    ensures |r| <= |s|
    ensures NoIntroducer(s) ==> r == s
    decreases |s|
  {
    if |s| == 0 then ""
    else
      var k := EscapeLength(s);
      if k > 0 then StripAnsi(s[k..])
      else
        assert NoIntroducer(s) ==> NoIntroducer(s[1..]);
        [s[0]] + StripAnsi(s[1..])
  }

  /** A colour code such as ESC [ 3 1 m in front of a text is removed. */
  lemma StripAnsiColour(code: string, t: string)
    requires |code| > 0 && AllDigits(code)
    ensures StripAnsi("\U{1B}[" + code + "m" + t) == StripAnsi(t)
  {
    var s := "\U{1B}[" + code + "m" + t;
    assert IntermediateEnd(s, 2) == 2 by {
      assert s[2] == code[0];
    }
    assert IntermediateEnd(s, 1) == 2;
    ParameterRun(s, 2, code);
    assert s[2 + |code|] == 'm';
    assert EscapeLength(s) == 3 + |code|;
    assert s[3 + |code|..] == t;
  }

  lemma {:induction false} ParameterRun(s: string, i: nat, code: string)
    requires i + |code| < |s| && AllDigits(code)
    requires s[i..i + |code|] == code && !IsParameter(s[i + |code|])
    ensures ParameterEnd(s, i) == i + |code|
    decreases |code|
  {
    if |code| > 0 {
      assert s[i] == code[0];
      assert s[i + 1..i + |code|] == code[1..];
      ParameterRun(s, i + 1, code[1..]);
    }
  }
}
