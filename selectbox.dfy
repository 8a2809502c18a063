/** The index tokens of fixture/selectbox.js: a value written as ___N___ stands for the N-th
    option of a select box rather than for an option with that text, and a leading
    "Select All" option is not counted. */
module SelectBox {
  import opened Common

  /** PRE_POST_FIX of fixture/constants.js. */
  const Fix := "___"

  /** A value handed to addToSelectBox: a string or a number. */
  datatype SelectValue = Text(s: string) | Number(n: int)

  /** String(n) for an integer. */
  function IntToString(n: int): (r: string)
    ensures |r| > 0
  {
    if n < 0 then "-" + NatToString(-n) else NatToString(n)
  }

  /** getAt: the number wrapped in the fix on both sides. */
  function GetAt(n: int): (r: string)
    ensures StartsWith(r, Fix) && EndsWith(r, Fix)
  {
    var r := Fix + IntToString(n) + Fix;
    assert r[..|Fix|] == Fix;
    assert r[|r| - |Fix|..] == Fix;
    r
  }

  /** Whether a value is read as an index: a string that starts and ends with the fix. */
  predicate IsIndexToken(v: SelectValue) {
    v.Text? && StartsWith(v.s, Fix) && EndsWith(v.s, Fix)
  }

  /** Number(s) for an optional sign followed by decimal digits, and for the empty string
      (which reads as 0). None stands for every other text. */
  function ParseInt(s: string): (r: Option<int>)
    ensures AllDigits(s) ==> r == Some(DigitsValue(s))
  {
    if AllDigits(s) then Some(DigitsValue(s))
    else if |s| > 1 && s[0] == '-' && AllDigits(s[1..]) then Some(0 - DigitsValue(s[1..]) as int)
    else if |s| > 1 && s[0] == '+' && AllDigits(s[1..]) then Some(DigitsValue(s[1..]))
    else None
  }

  /** Number(String(n)) == n */
  lemma ParseIntToString(n: int)
    ensures ParseInt(IntToString(n)) == Some(n)
  {
    if n < 0 {
      var d := NatToString(-n);
      DigitsValueOfNatToString(-n);
      assert ("-" + d)[1..] == d;
      assert !IsDigit(("-" + d)[0]);
    } else {
      DigitsValueOfNatToString(n);
    }
  }

  /** String(valuesToSelect[0]): the first option, or "undefined" when there is none. */
  function FirstText(options: seq<string>): string {
    if |options| > 0 then options[0] else "undefined"
  }

  predicate HasSelectAll(options: seq<string>) {
    ToLower(FirstText(options)) == "select all"
  }

  /** getValueAt: every fix is removed and the rest is read as an index, moved one on when
      the first option is "Select All"; an index outside the options gives undefined
      (None). */
  function GetValueAt(value: string, options: seq<string>): (r: Option<string>)
    ensures r.Some? ==> r.value in options
  {
    match ParseInt(RemoveAll(value, Fix))
    case None => None
    case Some(num) =>
      var k := if HasSelectAll(options) then num + 1 else num;
      if 0 <= k < |options| then Some(options[k]) else None
  }

  /** A leading fix is dropped. */
  lemma DropFix(t: string)
    ensures RemoveAll(Fix + t, Fix) == RemoveAll(t, Fix)
  {
    var s := Fix + t;
    assert s[..|Fix|] == Fix && s[|Fix|..] == t;
  }

  /** The fix is removed from around a numeral, and the numeral is left. */
  lemma RemoveFix(d: string)
    requires forall i :: 0 <= i < |d| ==> d[i] != '_'
    ensures RemoveAll(Fix + d + Fix, Fix) == d
  {
    DropFix(d + Fix);
    assert Fix + d + Fix == Fix + (d + Fix);
    RemoveAllKeeps(d, Fix, Fix);
    DropFix("");
    assert Fix + "" == Fix && d + "" == d;
  }

  /** Round trip: the token of n selects the n-th option, not counting a leading
      "Select All", and undefined when there is no such option. */
  lemma GetValueAtGetAt(n: int, options: seq<string>)
    ensures var k := if HasSelectAll(options) then n + 1 else n;
      GetValueAt(GetAt(n), options) == if 0 <= k < |options| then Some(options[k]) else None
  {
    var d := IntToString(n);
    var m: nat := if n < 0 then -n else n;
    assert AllDigits(NatToString(m));
    assert forall i :: 0 <= i < |d| ==> d[i] != '_';
    RemoveFix(d);
    ParseIntToString(n);
  }

  /** The option a value selects: a token is resolved by index (None is undefined), any
      other value stands for itself. */
  datatype Target = ByIndex(option: Option<string>) | Literal(value: SelectValue)

  function ValueToSelect(value: SelectValue, options: seq<string>): (r: Target)
    ensures r.ByIndex? <==> IsIndexToken(value)
    ensures r.Literal? ==> r.value == value
  {
    if IsIndexToken(value) then ByIndex(GetValueAt(value.s, options)) else Literal(value)
  }

  /** A number, or a string without the fix at both ends, is selected literally: the number
      13 is the text 13, and only ___13___ is an index. */
  lemma LiteralUnlessWrapped(n: int, options: seq<string>)
    ensures ValueToSelect(Number(n), options) == Literal(Number(n))
    ensures ValueToSelect(Text(IntToString(n)), options) == Literal(Text(IntToString(n)))
    ensures ValueToSelect(Text(GetAt(n)), options).ByIndex?
  {
    var d := IntToString(n);
    assert d[0] == '-' || IsDigit(d[0]);
    assert !StartsWith(d, Fix);
  }

  /** The bare fix is an index token too, and as the empty string reads as 0 it selects the
      first real option. */
  lemma BareFixIsFirst(options: seq<string>)
    ensures IsIndexToken(Text(Fix))
    ensures ValueToSelect(Text(Fix), options) == ValueToSelect(Text(GetAt(0)), options)
  {
    assert RemoveAll(Fix, Fix) == "";
    GetValueAtGetAt(0, options);
  }
}
