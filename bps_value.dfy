/**
 * `parse_bps_value` (app.py): pick a raw string out of a loosely shaped BPS
 * value object, rewrite Indonesian number formatting and parse it, falling back
 * to 0.0 instead of raising.
 */
module BpsParse {
  import opened Wrappers
  import opened PyStrings
  import opened PyJson

  /** The keys tried, in this order, on a dict-shaped value object. */
  const PossibleKeys: seq<string> := ["value_raw", "val", "nilai"]

  /** `key in d and d[key] is not None` */
  predicate Present(m: map<string, Value>, key: string) {
    key in m && m[key] != Null
  }

  /** The first of `keys` that is present with a non-None value. */
  function FirstPresentKey(m: map<string, Value>, keys: seq<string>): (r: Option<nat>)
    ensures r.Some? ==> r.value < |keys| && Present(m, keys[r.value])
    ensures r.Some? ==> forall j :: 0 <= j < r.value ==> !Present(m, keys[j])
    ensures r.None? ==> forall j :: 0 <= j < |keys| ==> !Present(m, keys[j])
  {
    if |keys| == 0 then None
    else if Present(m, keys[0]) then Some(0)
    else match FirstPresentKey(m, keys[1..])
      case None => None
      case Some(j) => Some(j + 1)
  }

  lemma OnlyKey(m: map<string, Value>, k: string, k': string)
    requires |m| == 1 && k in m && k' in m
    ensures k == k'
  {
    var rest := m.Keys - {k};
    assert |rest| == |m.Keys| - 1 == 0;
    assert k' !in rest;
  }

  /** `list(d.values())[0]` for a dict of one member. */
  function OnlyValue(m: map<string, Value>): Value
    requires |m| == 1
  {
    var k := OnlyKeyOf(m);
    m[k]
  }

  function OnlyKeyOf(m: map<string, Value>): (k: string)
    requires |m| == 1
    ensures k in m
  {
    assert forall k, k' :: k in m && k' in m ==> k == k' by {
      forall k, k' | k in m && k' in m ensures k == k' { OnlyKey(m, k, k'); }
    }
    var k :| k in m; k
  }

  /** The string `parse_bps_value` hands to the number cleanup (`raw_value_string`). */
  function RawString(v: Value): string {
    match v
    case Dict(m) =>
      (match FirstPresentKey(m, PossibleKeys)
       case Some(i) => PyStr(m[PossibleKeys[i]])
       case None => if |m| == 1 && OnlyValue(m) != Null then PyStr(OnlyValue(m)) else "0")
    // True and False are ints in Python, so they are turned into text too
    case Str(_) => PyStr(v)
    case Int(_) => PyStr(v)
    case Float(_) => PyStr(v)
    case Bool(_) => PyStr(v)
    case _ => "0"
  }

  /** `s.replace(".", "").replace(",", ".")`: Indonesian to Python number notation. */
  function Clean(s: string): (r: string)
    ensures r == ReplaceChar(RemoveChar(s, '.'), ',', '.')
    ensures Lacks(r, ',')
  {
    ReplaceCharLacks(RemoveChar(s, '.'), ',', '.');
    ReplaceAllRemovesChar(s, '.');
    ReplaceAllReplacesChar(RemoveChar(s, '.'), ',', '.');
    ReplaceAll(ReplaceAll(s, ".", ""), ",", ".")
  }

  /** What `parse_bps_value` returns: the parsed number, or 0.0 where `float` raises. */
  function BpsValue(v: Value): real {
    match ParseFloat(Clean(RawString(v)))
    case Some(x) => x
    case None => 0.0
  }

  /** The for/else search of `parse_bps_value` that sets `raw_value_string`. */
  method SelectRawString(v: Value) returns (raw: string)
    ensures raw == RawString(v)
  {
    raw := "0";
    match v {
      case Dict(m) =>
        var i := 0;
        var found := false;
        while i < |PossibleKeys| && !found
          invariant 0 <= i <= |PossibleKeys|
          invariant !found ==> raw == "0" && forall j :: 0 <= j < i ==> !Present(m, PossibleKeys[j])
          invariant found ==> raw == RawString(v)
        {
          var key := PossibleKeys[i];
          if key in m && m[key] != Null {
            raw := PyStr(m[key]);
            found := true;
            FirstPresentIs(m, PossibleKeys, i);
          }
          i := i + 1;
        }
        if !found {
          NoneFirstPresent(m, PossibleKeys);
          if |m| == 1 {
            var k :| k in m;
            OnlyKey(m, k, OnlyKeyOf(m));
            if m[k] != Null {
              raw := PyStr(m[k]);
            }
          }
        }
      case Str(_) => raw := PyStr(v);
      case Int(_) => raw := PyStr(v);
      case Float(_) => raw := PyStr(v);
      case Bool(_) => raw := PyStr(v);
      case Null =>
      case List(_) =>
    }
  }

  /** `parse_bps_value`: select the raw string, clean it, parse it, 0.0 on ValueError. */
  method ParseBpsValue(v: Value) returns (x: real)
    ensures x == BpsValue(v)
  {
    var raw := SelectRawString(v);
    var cleaned := ReplaceAll(ReplaceAll(raw, ".", ""), ",", ".");
    assert cleaned == Clean(raw);
    var parsed := ParseFloat(cleaned);
    x := if parsed.Some? then parsed.value else 0.0;
  }

  lemma {:induction false} FirstPresentIs(m: map<string, Value>, keys: seq<string>, i: nat)
    requires i < |keys| && Present(m, keys[i])
    requires forall j :: 0 <= j < i ==> !Present(m, keys[j])
    ensures FirstPresentKey(m, keys) == Some(i)
  {
    if i > 0 {
      FirstPresentIs(m, keys[1..], i - 1);
    }
  }

  lemma {:induction false} NoneFirstPresent(m: map<string, Value>, keys: seq<string>)
    requires forall j :: 0 <= j < |keys| ==> !Present(m, keys[j])
    ensures FirstPresentKey(m, keys) == None
  {
    if |keys| > 0 {
      NoneFirstPresent(m, keys[1..]);
    }
  }

  // ------------------------------------------------------------ key selection

  /** On a dict, `value_raw` wins over `val`, which wins over `nilai`, each only when not None. */
  lemma RawStringKeyOrder(m: map<string, Value>)
    ensures Present(m, "value_raw") ==> RawString(Dict(m)) == PyStr(m["value_raw"])
    ensures !Present(m, "value_raw") && Present(m, "val") ==> RawString(Dict(m)) == PyStr(m["val"])
    ensures !Present(m, "value_raw") && !Present(m, "val") && Present(m, "nilai")
            ==> RawString(Dict(m)) == PyStr(m["nilai"])
  {
    if Present(m, "value_raw") {
      FirstPresentIs(m, PossibleKeys, 0);
    } else if Present(m, "val") {
      FirstPresentIs(m, PossibleKeys, 1);
    } else if Present(m, "nilai") {
      FirstPresentIs(m, PossibleKeys, 2);
    }
  }

  /** Without any of the keys, a one-member dict with a non-None value gives that value; else "0". */
  lemma RawStringFallback(m: map<string, Value>)
    requires !Present(m, "value_raw") && !Present(m, "val") && !Present(m, "nilai")
    ensures |m| == 1 && m[OnlyKeyOf(m)] != Null ==> RawString(Dict(m)) == PyStr(m[OnlyKeyOf(m)])
    ensures !(|m| == 1 && m[OnlyKeyOf(m)] != Null) ==> RawString(Dict(m)) == "0"
  {
    NoneFirstPresent(m, PossibleKeys);
  }

  /** Scalars are turned into text directly; None and lists keep "0". */
  lemma RawStringScalar(v: Value)
    requires !v.Dict?
    ensures v.Str? || v.Int? || v.Float? || v.Bool? ==> RawString(v) == PyStr(v)
    ensures v.Null? || v.List? ==> RawString(v) == "0" && BpsValue(v) == 0.0
  {
    if v.Null? || v.List? {
      ZeroStringIsZero();
      BpsValueParsed(v, 0.0);
    }
  }

  // ------------------------------------------------------------ number cleanup

  /** The number depends only on the raw string picked out of the value object. */
  lemma ValueOfRaw(v: Value)
    ensures BpsValue(v) == BpsValue(Str(RawString(v)))
  {
    var raw := RawString(v);
    assert RawString(Str(raw)) == raw;
  }

  /** A value reads as whatever `float` makes of its cleaned raw string. */
  lemma BpsValueParsed(v: Value, x: real)
    requires ParseFloat(Clean(RawString(v))) == Some(x)
    ensures BpsValue(v) == x
  {
  }

  /** A value whose cleaned raw string `float` rejects reads as 0.0. */
  lemma BpsValueRejected(v: Value)
    requires ParseFloat(Clean(RawString(v))) == None
    ensures BpsValue(v) == 0.0
  {
  }

  /** A string value reads as whatever `float` makes of its cleaned text. */
  lemma StrParsed(s: string, x: real)
    requires ParseFloat(Clean(s)) == Some(x)
    ensures BpsValue(Str(s)) == x
  {
    BpsValueParsed(Str(s), x);
  }

  /** A string whose cleaned text `float` rejects reads as 0.0. */
  lemma StrRejected(s: string)
    requires ParseFloat(Clean(s)) == None
    ensures BpsValue(Str(s)) == 0.0
  {
    BpsValueRejected(Str(s));
  }

  lemma CleanPlain(s: string)
    requires Lacks(s, '.') && Lacks(s, ',')
    ensures Clean(s) == s
  {
    RemoveAbsentChar(s, '.');
    ReplaceAbsentChar(s, ',', '.');
  }

  /** The default raw string "0" reads as 0.0. */
  lemma ZeroStringIsZero()
    ensures ParseFloat(Clean("0")) == Some(0.0)
  {
    CleanPlain("0");
    ParseFloatDigits("0");
  }

  /** The cleanup drops every `.` and turns every `,` into `.`: "1.234,5" reads as 1234.5. */
  lemma IndonesianNotation(s: string)
    requires s == "1.234,5"
    ensures BpsValue(Str(s)) == 1234.5
  {
    GroupedExample();
    IndonesianRoundTrip(1234, "5");
    FractionExample();
  }

  lemma GroupedExample()
    ensures Grouped(1234) + "," + "5" == "1.234,5"
  {
    assert NatToString(1234) == "1234";
  }

  lemma FractionExample()
    ensures 1234 as real + DigitsValue("5") as real / Pow10(|"5"|) as real == 1234.5
  {
    assert DigitsValue("5") == 5;
  }

  /** An unparseable string reads as 0.0. */
  lemma UnparseableIsZero(s: string)
    requires s == "abc" || s == "" || s == "-"
    ensures BpsValue(Str(s)) == 0.0
  {
    if s == "abc" {
      LettersRejected(s);
    } else {
      NoDigitsRejected(s);
    }
  }

  lemma LettersRejected(s: string)
    requires s == "abc"
    ensures BpsValue(Str(s)) == 0.0
  {
    ParseFloatBadStart(s);
    LacksIsNotIn(s, '.');
    LacksIsNotIn(s, ',');
    RejectedPlain(s);
  }

  lemma NoDigitsRejected(s: string)
    requires s == "" || s == "-"
    ensures BpsValue(Str(s)) == 0.0
  {
    ParseFloatNoDigits(s);
    RejectedPlain(s);
  }

  /** Text without `.` or `,` that `float` rejects reads as 0.0. */
  lemma RejectedPlain(s: string)
    requires Lacks(s, '.') && Lacks(s, ',') && ParseFloat(s) == None
    ensures BpsValue(Str(s)) == 0.0
  {
    CleanPlain(s);
    StrRejected(s);
  }

  /**
   * A JSON float is turned into text before the cleanup, so its decimal point is
   * dropped too: 1.5 reads as 15.0.
   */
  lemma FloatPointDropped()
    ensures BpsValue(Float("1.5")) == 15.0
  {
    assert RawString(Float("1.5")) == "1.5";
    assert RemoveChar("1.5", '.') == "15";
    ReplaceAbsentChar("15", ',', '.');
    ParseFloatDigits("15");
    assert DigitsValue("15") == 15;
    BpsValueParsed(Float("1.5"), 15.0);
  }

  // ------------------------------------------------------------ round trip

  /** A digit string with `.` inserted between groups of three digits, counted from the right. */
  function GroupDigits(d: string): string
    decreases |d|
  {
    if |d| <= 3 then d else GroupDigits(d[..|d| - 3]) + "." + d[|d| - 3..]
  }

  /** A natural number written the Indonesian way, with `.` as the thousands separator. */
  function Grouped(n: nat): string {
    GroupDigits(NatToString(n))
  }

  lemma {:induction false} GroupDigitsUngroups(d: string)
    requires AllDigits(d)
    ensures Lacks(GroupDigits(d), ',')
    ensures RemoveChar(GroupDigits(d), '.') == d
    decreases |d|
  {
    if |d| <= 3 {
      DigitsHaveNo(d, ',');
      DigitsHaveNo(d, '.');
      RemoveAbsentChar(d, '.');
    } else {
      var h, t := d[..|d| - 3], d[|d| - 3..];
      assert AllDigits(h) && AllDigits(t);
      GroupDigitsUngroups(h);
      GroupStep(GroupDigits(h), t);
      assert h + t == d;
    }
  }

  /** Appending a separator and a group of digits to a grouped string. */
  lemma GroupStep(g: string, t: string)
    requires Lacks(g, ',') && AllDigits(t)
    ensures Lacks(g + "." + t, ',')
    ensures RemoveChar(g + "." + t, '.') == RemoveChar(g, '.') + t
  {
    DigitsHaveNo(t, ',');
    DigitsHaveNo(t, '.');
    RemoveCharAppend(g + ".", t, '.');
    RemoveCharAppend(g, ".", '.');
    RemoveAbsentChar(t, '.');
    assert RemoveChar(".", '.') == "";
    LacksAppend(g, ".", ',');
    LacksAppend(g + ".", t, ',');
  }

  lemma GroupedDigits(n: nat)
    ensures Lacks(Grouped(n), ',')
    ensures var d := RemoveChar(Grouped(n), '.'); |d| > 0 && AllDigits(d) && DigitsValue(d) == n
  {
    GroupDigitsUngroups(NatToString(n));
  }

  /**
   * Round trip: a number written with `.` thousand separators and a `,`
   * decimal comma is read back as that number.
   */
  lemma IndonesianRoundTrip(n: nat, frac: string)
    requires AllDigits(frac)
    ensures BpsValue(Str(Grouped(n) + "," + frac))
         == n as real + DigitsValue(frac) as real / Pow10(|frac|) as real
  {
    GroupedDigits(n);
    var g := Grouped(n);
    var d := RemoveChar(g, '.');
    var x := DecimalValue(d, frac);
    assert x == n as real + DigitsValue(frac) as real / Pow10(|frac|) as real;
    CleanGroupedComma(g, d, frac);
    ParseFloatDecimal(d, frac);
    StrParsed(g + "," + frac, x);
  }

  lemma CleanGroupedComma(g: string, d: string, frac: string)
    requires d == RemoveChar(g, '.') && Lacks(g, ',') && AllDigits(d) && AllDigits(frac)
    ensures Clean(g + "," + frac) == d + "." + frac
  {
    DigitsHaveNo(frac, '.');
    DigitsHaveNo(frac, ',');
    DigitsHaveNo(d, ',');
    RemoveCommaSeparated(g, frac);
    ReplaceCommaSeparated(d, frac);
  }

  lemma RemoveCommaSeparated(g: string, frac: string)
    requires Lacks(frac, '.')
    ensures RemoveChar(g + "," + frac, '.') == RemoveChar(g, '.') + "," + frac
  {
    RemoveCharAppend(g + ",", frac, '.');
    RemoveCharAppend(g, ",", '.');
    RemoveAbsentChar(frac, '.');
    assert RemoveChar(",", '.') == ",";
  }

  lemma ReplaceCommaSeparated(d: string, frac: string)
    requires Lacks(d, ',') && Lacks(frac, ',')
    ensures ReplaceChar(d + "," + frac, ',', '.') == d + "." + frac
  {
    ReplaceCharAppend(d + ",", frac, ',', '.');
    ReplaceCharAppend(d, ",", ',', '.');
    ReplaceAbsentChar(d, ',', '.');
    ReplaceAbsentChar(frac, ',', '.');
    assert ReplaceChar(",", ',', '.') == ".";
  }

  /** Round trip without a decimal part: the grouped form reads back as the number. */
  lemma GroupedRoundTrip(n: nat)
    ensures BpsValue(Str(Grouped(n))) == n as real
  {
    GroupedDigits(n);
    var g := Grouped(n);
    var d := RemoveChar(g, '.');
    DigitsHaveNo(d, ',');
    ReplaceAbsentChar(d, ',', '.');
    assert Clean(g) == d;
    ParseFloatDigits(d);
    StrParsed(g, n as real);
  }
}
