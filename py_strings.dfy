/**
 * The Python `str` built-ins the scripts rely on: `isspace`, `strip`, `upper`,
 * `replace`, `split(sep)`, `split()`, and the decimal parsing done by `int()`
 * and `float()`. Strings are sequences of Unicode scalar values, as in Python.
 */
module PyStrings {
  import opened Wrappers

  // ---------------------------------------------------------------- characters

  /** `c.isspace()`: the characters Python treats as whitespace. */
  predicate IsSpace(c: char) {
    || c == ' ' || ('\t' <= c <= '\r') || ('\U{1C}' <= c <= '\U{1F}')
    || c == '\U{85}' || c == '\U{A0}' || c == '\U{1680}'
    || ('\U{2000}' <= c <= '\U{200A}') || c == '\U{2028}' || c == '\U{2029}'
    || c == '\U{202F}' || c == '\U{205F}' || c == '\U{3000}'
  }

  predicate AllSpace(s: string) {
    forall i :: 0 <= i < |s| ==> IsSpace(s[i])
  }

  predicate NoSpace(s: string) {
    forall i :: 0 <= i < |s| ==> !IsSpace(s[i])
  }

  predicate IsDigit(c: char) {
    '0' <= c <= '9'
  }

  predicate AllDigits(s: string) {
    forall i :: 0 <= i < |s| ==> IsDigit(s[i])
  }

  /**
   * `c not in s`, written by recursion on `s` so that a proof unfolds it one
   * character at a time.
   */
  predicate Lacks(s: string, c: char) {
    |s| == 0 || (s[0] != c && Lacks(s[1..], c))
  }

  lemma {:induction false} LacksIsNotIn(s: string, c: char)
    ensures Lacks(s, c) <==> c !in s
  {
    if |s| > 0 {
      LacksIsNotIn(s[1..], c);
      assert s == [s[0]] + s[1..];
    }
  }

  lemma {:induction false} LacksAppend(a: string, b: string, c: char)
    ensures Lacks(a + b, c) <==> Lacks(a, c) && Lacks(b, c)
  {
    if |a| == 0 {
      assert a + b == b;
    } else {
      assert (a + b)[1..] == a[1..] + b;
      LacksAppend(a[1..], b, c);
    }
  }

  // ---------------------------------------------------------------- strip

  /** `s.lstrip()` */
  function LStrip(s: string): (r: string)
    ensures |r| <= |s| && r == s[|s| - |r|..]
    ensures |r| == 0 || !IsSpace(r[0])
  {
    if |s| > 0 && IsSpace(s[0]) then LStrip(s[1..]) else s
  }

  /** `s.rstrip()` */
  function RStrip(s: string): (r: string)
    ensures |r| <= |s| && r == s[..|r|]
    ensures |r| == 0 || !IsSpace(r[|r| - 1])
  {
    if |s| > 0 && IsSpace(s[|s| - 1]) then RStrip(s[..|s| - 1]) else s
  }

  /** `s.strip()`: the input less its leading and trailing whitespace. */
  function Strip(s: string): (r: string)
    ensures |r| <= |s|
    ensures |r| == 0 || (!IsSpace(r[0]) && !IsSpace(r[|r| - 1]))
  {
    RStrip(LStrip(s))
  }

  /** `lstrip` removes a whitespace prefix and nothing else. */
  lemma {:induction false} LStripRemovesSpace(s: string)
    ensures AllSpace(s[..|s| - |LStrip(s)|])
    decreases |s|
  {
    if |s| > 0 && IsSpace(s[0]) {
      LStripRemovesSpace(s[1..]);
      var k := |s| - |LStrip(s)|;
      assert s[..k] == [s[0]] + s[1..][..k - 1];
    }
  }

  /** `rstrip` removes a whitespace suffix and nothing else. */
  lemma {:induction false} RStripRemovesSpace(s: string)
    ensures AllSpace(s[|RStrip(s)|..])
    decreases |s|
  {
    if |s| > 0 && IsSpace(s[|s| - 1]) {
      var t := s[..|s| - 1];
      RStripRemovesSpace(t);
      var k := |RStrip(s)|;
      assert s[k..] == t[k..] + [s[|s| - 1]];
    }
  }

  lemma StripNoSpace(s: string)
    requires |s| == 0 || (!IsSpace(s[0]) && !IsSpace(s[|s| - 1]))
    ensures Strip(s) == s
  {
  }

  // ---------------------------------------------------------------- upper

  function UpperChar(c: char): char {
    if 'a' <= c <= 'z' then (c as int - 32) as char else c
  }

  /** `s.upper()`, restricted to the ASCII letters. */
  function Upper(s: string): (r: string)
    ensures |r| == |s|
  {
    if |s| == 0 then [] else [UpperChar(s[0])] + Upper(s[1..])
  }

  /** `upper` works character by character. */
  lemma {:induction false} UpperChars(s: string)
    ensures forall i :: 0 <= i < |s| ==> Upper(s)[i] == UpperChar(s[i])
  {
    if |s| > 0 {
      UpperChars(s[1..]);
      assert forall i :: 1 <= i < |s| ==> Upper(s)[i] == Upper(s[1..])[i - 1];
    }
  }

  // ---------------------------------------------------------------- replace

  /**
   * `s.replace(pat, rep)`: every non-overlapping occurrence of `pat`, scanning
   * left to right, is replaced by `rep`.
   */
  function ReplaceAll(s: string, pat: string, rep: string): string
    requires |pat| > 0
  {
    if |s| == 0 then []
    else if pat <= s then rep + ReplaceAll(s[|pat|..], pat, rep)
    else [s[0]] + ReplaceAll(s[1..], pat, rep)
  }

  /** The input without any occurrence of `c`. */
  function RemoveChar(s: string, c: char): string {
    if |s| == 0 then [] else (if s[0] == c then [] else [s[0]]) + RemoveChar(s[1..], c)
  }

  /** The input with every `c` turned into `d`. */
  function ReplaceChar(s: string, c: char, d: char): (r: string)
    ensures |r| == |s|
    ensures forall i :: 0 <= i < |s| ==> r[i] == if s[i] == c then d else s[i]
  {
    if |s| == 0 then [] else [if s[0] == c then d else s[0]] + ReplaceChar(s[1..], c, d)
  }

  lemma {:induction false} RemoveCharLacks(s: string, c: char)
    ensures Lacks(RemoveChar(s, c), c)
  {
    if |s| > 0 {
      RemoveCharLacks(s[1..], c);
      LacksAppend(if s[0] == c then [] else [s[0]], RemoveChar(s[1..], c), c);
    }
  }

  lemma {:induction false} ReplaceCharLacks(s: string, c: char, d: char)
    requires c != d
    ensures Lacks(ReplaceChar(s, c, d), c)
  {
    if |s| > 0 {
      ReplaceCharLacks(s[1..], c, d);
      LacksAppend([if s[0] == c then d else s[0]], ReplaceChar(s[1..], c, d), c);
    }
  }

  lemma {:induction false} ReplaceAllRemovesChar(s: string, c: char)
    ensures ReplaceAll(s, [c], "") == RemoveChar(s, c)
  {
    if |s| > 0 {
      ReplaceAllRemovesChar(s[1..], c);
    }
  }

  lemma {:induction false} ReplaceAllReplacesChar(s: string, c: char, d: char)
    ensures ReplaceAll(s, [c], [d]) == ReplaceChar(s, c, d)
  {
    if |s| > 0 {
      ReplaceAllReplacesChar(s[1..], c, d);
    }
  }

  lemma {:induction false} RemoveAbsentChar(s: string, c: char)
    requires Lacks(s, c)
    ensures RemoveChar(s, c) == s
  {
    if |s| > 0 {
      RemoveAbsentChar(s[1..], c);
    }
  }

  lemma {:induction false} RemoveCharAppend(a: string, b: string, c: char)
    ensures RemoveChar(a + b, c) == RemoveChar(a, c) + RemoveChar(b, c)
  {
    if |a| == 0 {
      assert a + b == b;
    } else {
      assert (a + b)[1..] == a[1..] + b;
      RemoveCharAppend(a[1..], b, c);
    }
  }

  lemma {:induction false} ReplaceAbsentChar(s: string, c: char, d: char)
    requires Lacks(s, c)
    ensures ReplaceChar(s, c, d) == s
  {
    if |s| > 0 {
      ReplaceAbsentChar(s[1..], c, d);
    }
  }

  lemma {:induction false} ReplaceCharAppend(a: string, b: string, c: char, d: char)
    ensures ReplaceChar(a + b, c, d) == ReplaceChar(a, c, d) + ReplaceChar(b, c, d)
  {
    if |a| == 0 {
      assert a + b == b;
    } else {
      assert (a + b)[1..] == a[1..] + b;
      ReplaceCharAppend(a[1..], b, c, d);
    }
  }

  // ---------------------------------------------------------------- split

  /** Number of occurrences of `c` in `s`. */
  function Count(s: string, c: char): nat {
    if |s| == 0 then 0 else (if s[0] == c then 1 else 0) + Count(s[1..], c)
  }

  /** `s.split(c)` for a one-character separator. */
  function Split(s: string, c: char): (parts: seq<string>)
    ensures |parts| >= 1
  {
    if |s| == 0 then [""]
    else
      var rest := Split(s[1..], c);
      if s[0] == c then [""] + rest else [[s[0]] + rest[0]] + rest[1..]
  }

  /** `c.join(parts)` */
  function Join(parts: seq<string>, c: char): string
    requires |parts| >= 1
  {
    if |parts| == 1 then parts[0] else parts[0] + [c] + Join(parts[1..], c)
  }

  /** `split` produces one more part than there are separators. */
  lemma {:induction false} SplitCount(s: string, c: char)
    ensures |Split(s, c)| == Count(s, c) + 1
  {
    if |s| > 0 {
      SplitCount(s[1..], c);
    }
  }

  /** Joining the parts of a split with the separator gives back the input. */
  lemma {:induction false} SplitJoin(s: string, c: char)
    ensures Join(Split(s, c), c) == s
  {
    if |s| > 0 {
      SplitJoin(s[1..], c);
      var rest := Split(s[1..], c);
      if s[0] == c {
        assert Join([""] + rest, c) == "" + [c] + Join(rest, c);
        assert s == [c] + s[1..];
      } else {
        var parts := [[s[0]] + rest[0]] + rest[1..];
        assert parts[1..] == rest[1..];
        if |rest| == 1 {
          assert Join(parts, c) == [s[0]] + rest[0];
        } else {
          assert Join(parts, c) == [s[0]] + rest[0] + [c] + Join(rest[1..], c);
        }
        assert s == [s[0]] + s[1..];
      }
    }
  }

  /** Splitting a string with no separator in it gives the string alone. */
  lemma {:induction false} SplitNoSeparator(s: string, c: char)
    requires Lacks(s, c)
    ensures Split(s, c) == [s]
  {
    if |s| > 0 {
      SplitNoSeparator(s[1..], c);
      assert s == [s[0]] + s[1..];
    }
  }

  /** Splitting `a + [c] + b`, where `a` has no separator, gives `a` first. */
  lemma {:induction false} SplitAt(a: string, b: string, c: char)
    requires Lacks(a, c)
    ensures Split(a + [c] + b, c) == [a] + Split(b, c)
  {
    if |a| == 0 {
      assert a + [c] + b == [c] + b;
      assert ([c] + b)[1..] == b;
    } else {
      assert (a + [c] + b)[1..] == a[1..] + [c] + b;
      SplitAt(a[1..], b, c);
      assert a == [a[0]] + a[1..];
    }
  }

  // ---------------------------------------------------------------- split()

  /** Length of the leading run of non-whitespace characters. */
  function WordLen(s: string): (n: nat)
    ensures n <= |s|
    ensures NoSpace(s[..n])
    ensures n == |s| || IsSpace(s[n])
  {
    if |s| == 0 || IsSpace(s[0]) then 0 else 1 + WordLen(s[1..])
  }

  /** `s.split()`: the maximal runs of non-whitespace characters, in order. */
  function Tokens(s: string): (ts: seq<string>)
    ensures forall k :: 0 <= k < |ts| ==> |ts[k]| > 0 && NoSpace(ts[k])
    decreases |s|
  {
    if |s| == 0 then []
    else if IsSpace(s[0]) then Tokens(s[1..])
    else
      var n := WordLen(s);
      [s[..n]] + Tokens(s[n..])
  }

  /** Leading whitespace does not change the tokens. */
  lemma {:induction false} TokensSkipSpace(w: string, s: string)
    requires AllSpace(w)
    ensures Tokens(w + s) == Tokens(s)
  {
    if |w| > 0 {
      assert (w + s)[1..] == w[1..] + s;
      TokensSkipSpace(w[1..], s);
    } else {
      assert w + s == s;
    }
  }

  lemma {:induction false} WordLenOfWord(t: string, s: string)
    requires NoSpace(t)
    requires |s| == 0 || IsSpace(s[0])
    ensures WordLen(t + s) == |t|
  {
    if |t| > 0 {
      assert (t + s)[1..] == t[1..] + s;
      WordLenOfWord(t[1..], s);
    } else {
      assert t + s == s;
    }
  }

  /**
   * A word followed by a non-empty run of whitespace (or by nothing) is the
   * next token: any run of whitespace separates tokens.
   */
  lemma TokensWord(t: string, w: string, s: string)
    requires |t| > 0 && NoSpace(t)
    requires AllSpace(w)
    requires |w| > 0 || |s| == 0
    ensures Tokens(t + w + s) == [t] + Tokens(s)
  {
    var x := t + w + s;
    assert x == t + (w + s);
    WordLenOfWord(t, w + s);
    assert x[..|t|] == t;
    assert x[|t|..] == w + s;
    TokensSkipSpace(w, s);
  }

  // ---------------------------------------------------------------- numbers

  lemma {:induction false} DigitsHaveNo(s: string, c: char)
    requires AllDigits(s) && !IsDigit(c)
    ensures Lacks(s, c)
  {
    if |s| > 0 {
      assert IsDigit(s[0]);
      assert AllDigits(s[1..]);
      DigitsHaveNo(s[1..], c);
    }
  }

  function DigitValue(c: char): nat
    requires IsDigit(c)
  {
    c as int - '0' as int
  }

  /** The number a string of decimal digits denotes (0 for the empty string). */
  function DigitsValue(s: string): nat
    requires AllDigits(s)
  {
    if |s| == 0 then 0 else 10 * DigitsValue(s[..|s| - 1]) + DigitValue(s[|s| - 1])
  }

  function Pow10(k: nat): (p: nat)
    ensures p >= 1
  {
    if k == 0 then 1 else 10 * Pow10(k - 1)
  }

  lemma {:induction false} DigitsValueAppend(a: string, b: string)
    requires AllDigits(a) && AllDigits(b)
    ensures AllDigits(a + b)
    ensures DigitsValue(a + b) == DigitsValue(a) * Pow10(|b|) + DigitsValue(b)
  {
    if |b| == 0 {
      assert a + b == a;
    } else {
      var b' := b[..|b| - 1];
      var ab := a + b;
      assert AllDigits(ab);
      assert ab[..|ab| - 1] == a + b';
      assert ab[|ab| - 1] == b[|b| - 1];
      DigitsValueAppend(a, b');
      var x, p, y, d := DigitsValue(a), Pow10(|b'|), DigitsValue(b'), DigitValue(b[|b| - 1]);
      assert DigitsValue(ab) == 10 * DigitsValue(a + b') + d;
      assert DigitsValue(b) == 10 * y + d;
      assert Pow10(|b|) == 10 * p;
      MulAssoc10(x, p);
    }
  }

  lemma MulAssoc10(x: int, p: int)
    ensures 10 * (x * p) == x * (10 * p)
  {
  }

  function DigitChar(d: nat): (c: char)
    requires d < 10
    ensures IsDigit(c) && DigitValue(c) == d
  {
    (d + '0' as int) as char
  }

  /** `str(n)` for a natural number. */
  function NatToString(n: nat): (s: string)
    ensures |s| > 0 && AllDigits(s)
    ensures DigitsValue(s) == n
  {
    if n < 10 then [DigitChar(n)]
    else
      var s := NatToString(n / 10) + [DigitChar(n % 10)];
      assert s[..|s| - 1] == NatToString(n / 10);
      s
  }

  /** `str(i)` for an integer. */
  function IntToString(i: int): string {
    if i < 0 then "-" + NatToString(-i) else NatToString(i)
  }

  /**
   * The digit part `int()` accepts: ASCII digits, with single underscores
   * allowed between two digits.
   */
  predicate IntDigits(b: string) {
    && |b| > 0 && IsDigit(b[0])
    && DigitsOrUnderscores(b)
    && forall i :: 0 <= i < |b| && b[i] == '_' ==> i + 1 < |b| && IsDigit(b[i + 1])
  }

  predicate DigitsOrUnderscores(b: string) {
    forall i :: 0 <= i < |b| ==> IsDigit(b[i]) || b[i] == '_'
  }

  lemma {:induction false} RemoveUnderscoresLeavesDigits(b: string)
    requires DigitsOrUnderscores(b)
    ensures AllDigits(RemoveChar(b, '_'))
  {
    if |b| > 0 {
      assert DigitsOrUnderscores(b[1..]) by {
        forall i | 0 <= i < |b| - 1 ensures IsDigit(b[1..][i]) || b[1..][i] == '_' {
          assert b[1..][i] == b[i + 1];
        }
      }
      RemoveUnderscoresLeavesDigits(b[1..]);
    }
  }

  /** `int(tok)` for a token without surrounding whitespace; None when it raises ValueError. */
  function ParseInt(tok: string): (r: Option<int>)
    ensures r.Some? ==> |tok| > 0
  {
    var neg := |tok| > 0 && tok[0] == '-';
    var body := if |tok| > 0 && (tok[0] == '+' || tok[0] == '-') then tok[1..] else tok;
    if IntDigits(body) then
      RemoveUnderscoresLeavesDigits(body);
      var v: int := DigitsValue(RemoveChar(body, '_'));
      Some(if neg then -v else v)
    else None
  }

  /** `int(str(i)) == i` */
  lemma IntRoundTrip(i: int)
    ensures ParseInt(IntToString(i)) == Some(i)
  {
    var n: nat := if i < 0 then -i else i;
    var d := NatToString(n);
    DigitsHaveNo(d, '_');
    RemoveAbsentChar(d, '_');
    assert IntDigits(d);
    if i < 0 {
      assert IntToString(i)[1..] == d;
    }
  }

  /**
   * `float(s)` for plain decimal notation: surrounding whitespace, an optional
   * sign, digits with an optional `.` and fraction digits (at least one digit
   * in all). None stands for the ValueError Python raises otherwise.
   */
  function ParseFloat(s: string): Option<real> {
    var t := Strip(s);
    var neg := |t| > 0 && t[0] == '-';
    var body := if |t| > 0 && (t[0] == '+' || t[0] == '-') then t[1..] else t;
    match ParseUnsignedDecimal(body)
    case None => None
    case Some(v) => Some(if neg then -v else v)
  }

  function ParseUnsignedDecimal(body: string): Option<real> {
    var parts := Split(body, '.');
    if |parts| == 1 && |parts[0]| > 0 && AllDigits(parts[0]) then
      Some(DigitsValue(parts[0]) as real)
    else if |parts| == 2 && |parts[0]| + |parts[1]| > 0 && AllDigits(parts[0]) && AllDigits(parts[1]) then
      Some(DecimalValue(parts[0], parts[1]))
    else None
  }

  /** The value of the decimal numeral `a.b`. */
  function DecimalValue(a: string, b: string): real
    requires AllDigits(a) && AllDigits(b)
  {
    DigitsValue(a) as real + DigitsValue(b) as real / Pow10(|b|) as real
  }

  lemma ParseFloatUnsigned(s: string)
    requires |s| > 0 && IsDigit(s[0]) && !IsSpace(s[|s| - 1])
    ensures ParseFloat(s) == ParseUnsignedDecimal(s)
  {
    assert !IsSpace(s[0]);
    StripNoSpace(s);
  }

  lemma SplitDecimal(a: string, b: string)
    requires AllDigits(a) && AllDigits(b)
    ensures Split(a + "." + b, '.') == [a, b]
  {
    DigitsHaveNo(a, '.');
    DigitsHaveNo(b, '.');
    assert a + "." + b == a + ['.'] + b;
    SplitAt(a, b, '.');
    SplitNoSeparator(b, '.');
  }

  lemma DecimalOfParts(s: string, a: string, b: string)
    requires Split(s, '.') == [a, b]
    requires |a| > 0 && AllDigits(a) && AllDigits(b)
    ensures ParseUnsignedDecimal(s) == Some(DecimalValue(a, b))
  {
    var parts := Split(s, '.');
    assert |parts| == 2 && parts[0] == a && parts[1] == b;
  }

  /** `float` reads `int.frac` as int + frac / 10^|frac|. */
  lemma ParseFloatDecimal(a: string, b: string)
    requires |a| > 0 && AllDigits(a) && AllDigits(b)
    ensures ParseFloat(a + "." + b) == Some(DecimalValue(a, b))
  {
    var s := a + "." + b;
    assert s[0] == a[0];
    assert s[|s| - 1] == if |b| > 0 then b[|b| - 1] else '.';
    ParseFloatUnsigned(s);
    SplitDecimal(a, b);
    DecimalOfParts(s, a, b);
  }

  /** `float` reads a plain digit string as the integer it denotes. */
  lemma ParseFloatDigits(a: string)
    requires |a| > 0 && AllDigits(a)
    ensures ParseFloat(a) == Some(DigitsValue(a) as real)
  {
    ParseFloatUnsigned(a);
    DigitsHaveNo(a, '.');
    SplitNoSeparator(a, '.');
  }

  /** `float` rejects text that starts with something other than a sign, a digit or a point. */
  lemma ParseFloatBadStart(s: string)
    requires |s| > 0 && !IsSpace(s[0]) && !IsSpace(s[|s| - 1])
    requires !IsDigit(s[0]) && s[0] != '+' && s[0] != '-' && s[0] != '.'
    ensures ParseFloat(s) == None
  {
    StripNoSpace(s);
    var parts := Split(s, '.');
    assert parts[0][0] == s[0];
  }

  /** `float` rejects an empty or all-whitespace text, and a lone sign. */
  lemma ParseFloatNoDigits(s: string)
    requires s == "" || s == "+" || s == "-"
    ensures ParseFloat(s) == None
  {
    assert |s| == 0 || (!IsSpace(s[0]) && s[0] == s[|s| - 1]);
    StripNoSpace(s);
    EmptyBodyRejected();
  }

  lemma EmptyBodyRejected()
    ensures ParseUnsignedDecimal("") == None
  {
    assert Split("", '.') == [""];
  }
}
