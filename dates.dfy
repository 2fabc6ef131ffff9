/**
 * `format_date` (utils.py): BPS period strings to `YYYY-MM-DD`. A string
 * with a `-` is taken as `year-month`, a four-character string as a year,
 * and anything else goes to pandas; every exception returns the input.
 */
module Dates {
  import opened Wrappers
  import opened PyStrings

  /**
   * `format_date(s)`. `toDatetime(s)` stands for
   * `pd.to_datetime(s).strftime('%Y-%m-%d')`, None when pandas raises.
   */
  function FormatDate(s: string, toDatetime: string -> Option<string>): string {
    if !Lacks(s, '-') then
      var parts := Split(s, '-');
      // `year, month = ...` raises ValueError unless there are exactly two parts
      if |parts| == 2 then parts[0] + "-" + parts[1] + "-01" else s
    else if |s| == 4 then s + "-01-01"
    else
      match toDatetime(s)
      case Some(t) => t
      case None => s
  }

  /** A string has no `c` exactly when it holds no occurrence of `c`. */
  lemma {:induction false} LacksCount(s: string, c: char)
    ensures Lacks(s, c) <==> Count(s, c) == 0
  {
    if |s| > 0 {
      LacksCount(s[1..], c);
    }
  }

  /** One `-`: the input is a year and a month, and the first of the month is appended. */
  lemma OneDash(s: string, toDatetime: string -> Option<string>)
    requires Count(s, '-') == 1
    ensures FormatDate(s, toDatetime) == s + "-01"
  {
    LacksCount(s, '-');
    SplitCount(s, '-');
    SplitJoin(s, '-');
    var parts := Split(s, '-');
    assert parts[1..] == [parts[1]];
    assert Join(parts, '-') == parts[0] + "-" + parts[1];
  }

  /** Two or more `-`: unpacking into `year, month` raises and the input comes back. */
  lemma ManyDashes(s: string, toDatetime: string -> Option<string>)
    requires Count(s, '-') >= 2
    ensures FormatDate(s, toDatetime) == s
  {
    LacksCount(s, '-');
    SplitCount(s, '-');
  }

  /** Four characters and no `-`: a year, whatever the characters are. */
  lemma YearOnly(s: string, toDatetime: string -> Option<string>)
    requires Count(s, '-') == 0 && |s| == 4
    ensures FormatDate(s, toDatetime) == s + "-01-01"
  {
    LacksCount(s, '-');
  }

  /** Anything else is what pandas makes of it, or the input when pandas raises. */
  lemma OtherwisePandas(s: string, toDatetime: string -> Option<string>)
    requires Count(s, '-') == 0 && |s| != 4
    ensures toDatetime(s).Some? ==> FormatDate(s, toDatetime) == toDatetime(s).value
    ensures toDatetime(s).None? ==> FormatDate(s, toDatetime) == s
  {
    LacksCount(s, '-');
  }

  /** `year-month` with no other `-` gives the first of that month. */
  lemma YearMonth(year: string, month: string, toDatetime: string -> Option<string>)
    requires Lacks(year, '-') && Lacks(month, '-')
    ensures FormatDate(year + "-" + month, toDatetime) == year + "-" + month + "-01"
  {
    LacksCount(year, '-');
    LacksCount(month, '-');
    CountAppend(year, "-", '-');
    CountAppend(year + "-", month, '-');
    OneDash(year + "-" + month, toDatetime);
  }

  lemma {:induction false} CountAppend(a: string, b: string, c: char)
    ensures Count(a + b, c) == Count(a, c) + Count(b, c)
  {
    if |a| == 0 {
      assert a + b == b;
    } else {
      assert (a + b)[1..] == a[1..] + b;
      CountAppend(a[1..], b, c);
    }
  }

  /** The example of the docstring: `"2024-05"` becomes `"2024-05-01"`. */
  lemma MonthExample(s: string, toDatetime: string -> Option<string>)
    requires s == "2024-05"
    ensures FormatDate(s, toDatetime) == "2024-05-01"
  {
    LacksIsNotIn("2024", '-');
    LacksIsNotIn("05", '-');
    assert s == "2024" + "-" + "05";
    YearMonth("2024", "05", toDatetime);
  }

  /** `"2024"` becomes `"2024-01-01"`. */
  lemma YearExample(s: string, toDatetime: string -> Option<string>)
    requires s == "2024"
    ensures FormatDate(s, toDatetime) == "2024-01-01"
  {
    LacksIsNotIn(s, '-');
  }
}
