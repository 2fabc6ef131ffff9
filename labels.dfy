/**
 * The label file of the emotion detector (tflite.py, `load_labels`): every
 * line is `<int> <name> ...`, and the dict comprehension maps the integer
 * given by the first whitespace token to the second token. The file is given
 * as its list of lines, as `readlines()` returns it.
 */
module Labels {
  import opened Wrappers
  import opened PyStrings
  import opened PyJson

  /**
   * One pair of the comprehension: `int(line.split()[0])` first, then
   * `line.split()[1]`.
   */
  function LineEntry(line: string): (r: Result<(int, string), PyError>)
    ensures r.Ok? <==> |Tokens(line)| >= 2 && ParseInt(Tokens(line)[0]).Some?
    ensures r.Ok? ==> r.value == (ParseInt(Tokens(line)[0]).value, Tokens(line)[1])
    // a line without a first token, or an integer without a second one
    ensures r == Err(IndexError) <==>
      |Tokens(line)| == 0 || (ParseInt(Tokens(line)[0]).Some? && |Tokens(line)| < 2)
    // a first token that is not an integer
    ensures r == Err(ValueError) <==> |Tokens(line)| >= 1 && ParseInt(Tokens(line)[0]).None?
  {
    var ts := Tokens(line);
    if |ts| == 0 then Err(IndexError)
    else
      match ParseInt(ts[0])
      case None => Err(ValueError)
      case Some(k) => if |ts| < 2 then Err(IndexError) else Ok((k, ts[1]))
  }

  /** The pair each line gives, or the exception it raises, line by line. */
  function Entries(lines: seq<string>): (es: seq<Result<(int, string), PyError>>)
    ensures |es| == |lines|
    ensures forall i :: 0 <= i < |lines| ==> es[i] == LineEntry(lines[i])
  {
    seq(|lines|, i requires 0 <= i < |lines| => LineEntry(lines[i]))
  }

  /**
   * Building the dict from the pairs in order: the first exception ends the
   * load with that exception; otherwise a later pair overwrites an equal key.
   */
  function Collect(es: seq<Result<(int, string), PyError>>): Result<map<int, string>, PyError> {
    if |es| == 0 then Ok(map[])
    else
      var n := |es| - 1;
      match Collect(es[..n])
      case Err(e) => Err(e)
      case Ok(m) =>
        match es[n]
        case Err(e) => Err(e)
        case Ok(kv) => Ok(m[kv.0 := kv.1])
  }

  /** `load_labels`: the dict comprehension over the lines of the file. */
  function LoadLabels(lines: seq<string>): Result<map<int, string>, PyError> {
    Collect(Entries(lines))
  }

  // ---------------------------------------------------------------- whole file

  /** The load succeeds exactly when every line gives a pair. */
  lemma {:induction false} CollectSucceeds(es: seq<Result<(int, string), PyError>>)
    ensures Collect(es).Ok? <==> forall i :: 0 <= i < |es| ==> es[i].Ok?
  {
    if |es| > 0 {
      var n := |es| - 1;
      CollectSucceeds(es[..n]);
      assert forall i :: 0 <= i < n ==> es[..n][i] == es[i];
    }
  }

  /** A failed load reports the exception of the first line that raises. */
  lemma {:induction false} CollectFailure(es: seq<Result<(int, string), PyError>>)
    requires Collect(es).Err?
    ensures exists i :: 0 <= i < |es| && es[i] == Err(Collect(es).error)
                     && forall j :: 0 <= j < i ==> es[j].Ok?
  {
    var n := |es| - 1;
    assert forall i :: 0 <= i < n ==> es[..n][i] == es[i];
    if Collect(es[..n]).Err? {
      CollectFailure(es[..n]);
      var i :| 0 <= i < n && es[..n][i] == Err(Collect(es[..n]).error)
               && forall j :: 0 <= j < i ==> es[..n][j].Ok?;
      assert es[i] == Err(Collect(es).error);
    } else {
      CollectSucceeds(es[..n]);
    }
  }

  /** There are never more entries than lines. */
  lemma {:induction false} CollectSize(es: seq<Result<(int, string), PyError>>)
    requires Collect(es).Ok?
    ensures |Collect(es).value| <= |es|
  {
    if |es| > 0 {
      CollectSize(es[..|es| - 1]);
    }
  }

  /** The keys are exactly the integers of the lines. */
  lemma {:induction false} CollectKeys(es: seq<Result<(int, string), PyError>>, k: int)
    requires Collect(es).Ok?
    ensures k in Collect(es).value <==> exists i :: 0 <= i < |es| && es[i].Ok? && es[i].value.0 == k
  {
    if |es| > 0 {
      var n := |es| - 1;
      CollectKeys(es[..n], k);
      assert forall i :: 0 <= i < n ==> es[..n][i] == es[i];
    }
  }

  /** Of several lines with the same integer, the last one gives the name. */
  lemma {:induction false} CollectLaterWins(es: seq<Result<(int, string), PyError>>, i: nat, k: int, v: string)
    requires Collect(es).Ok?
    requires i < |es| && es[i] == Ok((k, v))
    requires forall j :: i < j < |es| ==> es[j].Ok? && es[j].value.0 != k
    ensures k in Collect(es).value && Collect(es).value[k] == v
  {
    var n := |es| - 1;
    if i < n {
      assert forall j :: i < j < n ==> es[..n][j] == es[j];
      CollectLaterWins(es[..n], i, k, v);
    }
  }

  /** Success, the reported exception and the size bound, for the lines of a label file. */
  lemma LoadProperties(lines: seq<string>)
    ensures LoadLabels(lines).Ok? <==> forall i :: 0 <= i < |lines| ==> LineEntry(lines[i]).Ok?
    ensures LoadLabels(lines).Err? ==>
      exists i :: 0 <= i < |lines| && LineEntry(lines[i]) == Err(LoadLabels(lines).error)
               && forall j :: 0 <= j < i ==> LineEntry(lines[j]).Ok?
    ensures LoadLabels(lines).Ok? ==> |LoadLabels(lines).value| <= |lines|
  {
    var es := Entries(lines);
    CollectSucceeds(es);
    if Collect(es).Err? {
      CollectFailure(es);
    } else {
      CollectSize(es);
    }
  }

  /** The keys of a loaded file are exactly the integers of its lines. */
  lemma LoadKeys(lines: seq<string>, k: int)
    requires LoadLabels(lines).Ok?
    ensures k in LoadLabels(lines).value <==>
      exists i :: 0 <= i < |lines| && LineEntry(lines[i]).Ok? && LineEntry(lines[i]).value.0 == k
  {
    CollectKeys(Entries(lines), k);
  }

  /** Of several lines with the same integer, the last one gives the name. */
  lemma LaterLineWins(lines: seq<string>, i: nat, k: int, v: string)
    requires LoadLabels(lines).Ok?
    requires i < |lines| && LineEntry(lines[i]) == Ok((k, v))
    requires forall j :: i < j < |lines| ==> LineEntry(lines[j]).Ok? && LineEntry(lines[j]).value.0 != k
    ensures k in LoadLabels(lines).value && LoadLabels(lines).value[k] == v
  {
    CollectLaterWins(Entries(lines), i, k, v);
  }

  // ---------------------------------------------------------------- one line

  lemma {:induction false} DigitsNoSpace(s: string)
    requires AllDigits(s)
    ensures NoSpace(s)
  { }

  /** A run of whitespace alone has no tokens. */
  lemma BlankTokens(w: string)
    requires AllSpace(w)
    ensures Tokens(w) == []
  {
    TokensSkipSpace(w, "");
    assert w + "" == w;
  }

  /** A blank line, or one holding only whitespace, makes the load fail with IndexError. */
  lemma BlankLine(line: string)
    requires AllSpace(line)
    ensures LineEntry(line) == Err(IndexError)
  {
    BlankTokens(line);
  }

  /** A word followed by whitespace, or by nothing, is the next token. */
  lemma WordThen(t: string, w: string, s: string)
    requires |t| > 0 && NoSpace(t) && AllSpace(w)
    requires |w| > 0 || |s| == 0
    ensures Tokens(t + (w + s)) == [t] + Tokens(s)
  {
    assert t + (w + s) == t + w + s;
    TokensWord(t, w, s);
  }

  /**
   * `w0 t0 w1 t1 rest`: leading whitespace, a token, any run of whitespace, a
   * token, then nothing or whitespace and anything. Its first two tokens are
   * `t0` and `t1`.
   */
  lemma FirstTwoTokens(w0: string, t0: string, w1: string, t1: string, rest: string)
    requires AllSpace(w0) && AllSpace(w1) && |w1| > 0
    requires |t0| > 0 && NoSpace(t0) && |t1| > 0 && NoSpace(t1)
    requires |rest| == 0 || IsSpace(rest[0])
    ensures |Tokens(w0 + (t0 + (w1 + (t1 + rest))))| >= 2
    ensures Tokens(w0 + (t0 + (w1 + (t1 + rest))))[0] == t0
    ensures Tokens(w0 + (t0 + (w1 + (t1 + rest))))[1] == t1
  {
    TokensSkipSpace(w0, t0 + (w1 + (t1 + rest)));
    WordThen(t0, w1, t1 + rest);
    if |rest| == 0 {
      WordThen(t1, "", "");
      assert t1 + rest == t1 + ("" + "");
    } else {
      WordThen(t1, [rest[0]], rest[1..]);
      assert rest == [rest[0]] + rest[1..];
    }
  }

  /**
   * Only the first two tokens of a line matter, and any run of whitespace
   * separates them.
   */
  lemma TwoTokens(w0: string, t0: string, w1: string, t1: string, rest: string)
    requires AllSpace(w0) && AllSpace(w1) && |w1| > 0
    requires |t0| > 0 && NoSpace(t0) && |t1| > 0 && NoSpace(t1)
    requires |rest| == 0 || IsSpace(rest[0])
    ensures LineEntry(w0 + (t0 + (w1 + (t1 + rest))))
         == (match ParseInt(t0) case None => Err(ValueError) case Some(k) => Ok((k, t1)))
  {
    FirstTwoTokens(w0, t0, w1, t1, rest);
  }

  /** A line holding one integer token and nothing else fails with IndexError. */
  lemma OneToken(w0: string, t0: string, w1: string)
    requires AllSpace(w0) && AllSpace(w1)
    requires |t0| > 0 && NoSpace(t0) && ParseInt(t0).Some?
    ensures LineEntry(w0 + t0 + w1) == Err(IndexError)
  {
    assert w0 + t0 + w1 == w0 + (t0 + w1 + "");
    TokensSkipSpace(w0, t0 + w1 + "");
    if |w1| == 0 {
      TokensWord(t0, "", "");
    } else {
      TokensWord(t0, w1, "");
    }
    BlankTokens("");
  }

  /** `str(k)` is one token. */
  lemma IntToStringIsWord(k: int)
    ensures |IntToString(k)| > 0 && NoSpace(IntToString(k))
  {
    var n: nat := if k < 0 then -k else k;
    var d := NatToString(n);
    DigitsNoSpace(d);
    if k < 0 {
      var key := IntToString(k);
      assert key == "-" + d;
      assert forall i :: 1 <= i < |key| ==> key[i] == d[i - 1];
    }
  }

  /** A label file line written as `str(k) + " " + name + "\n"` is read back as `k -> name`. */
  lemma LineRoundTrip(k: int, name: string)
    requires |name| > 0 && NoSpace(name)
    ensures LineEntry(IntToString(k) + (" " + (name + "\n"))) == Ok((k, name))
  {
    var key := IntToString(k);
    IntToStringIsWord(k);
    IntRoundTrip(k);
    assert IsSpace("\n"[0]);
    FirstTwoTokens("", key, " ", name, "\n");
    assert "" + (key + (" " + (name + "\n"))) == key + (" " + (name + "\n"));
  }
}
