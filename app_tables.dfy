/**
 * The smaller pieces of app.py around the data frame: the cleaned table id and
 * the default collection name, the province-name normalisation that joins the
 * rows to the map (`Provinsi_Clean`), the validation table of `COLUMN_MAP`, and
 * the order of the columns shown in the data table.
 */
module AppTables {
  import opened Wrappers
  import opened PyStrings
  import opened PyJson
  import opened BpsRows

  // ------------------------------------------------------------ table id

  /** `BPS_ID_TABEL_TARGET` */
  const BpsIdTabelTarget: string := "TE9UUDFUV3Bpa3ovMHJJVGtuUHZVdz09"

  /** `BPS_TAHUN_TARGET` */
  const BpsTahunTarget: string := "2024"

  /** `s.replace('=', '').replace('/', '')`: the id as used in a collection name. */
  function CleanTableId(s: string): (r: string)
    ensures r == RemoveChar(RemoveChar(s, '='), '/')
    ensures Lacks(r, '=') && Lacks(r, '/')
  {
    ReplaceAllRemovesChar(s, '=');
    ReplaceAllRemovesChar(RemoveChar(s, '='), '/');
    RemoveCharLacks(RemoveChar(s, '='), '/');
    RemoveCharLacks(s, '=');
    RemoveKeepsLacks(RemoveChar(s, '='), '/', '=');
    ReplaceAll(ReplaceAll(s, "=", ""), "/", "")
  }

  /** Removing one character keeps another one absent. */
  lemma {:induction false} RemoveKeepsLacks(s: string, c: char, d: char)
    requires Lacks(s, d)
    ensures Lacks(RemoveChar(s, c), d)
  {
    if |s| > 0 {
      RemoveKeepsLacks(s[1..], c, d);
      LacksAppend(if s[0] == c then [] else [s[0]], RemoveChar(s[1..], c), d);
    }
  }

  /** An id that is already clean is left as it is. */
  lemma CleanTableIdPlain(s: string)
    requires Lacks(s, '=') && Lacks(s, '/')
    ensures CleanTableId(s) == s
  {
    RemoveAbsentChar(s, '=');
    RemoveAbsentChar(s, '/');
  }

  /** Cleaning twice is cleaning once. */
  lemma CleanTableIdIdempotent(s: string)
    ensures CleanTableId(CleanTableId(s)) == CleanTableId(s)
  {
    CleanTableIdPlain(CleanTableId(s));
  }

  /** `CLEANED_ID_TABEL_TARGET`: the target id has neither '=' nor '/', so it is unchanged. */
  lemma CleanedTarget(s: string)
    requires s == BpsIdTabelTarget
    ensures CleanTableId(s) == s
  {
    assert AllAlnum(s);
    AlnumLacks(s, '=');
    AlnumLacks(s, '/');
    CleanTableIdPlain(s);
  }

  predicate IsAlnum(c: char) {
    'A' <= c <= 'Z' || 'a' <= c <= 'z' || '0' <= c <= '9'
  }

  predicate AllAlnum(s: string) {
    forall i :: 0 <= i < |s| ==> IsAlnum(s[i])
  }

  /** A string of letters and digits has no other character. */
  lemma {:induction false} AlnumLacks(s: string, c: char)
    requires AllAlnum(s) && !IsAlnum(c)
    ensures Lacks(s, c)
  {
    if |s| > 0 {
      AlnumLacks(s[1..], c);
    }
  }

  /**
   * `MONGO_COLLECTION_NAME`: the environment variable when it is set, else
   * `data_bps_<cleaned id>_<year>` for the table id `id` and the year `year`.
   */
  function CollectionName(env: Option<string>, id: string, year: string): string {
    match env
    case Some(name) => name
    case None => "data_bps_" + CleanTableId(id) + "_" + year
  }

  /**
   * Without the environment variable the collection is `data_bps_<id>_<year>`
   * for an id that is already clean, as the target id is (`CleanedTarget`).
   */
  lemma DefaultCollectionName(id: string, year: string)
    requires Lacks(id, '=') && Lacks(id, '/')
    ensures CollectionName(None, id, year) == "data_bps_" + id + "_" + year
  {
    CleanTableIdPlain(id);
  }

  // ------------------------------------------------------------ Provinsi_Clean

  /**
   * `re.sub(head + r"\.\s", rep, s)`: every occurrence of `head`, a dot and one
   * whitespace character, scanning left to right, is replaced by `rep`.
   */
  function ReplaceDotSpace(s: string, head: string, rep: string): string {
    if |s| == 0 then []
    else if |head| + 2 <= |s| && head <= s && s[|head|] == '.' && IsSpace(s[|head| + 1]) then
      rep + ReplaceDotSpace(s[|head| + 2..], head, rep)
    else [s[0]] + ReplaceDotSpace(s[1..], head, rep)
  }

  /** The `Provinsi_Clean` column: upper case, prefixes dropped or spelled out, stripped. */
  function ProvinsiClean(prov: string): string {
    Strip(SpellOut(DropPrefixes(Upper(prov))))
  }

  /** The prefixes `DKI `, `DI ` and `DAERAH ISTIMEWA ` are removed, in that order. */
  function DropPrefixes(s: string): string {
    ReplaceAll(ReplaceAll(ReplaceAll(s, "DKI ", ""), "DI ", ""), "DAERAH ISTIMEWA ", "")
  }

  /** `KEP. `/`KEP ` become `KEPULAUAN `, then `PROP. `/`PROV ` become `PROVINSI `. */
  function SpellOut(s: string): string {
    var s4 := ReplaceDotSpace(s, "KEP", "KEPULAUAN ");
    var s5 := ReplaceAll(s4, "KEP ", "KEPULAUAN ");
    var s6 := ReplaceDotSpace(s5, "PROP", "PROVINSI ");
    ReplaceAll(s6, "PROV ", "PROVINSI ")
  }

  /** No lower-case ASCII letter. */
  predicate NoLower(s: string) {
    forall i :: 0 <= i < |s| ==> !('a' <= s[i] <= 'z')
  }

  lemma NoLowerAppend(a: string, b: string)
    requires NoLower(a) && NoLower(b)
    ensures NoLower(a + b)
  {
    assert forall i :: |a| <= i < |a + b| ==> (a + b)[i] == b[i - |a|];
  }

  lemma NoLowerSlice(s: string, i: nat, j: nat)
    requires NoLower(s) && i <= j <= |s|
    ensures NoLower(s[i..j])
  {
    assert forall k :: 0 <= k < j - i ==> s[i..j][k] == s[i + k];
  }

  /** `upper` leaves no lower-case ASCII letter. */
  lemma UpperNoLower(s: string)
    ensures NoLower(Upper(s))
  {
    UpperChars(s);
  }

  /** `replace` with an upper-case replacement keeps a string free of lower case. */
  lemma {:induction false} ReplaceAllNoLower(s: string, pat: string, rep: string)
    requires |pat| > 0 && NoLower(s) && NoLower(rep)
    ensures NoLower(ReplaceAll(s, pat, rep))
    decreases |s|
  {
    if |s| > 0 {
      if pat <= s {
        NoLowerSlice(s, |pat|, |s|);
        ReplaceAllNoLower(s[|pat|..], pat, rep);
        NoLowerAppend(rep, ReplaceAll(s[|pat|..], pat, rep));
      } else {
        NoLowerSlice(s, 1, |s|);
        ReplaceAllNoLower(s[1..], pat, rep);
        NoLowerAppend([s[0]], ReplaceAll(s[1..], pat, rep));
      }
    }
  }

  /** `re.sub` with an upper-case replacement keeps a string free of lower case. */
  lemma {:induction false} ReplaceDotSpaceNoLower(s: string, head: string, rep: string)
    requires NoLower(s) && NoLower(rep)
    ensures NoLower(ReplaceDotSpace(s, head, rep))
    decreases |s|
  {
    if |s| > 0 {
      if |head| + 2 <= |s| && head <= s && s[|head|] == '.' && IsSpace(s[|head| + 1]) {
        NoLowerSlice(s, |head| + 2, |s|);
        ReplaceDotSpaceNoLower(s[|head| + 2..], head, rep);
        NoLowerAppend(rep, ReplaceDotSpace(s[|head| + 2..], head, rep));
      } else {
        NoLowerSlice(s, 1, |s|);
        ReplaceDotSpaceNoLower(s[1..], head, rep);
        NoLowerAppend([s[0]], ReplaceDotSpace(s[1..], head, rep));
      }
    }
  }

  /** The three prefixes that are dropped keep a string free of lower case. */
  lemma DropsNoLower(s0: string)
    requires NoLower(s0)
    ensures NoLower(DropPrefixes(s0))
  {
    var s1 := ReplaceAll(s0, "DKI ", "");
    ReplaceAllNoLower(s0, "DKI ", "");
    var s2 := ReplaceAll(s1, "DI ", "");
    ReplaceAllNoLower(s1, "DI ", "");
    ReplaceAllNoLower(s2, "DAERAH ISTIMEWA ", "");
  }

  /** Spelling out the abbreviations, all upper case, keeps a string free of lower case. */
  lemma SpellOutNoLower(s3: string)
    requires NoLower(s3)
    ensures NoLower(SpellOut(s3))
  {
    var s4 := ReplaceDotSpace(s3, "KEP", "KEPULAUAN ");
    ReplaceDotSpaceNoLower(s3, "KEP", "KEPULAUAN ");
    var s5 := ReplaceAll(s4, "KEP ", "KEPULAUAN ");
    ReplaceAllNoLower(s4, "KEP ", "KEPULAUAN ");
    var s6 := ReplaceDotSpace(s5, "PROP", "PROVINSI ");
    ReplaceDotSpaceNoLower(s5, "PROP", "PROVINSI ");
    ReplaceAllNoLower(s6, "PROV ", "PROVINSI ");
  }

  /** `strip` keeps a string free of lower case. */
  lemma StripNoLower(s: string)
    requires NoLower(s)
    ensures NoLower(Strip(s))
  {
    var l := LStrip(s);
    NoLowerSlice(s, |s| - |l|, |s|);
    NoLowerSlice(l, 0, |RStrip(l)|);
  }

  /**
   * A cleaned name has no lower-case ASCII letter and no leading or trailing
   * whitespace, so it can be matched against the upper-case map names.
   */
  lemma ProvinsiCleanShape(prov: string)
    ensures NoLower(ProvinsiClean(prov))
    ensures var r := ProvinsiClean(prov); |r| == 0 || (!IsSpace(r[0]) && !IsSpace(r[|r| - 1]))
  {
    var u := Upper(prov);
    var d := DropPrefixes(u);
    var o := SpellOut(d);
    assert NoLower(Strip(o)) by {
      UpperNoLower(prov);
      DropsNoLower(u);
      SpellOutNoLower(d);
      StripNoLower(o);
    }
    assert ProvinsiClean(prov) == Strip(o);
  }

  /** `upper` works piece by piece. */
  lemma {:induction false} UpperAppend(a: string, b: string)
    ensures Upper(a + b) == Upper(a) + Upper(b)
  {
    if |a| > 0 {
      assert (a + b)[0] == a[0] && (a + b)[1..] == a[1..] + b;
      UpperAppend(a[1..], b);
      assert Upper(a) == [UpperChar(a[0])] + Upper(a[1..]);
      assert Upper(a + b) == [UpperChar(a[0])] + (Upper(a[1..]) + Upper(b));
    } else {
      assert a + b == b;
    }
  }

  /** Upper-casing twice is upper-casing once. */
  lemma {:induction false} UpperTwice(s: string)
    ensures Upper(Upper(s)) == Upper(s)
  {
    if |s| > 0 {
      UpperTwice(s[1..]);
    }
  }

  /** The normalisation ignores ASCII case. */
  lemma ProvinsiCleanIgnoresCase(prov: string)
    ensures ProvinsiClean(Upper(prov)) == ProvinsiClean(prov)
  {
    UpperTwice(prov);
  }

  /** `replace` drops an occurrence at the very start. */
  lemma ReplaceAtStart(pat: string, u: string)
    requires |pat| > 0
    ensures ReplaceAll(pat + u, pat, "") == ReplaceAll(u, pat, "")
  {
    assert pat <= pat + u;
    assert (pat + u)[|pat|..] == u;
  }

  /** A leading "DKI " in any case is dropped: "DKI Jakarta" and "Jakarta" are the same province. */
  lemma DkiDropped(p: string, t: string)
    requires Upper(p) == "DKI "
    ensures ProvinsiClean(p + t) == ProvinsiClean(t)
  {
    UpperAppend(p, t);
    ReplaceAtStart("DKI ", Upper(t));
  }

  /** A leading "DI " in any case is dropped: "DI Yogyakarta" and "Yogyakarta" are the same province. */
  lemma DiDropped(p: string, t: string)
    requires Upper(p) == "DI "
    ensures ProvinsiClean(p + t) == ProvinsiClean(t)
  {
    UpperAppend(p, t);
    DiSurvivesDki(Upper(t));
    ReplaceAtStart("DI ", ReplaceAll(Upper(t), "DKI ", ""));
  }

  /** "DI " is not touched by the removal of "DKI ". */
  lemma DiSurvivesDki(u: string)
    ensures ReplaceAll("DI " + u, "DKI ", "") == "DI " + ReplaceAll(u, "DKI ", "")
  {
    var s := "DI " + u;
    assert !("DKI " <= s) by { assert s[1] == 'I'; }
    assert !("DKI " <= s[1..]) by { assert s[1..][0] == 'I'; }
    assert !("DKI " <= s[2..]) by { assert s[2..][0] == ' '; }
    assert s[1..][1..] == s[2..] && s[2..][1..] == u;
    assert ReplaceAll(s[2..], "DKI ", "") == [' '] + ReplaceAll(u, "DKI ", "");
    assert ReplaceAll(s[1..], "DKI ", "") == ['I'] + ReplaceAll(s[2..], "DKI ", "");
    assert ReplaceAll(s, "DKI ", "") == ['D'] + ReplaceAll(s[1..], "DKI ", "");
  }

  // ------------------------------------------------------------ COLUMN_MAP validation

  /** The three statuses of the validation table. */
  datatype Status = Found | NotInProvinceData | NotInApi

  /** One line of the validation table. */
  datatype Check = Check(id: string, colName: string, status: Status, apiName: Value)

  /**
   * `scraped_var_defs`: the `kolom` dict of the stored table metadata, or None
   * when the metadata is not a dict, has no `kolom`, or `kolom` is not a dict.
   */
  function VarDefs(meta: Value): Option<map<string, Value>> {
    match meta
    case Dict(m) =>
      if "kolom" in m && m["kolom"].Dict? then Some(m["kolom"].fields) else None
    case _ => None
  }

  /** `scraped_var_defs and app_id_var in scraped_var_defs`: an empty dict is false. */
  predicate Defined(defs: Option<map<string, Value>>, id: string) {
    defs.Some? && |defs.value| > 0 && id in defs.value
  }

  /** `api_def.get("nama_variabel", default)`: only a dict has `.get`. */
  function ApiName(def: Value): Result<Value, PyError> {
    match def
    case Dict(d) => Ok(if "nama_variabel" in d then d["nama_variabel"] else Str("Nama variabel tidak ada di API def"))
    case _ => Err(AttributeError)
  }

  /** The line for the column `c`. */
  function CheckOf(c: Column, defs: Option<map<string, Value>>, missing: map<string, Miss>): Result<Check, PyError> {
    if Defined(defs, c.id) then
      match ApiName(defs.value[c.id])
      case Err(e) => Err(e)
      case Ok(name) => Ok(Check(c.id, c.name, Found, name))
    else if c.id in missing then Ok(Check(c.id, c.name, NotInProvinceData, Str("N/A")))
    else Ok(Check(c.id, c.name, NotInApi, Str("N/A")))
  }

  /** The validation table for the columns `cols`; the first AttributeError ends it. */
  function Checks(cols: seq<Column>, defs: Option<map<string, Value>>, missing: map<string, Miss>): Result<seq<Check>, PyError> {
    if |cols| == 0 then Ok([])
    else match Checks(cols[..|cols| - 1], defs, missing)
      case Err(e) => Err(e)
      case Ok(rows) =>
        match CheckOf(cols[|cols| - 1], defs, missing)
        case Err(e) => Err(e)
        case Ok(line) => Ok(rows + [line])
  }

  /** The loop that fills `validation_data`. */
  method ValidationTable(cols: seq<Column>, defs: Option<map<string, Value>>, missing: map<string, Miss>)
    returns (r: Result<seq<Check>, PyError>)
    ensures r == Checks(cols, defs, missing)
  {
    var rows: seq<Check> := [];
    var i := 0;
    while i < |cols|
      invariant 0 <= i <= |cols|
      invariant Checks(cols[..i], defs, missing) == Ok(rows)
    {
      assert cols[..i + 1][..i] == cols[..i];
      var c := cols[i];
      var status := NotInApi;
      var apiName := Str("N/A");
      if defs.Some? && |defs.value| > 0 && c.id in defs.value {
        status := Found;
        match defs.value[c.id] {
          case Dict(d) =>
            apiName := if "nama_variabel" in d then d["nama_variabel"] else Str("Nama variabel tidak ada di API def");
          case _ =>
            ChecksErrorStays(cols, defs, missing, i + 1, AttributeError);
            return Err(AttributeError);
        }
      } else if c.id in missing {
        status := NotInProvinceData;
      }
      rows := rows + [Check(c.id, c.name, status, apiName)];
      i := i + 1;
    }
    assert cols[..|cols|] == cols;
    return Ok(rows);
  }

  /** Once a prefix of the columns raises, so does the whole table. */
  lemma {:induction false} ChecksErrorStays(cols: seq<Column>, defs: Option<map<string, Value>>, missing: map<string, Miss>, n: nat, e: PyError)
    requires n <= |cols| && Checks(cols[..n], defs, missing) == Err(e)
    ensures Checks(cols, defs, missing) == Err(e)
    decreases |cols| - n
  {
    if n < |cols| {
      assert cols[..n + 1][..n] == cols[..n];
      ChecksErrorStays(cols, defs, missing, n + 1, e);
    } else {
      assert cols[..n] == cols;
    }
  }

  /** The status of a column: found in the API definitions, else missing from the province data, else not found. */
  lemma StatusOf(c: Column, defs: Option<map<string, Value>>, missing: map<string, Miss>)
    requires CheckOf(c, defs, missing).Ok?
    ensures var line := CheckOf(c, defs, missing).value;
      line.id == c.id && line.colName == c.name &&
      (line.status == Found <==> Defined(defs, c.id)) &&
      (line.status == NotInProvinceData <==> !Defined(defs, c.id) && c.id in missing) &&
      (line.status == NotInApi <==> !Defined(defs, c.id) && c.id !in missing) &&
      (line.status != Found ==> line.apiName == Str("N/A"))
  {
  }

  /** The table has one line per column, in the map's order; it raises exactly when a found definition is no dict. */
  lemma {:induction false} ChecksLines(cols: seq<Column>, defs: Option<map<string, Value>>, missing: map<string, Miss>)
    ensures Checks(cols, defs, missing).Ok? <==>
      forall i :: 0 <= i < |cols| ==> CheckOf(cols[i], defs, missing).Ok?
    ensures Checks(cols, defs, missing).Ok? ==>
      |Checks(cols, defs, missing).value| == |cols| &&
      forall i :: 0 <= i < |cols| ==> Checks(cols, defs, missing).value[i] == CheckOf(cols[i], defs, missing).value
  {
    if |cols| > 0 {
      var p := cols[..|cols| - 1];
      ChecksLines(p, defs, missing);
      assert forall i :: 0 <= i < |p| ==> p[i] == cols[i];
    }
  }

  /** When the metadata has no usable `kolom`, no column counts as found. */
  lemma NoDefsNoneFound(c: Column, meta: Value, missing: map<string, Miss>)
    requires VarDefs(meta).None? || VarDefs(meta) == Some(map[])
    ensures CheckOf(c, VarDefs(meta), missing).Ok?
    ensures CheckOf(c, VarDefs(meta), missing).value.status != Found
  {
  }

  /** A found definition that is not a dict makes `.get` raise. */
  lemma DefinitionNotDict(c: Column, defs: Option<map<string, Value>>, missing: map<string, Miss>)
    requires Defined(defs, c.id) && !defs.value[c.id].Dict?
    ensures CheckOf(c, defs, missing) == Err(AttributeError)
  {
  }

  // ------------------------------------------------------------ display columns

  /** `sorted`'s order on strings: code point by code point, a proper prefix first. */
  predicate Less(a: string, b: string) {
    if |a| == 0 then |b| > 0
    else |b| > 0 && (a[0] < b[0] || (a[0] == b[0] && Less(a[1..], b[1..])))
  }

  /** Two different strings are ordered one way or the other. */
  lemma {:induction false} LessTotal(a: string, b: string)
    requires a != b
    ensures Less(a, b) || Less(b, a)
  {
    if |a| > 0 && |b| > 0 && a[0] == b[0] {
      assert a == [a[0]] + a[1..] && b == [b[0]] + b[1..];
      LessTotal(a[1..], b[1..]);
    }
  }

  /** Strictly increasing. */
  predicate Sorted(s: seq<string>) {
    forall i :: 0 < i < |s| ==> Less(s[i - 1], s[i])
  }

  /** No string twice. */
  predicate Distinct(s: seq<string>) {
    forall i, j :: 0 <= i < j < |s| ==> s[i] != s[j]
  }

  /** `x` put into its place in a sorted sequence. */
  function Insert(x: string, s: seq<string>): (r: seq<string>)
    ensures |r| == |s| + 1
    ensures r[0] == x || (|s| > 0 && r[0] == s[0])
    ensures forall y :: y in r <==> y == x || y in s
  {
    if |s| == 0 then [x]
    else if Less(x, s[0]) then [x] + s
    else [s[0]] + Insert(x, s[1..])
  }

  lemma {:induction false} InsertSorted(x: string, s: seq<string>)
    requires Sorted(s) && x !in s
    ensures Sorted(Insert(x, s))
  {
    if |s| > 0 && !Less(x, s[0]) {
      assert Sorted(s[1..]) by {
        assert forall i :: 0 < i < |s| - 1 ==> s[1..][i - 1] == s[i] && s[1..][i] == s[i + 1];
      }
      InsertSorted(x, s[1..]);
      LessTotal(x, s[0]);
      var r := Insert(x, s);
      var t := Insert(x, s[1..]);
      assert r == [s[0]] + t;
      assert forall i :: 0 <= i < |t| ==> r[i + 1] == t[i];
    }
  }

  /** `sorted(set(xs))` */
  function SortedSet(xs: seq<string>): seq<string> {
    if |xs| == 0 then []
    else
      var s := SortedSet(xs[..|xs| - 1]);
      var x := xs[|xs| - 1];
      if x in s then s else Insert(x, s)
  }

  /** `sorted(set(xs))` holds each string of `xs` once, in increasing order. */
  lemma {:induction false} SortedSetSpec(xs: seq<string>)
    ensures Sorted(SortedSet(xs)) && Distinct(SortedSet(xs))
    ensures forall y :: y in SortedSet(xs) <==> y in xs
  {
    if |xs| > 0 {
      var p := xs[..|xs| - 1];
      SortedSetSpec(p);
      var s := SortedSet(p);
      var x := xs[|xs| - 1];
      assert xs == p + [x];
      if x !in s {
        InsertSorted(x, s);
        InsertDistinct(x, s);
      }
    }
  }

  lemma {:induction false} InsertDistinct(x: string, s: seq<string>)
    requires Distinct(s) && x !in s
    ensures Distinct(Insert(x, s))
  {
    if |s| > 0 && !Less(x, s[0]) {
      var t := s[1..];
      assert Distinct(t) by {
        assert forall i :: 0 <= i < |t| ==> t[i] == s[i + 1];
      }
      InsertDistinct(x, t);
      assert s[0] !in t by {
        assert forall i :: 0 <= i < |t| ==> t[i] == s[i + 1];
      }
      var r := Insert(x, s);
      var u := Insert(x, t);
      assert r == [s[0]] + u;
      assert forall i :: 0 <= i < |u| ==> r[i + 1] == u[i];
    }
  }

  /** `rasio_lp_col, rasio_pp_col` */
  const RatioCols: seq<string> := ["Rasio Lowongan/Pencari", "Rasio Penempatan/Pencari"]

  /** The strings of `xs` that are nonempty and in `keep`, in order. */
  function Filter(xs: seq<string>, keep: set<string>): (r: seq<string>)
    ensures forall y :: y in r <==> y in xs && y != "" && y in keep
  {
    if |xs| == 0 then []
    else Filter(xs[..|xs| - 1], keep) + (var x := xs[|xs| - 1]; if x != "" && x in keep then [x] else [])
  }

  /**
   * `display_order_cols`: "Provinsi", the map's columns that the frame holds as
   * numbers, then the ratio columns that it holds as numbers, sorted.
   */
  function DisplayOrder(cols: seq<Column>, frame: set<string>, numeric: set<string>): seq<string> {
    ["Provinsi"] + Filter(ColumnNames(cols), frame * numeric) + SortedSet(Filter(RatioCols, frame * numeric))
  }

  /** The names of the columns, in the map's order. */
  function ColumnNames(cols: seq<Column>): seq<string> {
    if |cols| == 0 then [] else ColumnNames(cols[..|cols| - 1]) + [cols[|cols| - 1].name]
  }

  /** `cols_to_display_in_table` after the loop has looked at `order`. */
  function Dedup(order: seq<string>, frame: set<string>): seq<string> {
    if |order| == 0 then []
    else
      var kept := Dedup(order[..|order| - 1], frame);
      var col := order[|order| - 1];
      if col != "" && col !in kept && col in frame then kept + [col] else kept
  }

  /** The loop that fills `cols_to_display_in_table`. */
  method DisplayColumns(order: seq<string>, frame: set<string>) returns (kept: seq<string>)
    ensures kept == Dedup(order, frame)
  {
    kept := [];
    var i := 0;
    while i < |order|
      invariant 0 <= i <= |order|
      invariant kept == Dedup(order[..i], frame)
    {
      assert order[..i + 1][..i] == order[..i];
      var col := order[i];
      if col != "" && col !in kept && col in frame {
        kept := kept + [col];
      }
      i := i + 1;
    }
    assert order[..|order|] == order;
  }

  /** The shown columns are the nonempty ones of the order that the frame has, each once. */
  lemma {:induction false} DedupSpec(order: seq<string>, frame: set<string>)
    ensures Distinct(Dedup(order, frame))
    ensures forall x :: x in Dedup(order, frame) <==> x in order && x != "" && x in frame
  {
    if |order| > 0 {
      var p := order[..|order| - 1];
      DedupSpec(p, frame);
      assert order == p + [order[|order| - 1]];
    }
  }

  /** Looking at more of the order only adds columns at the end: columns appear in order of first occurrence. */
  lemma {:induction false} DedupPrefix(order: seq<string>, frame: set<string>, n: nat)
    requires n <= |order|
    ensures Dedup(order[..n], frame) <= Dedup(order, frame)
    decreases |order| - n
  {
    if n < |order| {
      assert order[..n + 1][..n] == order[..n];
      DedupPrefix(order, frame, n + 1);
    } else {
      assert order[..n] == order;
    }
  }

  /** "Provinsi" comes first whenever the frame has it. */
  lemma ProvinsiShownFirst(cols: seq<Column>, frame: set<string>, numeric: set<string>)
    requires "Provinsi" in frame
    ensures var shown := Dedup(DisplayOrder(cols, frame, numeric), frame); |shown| > 0 && shown[0] == "Provinsi"
  {
    var order := DisplayOrder(cols, frame, numeric);
    DedupPrefix(order, frame, 1);
    assert order[..1] == ["Provinsi"];
    assert Dedup(order[..1][..0], frame) == [];
  }

  /**
   * The table shows, each once, "Provinsi" and the map's and ratio columns that
   * the frame holds as numbers, and nothing else.
   */
  lemma DisplayedColumns(cols: seq<Column>, frame: set<string>, numeric: set<string>, x: string)
    ensures x in Dedup(DisplayOrder(cols, frame, numeric), frame) <==>
      x in frame && (x == "Provinsi" || (x != "" && x in numeric && (x in ColumnNames(cols) || x in RatioCols)))
  {
    var order := DisplayOrder(cols, frame, numeric);
    DedupSpec(order, frame);
    SortedSetSpec(Filter(RatioCols, frame * numeric));
    assert x in order <==> x == "Provinsi" || x in Filter(ColumnNames(cols), frame * numeric) || x in SortedSet(Filter(RatioCols, frame * numeric));
  }
}
