/**
 * What `create_dataframe_from_bps_data` (app.py) promises about its three
 * results, proved about the walk `BpsRows.Walk` over the records as the loop
 * sees them: which records raise, which give rows, what each row holds, how
 * `missing_keys` counts, and which records leave a debug entry.
 */
module BpsRowsFacts {
  import opened Wrappers
  import opened PyStrings
  import opened PyJson
  import opened BpsParse
  import opened BpsRows

  // ------------------------------------------------------------ reference definitions

  /** The position of the first record that raises, if any. */
  function FirstFailed(vs: seq<View>): (r: Option<nat>)
    ensures r.Some? ==> r.value < |vs| && vs[r.value].Failed?
  {
    if |vs| == 0 then None
    else match FirstFailed(vs[..|vs| - 1])
      case Some(i) => Some(i)
      case None => if vs[|vs| - 1].Failed? then Some(|vs| - 1) else None
  }

  /** The positions of the records that give a row, in input order. */
  function Kept(vs: seq<View>): (ks: seq<nat>)
    ensures |ks| <= |vs|
  {
    if |vs| == 0 then []
    else Kept(vs[..|vs| - 1]) + (if vs[|vs| - 1].Province? then [|vs| - 1] else [])
  }

  /** How many of the records that give a row lack `id` (absent or None). */
  function Absences(vs: seq<View>, id: string): nat {
    if |vs| == 0 then 0
    else
      var v := vs[|vs| - 1];
      Absences(vs[..|vs| - 1], id) + (if v.Province? && !Present(v.vars, id) then 1 else 0)
  }

  /** The `miss_count` of `id`, 0 where `missing_keys` has no entry. */
  function MissCount(m: map<string, Miss>, id: string): nat {
    if id in m then m[id].missCount else 0
  }

  /** Every entry of `missing_keys` was created by a miss. */
  predicate Positive(m: map<string, Miss>) {
    forall id :: id in m ==> m[id].missCount >= 1
  }

  /** The debug record of a province record. */
  function DebugOf(v: View, cols: seq<Column>, parse: Value -> real): DebugItem
    requires v.Province?
  {
    DebugItem(v.prov, v.vars.Keys, DebugCells(v.vars, cols, parse))
  }

  // ------------------------------------------------------------ the first exception

  /** Every record before the first failing one is handled without raising. */
  lemma {:induction false} FirstFailedIsFirst(vs: seq<View>)
    ensures FirstFailed(vs).None? ==> forall j :: 0 <= j < |vs| ==> !vs[j].Failed?
    ensures FirstFailed(vs).Some? ==> forall j :: 0 <= j < FirstFailed(vs).value ==> !vs[j].Failed?
  {
    if |vs| > 0 {
      var p := vs[..|vs| - 1];
      FirstFailedIsFirst(p);
      assert forall j :: 0 <= j < |p| ==> p[j] == vs[j];
    }
  }

  /** The walk raises exactly when some record fails, and with that first record's exception. */
  lemma {:induction false} WalkFails(vs: seq<View>, cols: seq<Column>, parse: Value -> real)
    ensures Walk(vs, cols, parse).Err? <==> FirstFailed(vs).Some?
    ensures FirstFailed(vs).Some? ==> Walk(vs, cols, parse) == Err(vs[FirstFailed(vs).value].error)
  {
    if |vs| > 0 {
      var p := vs[..|vs| - 1];
      WalkFails(p, cols, parse);
      if FirstFailed(p).Some? {
        assert p[FirstFailed(p).value] == vs[FirstFailed(p).value];
      }
    }
  }

  /** A walk that does not raise ends in a frame. */
  lemma WalkOk(vs: seq<View>, cols: seq<Column>, parse: Value -> real)
    ensures Walk(vs, cols, parse).Ok? <==> forall j :: 0 <= j < |vs| ==> !vs[j].Failed?
  {
    WalkFails(vs, cols, parse);
    FirstFailedIsFirst(vs);
  }

  // ------------------------------------------------------------ kept positions

  /** The kept positions are positions of province records. */
  lemma {:induction false} KeptAreProvinces(vs: seq<View>)
    ensures forall k :: 0 <= k < |Kept(vs)| ==> Kept(vs)[k] < |vs| && vs[Kept(vs)[k]].Province?
  {
    if |vs| > 0 {
      var p := vs[..|vs| - 1];
      KeptAreProvinces(p);
      forall k | 0 <= k < |Kept(vs)|
        ensures Kept(vs)[k] < |vs| && vs[Kept(vs)[k]].Province?
      {
        if k < |Kept(p)| {
          assert Kept(vs)[k] == Kept(p)[k];
          assert p[Kept(p)[k]] == vs[Kept(p)[k]];
        }
      }
    }
  }

  /** The kept positions increase: rows come in input order. */
  lemma {:induction false} KeptIncrease(vs: seq<View>)
    ensures forall k, l :: 0 <= k < l < |Kept(vs)| ==> Kept(vs)[k] < Kept(vs)[l]
    ensures forall k :: 0 <= k < |Kept(vs)| ==> k <= Kept(vs)[k] < |vs|
  {
    if |vs| > 0 {
      var p := vs[..|vs| - 1];
      KeptIncrease(p);
      assert forall k :: 0 <= k < |Kept(p)| ==> Kept(vs)[k] == Kept(p)[k];
    }
  }

  /** Every province record is kept. */
  lemma {:induction false} ProvincesAreKept(vs: seq<View>, i: nat)
    requires i < |vs| && vs[i].Province?
    ensures exists k :: 0 <= k < |Kept(vs)| && Kept(vs)[k] == i
  {
    var p := vs[..|vs| - 1];
    if i == |vs| - 1 {
      assert Kept(vs)[|Kept(p)|] == i;
    } else {
      assert p[i] == vs[i];
      ProvincesAreKept(p, i);
      var k :| 0 <= k < |Kept(p)| && Kept(p)[k] == i;
      assert Kept(vs)[k] == i;
    }
  }

  // ------------------------------------------------------------ rows

  /** One row per kept record, in order, built from that record. */
  lemma {:induction false} WalkRows(vs: seq<View>, cols: seq<Column>, parse: Value -> real)
    requires Walk(vs, cols, parse).Ok?
    ensures |Walk(vs, cols, parse).value.rows| == |Kept(vs)|
    ensures forall k :: 0 <= k < |Kept(vs)| ==>
      Kept(vs)[k] < |vs| && vs[Kept(vs)[k]].Province? &&
      Walk(vs, cols, parse).value.rows[k] == RowOf(vs[Kept(vs)[k]].prov, vs[Kept(vs)[k]].vars, cols, parse)
  {
    KeptAreProvinces(vs);
    if |vs| > 0 {
      var p := vs[..|vs| - 1];
      WalkRows(p, cols, parse);
      KeptAreProvinces(p);
      var f := Walk(p, cols, parse).value;
      forall k | 0 <= k < |Kept(p)|
        ensures Walk(vs, cols, parse).value.rows[k] == RowOf(vs[Kept(vs)[k]].prov, vs[Kept(vs)[k]].vars, cols, parse)
      {
        assert Kept(vs)[k] == Kept(p)[k];
        assert p[Kept(p)[k]] == vs[Kept(p)[k]];
        assert Walk(vs, cols, parse).value.rows[k] == f.rows[k];
      }
    }
  }

  // ------------------------------------------------------------ debug records

  /** The kept records at positions 0, 1 and 2 leave a debug record, the others do not. */
  lemma {:induction false} WalkDebugCount(vs: seq<View>, cols: seq<Column>, parse: Value -> real)
    requires Walk(vs, cols, parse).Ok?
    ensures |Walk(vs, cols, parse).value.debug| <= |Kept(vs)|
    ensures forall k :: 0 <= k < |Kept(vs)| ==> (k < |Walk(vs, cols, parse).value.debug| <==> Kept(vs)[k] < 3)
  {
    if |vs| > 0 {
      var p := vs[..|vs| - 1];
      WalkDebugCount(p, cols, parse);
      KeptIncrease(p);
      assert forall k :: 0 <= k < |Kept(p)| ==> Kept(vs)[k] == Kept(p)[k];
    }
  }

  /** Each debug record is that of the kept record at the same place. */
  lemma {:induction false} WalkDebug(vs: seq<View>, cols: seq<Column>, parse: Value -> real)
    requires Walk(vs, cols, parse).Ok?
    ensures |Walk(vs, cols, parse).value.debug| <= |Kept(vs)|
    ensures forall k :: 0 <= k < |Walk(vs, cols, parse).value.debug| ==>
      Kept(vs)[k] < |vs| && vs[Kept(vs)[k]].Province? &&
      Walk(vs, cols, parse).value.debug[k] == DebugOf(vs[Kept(vs)[k]], cols, parse)
  {
    WalkDebugCount(vs, cols, parse);
    KeptAreProvinces(vs);
    if |vs| > 0 {
      var p := vs[..|vs| - 1];
      WalkDebug(p, cols, parse);
      KeptAreProvinces(p);
      var f := Walk(p, cols, parse).value;
      var g := Walk(vs, cols, parse).value;
      forall k | 0 <= k < |g.debug|
        ensures g.debug[k] == DebugOf(vs[Kept(vs)[k]], cols, parse)
      {
        if k < |f.debug| {
          assert Kept(vs)[k] == Kept(p)[k];
          assert p[Kept(p)[k]] == vs[Kept(p)[k]];
          assert g.debug[k] == f.debug[k];
        }
      }
    }
  }

  /** At most three debug records. */
  lemma AtMostThreeDebug(vs: seq<View>, cols: seq<Column>, parse: Value -> real)
    requires Walk(vs, cols, parse).Ok?
    ensures |Walk(vs, cols, parse).value.debug| <= 3
  {
    WalkDebugCount(vs, cols, parse);
    KeptIncrease(vs);
  }

  // ------------------------------------------------------------ missing_keys

  /** A variable id is in `Ids(cols)` exactly when some column has it. */
  lemma {:induction false} IdsMember(cols: seq<Column>, id: string)
    ensures id in Ids(cols) <==> exists i :: 0 <= i < |cols| && cols[i].id == id
  {
    if |cols| > 0 {
      var p := cols[..|cols| - 1];
      IdsMember(p, id);
      if id in Ids(p) {
        var i :| 0 <= i < |p| && p[i].id == id;
        assert cols[i].id == id;
      }
      if exists i :: 0 <= i < |cols| && cols[i].id == id {
        var i :| 0 <= i < |cols| && cols[i].id == id;
        if i < |p| {
          assert p[i].id == id;
        }
      }
    }
  }

  /** With distinct ids, the last column's id is not among the earlier ones. */
  lemma LastIdIsNew(cols: seq<Column>)
    requires |cols| > 0 && DistinctIds(cols)
    ensures cols[|cols| - 1].id !in Ids(cols[..|cols| - 1])
    ensures DistinctIds(cols[..|cols| - 1])
  {
    var p := cols[..|cols| - 1];
    IdsMember(p, cols[|cols| - 1].id);
  }

  /** The name `NameOf` gives is the name of the column that has the id. */
  lemma NameOfLast(cols: seq<Column>)
    requires |cols| > 0
    ensures NameOf(cols, cols[|cols| - 1].id) == cols[|cols| - 1].name
  {
  }

  /**
   * After one record's lookups, every id of the map that the record lacks has
   * one more miss and every other count is unchanged.
   */
  lemma {:induction false} CountMissesCounts(m: map<string, Miss>, vars: map<string, Value>, cols: seq<Column>)
    requires DistinctIds(cols)
    ensures forall id ::
      MissCount(CountMisses(m, vars, cols), id) == MissCount(m, id) + (if id in Ids(cols) && !Present(vars, id) then 1 else 0)
  {
    if |cols| > 0 {
      var p := cols[..|cols| - 1];
      LastIdIsNew(cols);
      CountMissesCounts(m, vars, p);
    }
  }

  /**
   * After one record's lookups, `missing_keys` has an entry for an id exactly
   * when it had one before or the record lacks an id of the map; a new entry
   * carries the column of its id, old entries keep theirs, and every count is
   * at least one.
   */
  lemma {:induction false} CountMissesEntries(m: map<string, Miss>, vars: map<string, Value>, cols: seq<Column>)
    requires DistinctIds(cols) && Positive(m)
    ensures forall id :: id in CountMisses(m, vars, cols) <==> id in m || (id in Ids(cols) && !Present(vars, id))
    ensures forall id :: id in m ==> CountMisses(m, vars, cols)[id].colName == m[id].colName
    ensures forall id :: id in CountMisses(m, vars, cols) && id !in m ==> CountMisses(m, vars, cols)[id].colName == NameOf(cols, id)
    ensures Positive(CountMisses(m, vars, cols))
  {
    if |cols| > 0 {
      var p := cols[..|cols| - 1];
      LastIdIsNew(cols);
      CountMissesEntries(m, vars, p);
    }
  }

  /** Over the walk, `missing_keys[id]` counts the kept records that lack `id`. */
  lemma {:induction false} WalkMissCounts(vs: seq<View>, cols: seq<Column>, parse: Value -> real)
    requires DistinctIds(cols) && Walk(vs, cols, parse).Ok?
    ensures forall id ::
      MissCount(Walk(vs, cols, parse).value.missing, id) == (if id in Ids(cols) then Absences(vs, id) else 0)
  {
    if |vs| > 0 {
      var p := vs[..|vs| - 1];
      WalkMissCounts(p, cols, parse);
      var v := vs[|vs| - 1];
      if v.Province? {
        CountMissesCounts(Walk(p, cols, parse).value.missing, v.vars, cols);
      }
    }
  }

  /**
   * Over the walk, `missing_keys` has an entry exactly for the ids of the map
   * that some kept record lacks, each with its own column name.
   */
  lemma {:induction false} WalkMissEntries(vs: seq<View>, cols: seq<Column>, parse: Value -> real)
    requires DistinctIds(cols) && Walk(vs, cols, parse).Ok?
    ensures Positive(Walk(vs, cols, parse).value.missing)
    ensures forall id :: id in Walk(vs, cols, parse).value.missing ==>
      id in Ids(cols) && Walk(vs, cols, parse).value.missing[id].colName == NameOf(cols, id)
  {
    if |vs| > 0 {
      var p := vs[..|vs| - 1];
      WalkMissEntries(p, cols, parse);
      var v := vs[|vs| - 1];
      if v.Province? {
        CountMissesEntries(Walk(p, cols, parse).value.missing, v.vars, cols);
      }
    }
  }

  /** An id is in `missing_keys` exactly when it is an id of the map and some kept record lacks it. */
  lemma MissingExactly(vs: seq<View>, cols: seq<Column>, parse: Value -> real, id: string)
    requires DistinctIds(cols) && Walk(vs, cols, parse).Ok?
    ensures id in Walk(vs, cols, parse).value.missing <==> id in Ids(cols) && Absences(vs, id) > 0
  {
    WalkMissCounts(vs, cols, parse);
    WalkMissEntries(vs, cols, parse);
    assert MissCount(Walk(vs, cols, parse).value.missing, id) == if id in Ids(cols) then Absences(vs, id) else 0;
  }

  // ------------------------------------------------------------ one row

  /** A column name is in `Names(cols)` exactly when some column has it. */
  lemma {:induction false} NamesMember(cols: seq<Column>, name: string)
    ensures name in Names(cols) <==> exists i :: 0 <= i < |cols| && cols[i].name == name
  {
    if |cols| > 0 {
      var p := cols[..|cols| - 1];
      NamesMember(p, name);
      if name in Names(p) {
        var i :| 0 <= i < |p| && p[i].name == name;
        assert cols[i].name == name;
      }
      if exists i :: 0 <= i < |cols| && cols[i].name == name {
        var i :| 0 <= i < |cols| && cols[i].name == name;
        if i < |p| {
          assert p[i].name == name;
        }
      }
    }
  }

  /**
   * A row holds "Provinsi" with the label and one number per column of the map:
   * 0.0 for an id the record lacks, else the parsed value object.
   */
  lemma {:induction false} RowContents(prov: string, vars: map<string, Value>, cols: seq<Column>, parse: Value -> real)
    requires DistinctNames(cols)
    ensures RowOf(prov, vars, cols, parse).Keys == {"Provinsi"} + Names(cols)
    ensures RowOf(prov, vars, cols, parse)["Provinsi"] == Text(prov)
    ensures forall i :: 0 <= i < |cols| ==>
      cols[i].name in RowOf(prov, vars, cols, parse) && RowOf(prov, vars, cols, parse)[cols[i].name] == Num(CellValue(vars, cols[i].id, parse))
  {
    if |cols| > 0 {
      var p := cols[..|cols| - 1];
      var c := cols[|cols| - 1];
      assert DistinctNames(p) by {
        assert forall i :: 0 <= i < |p| ==> p[i] == cols[i];
      }
      RowContents(prov, vars, p, parse);
      forall i | 0 <= i < |cols|
        ensures cols[i].name in RowOf(prov, vars, cols, parse) && RowOf(prov, vars, cols, parse)[cols[i].name] == Num(CellValue(vars, cols[i].id, parse))
      {
        if i < |p| {
          assert p[i] == cols[i];
        }
      }
    }
  }

  /** A column whose id the record lacks holds 0.0. */
  lemma AbsentIsZero(prov: string, vars: map<string, Value>, cols: seq<Column>, parse: Value -> real, i: nat)
    requires DistinctNames(cols) && i < |cols| && !Present(vars, cols[i].id)
    ensures cols[i].name in RowOf(prov, vars, cols, parse) && RowOf(prov, vars, cols, parse)[cols[i].name] == Num(0.0)
  {
    RowContents(prov, vars, cols, parse);
  }

  /** `COLUMN_MAP` has distinct ids, as the keys of a dict do. */
  lemma ColumnMapIds()
    ensures DistinctIds(ColumnMap)
  {
  }

  /** `COLUMN_MAP` has distinct names, none of them "Provinsi". */
  lemma ColumnMapNames()
    ensures DistinctNames(ColumnMap)
  {
  }

  // ------------------------------------------------------------ records

  /** Only AttributeError can end the walk: `.get`, `.strip` or `.keys` on the wrong type. */
  lemma OnlyAttributeError(rec: Value, idx: nat)
    ensures ViewOf(rec, idx).Failed? ==> ViewOf(rec, idx).error == AttributeError
  {
  }

  /** A record without a label is a province: its default label is never the national one. */
  lemma {:induction false} DefaultLabelNotNational(idx: nat)
    ensures !IsNational(DefaultLabel(idx))
  {
    var d := NatToString(idx);
    var s := DefaultLabel(idx);
    assert s[0] == 'P';
    assert s[|s| - 1] == d[|d| - 1];
    assert IsDigit(d[|d| - 1]);
    StripNoSpace(s);
    assert |Upper(Strip(s))| == |s| > |"INDONESIA"|;
  }

  /** The label "Indonesia" (any case, surrounded by blanks) is skipped. */
  lemma NationalExample(s: string)
    requires s == " Indonesia\n"
    ensures IsNational(s)
  {
    assert LStrip(s) == s[1..];
    assert RStrip(s[1..]) == "Indonesia";
    UpperChars("Indonesia");
  }

  /** A province label is kept. */
  lemma ProvinceExample(s: string)
    requires s == "Aceh"
    ensures !IsNational(s)
  {
    StripNoSpace(s);
  }

  /** The whole run raises exactly when some record raises. */
  lemma ProcessFails(recs: seq<Value>, cols: seq<Column>, parse: Value -> real)
    ensures Process(recs, cols, parse).Err? <==> exists i :: 0 <= i < |recs| && ViewOf(recs[i], i).Failed?
  {
    WalkOk(Views(recs), cols, parse);
  }

  /** The whole run raises only AttributeError. */
  lemma ProcessError(recs: seq<Value>, cols: seq<Column>, parse: Value -> real)
    requires Process(recs, cols, parse).Err?
    ensures Process(recs, cols, parse).error == AttributeError
  {
    var vs := Views(recs);
    WalkFails(vs, cols, parse);
    OnlyAttributeError(recs[FirstFailed(vs).value], FirstFailed(vs).value);
  }

  /**
   * The rows of a run: one per record that is neither national nor raising, in
   * input order, with its label and its numbers.
   */
  lemma ProcessRows(recs: seq<Value>, cols: seq<Column>, parse: Value -> real)
    requires Process(recs, cols, parse).Ok?
    ensures var ks := Kept(Views(recs)); var rows := Process(recs, cols, parse).value.rows;
      |rows| == |ks| &&
      (forall k, l :: 0 <= k < l < |ks| ==> ks[k] < ks[l]) &&
      (forall k :: 0 <= k < |ks| ==>
         (ks[k] < |recs| && LabelOf(recs[ks[k]], ks[k]).Ok? &&
          !IsNational(LabelOf(recs[ks[k]], ks[k]).value) && VariablesOf(recs[ks[k]]).Ok? &&
          rows[k] == RowOf(LabelOf(recs[ks[k]], ks[k]).value, VariablesOf(recs[ks[k]]).value, cols, parse)))
  {
    var vs := Views(recs);
    WalkRows(vs, cols, parse);
    KeptIncrease(vs);
  }

  /** A record that is not national and does not raise gives a row. */
  lemma ProvinceGivesRow(recs: seq<Value>, cols: seq<Column>, parse: Value -> real, i: nat)
    requires Process(recs, cols, parse).Ok? && i < |recs|
    requires LabelOf(recs[i], i).Ok? && !IsNational(LabelOf(recs[i], i).value)
    ensures exists k :: 0 <= k < |Kept(Views(recs))| && Kept(Views(recs))[k] == i
  {
    var vs := Views(recs);
    WalkOk(vs, cols, parse);
    assert !vs[i].Failed?;
    ProvincesAreKept(vs, i);
  }

  /** A national record gives no row. */
  lemma NationalGivesNoRow(recs: seq<Value>, i: nat)
    requires i < |recs| && LabelOf(recs[i], i).Ok? && IsNational(LabelOf(recs[i], i).value)
    ensures forall k :: 0 <= k < |Kept(Views(recs))| ==> Kept(Views(recs))[k] != i
  {
    KeptAreProvinces(Views(recs));
  }

  /** `parse_bps_value({"value_raw": "1.234,5"})` is 1234.5. */
  lemma DictExample(v: Value)
    requires v == Dict(map["value_raw" := Str("1.234,5")])
    ensures BpsValue(v) == 1234.5
  {
    RawStringKeyOrder(v.fields);
    ValueOfRaw(v);
    IndonesianNotation("1.234,5");
  }

  /** A cell of the app's parser: the Indonesian-formatted "1.234,5" under `value_raw` gives 1234.5. */
  lemma CellExample(vars: map<string, Value>, v: Value)
    requires v == Dict(map["value_raw" := Str("1.234,5")]) && vars == map["iihviv2ocw" := v]
    ensures CellValue(vars, "iihviv2ocw", BpsValue) == 1234.5
  {
    assert Present(vars, "iihviv2ocw");
    DictExample(v);
  }
}
