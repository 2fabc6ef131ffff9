/**
 * `create_dataframe_from_bps_data` (app.py): walk the per-province records of a
 * BPS table, skip the national row, build one row per province with one number
 * per `COLUMN_MAP` column, count how often each variable id was missing, and
 * keep debug records for the first positions of the input.
 */
module BpsRows {
  import opened Wrappers
  import opened PyStrings
  import opened PyJson
  import opened BpsParse

  // ------------------------------------------------------------ column map

  /** One entry of `COLUMN_MAP`: a BPS variable id and the column it fills. */
  datatype Column = Column(id: string, name: string)

  /** `COLUMN_MAP`, in its declaration order. */
  const ColumnMap: seq<Column> := [
    Column("iihviv2ocw", "Pencari Kerja Terdaftar - Laki-Laki"),
    Column("ijuxru3lvl", "Pencari Kerja Terdaftar - Perempuan"),
    Column("b1xjkdn0vw", "Pencari Kerja Terdaftar - Jumlah"),
    Column("kgpd8jp9bs", "Lowongan Kerja Terdaftar - Laki-Laki"),
    Column("b4ox1vczyq", "Lowongan Kerja Terdaftar - Perempuan"),
    Column("yeloqirlpp", "Lowongan Kerja Terdaftar - Jumlah"),
    Column("2ikzujodce", "Penempatan Tenaga Kerja - Laki-Laki"),
    Column("lfbbv5gdz2", "Penempatan Tenaga Kerja - Perempuan"),
    Column("ytis9poht5", "Penempatan Tenaga Kerja - Jumlah"),
    Column("ksybbjfehm", "Pencari Kerja Terdaftar - Laki-Laki atau Perempuan")
  ]

  /** The keys of a dict are distinct. */
  predicate DistinctIds(cols: seq<Column>) {
    forall i, j :: 0 <= i < j < |cols| ==> cols[i].id != cols[j].id
  }

  /** No two columns share a name, and none is called "Provinsi". */
  predicate DistinctNames(cols: seq<Column>) {
    (forall i, j :: 0 <= i < j < |cols| ==> cols[i].name != cols[j].name)
    && (forall i :: 0 <= i < |cols| ==> cols[i].name != "Provinsi")
  }

  /** The variable ids of a column map. */
  function Ids(cols: seq<Column>): set<string> {
    if |cols| == 0 then {} else Ids(cols[..|cols| - 1]) + {cols[|cols| - 1].id}
  }

  /** The column names of a column map. */
  function Names(cols: seq<Column>): set<string> {
    if |cols| == 0 then {} else Names(cols[..|cols| - 1]) + {cols[|cols| - 1].name}
  }

  /** The column an id fills (the last one, though dict ids are distinct). */
  function NameOf(cols: seq<Column>, id: string): string
    requires id in Ids(cols)
  {
    var c := cols[|cols| - 1];
    if c.id == id then c.name else NameOf(cols[..|cols| - 1], id)
  }

  // ------------------------------------------------------------ results

  /** A cell of the data frame: the province label or a number. */
  datatype Cell = Text(text: string) | Num(num: real)

  /** A row of the data frame, keyed by column name. */
  type Row = map<string, Cell>

  /** An entry of `missing_keys`: the column of the id and how often it was missing. */
  datatype Miss = Miss(colName: string, missCount: nat)

  /**
   * What a debug record says about one column: the `str` of the raw value
   * object (None where the id was missing) and the number put in the row.
   */
  datatype DebugCell = DebugCell(apiId: string, colName: string, raw: Option<string>, processed: real)

  /** A debug record: the label, the ids the record has, and one entry per column. */
  datatype DebugItem = DebugItem(provinsi: string, apiVarKeys: set<string>, cells: seq<DebugCell>)

  /** The three results: the rows, `missing_keys` and the debug records. */
  datatype Frame = Frame(rows: seq<Row>, missing: map<string, Miss>, debug: seq<DebugItem>)

  // ------------------------------------------------------------ one record

  /** The label used for a record without one; `idx` is its position in the input. */
  function DefaultLabel(idx: nat): string {
    "Prov Unknown #" + NatToString(idx)
  }

  /**
   * `item_prov.get("label", default)` followed by `.strip()`: a record that is
   * not a dict, or whose label is not a string, raises AttributeError.
   */
  function LabelOf(rec: Value, idx: nat): Result<string, PyError> {
    match rec
    case Dict(m) =>
      if "label" !in m then Ok(DefaultLabel(idx))
      else if m["label"].Str? then Ok(m["label"].s)
      else Err(AttributeError)
    case _ => Err(AttributeError)
  }

  /** The national total row, which is skipped. */
  predicate IsNational(prov: string) {
    Upper(Strip(prov)) == "INDONESIA"
  }

  /**
   * `item_prov.get("variables", {})` followed by `.keys()`: anything but a dict
   * raises AttributeError.
   */
  function VariablesOf(rec: Value): Result<map<string, Value>, PyError> {
    match rec
    case Dict(m) =>
      if "variables" !in m then Ok(map[])
      else if m["variables"].Dict? then Ok(m["variables"].fields)
      else Err(AttributeError)
    case _ => Err(AttributeError)
  }

  /**
   * The number a column gets: 0.0 for an absent or None id, else what `parse`
   * makes of the value object. The walk is stated for any number parser
   * `parse`; `CreateDataframe` uses `parse_bps_value`, that is `BpsValue`.
   */
  function CellValue(vars: map<string, Value>, id: string, parse: Value -> real): real {
    if Present(vars, id) then parse(vars[id]) else 0.0
  }

  /** `row_data` after the columns `cols` have been filled. */
  function RowOf(prov: string, vars: map<string, Value>, cols: seq<Column>, parse: Value -> real): Row {
    if |cols| == 0 then map["Provinsi" := Text(prov)]
    else
      var c := cols[|cols| - 1];
      RowOf(prov, vars, cols[..|cols| - 1], parse)[c.name := Num(CellValue(vars, c.id, parse))]
  }

  /** `missing_keys.setdefault(id, {"col_name": name, "miss_count": 0})["miss_count"] += 1` */
  function Bump(m: map<string, Miss>, c: Column): map<string, Miss> {
    if c.id in m then m[c.id := m[c.id].(missCount := m[c.id].missCount + 1)]
    else m[c.id := Miss(c.name, 1)]
  }

  /** `missing_keys` after the columns `cols` of one record have been looked up. */
  function CountMisses(m: map<string, Miss>, vars: map<string, Value>, cols: seq<Column>): map<string, Miss> {
    if |cols| == 0 then m
    else
      var c := cols[|cols| - 1];
      var before := CountMisses(m, vars, cols[..|cols| - 1]);
      if Present(vars, c.id) then before else Bump(before, c)
  }

  function DebugCellOf(vars: map<string, Value>, c: Column, parse: Value -> real): DebugCell {
    DebugCell(c.id, c.name, if Present(vars, c.id) then Some(PyStr(vars[c.id])) else None, CellValue(vars, c.id, parse))
  }

  /** The column entries of a debug record: one per column, in column order. */
  function DebugCells(vars: map<string, Value>, cols: seq<Column>, parse: Value -> real): (ds: seq<DebugCell>)
    ensures |ds| == |cols|
  {
    if |cols| == 0 then [] else DebugCells(vars, cols[..|cols| - 1], parse) + [DebugCellOf(vars, cols[|cols| - 1], parse)]
  }

  /**
   * How the outer loop treats one record: it raises, it is the national row and
   * is skipped, or it is a province with a label and a dict of variables.
   */
  datatype View = Failed(error: PyError) | Skipped | Province(prov: string, vars: map<string, Value>)

  /** The record at position `idx`, as the outer loop sees it. */
  function ViewOf(rec: Value, idx: nat): View {
    match LabelOf(rec, idx)
    case Err(e) => Failed(e)
    case Ok(prov) =>
      if IsNational(prov) then Skipped
      else match VariablesOf(rec)
        case Err(e) => Failed(e)
        case Ok(vars) => Province(prov, vars)
  }

  /** Every record, as the outer loop sees it. */
  function Views(recs: seq<Value>): (vs: seq<View>)
    ensures |vs| == |recs|
    ensures forall i :: 0 <= i < |recs| ==> vs[i] == ViewOf(recs[i], i)
  {
    seq(|recs|, i requires 0 <= i < |recs| => ViewOf(recs[i], i))
  }

  /** One pass of the outer loop, for the record at position `idx`. */
  function Visit(f: Frame, v: View, idx: nat, cols: seq<Column>, parse: Value -> real): Result<Frame, PyError> {
    match v
    case Failed(e) => Err(e)
    case Skipped => Ok(f)
    case Province(prov, vars) =>
      var debug := if idx < 3 then f.debug + [DebugItem(prov, vars.Keys, DebugCells(vars, cols, parse))] else f.debug;
      Ok(Frame(f.rows + [RowOf(prov, vars, cols, parse)], CountMisses(f.missing, vars, cols), debug))
  }

  /** The three results after the records seen as `vs`; the first exception ends the walk. */
  function Walk(vs: seq<View>, cols: seq<Column>, parse: Value -> real): Result<Frame, PyError> {
    if |vs| == 0 then Ok(Frame([], map[], []))
    else match Walk(vs[..|vs| - 1], cols, parse)
      case Err(e) => Err(e)
      case Ok(f) => Visit(f, vs[|vs| - 1], |vs| - 1, cols, parse)
  }

  /** What `create_dataframe_from_bps_data` gives for the records `recs`, with `parse` for the numbers. */
  function Process(recs: seq<Value>, cols: seq<Column>, parse: Value -> real): Result<Frame, PyError> {
    Walk(Views(recs), cols, parse)
  }

  // ------------------------------------------------------------ the loop

  /**
   * `create_dataframe_from_bps_data`, with the number parser as a parameter; the
   * app's parser is `parse_bps_value`, that is `BpsValue`.
   */
  method CreateDataframe(recs: seq<Value>, cols: seq<Column>, parse: Value -> real) returns (r: Result<Frame, PyError>)
    ensures r == Process(recs, cols, parse)
  {
    ghost var vs := Views(recs);
    var rows: seq<Row> := [];
    var missing: map<string, Miss> := map[];
    var debug: seq<DebugItem> := [];
    var i := 0;
    while i < |recs|
      invariant 0 <= i <= |recs|
      invariant Walk(vs[..i], cols, parse) == Ok(Frame(rows, missing, debug))
    {
      WalkStep(vs, cols, parse, i, Frame(rows, missing, debug));
      assert vs[i] == ViewOf(recs[i], i);
      var prov := LabelOf(recs[i], i);
      if prov.Err? {
        ErrorStays(vs, cols, parse, i + 1, prov.error);
        return Err(prov.error);
      }
      if !IsNational(prov.value) {
        var vars := VariablesOf(recs[i]);
        if vars.Err? {
          ErrorStays(vs, cols, parse, i + 1, vars.error);
          return Err(vars.error);
        }
        var row, cells;
        row, missing, cells := FillRow(prov.value, vars.value, cols, missing, parse);
        rows := rows + [row];
        if i < 3 {
          debug := debug + [DebugItem(prov.value, vars.value.Keys, cells)];
        }
      }
      i := i + 1;
    }
    assert vs[..|recs|] == vs;
    return Ok(Frame(rows, missing, debug));
  }

  /** One more pass of the outer loop. */
  lemma WalkStep(vs: seq<View>, cols: seq<Column>, parse: Value -> real, i: nat, f: Frame)
    requires i < |vs| && Walk(vs[..i], cols, parse) == Ok(f)
    ensures Walk(vs[..i + 1], cols, parse) == Visit(f, vs[i], i, cols, parse)
  {
    assert vs[..i + 1][..i] == vs[..i];
  }

  /** The inner loop of `create_dataframe_from_bps_data`, over the column map. */
  method FillRow(prov: string, vars: map<string, Value>, cols: seq<Column>, missing0: map<string, Miss>, parse: Value -> real)
    returns (row: Row, missing: map<string, Miss>, cells: seq<DebugCell>)
    ensures row == RowOf(prov, vars, cols, parse)
    ensures missing == CountMisses(missing0, vars, cols)
    ensures cells == DebugCells(vars, cols, parse)
  {
    row := map["Provinsi" := Text(prov)];
    missing := missing0;
    cells := [];
    var j := 0;
    while j < |cols|
      invariant 0 <= j <= |cols|
      invariant row == RowOf(prov, vars, cols[..j], parse)
      invariant missing == CountMisses(missing0, vars, cols[..j])
      invariant cells == DebugCells(vars, cols[..j], parse)
    {
      FillStep(prov, vars, cols, j, missing0, parse);
      var x, cell;
      x, missing, cell := FillCell(vars, cols[j], missing, parse);
      cells := cells + [cell];
      row := row[cols[j].name := Num(x)];
      j := j + 1;
    }
    assert cols[..|cols|] == cols;
  }

  /** One pass of the inner loop: the number, `missing_keys` and the debug entry for column `c`. */
  method FillCell(vars: map<string, Value>, c: Column, missing0: map<string, Miss>, parse: Value -> real)
    returns (x: real, missing: map<string, Miss>, cell: DebugCell)
    ensures x == CellValue(vars, c.id, parse)
    ensures missing == if Present(vars, c.id) then missing0 else Bump(missing0, c)
    ensures cell == DebugCellOf(vars, c, parse)
  {
    missing := missing0;
    x := 0.0;
    if c.id in vars && vars[c.id] != Null {
      x := parse(vars[c.id]);
      cell := DebugCell(c.id, c.name, Some(PyStr(vars[c.id])), x);
    } else {
      cell := DebugCell(c.id, c.name, None, x);
      if c.id in missing {
        missing := missing[c.id := missing[c.id].(missCount := missing[c.id].missCount + 1)];
      } else {
        missing := missing[c.id := Miss(c.name, 1)];
      }
    }
  }

  /** The specification functions after one more column. */
  lemma FillStep(prov: string, vars: map<string, Value>, cols: seq<Column>, j: nat, m: map<string, Miss>, parse: Value -> real)
    requires j < |cols|
    ensures RowOf(prov, vars, cols[..j + 1], parse) == RowOf(prov, vars, cols[..j], parse)[cols[j].name := Num(CellValue(vars, cols[j].id, parse))]
    ensures CountMisses(m, vars, cols[..j + 1]) == (var before := CountMisses(m, vars, cols[..j]); if Present(vars, cols[j].id) then before else Bump(before, cols[j]))
    ensures DebugCells(vars, cols[..j + 1], parse) == DebugCells(vars, cols[..j], parse) + [DebugCellOf(vars, cols[j], parse)]
  {
    assert cols[..j + 1][..j] == cols[..j];
  }

  /** Once a prefix of the records raises, so does every longer prefix. */
  lemma {:induction false} ErrorStays(vs: seq<View>, cols: seq<Column>, parse: Value -> real, n: nat, e: PyError)
    requires n <= |vs| && Walk(vs[..n], cols, parse) == Err(e)
    ensures Walk(vs, cols, parse) == Err(e)
    decreases |vs| - n
  {
    if n < |vs| {
      assert vs[..n + 1][..n] == vs[..n];
      ErrorStays(vs, cols, parse, n + 1, e);
    } else {
      assert vs[..n] == vs;
    }
  }
}
