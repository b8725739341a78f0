/** Record cleaning: `fixSalaryDF` (analyze.py lines 52-83). */
module Cleaning {
  import opened Results
  import opened Sequences
  import opened Frames
  import Numbers

  /** The columns dropped before analysis (lines 59-70). */
  const DroppedFields: seq<string> := [
    "cityid", "dmaid", "rowNumber", "tag", "basesalary",
    "stockgrantvalue", "bonus", "gender", "otherdetails", "timestamp"
  ]

  /** The columns converted to numbers (lines 75-79). */
  const NumericFields: seq<string> := ["yearsofexperience", "totalyearlycompensation", "yearsatcompany"]

  /** The numeric columns are neither dropped nor index column names. */
  lemma NumericFieldsKept()
    ensures forall f :: f in NumericFields ==> f !in DroppedFields && f != "index" && f != "level_0"
  {
  }

  /** `replace("", np.nan)` on one cell. */
  function Blank(c: Cell): (r: Cell)
    ensures r != Text("")
    ensures c != Text("") ==> r == c
  {
    if c == Text("") then Missing else c
  }

  /** `pd.to_numeric` on one cell; None where it raises. Numbers and missing
      cells pass through unchanged. */
  function ToNumeric(c: Cell): (r: Option<Cell>)
    ensures r.Some? ==> !r.value.Text?
    ensures !c.Text? ==> r == Some(c)
  {
    match c
    case Text(s) =>
      (match Numbers.Parse(s)
       case Some(x) => Some(Num(x))
       case None => None)
    case _ => Some(c)
  }

  /** `pd.to_datetime` accepts the cell: empty text and missing become NaT,
      numbers are read as epoch offsets, other text must be a date. */
  predicate DateReadable(c: Cell, isDate: string -> bool)
  {
    c.Text? ==> c.s == "" || isDate(c.s)
  }

  /** The columns that survive `drop`, in their original order. */
  function KeptColumns(columns: seq<string>): seq<string>
  {
    Where(columns, c => c !in DroppedFields)
  }

  /** `drop(fieldsToDrop, axis=1).replace("", np.nan)` on one row. */
  function DropAndBlank(cells: map<string, Cell>): map<string, Cell>
  {
    map c | c in cells && c !in DroppedFields :: Blank(cells[c])
  }

  /** The row with the cells of `fields` converted by `pd.to_numeric`
      (a cell that cannot be converted is left as it is). */
  function CoerceFields(cells: map<string, Cell>, fields: seq<string>): map<string, Cell>
  {
    map c | c in cells :: if c in fields && ToNumeric(cells[c]).Some? then ToNumeric(cells[c]).value else cells[c]
  }

  /** The name `reset_index` gives the column that receives the old labels. */
  function IndexName(columns: seq<string>): (r: Option<string>)
    ensures r.Some? ==> r.value !in columns && (r.value == "index" || r.value == "level_0")
    ensures r.None? <==> "index" in columns && "level_0" in columns
  {
    if "index" !in columns then Some("index")
    else if "level_0" !in columns then Some("level_0")
    else None
  }

  /** Row `i` of the result: dropped, blanked, coerced, relabelled `i`, with
      its old label stored under `name`. */
  function CleanedRecord(r: Record, name: string, i: int): Record
  {
    Record(i, Converted(r.cells, |NumericFields|)[name := Num(r.index as real)])
  }

  predicate DatesReadable(t: Table, isDate: string -> bool)
  {
    forall i :: 0 <= i < |t.records| && "timestamp" in t.records[i].cells ==>
      DateReadable(t.records[i].cells["timestamp"], isDate)
  }

  /** Every numeric cell, once blanked, is accepted by `pd.to_numeric`. */
  predicate NumbersReadable(t: Table)
  {
    forall i, f :: 0 <= i < |t.records| && f in NumericFields && f in t.records[i].cells ==>
      ToNumeric(Blank(t.records[i].cells[f])).Some?
  }

  /** What `fixSalaryDF(t)` returns, or the exception it raises. The two-year
      look-back computed at lines 54-57 is discarded at line 71, so it has no
      counterpart here: every row survives. */
  function Cleaned(t: Table, isDate: string -> bool): (r: Result<Table, Error>)
    requires WellFormed(t)
    ensures r.Ok? ==> |r.value.records| == |t.records|
    ensures "timestamp" !in t.columns ==> r == Err(MissingColumn)
  {
    if "timestamp" !in t.columns then Err(MissingColumn)
    else if !DatesReadable(t, isDate) then Err(UnparsableDate)
    else if exists c :: c in DroppedFields && c !in t.columns then Err(MissingColumn)
    else if exists c :: c in NumericFields && c !in t.columns then Err(MissingColumn)
    else if !NumbersReadable(t) then Err(UnparsableNumber)
    else match IndexName(KeptColumns(t.columns))
      case None => Err(IndexColumnTaken)
      case Some(name) => Ok(Rebuilt(t, name))
  }

  /** The frame `fixSalaryDF` returns once every check has passed. */
  function Rebuilt(t: Table, name: string): Table
  {
    Table([name] + KeptColumns(t.columns),
          seq(|t.records|, i requires 0 <= i < |t.records| => CleanedRecord(t.records[i], name, i)))
  }

  /** A row after dropping, blanking and converting the first `m` numeric columns. */
  function Converted(cells: map<string, Cell>, m: nat): map<string, Cell>
    requires m <= |NumericFields|
  {
    CoerceFields(DropAndBlank(cells), NumericFields[..m])
  }

  lemma ConvertNothing(cells: map<string, Cell>)
    ensures Converted(cells, 0) == DropAndBlank(cells)
  {
  }

  /** Converting the next numeric column extends a partial conversion. */
  lemma ConvertOneMore(cells: map<string, Cell>, m: nat)
    requires m < |NumericFields| && NumericFields[m] in cells
    requires ToNumeric(Blank(cells[NumericFields[m]])).Some?
    ensures NumericFields[m] in Converted(cells, m)
    ensures Converted(cells, m)[NumericFields[m]] == Blank(cells[NumericFields[m]])
    ensures Converted(cells, m)[NumericFields[m] := ToNumeric(Blank(cells[NumericFields[m]])).value]
         == Converted(cells, m + 1)
  {
    var f := NumericFields[m];
    NumericFieldsKept();
    assert f in NumericFields && f !in DroppedFields;
    assert NumericFields[..m + 1] == NumericFields[..m] + [f];
    assert f !in NumericFields[..m];
  }

  /** Line 54: every timestamp is read by `pd.to_datetime`, or it raises. */
  method ParseTimestamps(t: Table, isDate: string -> bool) returns (ok: bool)
    requires WellFormed(t) && "timestamp" in t.columns
    ensures ok == DatesReadable(t, isDate)
  {
    var i := 0;
    while i < |t.records|
      invariant 0 <= i <= |t.records|
      invariant forall j :: 0 <= j < i ==> DateReadable(t.records[j].cells["timestamp"], isDate)
    {
      if !DateReadable(t.records[i].cells["timestamp"], isDate) {
        return false;
      }
      i := i + 1;
    }
    return true;
  }

  /** Whether every name in `names` is a column of `t` (otherwise pandas raises KeyError). */
  method HasColumns(t: Table, names: seq<string>) returns (ok: bool)
    ensures ok <==> forall c :: c in names ==> c in t.columns
  {
    var k := 0;
    while k < |names|
      invariant 0 <= k <= |names|
      invariant forall j :: 0 <= j < k ==> names[j] in t.columns
    {
      if names[k] !in t.columns {
        return false;
      }
      k := k + 1;
    }
    return true;
  }

  /** Lines 71-73: the dropped and blanked rows, in a fresh frame. */
  method DropAndBlankRows(t: Table) returns (rows: array<map<string, Cell>>)
    ensures fresh(rows) && rows.Length == |t.records|
    ensures forall j :: 0 <= j < rows.Length ==> rows[j] == Converted(t.records[j].cells, 0)
  {
    rows := new map<string, Cell>[|t.records|];
    var i := 0;
    while i < rows.Length
      invariant 0 <= i <= rows.Length
      invariant forall j :: 0 <= j < i ==> rows[j] == Converted(t.records[j].cells, 0)
    {
      ConvertNothing(t.records[i].cells);
      rows[i] := DropAndBlank(t.records[i].cells);
      i := i + 1;
    }
  }

  /** Lines 80-81 for the `k`-th numeric column: convert it in place, row by
      row; false when some cell cannot be converted. */
  method CoerceColumn(t: Table, rows: array<map<string, Cell>>, k: nat) returns (ok: bool)
    requires k < |NumericFields|
    requires forall j :: 0 <= j < |t.records| ==> NumericFields[k] in t.records[j].cells
    requires rows.Length == |t.records|
    requires forall j :: 0 <= j < rows.Length ==> rows[j] == Converted(t.records[j].cells, k)
    modifies rows
    ensures ok ==> forall j :: 0 <= j < rows.Length ==> rows[j] == Converted(t.records[j].cells, k + 1)
    ensures ok <==> forall j :: 0 <= j < rows.Length ==>
      ToNumeric(Blank(t.records[j].cells[NumericFields[k]])).Some?
  {
    var f := NumericFields[k];
    var i := 0;
    while i < rows.Length
      invariant 0 <= i <= rows.Length
      invariant forall j :: 0 <= j < i ==> rows[j] == Converted(t.records[j].cells, k + 1)
      invariant forall j :: i <= j < rows.Length ==> rows[j] == Converted(t.records[j].cells, k)
      invariant forall j :: 0 <= j < i ==> ToNumeric(Blank(t.records[j].cells[f])).Some?
    {
      var cells := t.records[i].cells;
      var c := ToNumeric(Blank(cells[f]));
      if c.None? {
        return false;
      }
      ConvertOneMore(cells, k);
      ghost var before := rows[..];
      rows[i] := rows[i][f := c.value];
      assert rows[i] == Converted(cells, k + 1);
      assert forall j :: 0 <= j < rows.Length && j != i ==> rows[j] == before[j];
      i := i + 1;
    }
    return true;
  }

  /** Lines 80-81: convert the numeric columns, one column at a time, in place;
      false when `pd.to_numeric` raises on some cell. */
  method CoerceNumericColumns(t: Table, rows: array<map<string, Cell>>) returns (ok: bool)
    requires forall j, m :: 0 <= j < |t.records| && 0 <= m < |NumericFields| ==>
      NumericFields[m] in t.records[j].cells
    requires rows.Length == |t.records|
    requires forall j :: 0 <= j < rows.Length ==> rows[j] == Converted(t.records[j].cells, 0)
    modifies rows
    ensures ok == NumbersReadable(t)
    ensures ok ==> forall j :: 0 <= j < rows.Length ==>
      rows[j] == Converted(t.records[j].cells, |NumericFields|)
  {
    var k := 0;
    while k < |NumericFields|
      invariant 0 <= k <= |NumericFields|
      invariant forall j :: 0 <= j < rows.Length ==> rows[j] == Converted(t.records[j].cells, k)
      invariant forall j, m :: 0 <= j < rows.Length && 0 <= m < k ==>
        ToNumeric(Blank(t.records[j].cells[NumericFields[m]])).Some?
    {
      ok := CoerceColumn(t, rows, k);
      if !ok {
        ColumnUnreadable(t, k);
        return false;
      }
      k := k + 1;
    }
    ColumnsReadable(t);
    return true;
  }

  /** One numeric column with an unreadable cell makes the frame unreadable. */
  lemma ColumnUnreadable(t: Table, k: nat)
    requires k < |NumericFields|
    requires forall j :: 0 <= j < |t.records| ==> NumericFields[k] in t.records[j].cells
    requires !forall j :: 0 <= j < |t.records| ==>
      ToNumeric(Blank(t.records[j].cells[NumericFields[k]])).Some?
    ensures !NumbersReadable(t)
  {
    var j :| 0 <= j < |t.records| && ToNumeric(Blank(t.records[j].cells[NumericFields[k]])).None?;
    assert NumericFields[k] in NumericFields;
  }

  /** Every numeric column readable, taken column by column, is the whole frame readable. */
  lemma ColumnsReadable(t: Table)
    requires forall j, m :: 0 <= j < |t.records| && 0 <= m < |NumericFields| ==>
      NumericFields[m] in t.records[j].cells &&
      ToNumeric(Blank(t.records[j].cells[NumericFields[m]])).Some?
    ensures NumbersReadable(t)
  {
    forall i, f | 0 <= i < |t.records| && f in NumericFields && f in t.records[i].cells
      ensures ToNumeric(Blank(t.records[i].cells[f])).Some?
    {
      var m :| 0 <= m < |NumericFields| && NumericFields[m] == f;
    }
  }

  /** Line 83: `reset_index()` over the converted rows. */
  method ResetIndex(t: Table, rows: array<map<string, Cell>>, name: string) returns (out: seq<Record>)
    requires rows.Length == |t.records|
    requires forall j :: 0 <= j < rows.Length ==>
      rows[j] == Converted(t.records[j].cells, |NumericFields|)
    ensures out == seq(|t.records|, i requires 0 <= i < |t.records| => CleanedRecord(t.records[i], name, i))
  {
    out := [];
    var i := 0;
    while i < rows.Length
      invariant 0 <= i <= rows.Length
      invariant |out| == i
      invariant forall j :: 0 <= j < i ==> out[j] == CleanedRecord(t.records[j], name, j)
    {
      out := out + [Record(i, rows[i][name := Num(t.records[i].index as real)])];
      i := i + 1;
    }
  }

  /** `fixSalaryDF` as the source runs it: parse the timestamps, drop and
      blank into a fresh frame, convert the numeric columns one column at a
      time in place, then renumber the rows. */
  method FixSalary(t: Table, isDate: string -> bool) returns (r: Result<Table, Error>)
    requires WellFormed(t)
    ensures r == Cleaned(t, isDate)
  {
    if "timestamp" !in t.columns {
      return Err(MissingColumn);
    }
    var ok := ParseTimestamps(t, isDate);
    if !ok {
      return Err(UnparsableDate);
    }
    ok := HasColumns(t, DroppedFields);
    if !ok {
      return Err(MissingColumn);
    }
    var rows := DropAndBlankRows(t);
    ok := HasColumns(t, NumericFields);
    if !ok {
      return Err(MissingColumn);
    }
    assert forall j, m :: 0 <= j < |t.records| && 0 <= m < |NumericFields| ==>
      NumericFields[m] in t.records[j].cells by {
      forall j, m | 0 <= j < |t.records| && 0 <= m < |NumericFields|
        ensures NumericFields[m] in t.records[j].cells
      {
        assert NumericFields[m] in NumericFields;
      }
    }
    ok := CoerceNumericColumns(t, rows);
    if !ok {
      return Err(UnparsableNumber);
    }
    var kept := KeptColumns(t.columns);
    var name := IndexName(kept);
    if name.None? {
      return Err(IndexColumnTaken);
    }
    var out := ResetIndex(t, rows, name.value);
    r := Ok(Table([name.value] + kept, out));
    assert r == Ok(Rebuilt(t, name.value));
  }

  // ---- What a successful clean guarantees ----

  /** The checks a successful clean passed, and the frame it built. */
  lemma CleanedUnfold(t: Table, isDate: string -> bool)
    requires WellFormed(t) && Cleaned(t, isDate).Ok?
    ensures "timestamp" in t.columns && DatesReadable(t, isDate)
    ensures forall c :: c in DroppedFields ==> c in t.columns
    ensures forall c :: c in NumericFields ==> c in t.columns
    ensures NumbersReadable(t) && IndexName(KeptColumns(t.columns)).Some?
    ensures Cleaned(t, isDate).value == Rebuilt(t, IndexName(KeptColumns(t.columns)).value)
  {
  }

  /** The cells of one fully converted row. */
  lemma ConvertedCells(cells: map<string, Cell>)
    requires forall f :: f in NumericFields ==> f in cells && ToNumeric(Blank(cells[f])).Some?
    ensures var out := Converted(cells, |NumericFields|);
      && (forall c :: c in out <==> c in cells && c !in DroppedFields)
      && (forall f :: f in NumericFields ==> f in out)
      && (forall c :: c in out ==> out[c] != Text(""))
      && (forall f :: f in NumericFields ==> Some(out[f]) == ToNumeric(Blank(cells[f])))
      && (forall f :: f in NumericFields ==> out[f].Num? || out[f].Missing?)
      && (forall c :: c in out && c !in NumericFields ==> out[c] == Blank(cells[c]))
  {
    NumericFieldsKept();
    assert NumericFields[..|NumericFields|] == NumericFields;
  }

  /** Exactly one output row per input row, in input order, relabelled
      0..n-1, each carrying its old label in the first column. */
  lemma CleanedKeepsEveryRow(t: Table, isDate: string -> bool)
    requires WellFormed(t) && Cleaned(t, isDate).Ok?
    ensures var u := Cleaned(t, isDate).value;
      |u.records| == |t.records| &&
      forall i :: 0 <= i < |u.records| ==>
        u.records[i].index == i &&
        u.columns[0] in u.records[i].cells &&
        u.records[i].cells[u.columns[0]] == Num(t.records[i].index as real)
  {
    CleanedUnfold(t, isDate);
  }

  /** The columns of the rebuilt frame: the index column, then the kept ones. */
  lemma RebuiltColumns(t: Table, name: string)
    requires WellFormed(t) && name !in KeptColumns(t.columns)
    requires forall f :: f in NumericFields ==> f in t.columns
    requires NumbersReadable(t)
    ensures var u := Rebuilt(t, name);
      && (forall c :: c in u.columns[1..] ==> c !in DroppedFields)
      && (forall c :: c in t.columns && c !in DroppedFields ==> c in u.columns)
      && WellFormed(u)
  {
    var u := Rebuilt(t, name);
    var kept := KeptColumns(t.columns);
    assert u.columns[1..] == kept;
    forall c | c in t.columns && c !in DroppedFields
      ensures c in u.columns
    {
      var k :| 0 <= k < |t.columns| && t.columns[k] == c;
      assert c in kept;
    }
    assert Distinct(kept) by {
      WherePairwise(t.columns, c => c !in DroppedFields, (a: string, b: string) => a != b);
    }
    forall i | 0 <= i < |u.records|
      ensures u.records[i].cells.Keys == ColumnSet(u.columns)
    {
      RebuiltRowKeys(t, name, i);
    }
  }

  /** One rebuilt row has exactly the columns of the rebuilt frame. */
  lemma RebuiltRowKeys(t: Table, name: string, i: int)
    requires WellFormed(t) && 0 <= i < |t.records|
    requires forall f :: f in NumericFields ==> f in t.columns
    requires NumbersReadable(t)
    ensures Rebuilt(t, name).records[i].cells.Keys == ColumnSet(Rebuilt(t, name).columns)
  {
    var u := Rebuilt(t, name);
    var kept := KeptColumns(t.columns);
    var cells := t.records[i].cells;
    forall f | f in NumericFields ensures f in cells && ToNumeric(Blank(cells[f])).Some? {
      assert f in t.columns;
    }
    ConvertedCells(cells);
    var out := u.records[i].cells;
    assert out == Converted(cells, |NumericFields|)[name := Num(t.records[i].index as real)];
    assert u.columns == [name] + kept;
    forall c ensures c in out <==> c in ColumnSet(u.columns) {
      if c in kept {
        var k :| 0 <= k < |kept| && kept[k] == c;
        assert c in t.columns;
      }
    }
  }

  /** The cells of the rebuilt frame, row by row. */
  lemma RebuiltCells(t: Table, name: string, i: int)
    requires WellFormed(t) && 0 <= i < |t.records|
    requires name == "index" || name == "level_0"
    requires forall f :: f in NumericFields ==> f in t.columns
    requires NumbersReadable(t)
    ensures var out := Rebuilt(t, name).records[i].cells;
      && (forall c :: c in out ==> out[c] != Text(""))
      && (forall f :: f in NumericFields ==>
            f in out && (out[f].Num? || out[f].Missing?) &&
            Some(out[f]) == ToNumeric(Blank(t.records[i].cells[f])))
      && (forall c :: c in t.records[i].cells && c != name && c !in DroppedFields && c !in NumericFields
            ==> c in out && out[c] == Blank(t.records[i].cells[c]))
  {
    var cells := t.records[i].cells;
    forall f | f in NumericFields ensures f in cells && ToNumeric(Blank(cells[f])).Some? {
      assert f in t.columns;
    }
    ConvertedCells(cells);
    NumericFieldsKept();
    var conv := Converted(cells, |NumericFields|);
    var out := conv[name := Num(t.records[i].index as real)];
    assert Rebuilt(t, name).records[i].cells == out;
    assert name !in NumericFields;
    forall c | c in out ensures out[c] != Text("") {
      if c != name {
        assert out[c] == conv[c];
      }
    }
    forall f | f in NumericFields
      ensures f in out && Some(out[f]) == ToNumeric(Blank(cells[f]))
    {
      assert f != name && out[f] == conv[f];
    }
  }

  /** None of the dropped columns survives, every other column does, in its
      original order after the new index column, and the result is a
      well-formed frame. */
  lemma CleanedColumns(t: Table, isDate: string -> bool)
    requires WellFormed(t) && Cleaned(t, isDate).Ok?
    ensures var u := Cleaned(t, isDate).value;
      && (u.columns[0] == "index" || u.columns[0] == "level_0")
      && u.columns[1..] == KeptColumns(t.columns)
      && (forall c :: c in u.columns ==> c !in DroppedFields)
      && (forall c :: c in t.columns && c !in DroppedFields ==> c in u.columns)
      && WellFormed(u)
  {
    CleanedUnfold(t, isDate);
    var name := IndexName(KeptColumns(t.columns)).value;
    RebuiltColumns(t, name);
    var u := Rebuilt(t, name);
    assert u.columns == [name] + u.columns[1..];
  }

  /** After cleaning no cell is the empty string, each numeric column holds a
      number or missing (what `pd.to_numeric` made of its blanked input), and
      every other cell is its input value with "" made missing. */
  lemma CleanedCells(t: Table, isDate: string -> bool)
    requires WellFormed(t) && Cleaned(t, isDate).Ok?
    ensures var u := Cleaned(t, isDate).value;
      forall i, c :: 0 <= i < |u.records| && c in u.records[i].cells ==>
        u.records[i].cells[c] != Text("")
    ensures var u := Cleaned(t, isDate).value;
      forall i, f :: 0 <= i < |u.records| && f in NumericFields ==>
        f in u.records[i].cells &&
        (u.records[i].cells[f].Num? || u.records[i].cells[f].Missing?) &&
        Some(u.records[i].cells[f]) == ToNumeric(Blank(t.records[i].cells[f]))
    ensures var u := Cleaned(t, isDate).value;
      forall i, c :: 0 <= i < |u.records| && c in t.records[i].cells && c != u.columns[0] &&
        c !in DroppedFields && c !in NumericFields
        ==> c in u.records[i].cells && u.records[i].cells[c] == Blank(t.records[i].cells[c])
  {
    CleanedUnfold(t, isDate);
    var name := IndexName(KeptColumns(t.columns)).value;
    forall i | 0 <= i < |t.records| {
      RebuiltCells(t, name, i);
    }
  }

  /** A non-empty numeric cell that is not a numeral makes the clean raise;
      and that is the only way it raises `UnparsableNumber`. */
  lemma CleanedRaisesOnBadNumber(t: Table, isDate: string -> bool)
    requires WellFormed(t) && "timestamp" in t.columns && DatesReadable(t, isDate)
    requires forall c :: c in DroppedFields ==> c in t.columns
    requires forall c :: c in NumericFields ==> c in t.columns
    ensures Cleaned(t, isDate) == Err(UnparsableNumber) <==>
      exists i, f :: 0 <= i < |t.records| && f in NumericFields &&
        t.records[i].cells[f].Text? && t.records[i].cells[f].s != "" &&
        Numbers.Parse(t.records[i].cells[f].s).None?
  {
    CleanedPastColumnChecks(t, isDate);
    UnreadableNumber(t);
  }

  /** Once the timestamps and the columns check out, the clean raises
      `UnparsableNumber` exactly when some numeric cell is unreadable. */
  lemma CleanedPastColumnChecks(t: Table, isDate: string -> bool)
    requires WellFormed(t) && "timestamp" in t.columns && DatesReadable(t, isDate)
    requires forall c :: c in DroppedFields ==> c in t.columns
    requires forall c :: c in NumericFields ==> c in t.columns
    ensures Cleaned(t, isDate) == Err(UnparsableNumber) <==> !NumbersReadable(t)
  {
    assert !(exists c :: c in DroppedFields && c !in t.columns);
    assert !(exists c :: c in NumericFields && c !in t.columns);
  }

  /** A numeric cell is unreadable exactly when it is non-empty text that is
      not a numeral. */
  lemma UnreadableNumber(t: Table)
    requires WellFormed(t)
    requires forall c :: c in NumericFields ==> c in t.columns
    ensures !NumbersReadable(t) <==>
      exists i, f :: 0 <= i < |t.records| && f in NumericFields &&
        t.records[i].cells[f].Text? && t.records[i].cells[f].s != "" &&
        Numbers.Parse(t.records[i].cells[f].s).None?
  {
    if !NumbersReadable(t) {
      var i, f :| 0 <= i < |t.records| && f in NumericFields && f in t.records[i].cells &&
        ToNumeric(Blank(t.records[i].cells[f])).None?;
      assert t.records[i].cells[f].Text? && t.records[i].cells[f].s != "";
    }
  }

  /** Two rows that differ at most in their timestamp clean to the same cells. */
  lemma DropAndBlankIgnoresTimestamp(a: map<string, Cell>, b: map<string, Cell>)
    requires a.Keys == b.Keys
    requires forall c :: c in a && c != "timestamp" ==> b[c] == a[c]
    ensures DropAndBlank(a) == DropAndBlank(b)
  {
    assert "timestamp" in DroppedFields;
  }

  /** The result does not depend on the timestamps at all (as long as they
      parse): rows older than the look-back window are not removed. */
  lemma CleanedIgnoresTimestamps(t: Table, t': Table, isDate: string -> bool)
    requires WellFormed(t) && WellFormed(t') && t.columns == t'.columns
    requires |t.records| == |t'.records|
    requires forall i :: 0 <= i < |t.records| ==> t.records[i].index == t'.records[i].index
    requires forall i, c :: 0 <= i < |t.records| && c in t.records[i].cells && c != "timestamp" ==>
      t'.records[i].cells[c] == t.records[i].cells[c]
    requires DatesReadable(t, isDate) && DatesReadable(t', isDate)
    ensures Cleaned(t, isDate) == Cleaned(t', isDate)
  {
    assert forall i :: 0 <= i < |t.records| ==> t.records[i].cells.Keys == t'.records[i].cells.Keys;
    NumbersReadableIgnoresTimestamps(t, t');
    var name := IndexName(KeptColumns(t.columns));
    if name.Some? {
      RebuiltIgnoresTimestamps(t, t', name.value);
    }
  }

  /** Whether the numbers parse does not depend on the timestamps. */
  lemma NumbersReadableIgnoresTimestamps(t: Table, t': Table)
    requires |t.records| == |t'.records|
    requires forall i :: 0 <= i < |t.records| ==> t.records[i].cells.Keys == t'.records[i].cells.Keys
    requires forall i, c :: 0 <= i < |t.records| && c in t.records[i].cells && c != "timestamp" ==>
      t'.records[i].cells[c] == t.records[i].cells[c]
    ensures NumbersReadable(t) == NumbersReadable(t')
  {
    NumericFieldsKept();
    assert "timestamp" !in NumericFields by {
      assert "timestamp" in DroppedFields;
    }
  }

  lemma RebuiltIgnoresTimestamps(t: Table, t': Table, name: string)
    requires t.columns == t'.columns && |t.records| == |t'.records|
    requires forall i :: 0 <= i < |t.records| ==> t.records[i].index == t'.records[i].index
    requires forall i :: 0 <= i < |t.records| ==> t.records[i].cells.Keys == t'.records[i].cells.Keys
    requires forall i, c :: 0 <= i < |t.records| && c in t.records[i].cells && c != "timestamp" ==>
      t'.records[i].cells[c] == t.records[i].cells[c]
    ensures Rebuilt(t, name) == Rebuilt(t', name)
  {
    var a, b := Rebuilt(t, name).records, Rebuilt(t', name).records;
    forall i | 0 <= i < |t.records|
      ensures a[i] == b[i]
    {
      DropAndBlankIgnoresTimestamp(t.records[i].cells, t'.records[i].cells);
    }
    assert a == b;
  }

  /** An empty frame with every column the clean reads, and a free name for
      the old labels, cleans without error to an empty frame that keeps every
      column not dropped. */
  lemma EmptyCleans(t: Table, isDate: string -> bool)
    requires WellFormed(t) && t.records == []
    requires forall c :: c in DroppedFields ==> c in t.columns
    requires forall f :: f in NumericFields ==> f in t.columns
    requires IndexName(KeptColumns(t.columns)).Some?
    ensures Cleaned(t, isDate).Ok?
    ensures Cleaned(t, isDate).value.records == []
    ensures forall c :: c in t.columns && c !in DroppedFields ==> c in Cleaned(t, isDate).value.columns
  {
    assert "timestamp" == DroppedFields[9];
    CleanedKeepsEveryRow(t, isDate);
    CleanedColumns(t, isDate);
  }
}
