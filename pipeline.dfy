/** The three stages chained as `main` chains them (analyze.py lines 160-172),
    without the download, the prompts and the export. */
module Pipeline {
  import opened Results
  import opened Sequences
  import opened Strings
  import opened Frames
  import opened Cleaning
  import opened Cohort
  import opened Aggregation

  /** The key columns of a downloaded row hold strings or nothing. */
  predicate KeysNotNumbers(r: Record)
  {
    forall c :: c in r.cells && (c == "company" || c == "level") ==> !r.cells[c].Num?
  }

  /** The columns that identify and select a row are neither dropped, nor
      numeric, nor the name of the new index column. */
  lemma DescriptiveFieldsKept(c: string)
    requires c == "company" || c == "level" || c == "title" || c == "location"
    ensures c !in DroppedFields && c !in NumericFields && c != "index" && c != "level_0"
  {
  }

  /** A cleaned cell outside the index, dropped and numeric columns is the
      input cell of the same row with "" made missing. */
  lemma CleanedCellOrigin(raw: Table, isDate: string -> bool, i: int, c: string)
    requires WellFormed(raw) && Cleaned(raw, isDate).Ok?
    requires 0 <= i < |Cleaned(raw, isDate).value.records|
    requires c == "company" || c == "level" || c == "title" || c == "location"
    requires c in Cleaned(raw, isDate).value.records[i].cells
    ensures i < |raw.records| && c in raw.records[i].cells
    ensures Cleaned(raw, isDate).value.records[i].cells[c] == Blank(raw.records[i].cells[c])
  {
    var u := Cleaned(raw, isDate).value;
    DescriptiveFieldsKept(c);
    CleanedKeepsEveryRow(raw, isDate);
    CleanedColumns(raw, isDate);
    CleanedCells(raw, isDate);
    assert c != u.columns[0];
    assert c in u.columns[1..] by {
      assert c in ColumnSet(u.columns);
      var k :| 0 <= k < |u.columns| && u.columns[k] == c;
      assert k != 0;
      assert u.columns[1..][k - 1] == c;
    }
    var kept := KeptColumns(raw.columns);
    var k :| 0 <= k < |kept| && kept[k] == c;
    assert c in raw.columns;
    assert c in ColumnSet(raw.columns);
  }

  /** Blanking only turns "" into missing, so a non-empty string after it was
      that string before it. */
  lemma BlankKeepsText(c: Cell, s: string)
    requires Blank(c) == Text(s)
    ensures c == Text(s) && s != ""
  {
  }

  /** The cleaned frame meets what the aggregation stage reads: numbers or
      missing in the numeric columns, no numbers in the key columns. */
  lemma CleanedIsTyped(raw: Table, isDate: string -> bool)
    requires WellFormed(raw) && Cleaned(raw, isDate).Ok?
    requires forall i :: 0 <= i < |raw.records| ==> KeysNotNumbers(raw.records[i])
    ensures forall i :: 0 <= i < |Cleaned(raw, isDate).value.records| ==>
      Typed(Cleaned(raw, isDate).value.records[i])
  {
    var u := Cleaned(raw, isDate).value;
    CleanedKeepsEveryRow(raw, isDate);
    CleanedCells(raw, isDate);
    forall i | 0 <= i < |u.records| ensures Typed(u.records[i]) {
      var cells := u.records[i].cells;
      forall c | c in cells && (c == Compensation || c == Experience || c == YearsAtCompany)
        ensures !cells[c].Text?
      {
        assert c in NumericFields;
      }
      forall c | c in cells && (c == "company" || c == "level") ensures !cells[c].Num? {
        CleanedCellOrigin(raw, isDate, i, c);
        assert KeysNotNumbers(raw.records[i]);
      }
    }
  }

  /** The cohort keeps whole rows of its input, so it stays typed. */
  lemma CohortIsTyped(u: Table, title: string, state: string, maxYoe: int)
    requires NoRegexMeta(state) && FilterSalary(u, title, state, maxYoe).Ok?
    requires forall i :: 0 <= i < |u.records| ==> Typed(u.records[i])
    ensures forall i :: 0 <= i < |FilterSalary(u, title, state, maxYoe).value.records| ==>
      Typed(FilterSalary(u, title, state, maxYoe).value.records[i])
  {
    FilterSalaryIsOneMask(u, title, state, maxYoe);
    var rs := FilterSalary(u, title, state, maxYoe).value.records;
    forall i | 0 <= i < |rs| ensures Typed(rs[i]) {
      var j :| 0 <= j < |u.records| && u.records[j] == rs[i];
    }
  }

  /** Clean, select the cohort, then trim, group and threshold: the groups
      `main` exports, or the exception a stage raises. Every emitted group
      has mean compensation above `min` and at least one member. */
  function Analyze(raw: Table, isDate: string -> bool, title: string, state: string,
                   maxYoe: int, min: int): (r: Result<seq<Group>, Error>)
    requires WellFormed(raw) && NoRegexMeta(state)
    requires forall i :: 0 <= i < |raw.records| ==> KeysNotNumbers(raw.records[i])
    ensures r.Ok? ==> KeysAscending(r.value)
    ensures r.Ok? ==> forall i :: 0 <= i < |r.value| ==>
      r.value[i].tcMean > min as real && r.value[i].count >= 1
  {
    match Cleaned(raw, isDate)
    case Err(e) => Err(e)
    case Ok(u) =>
      CleanedIsTyped(raw, isDate);
      match FilterSalary(u, title, state, maxYoe)
      case Err(e) => Err(e)
      case Ok(c) =>
        CohortIsTyped(u, title, state, maxYoe);
        if PositionsWithSalaryRange(c, min).Ok? then
          PositionsAboveMinimum(c, min);
          PositionsWithSalaryRange(c, min)
        else
          PositionsWithSalaryRange(c, min)
  }

  /** The downloaded row a group stands for: it has the group's company and
      level, the chosen title and a location in the chosen region. */
  predicate SourceRow(r: Record, g: Group, title: string, state: string)
  {
    "company" in r.cells && r.cells["company"] == Text(g.company) &&
    "level" in r.cells && r.cells["level"] == Text(g.level) &&
    HasTitle(r, title) && InState(r, state)
  }

  /** A cohort row whose key is present came from a downloaded row with the
      same key, title and location. */
  lemma CohortRowOrigin(raw: Table, isDate: string -> bool, title: string, state: string,
                        maxYoe: int, r: Record, g: Group)
    requires WellFormed(raw) && NoRegexMeta(state) && Cleaned(raw, isDate).Ok?
    requires FilterSalary(Cleaned(raw, isDate).value, title, state, maxYoe).Ok?
    requires r in FilterSalary(Cleaned(raw, isDate).value, title, state, maxYoe).value.records
    requires KeyOf(r) == Some(GroupKey(g))
    ensures exists i :: 0 <= i < |raw.records| && SourceRow(raw.records[i], g, title, state)
  {
    var u := Cleaned(raw, isDate).value;
    FilterSalaryIsOneMask(u, title, state, maxYoe);
    var m :| 0 <= m < |u.records| && u.records[m] == r;
    assert InCohort(r, title, state, maxYoe);
    CleanedCellOrigin(raw, isDate, m, "company");
    CleanedCellOrigin(raw, isDate, m, "level");
    CleanedCellOrigin(raw, isDate, m, "title");
    CleanedCellOrigin(raw, isDate, m, "location");
    var cells := raw.records[m].cells;
    BlankKeepsText(cells["company"], g.company);
    BlankKeepsText(cells["level"], g.level);
    BlankKeepsText(cells["title"], title);
    BlankKeepsText(cells["location"], r.cells["location"].s);
    assert SourceRow(raw.records[m], g, title, state);
  }

  /** Every group of the aggregation stage has the key of one of its input rows. */
  lemma GroupHasMember(c: Table, min: int, g: Group)
    requires forall i :: 0 <= i < |c.records| ==> Typed(c.records[i])
    requires PositionsWithSalaryRange(c, min).Ok?
    requires g in PositionsWithSalaryRange(c, min).value
    ensures exists r :: r in c.records && KeyOf(r) == Some(GroupKey(g))
  {
    assert Band(c.records).Some?;
    var lo, hi := Band(c.records).value.0, Band(c.records).value.1;
    var trimmed := Trimmed(c.records);
    TrimmedInBand(c.records);
    var all := Groups(trimmed, lo, hi);
    var gs := Where(all, AboveMask(min));
    assert PositionsWithSalaryRange(c, min).value == gs;
    var k :| 0 <= k < |gs| && gs[k] == g;
    var n :| 0 <= n < |all| && all[n] == g;
    GroupAt(trimmed, lo, hi, n);
    KeyFromInput(c.records, n);
  }

  /** Each key of the trimmed rows is the key of some input row. */
  lemma KeyFromInput(rs: seq<Record>, n: int)
    requires 0 <= n < |Keys(Trimmed(rs))|
    ensures exists r :: r in rs && KeyOf(r) == Some(Keys(Trimmed(rs))[n])
  {
    var trimmed := Trimmed(rs);
    var j :| 0 <= j < |trimmed| && KeyOf(trimmed[j]) == Some(Keys(trimmed)[n]);
    TrimmedRowsFromInput(rs);
    assert trimmed[j] in rs;
  }

  /** A successful run passed every stage: the groups are those of the cohort
      of the cleaned frame. */
  lemma AnalyzeUnfold(raw: Table, isDate: string -> bool, title: string,
                      state: string, maxYoe: int, min: int)
    requires WellFormed(raw) && NoRegexMeta(state)
    requires forall i :: 0 <= i < |raw.records| ==> KeysNotNumbers(raw.records[i])
    requires Analyze(raw, isDate, title, state, maxYoe, min).Ok?
    ensures Cleaned(raw, isDate).Ok?
    ensures FilterSalary(Cleaned(raw, isDate).value, title, state, maxYoe).Ok?
    ensures var c := FilterSalary(Cleaned(raw, isDate).value, title, state, maxYoe).value;
      && (forall i :: 0 <= i < |c.records| ==> Typed(c.records[i]))
      && Analyze(raw, isDate, title, state, maxYoe, min) == PositionsWithSalaryRange(c, min)
  {
    CleanedIsTyped(raw, isDate);
    CohortIsTyped(Cleaned(raw, isDate).value, title, state, maxYoe);
  }

  /** Every position `main` exports is the company and level of some
      downloaded row with the chosen title, located in the chosen region. */
  lemma ExportedPositionsComeFromCohort(raw: Table, isDate: string -> bool, title: string,
                          state: string, maxYoe: int, min: int, g: Group)
    requires WellFormed(raw) && NoRegexMeta(state)
    requires forall i :: 0 <= i < |raw.records| ==> KeysNotNumbers(raw.records[i])
    requires Analyze(raw, isDate, title, state, maxYoe, min).Ok?
    requires g in Analyze(raw, isDate, title, state, maxYoe, min).value
    ensures exists i :: 0 <= i < |raw.records| && SourceRow(raw.records[i], g, title, state)
  {
    AnalyzeUnfold(raw, isDate, title, state, maxYoe, min);
    var c := FilterSalary(Cleaned(raw, isDate).value, title, state, maxYoe).value;
    GroupHasMember(c, min, g);
    var r :| r in c.records && KeyOf(r) == Some(GroupKey(g));
    CohortRowOrigin(raw, isDate, title, state, maxYoe, r, g);
  }

  /** An empty download yields no groups, whenever no stage raises. */
  lemma EmptyDownloadNoGroups(raw: Table, isDate: string -> bool, title: string,
                              state: string, maxYoe: int, min: int)
    requires WellFormed(raw) && NoRegexMeta(state) && raw.records == []
    requires Analyze(raw, isDate, title, state, maxYoe, min).Ok?
    ensures Analyze(raw, isDate, title, state, maxYoe, min).value == []
  {
    CleanedKeepsEveryRow(raw, isDate);
    var u := Cleaned(raw, isDate).value;
    FilterSalaryIsOneMask(u, title, state, maxYoe);
    var c := FilterSalary(u, title, state, maxYoe).value;
    assert c.records == [];
    assert Present(c.records, Compensation) == [];
    NoCompensationNoGroups(c, min);
  }

  /** An empty download that has every column the stages read, and a free name
      for the old labels, raises nothing and exports no positions. */
  lemma EmptyDownloadSucceeds(raw: Table, isDate: string -> bool, title: string,
                              state: string, maxYoe: int, min: int)
    requires WellFormed(raw) && NoRegexMeta(state) && raw.records == []
    requires forall c :: c in DroppedFields ==> c in raw.columns
    requires forall f :: f in NumericFields ==> f in raw.columns
    requires "company" in raw.columns && "level" in raw.columns
    requires "title" in raw.columns && "location" in raw.columns
    requires IndexName(KeptColumns(raw.columns)).Some?
    ensures Analyze(raw, isDate, title, state, maxYoe, min) == Ok([])
  {
    EmptyCleans(raw, isDate);
    var u := Cleaned(raw, isDate).value;
    EmptyCleanedHasColumns(raw, u);
    EmptyFilters(u, title, state, maxYoe);
    var c := Table(u.columns, []);
    NoCompensationNoGroups(c, min);
  }

  /** The columns the filter and the aggregation read survive the clean. */
  lemma EmptyCleanedHasColumns(raw: Table, u: Table)
    requires forall c :: c in raw.columns && c !in DroppedFields ==> c in u.columns
    requires forall f :: f in NumericFields ==> f in raw.columns
    requires "company" in raw.columns && "level" in raw.columns
    requires "title" in raw.columns && "location" in raw.columns
    ensures "title" in u.columns && "location" in u.columns
    ensures HasAggregateColumns(Table(u.columns, []))
  {
    NumericFieldsKept();
    DescriptiveFieldsKept("company");
    DescriptiveFieldsKept("level");
    DescriptiveFieldsKept("title");
    DescriptiveFieldsKept("location");
    assert Experience == NumericFields[0] && Compensation == NumericFields[1] && YearsAtCompany == NumericFields[2];
  }
}
