/** Cohort selection: `filterSalaryDF` (analyze.py lines 86-94). */
module Cohort {
  import opened Results
  import opened Sequences
  import opened Strings
  import opened Frames

  /** The title is exactly the target (line 87). */
  predicate HasTitle(r: Record, title: string)
  {
    "title" in r.cells && r.cells["title"] == Text(title)
  }

  /** `str.contains` answers True or False for this row; for a missing or
      numeric location it answers NaN. */
  predicate LocationIsText(r: Record)
  {
    "location" in r.cells && r.cells["location"].Text?
  }

  /** The location contains ", " followed by the region code (lines 88-89). */
  predicate InState(r: Record, state: string)
  {
    LocationIsText(r) && Contains(r.cells["location"].s, ", " + state)
  }

  /** The experience cell is a string, which `<=` cannot compare with a number. */
  predicate ExperienceIsText(r: Record)
  {
    "yearsofexperience" in r.cells && r.cells["yearsofexperience"].Text?
  }

  /** Experience is present and at most the ceiling plus two years of slack
      (lines 91-92); a missing value compares False. */
  predicate WithinExperience(r: Record, maxYoe: int)
  {
    "yearsofexperience" in r.cells && r.cells["yearsofexperience"].Num? &&
    r.cells["yearsofexperience"].x <= (maxYoe + 2) as real
  }

  /** Every test of the filter at once; a ceiling of 0 disables the experience test. */
  predicate InCohort(r: Record, title: string, state: string, maxYoe: int)
  {
    HasTitle(r, title) && InState(r, state) && (maxYoe != 0 ==> WithinExperience(r, maxYoe))
  }

  function TitleMask(title: string): Record -> bool
  {
    r => HasTitle(r, title)
  }

  function StateMask(state: string): Record -> bool
  {
    r => InState(r, state)
  }

  function ExperienceMask(maxYoe: int): Record -> bool
  {
    r => WithinExperience(r, maxYoe)
  }

  function CohortMask(title: string, state: string, maxYoe: int): Record -> bool
  {
    r => InCohort(r, title, state, maxYoe)
  }

  /** What `filterSalaryDF(t, title, state, maxYoe)` returns, or the exception
      it raises. The location test is the literal substring test that a
      regular expression without metacharacters performs. */
  function FilterSalary(t: Table, title: string, state: string, maxYoe: int): (r: Result<Table, Error>)
    requires NoRegexMeta(state)
    ensures r.Ok? ==> r.value.columns == t.columns && |r.value.records| <= |t.records|
    ensures "title" !in t.columns || "location" !in t.columns ==> r == Err(MissingColumn)
  {
    if "title" !in t.columns then Err(MissingColumn)
    else
      var byTitle := Where(t.records, TitleMask(title));
      if "location" !in t.columns then Err(MissingColumn)
      else if exists i :: 0 <= i < |byTitle| && !LocationIsText(byTitle[i]) then Err(MaskHasMissing)
      else
        var byState := Where(byTitle, StateMask(state));
        if maxYoe == 0 then Ok(Table(t.columns, byState))
        else if "yearsofexperience" !in t.columns then Err(MissingColumn)
        else if exists i :: 0 <= i < |byState| && ExperienceIsText(byState[i]) then Err(Uncomparable)
        else Ok(Table(t.columns, Where(byState, ExperienceMask(maxYoe))))
  }

  /** The successive masks amount to one mask: the cohort test. */
  lemma FilterSalaryIsOneMask(t: Table, title: string, state: string, maxYoe: int)
    requires NoRegexMeta(state) && FilterSalary(t, title, state, maxYoe).Ok?
    ensures FilterSalary(t, title, state, maxYoe).value ==
      Table(t.columns, Where(t.records, CohortMask(title, state, maxYoe)))
  {
    var titleAndState := (r: Record) => HasTitle(r, title) && InState(r, state);
    WhereWhere(t.records, TitleMask(title), StateMask(state), titleAndState);
    if maxYoe == 0 {
      WhereWhere(t.records, TitleMask(title), StateMask(state), CohortMask(title, state, maxYoe));
    } else {
      WhereWhere(t.records, titleAndState, ExperienceMask(maxYoe), CohortMask(title, state, maxYoe));
    }
  }

  /** Every row kept passes every test, every input row that passes them is
      kept, and the kept rows keep their order and their labels. */
  lemma FilterSalaryRows(t: Table, title: string, state: string, maxYoe: int)
    requires NoRegexMeta(state) && FilterSalary(t, title, state, maxYoe).Ok?
    ensures var u := FilterSalary(t, title, state, maxYoe).value;
      && u.columns == t.columns
      && (forall i :: 0 <= i < |u.records| ==>
            var r := u.records[i];
            && "title" in r.cells && r.cells["title"] == Text(title)
            && "location" in r.cells && r.cells["location"].Text?
            && Contains(r.cells["location"].s, ", " + state)
            && (maxYoe != 0 ==>
                  "yearsofexperience" in r.cells && r.cells["yearsofexperience"].Num? &&
                  r.cells["yearsofexperience"].x <= (maxYoe + 2) as real))
      && (forall i :: 0 <= i < |t.records| && InCohort(t.records[i], title, state, maxYoe) ==>
            t.records[i] in u.records)
      && IsSubseq(u.records, t.records)
  {
    FilterSalaryIsOneMask(t, title, state, maxYoe);
    WhereIsSubseq(t.records, CohortMask(title, state, maxYoe));
  }

  /** With a ceiling of 0 the experience column is never consulted: the
      result is the title-and-location filter, and its success does not
      depend on the experience column. */
  lemma NoCeilingWhenZero(t: Table, title: string, state: string)
    requires NoRegexMeta(state)
    ensures FilterSalary(t, title, state, 0).Ok? <==>
      "title" in t.columns && "location" in t.columns &&
      forall i :: 0 <= i < |t.records| && HasTitle(t.records[i], title) ==> LocationIsText(t.records[i])
    ensures FilterSalary(t, title, state, 0).Ok? ==>
      FilterSalary(t, title, state, 0).value.records ==
        Where(t.records, (r: Record) => HasTitle(r, title) && InState(r, state))
  {
    TitledLocationsText(t, title);
    WhereWhere(t.records, TitleMask(title), StateMask(state),
      (r: Record) => HasTitle(r, title) && InState(r, state));
  }

  /** Every row kept by the title mask has a text location exactly when
      every row with the title does. */
  lemma TitledLocationsText(t: Table, title: string)
    ensures (forall i :: 0 <= i < |Where(t.records, TitleMask(title))| ==>
               LocationIsText(Where(t.records, TitleMask(title))[i])) <==>
      (forall i :: 0 <= i < |t.records| && HasTitle(t.records[i], title) ==> LocationIsText(t.records[i]))
  {
    var byTitle := Where(t.records, TitleMask(title));
    if forall i :: 0 <= i < |byTitle| ==> LocationIsText(byTitle[i]) {
      forall i | 0 <= i < |t.records| && HasTitle(t.records[i], title)
        ensures LocationIsText(t.records[i])
      {
        assert TitleMask(title)(t.records[i]);
        var k :| 0 <= k < |byTitle| && byTitle[k] == t.records[i];
      }
    }
    if forall i :: 0 <= i < |t.records| && HasTitle(t.records[i], title) ==> LocationIsText(t.records[i]) {
      forall i | 0 <= i < |byTitle| ensures LocationIsText(byTitle[i]) {
        assert byTitle[i] in t.records && TitleMask(title)(byTitle[i]);
        var k :| 0 <= k < |t.records| && t.records[k] == byTitle[i];
        assert HasTitle(t.records[k], title);
      }
    }
  }

  /** A frame without rows that has the columns the filter reads yields an
      empty cohort with the same columns. */
  lemma EmptyFilters(t: Table, title: string, state: string, maxYoe: int)
    requires NoRegexMeta(state) && t.records == []
    requires "title" in t.columns && "location" in t.columns
    requires maxYoe != 0 ==> "yearsofexperience" in t.columns
    ensures FilterSalary(t, title, state, maxYoe) == Ok(Table(t.columns, []))
  {
    assert Where(t.records, TitleMask(title)) == [];
    assert Where([], StateMask(state)) == [];
    assert Where([], ExperienceMask(maxYoe)) == [];
  }
}
