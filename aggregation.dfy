/** Trim, group and threshold: `getPositionsWithSalaryRange` (analyze.py lines 99-122). */
module Aggregation {
  import opened Results
  import opened Sequences
  import opened Strings
  import opened Frames
  import opened Stats

  const Compensation := "totalyearlycompensation"
  const Experience := "yearsofexperience"
  const YearsAtCompany := "yearsatcompany"

  /** The quantile levels of the trimming band (line 102). */
  const Lower: real := 0.05
  const Upper: real := 0.95

  /** A grouping key: (company, level). */
  type Key = (string, string)

  /** pandas' sort order on keys: by company, then by level. */
  predicate KeyLess(a: Key, b: Key)
  {
    Less(a.0, b.0) || (a.0 == b.0 && Less(a.1, b.1))
  }

  lemma KeyLessIrreflexive(a: Key)
    ensures !KeyLess(a, a)
  {
    LessIrreflexive(a.0);
    LessIrreflexive(a.1);
  }

  lemma KeyLessTransitive(a: Key, b: Key, c: Key)
    requires KeyLess(a, b) && KeyLess(b, c)
    ensures KeyLess(a, c)
  {
    if Less(a.0, b.0) && Less(b.0, c.0) {
      LessTransitive(a.0, b.0, c.0);
    } else if Less(a.1, b.1) && Less(b.1, c.1) && a.0 == b.0 && b.0 == c.0 {
      LessTransitive(a.1, b.1, c.1);
    }
  }

  lemma KeyLessTotal(a: Key, b: Key)
    requires a != b
    ensures KeyLess(a, b) || KeyLess(b, a)
  {
    if a.0 != b.0 {
      LessTotal(a.0, b.0);
    } else {
      LessTotal(a.1, b.1);
    }
  }

  /** Strictly ascending, hence free of repeats. */
  ghost predicate Ascending(ks: seq<Key>)
  {
    forall i, j :: 0 <= i < j < |ks| ==> KeyLess(ks[i], ks[j])
  }

  /** `ks` with `k` added in its place, unless it is there already. */
  function InsertKey(k: Key, ks: seq<Key>): (r: seq<Key>)
    requires Ascending(ks)
    ensures Ascending(r)
    ensures forall x :: x in r <==> x == k || x in ks
  {
    if ks == [] then [k]
    else if k == ks[0] then ks
    else if KeyLess(k, ks[0]) then
      assert forall j :: 0 < j < |ks| ==> KeyLess(k, ks[j]) by {
        forall j | 0 < j < |ks| ensures KeyLess(k, ks[j]) {
          KeyLessTransitive(k, ks[0], ks[j]);
        }
      }
      [k] + ks
    else
      KeyLessTotal(k, ks[0]);
      var rest := InsertKey(k, ks[1..]);
      assert forall j :: 0 <= j < |rest| ==> KeyLess(ks[0], rest[j]) by {
        forall j | 0 <= j < |rest| ensures KeyLess(ks[0], rest[j]) {
          if rest[j] != k {
            assert rest[j] in ks[1..];
          }
        }
      }
      [ks[0]] + rest
  }

  /** The present (numeric) compensation of a row. */
  function Comp(r: Record): Option<real>
  {
    if Compensation in r.cells && r.cells[Compensation].Num? then Some(r.cells[Compensation].x) else None
  }

  /** The row's group key; None when the company or the level is missing
      (`groupby` drops such rows). */
  function KeyOf(r: Record): (k: Option<Key>)
    ensures k.Some? ==>
      "company" in r.cells && r.cells["company"] == Text(k.value.0) &&
      "level" in r.cells && r.cells["level"] == Text(k.value.1)
    ensures k.None? ==>
      !("company" in r.cells && r.cells["company"].Text? && "level" in r.cells && r.cells["level"].Text?)
  {
    if "company" in r.cells && r.cells["company"].Text? && "level" in r.cells && r.cells["level"].Text?
    then Some((r.cells["company"].s, r.cells["level"].s))
    else None
  }

  /** The present values of a numeric column, in row order (what pandas'
      reductions see after skipping NaN). */
  function Present(rs: seq<Record>, col: string): (r: seq<real>)
    ensures |r| <= |rs|
    ensures forall j :: 0 <= j < |rs| && col in rs[j].cells && rs[j].cells[col].Num? ==>
      rs[j].cells[col].x in r
    ensures (forall j :: 0 <= j < |rs| ==> col in rs[j].cells && rs[j].cells[col].Num?) ==> |r| == |rs|
  {
    if rs == [] then []
    else
      var rest := Present(rs[1..], col);
      assert forall j :: 1 <= j < |rs| ==> rs[j] == rs[1..][j - 1];
      if col in rs[0].cells && rs[0].cells[col].Num? then [rs[0].cells[col].x] + rest else rest
  }

  /** Every present value was read from a numeric cell of the column. */
  lemma {:induction false} PresentFromCell(rs: seq<Record>, col: string, i: int)
    requires 0 <= i < |Present(rs, col)|
    ensures exists j :: 0 <= j < |rs| && col in rs[j].cells && rs[j].cells[col] == Num(Present(rs, col)[i])
    decreases |rs|
  {
    var tail := rs[1..];
    var rest := Present(tail, col);
    var k := i;
    if col in rs[0].cells && rs[0].cells[col].Num? {
      assert Present(rs, col) == [rs[0].cells[col].x] + rest;
      if i == 0 {
        assert rs[0].cells[col] == Num(Present(rs, col)[0]);
        return;
      }
      k := i - 1;
    } else {
      assert Present(rs, col) == rest;
    }
    assert Present(rs, col)[i] == rest[k];
    PresentFromCell(tail, col, k);
    var j :| 0 <= j < |tail| && col in tail[j].cells && tail[j].cells[col] == Num(rest[k]);
    assert rs[j + 1] == tail[j];
  }

  /** The rows whose cell in `col` is a number. */
  function NumMask(col: string): Record -> bool
  {
    (r: Record) => col in r.cells && r.cells[col].Num?
  }

  /** `v` lists, one for one, the numbers the rows `w` hold in `col`. */
  predicate NumbersOf(v: seq<real>, w: seq<Record>, col: string)
  {
    |v| == |w| && forall i :: 0 <= i < |w| ==> col in w[i].cells && w[i].cells[col] == Num(v[i])
  }

  /** The present values are exactly the numbers of the rows that have one in
      `col`: one value per such row, duplicates included, in row order. */
  lemma {:induction false} PresentIsNumericRows(rs: seq<Record>, col: string)
    ensures NumbersOf(Present(rs, col), Where(rs, NumMask(col)), col)
  {
    if rs != [] {
      PresentIsNumericRows(rs[1..], col);
      PresentStep(rs, col);
    }
  }

  /** One step of `PresentIsNumericRows`: the first row adds a value exactly
      when it adds a row. */
  lemma PresentStep(rs: seq<Record>, col: string)
    requires rs != []
    requires NumbersOf(Present(rs[1..], col), Where(rs[1..], NumMask(col)), col)
    ensures NumbersOf(Present(rs, col), Where(rs, NumMask(col)), col)
  {
    var w, w' := Where(rs, NumMask(col)), Where(rs[1..], NumMask(col));
    var v, v' := Present(rs, col), Present(rs[1..], col);
    if col in rs[0].cells && rs[0].cells[col].Num? {
      assert NumMask(col)(rs[0]);
      assert w == [rs[0]] + w';
      assert v == [rs[0].cells[col].x] + v';
      NumbersOfCons(rs[0].cells[col].x, v', rs[0], w', col);
    } else {
      assert !NumMask(col)(rs[0]);
      assert w == w';
      assert v == v';
    }
  }

  lemma NumbersOfCons(x: real, v: seq<real>, r: Record, w: seq<Record>, col: string)
    requires NumbersOf(v, w, col)
    requires col in r.cells && r.cells[col] == Num(x)
    ensures NumbersOf([x] + v, [r] + w, col)
  {
    forall i | 0 < i < |w| + 1 ensures col in ([r] + w)[i].cells && ([r] + w)[i].cells[col] == Num(([x] + v)[i]) {
      assert ([r] + w)[i] == w[i - 1] && ([x] + v)[i] == v[i - 1];
    }
  }

  /** Compensation present and within [lo, hi] (`between`, both ends included). */
  predicate InBand(r: Record, lo: real, hi: real)
  {
    Comp(r).Some? && lo <= Comp(r).value <= hi
  }

  function BandMask(lo: real, hi: real): Record -> bool
  {
    r => InBand(r, lo, hi)
  }

  function KeyMask(k: Key): Record -> bool
  {
    r => KeyOf(r) == Some(k)
  }

  /** The 5% and 95% quantiles of the cohort's present compensations. */
  function Band(rs: seq<Record>): (b: Option<(real, real)>)
    ensures b.None? <==> Present(rs, Compensation) == []
  {
    var comps := Present(rs, Compensation);
    if comps == [] then None
    else Some((Quantile(comps, Lower).value, Quantile(comps, Upper).value))
  }

  /** The lower end of the band never exceeds its upper end. */
  lemma BandOrdered(rs: seq<Record>)
    ensures Band(rs).Some? ==> Band(rs).value.0 <= Band(rs).value.1
  {
    var comps := Present(rs, Compensation);
    if comps != [] {
      QuantileMonotone(comps, Lower, Upper);
    }
  }

  /** Lines 100-103: the rows whose compensation lies in the band; none when
      there is no present compensation (the quantiles are NaN and `between`
      is False everywhere). */
  function Trimmed(rs: seq<Record>): (r: seq<Record>)
    ensures |r| <= |rs|
    ensures Band(rs).None? ==> r == []
  {
    match Band(rs)
    case None => []
    case Some((lo, hi)) => Where(rs, BandMask(lo, hi))
  }

  /** The distinct keys of the rows that have one, in ascending order. */
  function Keys(rs: seq<Record>): (ks: seq<Key>)
    ensures Ascending(ks)
    ensures forall k :: k in ks ==> exists i :: 0 <= i < |rs| && KeyOf(rs[i]) == Some(k)
    ensures forall i :: 0 <= i < |rs| && KeyOf(rs[i]).Some? ==> KeyOf(rs[i]).value in ks
  {
    if rs == [] then []
    else
      var rest := Keys(rs[1..]);
      assert forall k :: k in rest ==> exists i :: 0 <= i < |rs| && KeyOf(rs[i]) == Some(k) by {
        forall k | k in rest ensures exists i :: 0 <= i < |rs| && KeyOf(rs[i]) == Some(k) {
          var i :| 0 <= i < |rs[1..]| && KeyOf(rs[1..][i]) == Some(k);
          assert rs[i + 1] == rs[1..][i];
        }
      }
      assert forall i :: 1 <= i < |rs| ==> rs[i] == rs[1..][i - 1];
      match KeyOf(rs[0])
      case None => rest
      case Some(k) => InsertKey(k, rest)
  }

  /** The rows of one group. */
  function Members(rs: seq<Record>, k: Key): seq<Record>
  {
    Where(rs, KeyMask(k))
  }

  /** One row of the result: the group key, its statistics and its size.
      Standard deviations are carried as sample variances (std is their
      square root); None is NaN. */
  datatype Group = Group(
    company: string,
    level: string,
    tcMean: real,
    tcVariance: Option<real>,
    yoeMean: Option<real>,
    yoeVariance: Option<real>,
    yearsAtCompanyMean: Option<real>,
    count: nat)

  function GroupKey(g: Group): Key
  {
    (g.company, g.level)
  }

  /** Lines 104-118 for one group: `size()` and the `agg` statistics. */
  function Summarize(k: Key, members: seq<Record>): (g: Group)
    requires Present(members, Compensation) != []
    ensures GroupKey(g) == k && g.count == |members| && g.count >= 1
    ensures Mean(Present(members, Compensation)) == Some(g.tcMean)
  {
    var tc := Present(members, Compensation);
    var yoe := Present(members, Experience);
    Group(k.0, k.1, Mean(tc).value, SampleVariance(tc), Mean(yoe), SampleVariance(yoe),
          Mean(Present(members, YearsAtCompany)), |members|)
  }

  /** Rows that all lie in the band have one present compensation each, all in the band. */
  lemma PresentInBand(rs: seq<Record>, lo: real, hi: real)
    requires forall i :: 0 <= i < |rs| ==> InBand(rs[i], lo, hi)
    ensures |Present(rs, Compensation)| == |rs|
    ensures forall i :: 0 <= i < |Present(rs, Compensation)| ==> lo <= Present(rs, Compensation)[i] <= hi
  {
    var tc := Present(rs, Compensation);
    forall j | 0 <= j < |tc| ensures lo <= tc[j] <= hi {
      PresentFromCell(rs, Compensation, j);
      var m :| 0 <= m < |rs| && Compensation in rs[m].cells && rs[m].cells[Compensation] == Num(tc[j]);
      assert InBand(rs[m], lo, hi);
    }
  }

  /** Every row of a group of trimmed rows has a present compensation, and there is one. */
  lemma MembersHaveCompensation(rs: seq<Record>, lo: real, hi: real, k: Key)
    requires forall i :: 0 <= i < |rs| ==> InBand(rs[i], lo, hi)
    requires k in Keys(rs)
    ensures Members(rs, k) != []
    ensures |Present(Members(rs, k), Compensation)| == |Members(rs, k)|
    ensures forall i :: 0 <= i < |Present(Members(rs, k), Compensation)| ==>
      lo <= Present(Members(rs, k), Compensation)[i] <= hi
  {
    var ms := Members(rs, k);
    var i :| 0 <= i < |rs| && KeyOf(rs[i]) == Some(k);
    assert rs[i] in ms;
    forall j | 0 <= j < |ms| ensures InBand(ms[j], lo, hi) {
      assert ms[j] in rs;
      var m :| 0 <= m < |rs| && rs[m] == ms[j];
    }
    PresentInBand(ms, lo, hi);
  }

  /** Every row kept by the trim lies in the band. */
  lemma TrimmedInBand(rs: seq<Record>)
    ensures Trimmed(rs) != [] ==> Band(rs).Some?
    ensures Band(rs).Some? ==> forall i :: 0 <= i < |Trimmed(rs)| ==>
      InBand(Trimmed(rs)[i], Band(rs).value.0, Band(rs).value.1)
  {
  }

  /** One group per key, in ascending key order. */
  function Groups(trimmed: seq<Record>, lo: real, hi: real): (gs: seq<Group>)
    requires forall i :: 0 <= i < |trimmed| ==> InBand(trimmed[i], lo, hi)
    ensures |gs| == |Keys(trimmed)|
  {
    var ks := Keys(trimmed);
    seq(|ks|, i requires 0 <= i < |ks| =>
      MembersHaveCompensation(trimmed, lo, hi, ks[i]);
      Summarize(ks[i], Members(trimmed, ks[i])))
  }

  function AboveMask(min: int): Group -> bool
  {
    (g: Group) => g.tcMean > min as real
  }

  /** The columns the stage reads: a missing one raises KeyError. */
  predicate HasAggregateColumns(t: Table)
  {
    Compensation in t.columns && "company" in t.columns && "level" in t.columns &&
    Experience in t.columns && YearsAtCompany in t.columns
  }

  /** The numeric columns hold numbers or missing, and the key columns hold
      strings or missing, as the cleaning stage leaves them. */
  predicate Typed(r: Record)
  {
    (forall c :: c in r.cells && (c == Compensation || c == Experience || c == YearsAtCompany) ==>
      !r.cells[c].Text?) &&
    (forall c :: c in r.cells && (c == "company" || c == "level") ==> !r.cells[c].Num?)
  }

  /** What `getPositionsWithSalaryRange(t, min)` returns: the groups of the
      trimmed cohort, in ascending key order, whose mean compensation is
      strictly above `min`. */
  function PositionsWithSalaryRange(t: Table, min: int): (r: Result<seq<Group>, Error>)
    requires forall i :: 0 <= i < |t.records| ==> Typed(t.records[i])
    ensures r.Err? <==> !HasAggregateColumns(t)
    ensures r.Err? ==> r.error == MissingColumn
  {
    if !HasAggregateColumns(t) then Err(MissingColumn)
    else match Band(t.records)
      case None => Ok([])
      case Some((lo, hi)) =>
        var trimmed := Trimmed(t.records);
        Ok(Where(Groups(trimmed, lo, hi), AboveMask(min)))
  }

  // ---- What the stage guarantees ----

  /** Keys strictly ascending: sorted and unique. */
  ghost predicate KeysAscending(gs: seq<Group>)
  {
    forall i, j :: 0 <= i < j < |gs| ==> KeyLess(GroupKey(gs[i]), GroupKey(gs[j]))
  }

  /** The i-th group of the trimmed rows: its key is the i-th key, it counts
      exactly the rows with that key (at least one), and its mean lies in the band. */
  lemma GroupAt(trimmed: seq<Record>, lo: real, hi: real, i: int)
    requires forall j :: 0 <= j < |trimmed| ==> InBand(trimmed[j], lo, hi)
    requires 0 <= i < |Keys(trimmed)|
    ensures |Groups(trimmed, lo, hi)| == |Keys(trimmed)|
    ensures var g := Groups(trimmed, lo, hi)[i];
      && GroupKey(g) == Keys(trimmed)[i]
      && g.count >= 1
      && g.count == |Members(trimmed, GroupKey(g))|
      && lo <= g.tcMean <= hi
      && Present(Members(trimmed, GroupKey(g)), Compensation) != []
      && g == Summarize(GroupKey(g), Members(trimmed, GroupKey(g)))
  {
    var k := Keys(trimmed)[i];
    MembersHaveCompensation(trimmed, lo, hi, k);
    MeanWithin(Present(Members(trimmed, k), Compensation), lo, hi);
  }

  /** The groups come in strictly ascending key order. */
  lemma GroupsAscending(trimmed: seq<Record>, lo: real, hi: real)
    requires forall j :: 0 <= j < |trimmed| ==> InBand(trimmed[j], lo, hi)
    ensures KeysAscending(Groups(trimmed, lo, hi))
  {
    var gs := Groups(trimmed, lo, hi);
    var ks := Keys(trimmed);
    forall i, j | 0 <= i < j < |gs| ensures KeyLess(GroupKey(gs[i]), GroupKey(gs[j])) {
      assert GroupKey(gs[i]) == ks[i] && GroupKey(gs[j]) == ks[j];
    }
  }

  /** Every trimmed row that has a key belongs to one of the groups. */
  lemma GroupsCoverRows(trimmed: seq<Record>, lo: real, hi: real)
    requires forall j :: 0 <= j < |trimmed| ==> InBand(trimmed[j], lo, hi)
    ensures forall j :: 0 <= j < |trimmed| && KeyOf(trimmed[j]).Some? ==>
      exists i :: 0 <= i < |Groups(trimmed, lo, hi)| &&
        GroupKey(Groups(trimmed, lo, hi)[i]) == KeyOf(trimmed[j]).value
  {
    var gs := Groups(trimmed, lo, hi);
    var ks := Keys(trimmed);
    forall j | 0 <= j < |trimmed| && KeyOf(trimmed[j]).Some?
      ensures exists i :: 0 <= i < |gs| && GroupKey(gs[i]) == KeyOf(trimmed[j]).value
    {
      var i :| 0 <= i < |ks| && ks[i] == KeyOf(trimmed[j]).value;
      assert GroupKey(gs[i]) == ks[i];
    }
  }

  /** Every emitted group has mean compensation strictly above `min` and
      inside the [5%, 95%] band of the cohort, counts exactly the trimmed rows
      with its key (at least one), and the keys are unique and ascending. */
  lemma PositionsAboveMinimum(t: Table, min: int)
    requires forall i :: 0 <= i < |t.records| ==> Typed(t.records[i])
    requires PositionsWithSalaryRange(t, min).Ok?
    ensures var gs := PositionsWithSalaryRange(t, min).value;
      && KeysAscending(gs)
      && forall i :: 0 <= i < |gs| ==>
           && gs[i].tcMean > min as real
           && gs[i].count >= 1
           && gs[i].count == |Members(Trimmed(t.records), GroupKey(gs[i]))|
           && Band(t.records).Some?
           && Band(t.records).value.0 <= gs[i].tcMean <= Band(t.records).value.1
           && Present(Members(Trimmed(t.records), GroupKey(gs[i])), Compensation) != []
           && gs[i] == Summarize(GroupKey(gs[i]), Members(Trimmed(t.records), GroupKey(gs[i])))
  {
    if Band(t.records).Some? {
      var (lo, hi) := Band(t.records).value;
      var trimmed := Trimmed(t.records);
      TrimmedInBand(t.records);
      assert PositionsWithSalaryRange(t, min).value == Where(Groups(trimmed, lo, hi), AboveMask(min));
      EmittedAscending(trimmed, lo, hi, min);
      forall i | 0 <= i < |Where(Groups(trimmed, lo, hi), AboveMask(min))| {
        EmittedAt(trimmed, lo, hi, min, i);
      }
    }
  }

  /** Thresholding keeps the keys ascending. */
  lemma EmittedAscending(trimmed: seq<Record>, lo: real, hi: real, min: int)
    requires forall j :: 0 <= j < |trimmed| ==> InBand(trimmed[j], lo, hi)
    ensures KeysAscending(Where(Groups(trimmed, lo, hi), AboveMask(min)))
  {
    GroupsAscending(trimmed, lo, hi);
    var all := Groups(trimmed, lo, hi);
    var rel := (a: Group, b: Group) => KeyLess(GroupKey(a), GroupKey(b));
    assert Pairwise(all, rel);
    WherePairwise(all, AboveMask(min), rel);
  }

  /** One emitted group: above `min`, inside the band, with its member count. */
  lemma EmittedAt(trimmed: seq<Record>, lo: real, hi: real, min: int, i: int)
    requires forall j :: 0 <= j < |trimmed| ==> InBand(trimmed[j], lo, hi)
    requires 0 <= i < |Where(Groups(trimmed, lo, hi), AboveMask(min))|
    ensures var g := Where(Groups(trimmed, lo, hi), AboveMask(min))[i];
      && g.tcMean > min as real
      && g.count >= 1 && g.count == |Members(trimmed, GroupKey(g))|
      && lo <= g.tcMean <= hi
      && Present(Members(trimmed, GroupKey(g)), Compensation) != []
      && g == Summarize(GroupKey(g), Members(trimmed, GroupKey(g)))
  {
    var all := Groups(trimmed, lo, hi);
    var g := Where(all, AboveMask(min))[i];
    assert AboveMask(min)(g);
    var j :| 0 <= j < |all| && all[j] == g;
    GroupAt(trimmed, lo, hi, j);
  }

  /** No group of the trimmed rows is lost: each is emitted exactly when its
      mean exceeds `min` (with GroupsCoverRows, every keyed row of the trimmed
      cohort is accounted for). */
  lemma PositionsComplete(t: Table, min: int)
    requires forall i :: 0 <= i < |t.records| ==> Typed(t.records[i])
    requires HasAggregateColumns(t) && Band(t.records).Some?
    ensures PositionsWithSalaryRange(t, min).Ok?
    ensures forall g :: g in Groups(Trimmed(t.records), Band(t.records).value.0, Band(t.records).value.1) ==>
      (g in PositionsWithSalaryRange(t, min).value <==> g.tcMean > min as real)
  {
    var lo, hi := Band(t.records).value.0, Band(t.records).value.1;
    var trimmed := Trimmed(t.records);
    TrimmedInBand(t.records);
    var all := Groups(trimmed, lo, hi);
    assert PositionsWithSalaryRange(t, min).value == Where(all, AboveMask(min));
    forall g | g in all ensures g in Where(all, AboveMask(min)) <==> g.tcMean > min as real {
      var i :| 0 <= i < |all| && all[i] == g;
      Emitted(all, min, i);
    }
  }

  /** A group survives the threshold exactly when its mean exceeds `min`. */
  lemma Emitted(all: seq<Group>, min: int, i: int)
    requires 0 <= i < |all|
    ensures all[i] in Where(all, AboveMask(min)) <==> all[i].tcMean > min as real
  {
    var gs := Where(all, AboveMask(min));
    if all[i] in gs {
      var k :| 0 <= k < |gs| && gs[k] == all[i];
    }
  }

  /** The trim keeps exactly the rows whose compensation lies in the band,
      in their original order. */
  lemma TrimmedExactly(rs: seq<Record>)
    requires Band(rs).Some?
    ensures IsSubseq(Trimmed(rs), rs)
    ensures forall j :: 0 <= j < |rs| ==>
      (rs[j] in Trimmed(rs) <==> InBand(rs[j], Band(rs).value.0, Band(rs).value.1))
  {
    var (lo, hi) := Band(rs).value;
    var tr := Where(rs, BandMask(lo, hi));
    assert Trimmed(rs) == tr;
    assert IsSubseq(tr, rs) by {
      WhereIsSubseq(rs, BandMask(lo, hi));
    }
    forall j | 0 <= j < |rs|
      ensures rs[j] in tr <==> InBand(rs[j], lo, hi)
    {
      if rs[j] in tr {
        var k :| 0 <= k < |tr| && tr[k] == rs[j];
        assert BandMask(lo, hi)(tr[k]);
      }
      if InBand(rs[j], lo, hi) {
        assert BandMask(lo, hi)(rs[j]);
      }
    }
  }

  /** The trim only keeps rows of its input. */
  lemma TrimmedRowsFromInput(rs: seq<Record>)
    ensures forall i :: 0 <= i < |Trimmed(rs)| ==> Trimmed(rs)[i] in rs
  {
  }

  /** A trim that keeps nothing yields no groups. */
  lemma EmptyTrimNoGroups(t: Table, min: int)
    requires forall i :: 0 <= i < |t.records| ==> Typed(t.records[i])
    requires HasAggregateColumns(t) && Trimmed(t.records) == []
    ensures PositionsWithSalaryRange(t, min) == Ok([])
  {
    if Band(t.records).Some? {
      var (lo, hi) := Band(t.records).value;
      assert Keys([]) == [];
      assert Groups([], lo, hi) == [];
    }
  }

  /** An empty cohort, or one without any present compensation, yields no
      groups and raises nothing. */
  lemma NoCompensationNoGroups(t: Table, min: int)
    requires forall i :: 0 <= i < |t.records| ==> Typed(t.records[i])
    requires HasAggregateColumns(t) && Present(t.records, Compensation) == []
    ensures PositionsWithSalaryRange(t, min) == Ok([])
  {
  }

  /** With two distinct values, in either order, the 5% quantile lies
      strictly above the smaller and the 95% quantile strictly below the larger. */
  lemma TwoValueBand(a: real, b: real)
    requires a < b
    ensures Quantile([b, a], Lower) == Quantile([a, b], Lower)
    ensures Quantile([b, a], Upper) == Quantile([a, b], Upper)
    ensures a < Quantile([a, b], Lower).value
    ensures Quantile([a, b], Upper).value < b
  {
    QuantileOfPair(a, b, Lower);
    QuantileOfPair(a, b, Upper);
    LowerOfPair(a, b);
    UpperOfPair(a, b);
  }

  /** The 5% point of two sorted distinct values lies above the smaller. */
  lemma LowerOfPair(a: real, b: real)
    requires a < b
    ensures a < Interpolate([a, b], Lower)
  {
    var x := [a, b];
    assert Rank(2, Lower) == 0;
    var f := (|x| - 1) as real * Lower - 0 as real;
    assert f == 0.05;
    var d := x[1] - x[0];
    assert d == b - a;
    assert Interpolate(x, Lower) == x[0] + f * d;
  }

  /** The 95% point of two sorted distinct values lies below the larger. */
  lemma UpperOfPair(a: real, b: real)
    requires a < b
    ensures Interpolate([a, b], Upper) < b
  {
    var x := [a, b];
    assert Rank(2, Upper) == 0;
    var f := (|x| - 1) as real * Upper - 0 as real;
    assert f == 0.95;
    var d := x[1] - x[0];
    assert d == b - a;
    assert Interpolate(x, Upper) == x[0] + f * d;
  }

  /** With only two distinct compensations the band lies strictly between
      them, so the trim removes every row and no group is emitted. */
  lemma TwoCompensationsLeaveNothing(t: Table, min: int, a: real, b: real)
    requires forall i :: 0 <= i < |t.records| ==> Typed(t.records[i])
    requires HasAggregateColumns(t) && a < b
    requires Present(t.records, Compensation) == [a, b] || Present(t.records, Compensation) == [b, a]
    ensures PositionsWithSalaryRange(t, min) == Ok([])
  {
    TwoValuesTrimAll(t.records, a, b);
    EmptyTrimNoGroups(t, min);
  }

  /** Rows whose present compensations are two distinct values are all trimmed. */
  lemma TwoValuesTrimAll(rs: seq<Record>, a: real, b: real)
    requires a < b
    requires Present(rs, Compensation) == [a, b] || Present(rs, Compensation) == [b, a]
    ensures Trimmed(rs) == []
  {
    TwoValuesOutsideBand(rs, a, b);
    BandMissesEveryRow(rs);
  }

  lemma TwoValuesOutsideBand(rs: seq<Record>, a: real, b: real)
    requires a < b
    requires Present(rs, Compensation) == [a, b] || Present(rs, Compensation) == [b, a]
    ensures Band(rs).Some?
    ensures var comps := Present(rs, Compensation);
      forall i :: 0 <= i < |comps| ==> !(Band(rs).value.0 <= comps[i] <= Band(rs).value.1)
  {
    TwoValueBandOf(rs, a, b);
    PairOutsideBand(Present(rs, Compensation), a, b, Band(rs).value.0, Band(rs).value.1);
  }

  /** The band of rows whose present compensations are two distinct values. */
  lemma TwoValueBandOf(rs: seq<Record>, a: real, b: real)
    requires a < b
    requires Present(rs, Compensation) == [a, b] || Present(rs, Compensation) == [b, a]
    ensures Band(rs).Some? && a < Band(rs).value.0 && Band(rs).value.1 < b
  {
    TwoValueBand(a, b);
  }

  lemma PairOutsideBand(comps: seq<real>, a: real, b: real, lo: real, hi: real)
    requires comps == [a, b] || comps == [b, a]
    requires a < lo && hi < b
    ensures forall i :: 0 <= i < |comps| ==> !(lo <= comps[i] <= hi)
  {
  }

  /** A row with a present compensation contributes it to the quantiles. */
  lemma CompIsPresent(rs: seq<Record>, j: int)
    requires 0 <= j < |rs| && Comp(rs[j]).Some?
    ensures exists i :: 0 <= i < |Present(rs, Compensation)| && Present(rs, Compensation)[i] == Comp(rs[j]).value
  {
    assert Comp(rs[j]).value in Present(rs, Compensation);
  }

  /** A band that contains none of the present compensations trims every row. */
  lemma BandMissesEveryRow(rs: seq<Record>)
    requires Band(rs).Some?
    requires var comps := Present(rs, Compensation);
      forall i :: 0 <= i < |comps| ==> !(Band(rs).value.0 <= comps[i] <= Band(rs).value.1)
    ensures Trimmed(rs) == []
  {
    TrimmedExactly(rs);
    forall j | 0 <= j < |rs| ensures !InBand(rs[j], Band(rs).value.0, Band(rs).value.1) {
      if Comp(rs[j]).Some? {
        CompIsPresent(rs, j);
      }
    }
  }
}
