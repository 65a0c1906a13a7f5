/**
 * add_dirty_data: append 200 verbatim copies of sampled rows, then null 5%
 * of the prices, null 3% of the regions, lower-case 10% of the plan names
 * and render 8% of the join dates as "%m/%d/%Y" text. Each sample is drawn
 * without replacement; the samples are parameters here.
 */
module Defects {
  import opened Wrappers
  import opened Calendar
  import opened Records
  import opened Text
  import opened Generator

  const DuplicateCount: nat := 200

  /** int(len * fraction) for a fraction given in percent. */
  function SampleSize(len: nat, percent: nat): nat {
    len * percent / 100
  }

  /** What rng.choice over positions 0..population-1 with replace=False can return. */
  predicate IsSample(idx: seq<nat>, size: nat, population: nat) {
    && |idx| == size
    && (forall k :: 0 <= k < |idx| ==> idx[k] < population)
    && (forall k, l :: 0 <= k < l < |idx| ==> idx[k] != idx[l])
  }

  /** The five samples add_dirty_data draws, in order. */
  datatype DefectDraws = DefectDraws(
    duplicates: seq<nat>,
    nullPrice: seq<nat>,
    nullRegion: seq<nat>,
    lowerCase: seq<nat>,
    usDate: seq<nat>)

  predicate ValidDefectDraws(n: nat, dd: DefectDraws) {
    var total := n + DuplicateCount;
    && IsSample(dd.duplicates, DuplicateCount, n)
    && IsSample(dd.nullPrice, SampleSize(total, 5), total)
    && IsSample(dd.nullRegion, SampleSize(total, 3), total)
    && IsSample(dd.lowerCase, SampleSize(total, 10), total)
    && IsSample(dd.usDate, SampleSize(total, 8), total)
  }

  predicate AllStamped(rows: seq<Row>) {
    forall i :: 0 <= i < |rows| ==> rows[i].joinDate.Stamp?
  }

  datatype Defect = NullPrice | NullRegion | LowerPlanName | UsJoinDate

  datatype DefectError = SampleLargerThanPopulation

  /** One defect applied to one row; the date defect needs a timestamp to format. */
  function Inject(r: Row, defect: Defect): (t: Row)
    requires defect == UsJoinDate ==> r.joinDate.Stamp?
    ensures defect == NullPrice ==> t.planPrice.None? && t.(planPrice := r.planPrice) == r
    ensures defect == NullRegion ==> t.region.None? && t.(region := r.region) == r
    ensures defect == LowerPlanName ==>
              && t.planName == Lower(r.planName) && TitleCase(t.planName) == TitleCase(r.planName)
              && t.(planName := r.planName) == r
    ensures defect == UsJoinDate ==>
              t.joinDate.Text? && ParseUs(t.joinDate.text) == Some(r.joinDate.day) && t.(joinDate := r.joinDate) == r
  {
    match defect
    case NullPrice => r.(planPrice := None)
    case NullRegion => r.(region := None)
    case LowerPlanName =>
      TitleCaseOfLower(r.planName);
      r.(planName := Lower(r.planName))
    case UsJoinDate =>
      ParseUsOfFormatUs(r.joinDate.day);
      r.(joinDate := Text(FormatUs(r.joinDate.day)))
  }

  /** The rows at the sampled positions receive the defect; every other row is unchanged. */
  function InjectAt(rows: seq<Row>, idx: seq<nat>, defect: Defect): (out: seq<Row>)
    requires defect == UsJoinDate ==> AllStamped(rows)
    ensures |out| == |rows|
    ensures defect != UsJoinDate ==> forall i :: 0 <= i < |rows| ==> out[i].joinDate == rows[i].joinDate
    ensures defect != UsJoinDate && AllStamped(rows) ==> AllStamped(out)
  {
    seq(|rows|, i requires 0 <= i < |rows| => if i in idx then Inject(rows[i], defect) else rows[i])
  }

  /** The copies appended by step 1, in sample order. */
  function Copies(df: seq<Row>, dup: seq<nat>): (c: seq<Row>)
    requires forall k :: 0 <= k < |dup| ==> dup[k] < |df|
    ensures |c| == |dup|
    ensures forall x :: x in c ==> x in df
  {
    seq(|dup|, k requires 0 <= k < |dup| => df[dup[k]])
  }

  /** A row with a chosen subset of the four defects; they touch different columns. */
  function Marked(r: Row, nullPrice: bool, nullRegion: bool, lower: bool, usDate: bool): (t: Row)
    requires r.joinDate.Stamp?
    ensures t.(planPrice := r.planPrice, region := r.region, planName := r.planName, joinDate := r.joinDate) == r
    ensures nullPrice ==> t.planPrice.None?
    ensures !nullPrice ==> t.planPrice == r.planPrice
    ensures nullRegion ==> t.region.None?
    ensures !nullRegion ==> t.region == r.region
    ensures t.planName == if lower then Lower(r.planName) else r.planName
    ensures TitleCase(t.planName) == TitleCase(r.planName)
    ensures t.joinDate.Text? <==> usDate
    ensures !usDate ==> t.joinDate == r.joinDate
    ensures usDate ==> ParseUs(t.joinDate.text) == Some(r.joinDate.day)
  {
    TitleCaseOfLower(r.planName);
    ParseUsOfFormatUs(r.joinDate.day);
    r.(planPrice := if nullPrice then None else r.planPrice,
       region := if nullRegion then None else r.region,
       planName := if lower then Lower(r.planName) else r.planName,
       joinDate := if usDate then Text(FormatUs(r.joinDate.day)) else r.joinDate)
  }

  /** Position of the input row that dirty row i comes from: itself, or the row its copy was taken from. */
  function Origin(n: nat, dd: DefectDraws, i: nat): nat
    requires i < n + |dd.duplicates|
  {
    if i < n then i else dd.duplicates[i - n]
  }

  /**
   * The data set add_dirty_data returns: row i is input row Origin(i) with
   * exactly the defects whose samples contain i.
   */
  function Dirty(df: seq<Row>, dd: DefectDraws): (out: seq<Row>)
    requires AllStamped(df) && |df| >= DuplicateCount && ValidDefectDraws(|df|, dd)
    ensures |out| == |df| + DuplicateCount
  {
    seq(|df| + DuplicateCount, i requires 0 <= i < |df| + DuplicateCount =>
      Marked(df[Origin(|df|, dd, i)], i in dd.nullPrice, i in dd.nullRegion, i in dd.lowerCase, i in dd.usDate))
  }

  /** Dirty row j is its origin row with its own defects; the customer id is never touched. */
  lemma DirtyAt(df: seq<Row>, dd: DefectDraws, j: nat)
    requires AllStamped(df) && |df| >= DuplicateCount && ValidDefectDraws(|df|, dd)
    requires j < |df| + DuplicateCount
    ensures Origin(|df|, dd, j) < |df|
    ensures Dirty(df, dd)[j] == Marked(df[Origin(|df|, dd, j)], j in dd.nullPrice, j in dd.nullRegion,
                                       j in dd.lowerCase, j in dd.usDate)
    ensures Dirty(df, dd)[j].customerId == df[Origin(|df|, dd, j)].customerId
  {
  }

  /** Row i after the column-by-column injection is row i of Dirty. */
  lemma ColumnStepsAt(df: seq<Row>, dd: DefectDraws, i: nat)
    requires AllStamped(df) && |df| >= DuplicateCount && ValidDefectDraws(|df|, dd)
    requires i < |df| + DuplicateCount
    ensures var rows0 := df + Copies(df, dd.duplicates);
            var r := rows0[i];
            && r == df[Origin(|df|, dd, i)]
            && r.joinDate.Stamp?
            && (var r1 := if i in dd.nullPrice then Inject(r, NullPrice) else r;
                var r2 := if i in dd.nullRegion then Inject(r1, NullRegion) else r1;
                var r3 := if i in dd.lowerCase then Inject(r2, LowerPlanName) else r2;
                r3.joinDate == r.joinDate
                && (if i in dd.usDate then Inject(r3, UsJoinDate) else r3) == Dirty(df, dd)[i])
  {
    var n := |df|;
    var o := Origin(n, dd, i);
    var rows0 := df + Copies(df, dd.duplicates);
    if n <= i {
      assert rows0[i] == Copies(df, dd.duplicates)[i - n];
    }
    var r := rows0[i];
    assert r == df[o];
    var p, g, c, u := i in dd.nullPrice, i in dd.nullRegion, i in dd.lowerCase, i in dd.usDate;
    DirtyAt(df, dd, i);
    assert Dirty(df, dd)[i] == Marked(r, p, g, c, u);
    MarkedByColumns(r, p, g, c, u);
  }

  /** Applying the chosen defects one column after another gives the marked row. */
  lemma MarkedByColumns(r: Row, p: bool, g: bool, c: bool, u: bool)
    requires r.joinDate.Stamp?
    ensures var r1 := if p then Inject(r, NullPrice) else r;
            var r2 := if g then Inject(r1, NullRegion) else r1;
            var r3 := if c then Inject(r2, LowerPlanName) else r2;
            r3.joinDate == r.joinDate && (if u then Inject(r3, UsJoinDate) else r3) == Marked(r, p, g, c, u)
  {
  }

  /** Appending the copies and then injecting the defects column by column yields Dirty. */
  lemma ColumnStepsGiveDirty(df: seq<Row>, dd: DefectDraws)
    requires AllStamped(df) && |df| >= DuplicateCount && ValidDefectDraws(|df|, dd)
    ensures var rows0 := df + Copies(df, dd.duplicates);
            AllStamped(rows0)
            && InjectAt(InjectAt(InjectAt(InjectAt(rows0, dd.nullPrice, NullPrice), dd.nullRegion, NullRegion),
                                 dd.lowerCase, LowerPlanName), dd.usDate, UsJoinDate)
               == Dirty(df, dd)
  {
    var rows0 := df + Copies(df, dd.duplicates);
    var rows1 := InjectAt(rows0, dd.nullPrice, NullPrice);
    var rows2 := InjectAt(rows1, dd.nullRegion, NullRegion);
    var rows3 := InjectAt(rows2, dd.lowerCase, LowerPlanName);
    forall i | 0 <= i < |rows0| ensures rows0[i].joinDate.Stamp? && rows3[i].joinDate == rows0[i].joinDate {
      ColumnStepsAt(df, dd, i);
    }
    var rows4 := InjectAt(rows3, dd.usDate, UsJoinDate);
    forall i | 0 <= i < |rows4| ensures rows4[i] == Dirty(df, dd)[i] {
      ColumnStepsAt(df, dd, i);
    }
  }

  /** dirty_df.loc[idx, column] = defect(dirty_df.loc[idx, column]), one sampled row at a time. */
  method InjectInPlace(rows: seq<Row>, idx: seq<nat>, defect: Defect) returns (out: seq<Row>)
    requires IsSample(idx, |idx|, |rows|)
    requires defect == UsJoinDate ==> AllStamped(rows)
    ensures out == InjectAt(rows, idx, defect)
  {
    out := rows;
    for k := 0 to |idx|
      invariant |out| == |rows|
      invariant forall i :: 0 <= i < |rows| ==>
                  out[i] == if i in idx[..k] then Inject(rows[i], defect) else rows[i]
    {
      var i := idx[k];
      assert i !in idx[..k];
      out := out[i := Inject(out[i], defect)];
      assert idx[..k + 1] == idx[..k] + [i];
    }
    assert idx[..|idx|] == idx;
  }

  /** add_dirty_data: fails, as rng.choice does, when there are fewer rows than copies to draw. */
  method AddDirtyData(df: seq<Row>, dd: DefectDraws) returns (res: Result<seq<Row>, DefectError>)
    requires AllStamped(df)
    requires |df| >= DuplicateCount ==> ValidDefectDraws(|df|, dd)
    ensures |df| < DuplicateCount <==> res.Failure?
    ensures res.Success? ==> res.value == Dirty(df, dd)
  {
    if |df| < DuplicateCount {
      return Failure(SampleLargerThanPopulation);
    }
    var dirty := df;
    for k := 0 to |dd.duplicates|
      invariant dirty == df + Copies(df, dd.duplicates)[..k]
    {
      dirty := dirty + [df[dd.duplicates[k]]];
      assert Copies(df, dd.duplicates)[..k + 1] == Copies(df, dd.duplicates)[..k] + [df[dd.duplicates[k]]];
    }
    assert Copies(df, dd.duplicates)[..|dd.duplicates|] == Copies(df, dd.duplicates);
    ColumnStepsGiveDirty(df, dd);
    dirty := InjectInPlace(dirty, dd.nullPrice, NullPrice);
    dirty := InjectInPlace(dirty, dd.nullRegion, NullRegion);
    dirty := InjectInPlace(dirty, dd.lowerCase, LowerPlanName);
    dirty := InjectInPlace(dirty, dd.usDate, UsJoinDate);
    res := Success(dirty);
  }

  /**
   * The first n dirty rows are the input rows one to one; the 200 copies
   * come from 200 different input rows.
   */
  lemma OriginsOfDirtyRows(n: nat, dd: DefectDraws, i: nat, j: nat)
    requires ValidDefectDraws(n, dd)
    requires i < j < n + DuplicateCount
    ensures Origin(n, dd, i) < n && Origin(n, dd, j) < n
    ensures j < n ==> Origin(n, dd, i) == i && Origin(n, dd, j) == j
    ensures n <= i ==> Origin(n, dd, i) != Origin(n, dd, j)
  {
  }

  /**
   * For a generated row the four defects are visible: two versions of it
   * are equal exactly when they received the same defects.
   */
  lemma MarkedInjective(r: Row, id: int, p1: bool, g1: bool, c1: bool, u1: bool,
                        p2: bool, g2: bool, c2: bool, u2: bool)
    requires GeneratedRow(r, id)
    ensures Marked(r, p1, g1, c1, u1) == Marked(r, p2, g2, c2, u2) <==>
            p1 == p2 && g1 == g2 && c1 == c2 && u1 == u2
  {
    assert Lower(r.planName) != r.planName by {
      assert Lower(r.planName)[0] != r.planName[0];
    }
  }

  /** Dirty rows i and j received the same four defects. */
  predicate SameDefects(dd: DefectDraws, i: nat, j: nat) {
    && (i in dd.nullPrice) == (j in dd.nullPrice) && (i in dd.nullRegion) == (j in dd.nullRegion)
    && (i in dd.lowerCase) == (j in dd.lowerCase) && (i in dd.usDate) == (j in dd.usDate)
  }

  /**
   * Step 1 makes verbatim copies, but the later defect samples do not know
   * about them: when the input is generated data, the copy at position i
   * equals some earlier row exactly when it received the same defects as
   * the row it was copied from. Otherwise it is not an exact duplicate.
   */
  lemma CopyIsDuplicateIff(df: seq<Row>, dd: DefectDraws, i: nat)
    requires AllStamped(df) && |df| >= DuplicateCount && ValidDefectDraws(|df|, dd)
    requires GeneratedData(df)
    requires |df| <= i < |df| + DuplicateCount
    ensures var dirty := Dirty(df, dd);
            var o := Origin(|df|, dd, i);
            dirty[i] in dirty[..i] <==> SameDefects(dd, i, o)
  {
    var dirty := Dirty(df, dd);
    var o := Origin(|df|, dd, i);
    CopyEqualsOriginIff(df, dd, i);
    forall j | 0 <= j < i && dirty[j] == dirty[i] ensures j == o {
      EqualDirtyRowsShareOrigin(df, dd, j, i);
    }
    OnlyCandidate(dirty, o, i);
  }

  /** When row o is the only earlier row that can equal row i, row i repeats an earlier one iff it equals row o. */
  lemma OnlyCandidate(s: seq<Row>, o: nat, i: nat)
    requires o < i < |s|
    requires forall j :: 0 <= j < i && s[j] == s[i] ==> j == o
    ensures s[i] in s[..i] <==> s[i] == s[o]
  {
    assert s[o] == s[..i][o];
  }

  /** The copy at position i equals the row it was copied from exactly when both got the same defects. */
  lemma CopyEqualsOriginIff(df: seq<Row>, dd: DefectDraws, i: nat)
    requires AllStamped(df) && |df| >= DuplicateCount && ValidDefectDraws(|df|, dd)
    requires GeneratedData(df)
    requires |df| <= i < |df| + DuplicateCount
    ensures Origin(|df|, dd, i) < |df|
    ensures Dirty(df, dd)[i] == Dirty(df, dd)[Origin(|df|, dd, i)] <==> SameDefects(dd, i, Origin(|df|, dd, i))
  {
    var o := Origin(|df|, dd, i);
    DirtyAt(df, dd, i);
    DirtyAt(df, dd, o);
    assert GeneratedRow(df[o], o + 1);
    MarkedInjective(df[o], o + 1, i in dd.nullPrice, i in dd.nullRegion, i in dd.lowerCase, i in dd.usDate,
                    o in dd.nullPrice, o in dd.nullRegion, o in dd.lowerCase, o in dd.usDate);
  }

  /** A copy can only equal the input row it was copied from. */
  lemma EqualDirtyRowsShareOrigin(df: seq<Row>, dd: DefectDraws, j: nat, i: nat)
    requires AllStamped(df) && |df| >= DuplicateCount && ValidDefectDraws(|df|, dd)
    requires GeneratedData(df)
    requires j < i < |df| + DuplicateCount && |df| <= i
    requires Dirty(df, dd)[j] == Dirty(df, dd)[i]
    ensures j == Origin(|df|, dd, i)
  {
    var n := |df|;
    DirtyAt(df, dd, i);
    DirtyAt(df, dd, j);
    GeneratedIdAt(df, Origin(n, dd, i));
    GeneratedIdAt(df, Origin(n, dd, j));
    OriginsOfDirtyRows(n, dd, j, i);
  }
}
