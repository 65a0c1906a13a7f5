/**
 * The pipeline main() runs, without its file output: generate, inject
 * defects, clean. For generated data the cleaner undoes every defect
 * except the nulled regions, which become "Unknown".
 */
module Pipeline {
  import opened Wrappers
  import opened Calendar
  import opened Records
  import opened Text
  import opened Generator
  import opened Defects
  import opened Cleaner

  /** A generated row after cleaning: the same row, with "Unknown" where its region was nulled. */
  function Restored(r: Row, regionNulled: bool): (t: Row)
    requires r.region.Some?
    ensures t.region.Some? && t.(region := r.region) == r
  {
    if regionNulled then r.(region := Some("Unknown")) else r
  }

  /** The plan names of the lookup table are already in title case. */
  lemma PlanNamesTitled(name: string)
    requires name in PlanPrices
    ensures TitleCase(name) == name
  {
    CapitalizedIsTitled(name);
  }

  /** Steps 2 to 6 turn a generated row carrying any mix of the four defects back into the row. */
  lemma RepairUndoesDefects(r: Row, id: int, nullPrice: bool, nullRegion: bool, lower: bool, usDate: bool)
    requires GeneratedRow(r, id)
    ensures NormalizeRow(Marked(r, nullPrice, nullRegion, lower, usDate)) == Success(Restored(r, nullRegion))
  {
    var m := Marked(r, nullPrice, nullRegion, lower, usDate);
    PlanNamesTitled(r.planName);
    TitleCaseOfLower(r.planName);
    var titled := m.(planName := r.planName);
    assert TitlePlan(m) == titled;
    UsDateReadBack(r.joinDate.day);
    var stamped := titled.(joinDate := r.joinDate);
    assert StampJoin(titled) == Success(stamped);
    var priced := stamped.(planPrice := r.planPrice);
    assert FillPrice(stamped) == priced;
    assert FillRegion(priced) == Restored(r, nullRegion);
    assert !CancelsBeforeJoining(Restored(r, nullRegion));
  }

  /** The US-style text the date defect writes is read back as the same day. */
  lemma UsDateReadBack(d: Day)
    ensures ParseJoinCell(Text(FormatUs(d))) == Success(d)
  {
    ParseUsOfFormatUs(d);
    FormatsDisjoint(FormatUs(d));
  }

  /** Every row of the dirty data normalises to the restored input row it comes from. */
  lemma {:induction false} DirtyRowNormalizes(df: seq<Row>, dd: DefectDraws, j: nat)
    requires |df| >= DuplicateCount && ValidDefectDraws(|df|, dd)
    requires GeneratedData(df)
    requires AllStamped(df)
    requires j < |df| + DuplicateCount
    ensures Origin(|df|, dd, j) < |df|
    ensures NormalizeRow(Dirty(df, dd)[j]) == Success(Restored(df[Origin(|df|, dd, j)], j in dd.nullRegion))
  {
    var o := Origin(|df|, dd, j);
    DirtyAt(df, dd, j);
    assert GeneratedRow(df[o], o + 1);
    RepairUndoesDefects(df[o], o + 1, j in dd.nullPrice, j in dd.nullRegion, j in dd.lowerCase, j in dd.usDate);
  }

  lemma GeneratedRowsStamped(df: seq<Row>)
    requires GeneratedData(df)
    ensures AllStamped(df)
  {
  }

  /** Cleaning the dirty version of generated data never fails. */
  lemma {:induction false} CleaningGeneratedDataSucceeds(df: seq<Row>, dd: DefectDraws)
    requires |df| >= DuplicateCount && ValidDefectDraws(|df|, dd)
    requires GeneratedData(df)
    ensures AllStamped(df)
    ensures Clean(Dirty(df, dd)).Success?
  {
    GeneratedRowsStamped(df);
    var dirty := Dirty(df, dd);
    CleanFailsIff(dirty);
    if Clean(dirty).Failure? {
      var j :| 0 <= j < |dirty| && ParseJoinCell(dirty[j].joinDate).Failure?;
      DirtyRowNormalizes(df, dd, j);
      assert false;
    }
  }

  /** Every clean row is an input row, with "Unknown" at most in place of its region. */
  lemma {:induction false} CleanRowsComeFromInput(df: seq<Row>, dd: DefectDraws, t: Row)
    requires |df| >= DuplicateCount && ValidDefectDraws(|df|, dd)
    requires GeneratedData(df)
    requires AllStamped(df) && Clean(Dirty(df, dd)).Success?
    requires t in Clean(Dirty(df, dd)).value
    ensures exists o :: 0 <= o < |df| && (t == df[o] || t == df[o].(region := Some("Unknown")))
  {
    var dirty := Dirty(df, dd);
    var d := DropDuplicates(dirty);
    NormalizeAllResult(d);
    var out := Clean(dirty).value;
    var k :| 0 <= k < |out| && out[k] == t;
    assert NormalizeRow(d[k]) == Success(t);
    assert d[k] in dirty;
    var j :| 0 <= j < |dirty| && dirty[j] == d[k];
    DirtyRowNormalizes(df, dd, j);
  }

  /** No customer is lost: every input row comes out of the cleaner, restored. */
  lemma {:induction false} InputRowsSurviveCleaning(df: seq<Row>, dd: DefectDraws, o: nat)
    requires |df| >= DuplicateCount && ValidDefectDraws(|df|, dd)
    requires GeneratedData(df)
    requires AllStamped(df) && Clean(Dirty(df, dd)).Success?
    requires o < |df|
    ensures Restored(df[o], o in dd.nullRegion) in Clean(Dirty(df, dd)).value
  {
    var dirty := Dirty(df, dd);
    var d := DropDuplicates(dirty);
    var out := Clean(dirty).value;
    DirtyRowNormalizes(df, dd, o);
    assert dirty[o] in d;
    var k :| 0 <= k < |d| && d[k] == dirty[o];
    NormalizedAt(d, k);
    assert out[k] == Restored(df[o], o in dd.nullRegion);
  }

  /**
   * Because duplicates are dropped before the other repairs, a copy whose
   * price was nulled survives step 1 and then becomes its original again:
   * the clean output holds the same row twice.
   */
  lemma CopyWithNullPriceSurvives(r: Row, id: int)
    requires GeneratedRow(r, id)
    ensures Clean([r, r.(planPrice := None)]) == Success([r, r])
  {
    var copy := r.(planPrice := None);
    assert copy != r;
    DropDuplicatesOfDistinct([r, copy]);
    RepairUndoesDefects(r, id, false, false, false, false);
    RepairUndoesDefects(r, id, true, false, false, false);
    NormalizeAllSuccess([r, copy], [r, r]);
  }
}
