/**
 * Worked examples of the whole pipeline (filter, then aggregate) on a
 * three-row table: two readings on 1 January 2024 and one on 1 June 2024.
 */
module Scenarios {
  import opened Calendar
  import opened Filtering
  import opened Resampling

  const NewYear: Date := Date(2024, 1, 1)

  const OneAm: Record := Record(DateTime(NewYear, NanosPerHour), 0.8, "positive")
  const TwoAm: Record := Record(DateTime(NewYear, 2 * NanosPerHour), 0.4, "negative")
  const June: Record := Record(DateTime(Date(2024, 6, 1), 0), 0.9, "positive")

  function Table(): seq<Record> {
    [OneAm, TwoAm, June]
  }

  /** The rows dated from 1 January to 2 January (at midnight) are the two January ones. */
  lemma JanuaryRows()
    ensures DateFiltered(Table(), NewYear, Date(2024, 1, 2)) == [OneAm, TwoAm]
  {
  }

  /** Rows all stamped on New Year's Day aggregate by day to one point at its midnight. */
  lemma NewYearDaily(rs: seq<Record>)
    requires rs != []
    requires forall i :: 0 <= i < |rs| ==> rs[i].timestamp.date == NewYear
    ensures PlotConfidence(rs, "Daily") == Chart([Point(Midnight(NewYear), Mean(Confidences(rs)))])
  {
    SingleBucket(rs, Day, Midnight(NewYear));
  }

  /** Filtering on 1-2 January with every label keeps the two January rows. */
  lemma AllPredictionsRows()
    ensures FilterRecords(Table(), NewYear, Date(2024, 1, 2), "all") == [OneAm, TwoAm]
  {
    JanuaryRows();
    FilterAllIsDateRange(Table(), NewYear, Date(2024, 1, 2));
  }

  /** Their mean confidence is (0.8 + 0.4) / 2 = 0.6. */
  lemma JanuaryMean()
    ensures Mean(Confidences([OneAm, TwoAm])) == 0.6
  {
    assert Confidences([OneAm, TwoAm]) == [0.8, 0.4];
    assert Sum([0.8, 0.4]) == 1.2;
  }

  /**
   * Filtering on 1-2 January with every label and plotting by day gives one
   * point, at New Year's midnight, of mean 0.6.
   */
  lemma AllPredictionsDaily()
    ensures PlotConfidence(FilterRecords(Table(), NewYear, Date(2024, 1, 2), "all"), "Daily")
            == Chart([Point(Midnight(NewYear), 0.6)])
  {
    AllPredictionsRows();
    NewYearDaily([OneAm, TwoAm]);
    JanuaryMean();
  }

  /** With the label "positive" only the first row survives. */
  lemma PositiveRows()
    ensures FilterRecords(Table(), NewYear, Date(2024, 1, 2), "positive") == [OneAm]
  {
    JanuaryRows();
  }

  /** Its mean confidence is its own, 0.8. */
  lemma PositiveMean()
    ensures Mean(Confidences([OneAm])) == 0.8
  {
    assert Confidences([OneAm]) == [0.8];
    assert Sum([0.8]) == 0.8;
  }

  /** Filtering on "positive" and plotting by day gives one point of mean 0.8. */
  lemma PositiveDaily()
    ensures PlotConfidence(FilterRecords(Table(), NewYear, Date(2024, 1, 2), "positive"), "Daily")
            == Chart([Point(Midnight(NewYear), 0.8)])
  {
    PositiveRows();
    NewYearDaily([OneAm]);
    PositiveMean();
  }

  /** A range that matches no row leaves an empty table. */
  lemma EmptyRangeRows()
    ensures FilterRecords(Table(), Date(2023, 1, 1), Date(2023, 12, 31), "all") == []
  {
    assert DateFiltered(Table(), Date(2023, 1, 1), Date(2023, 12, 31)) == [];
    FilterAllIsDateRange(Table(), Date(2023, 1, 1), Date(2023, 12, 31));
  }

  /** Plotting what that range leaves gives "no data". */
  lemma EmptyRangeHasNoData()
    ensures PlotConfidence(FilterRecords(Table(), Date(2023, 1, 1), Date(2023, 12, 31), "all"), "Daily")
            == NoDataToPlot
  {
    EmptyRangeRows();
  }
}
