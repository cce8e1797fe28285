/**
 * `filter_data` of the uncertainty viewer: coerce the raw timestamp and
 * confidence columns to typed values, keep the rows dated between the two
 * selected calendar days (each promoted to its midnight), and optionally keep
 * only one prediction label.
 */
module Filtering {
  import opened Calendar

  /** One scanned item as it arrives from the table: every attribute is text. */
  datatype RawRow = RawRow(timestamp: string, confidence: string, prediction: string)

  /** One observation after its columns have been coerced. */
  datatype Record = Record(timestamp: Timestamp, confidence: real, prediction: string)

  datatype Option<T> = None | Some(value: T)

  datatype Result<T, E> = Ok(value: T) | Err(error: E)

  /** The first cell that a column coercion rejected, in the order the columns are converted. */
  datatype ParseError = BadTimestamp(text: string) | BadConfidence(text: string)

  /** The label that switches the prediction filter off. */
  const AllPredictions: string := "all"

  // ---------------------------------------------------------------------------
  // Order-preserving selection (a boolean mask applied to a frame)

  /** `xs` keeps the elements of `ys` whose mask is set, in their original order. */
  function Select<T>(ys: seq<T>, keep: T -> bool): (xs: seq<T>)
    ensures |xs| <= |ys|
    ensures forall x :: x in xs ==> x in ys && keep(x)
    ensures forall i :: 0 <= i < |ys| && keep(ys[i]) ==> ys[i] in xs
  {
    if ys == [] then []
    else if keep(ys[0]) then [ys[0]] + Select(ys[1..], keep)
    else Select(ys[1..], keep)
  }

  /** `xs` is obtained from `ys` by deleting elements: same relative order, nothing added. */
  predicate IsSubsequence<T(==)>(xs: seq<T>, ys: seq<T>)
    decreases |ys|
  {
    if xs == [] then true
    else if ys == [] then false
    else (xs[0] == ys[0] && IsSubsequence(xs[1..], ys[1..])) || IsSubsequence(xs, ys[1..])
  }

  lemma {:induction false} SelectIsSubsequence<T>(ys: seq<T>, keep: T -> bool)
    ensures IsSubsequence(Select(ys, keep), ys)
  {
    if ys != [] {
      SelectIsSubsequence(ys[1..], keep);
    }
  }

  /** Every kept element occurs exactly as often as in the input; every dropped one not at all. */
  lemma {:induction false} SelectMultiplicity<T>(ys: seq<T>, keep: T -> bool, x: T)
    ensures multiset(Select(ys, keep))[x] == if keep(x) then multiset(ys)[x] else 0
  {
    if ys != [] {
      SelectMultiplicity(ys[1..], keep, x);
      assert ys == [ys[0]] + ys[1..];
    }
  }

  lemma SelectMultiplicities<T>(ys: seq<T>, keep: T -> bool)
    ensures forall x :: multiset(Select(ys, keep))[x] == if keep(x) then multiset(ys)[x] else 0
  {
    forall x ensures multiset(Select(ys, keep))[x] == if keep(x) then multiset(ys)[x] else 0 {
      SelectMultiplicity(ys, keep, x);
    }
  }

  /** Selecting with `p` and then with `q` is selecting once with `p && q`. */
  lemma {:induction false} SelectSelect<T>(ys: seq<T>, p: T -> bool, q: T -> bool, pq: T -> bool)
    requires forall y :: pq(y) == (p(y) && q(y))
    ensures Select(Select(ys, p), q) == Select(ys, pq)
  {
    if ys != [] {
      SelectSelect(ys[1..], p, q, pq);
    }
  }

  /** Selecting again with the same mask changes nothing. */
  lemma {:induction false} SelectIdempotent<T>(ys: seq<T>, keep: T -> bool)
    ensures Select(Select(ys, keep), keep) == Select(ys, keep)
  {
    if ys != [] {
      SelectIdempotent(ys[1..], keep);
    }
  }

  // ---------------------------------------------------------------------------
  // The two masks of filter_data

  /** `start_date <= timestamp <= end_date`, each date taken at its midnight. */
  predicate InDateRange(r: Record, startDate: Date, endDate: Date) {
    NotAfter(Midnight(startDate), r.timestamp) && NotAfter(r.timestamp, Midnight(endDate))
  }

  /** The reference definition of a kept row: in range, and of the requested label unless it is "all". */
  predicate Matches(r: Record, startDate: Date, endDate: Date, prediction: string) {
    InDateRange(r, startDate, endDate) && (prediction == AllPredictions || r.prediction == prediction)
  }

  /** The date mask alone. */
  function DateFiltered(rs: seq<Record>, startDate: Date, endDate: Date): (out: seq<Record>)
    ensures forall r :: r in out <==> r in rs && InDateRange(r, startDate, endDate)
  {
    Select(rs, r => InDateRange(r, startDate, endDate))
  }

  /**
   * The selection of filter_data on already-typed records: the date mask, then,
   * when the label is not "all", the label mask on what is left.
   */
  function FilterRecords(rs: seq<Record>, startDate: Date, endDate: Date, prediction: string): (out: seq<Record>)
    ensures IsSubsequence(out, rs)
    ensures forall r :: multiset(out)[r] == if Matches(r, startDate, endDate, prediction) then multiset(rs)[r] else 0
  {
    var filtered := DateFiltered(rs, startDate, endDate);
    var result := if prediction != AllPredictions then Select(filtered, (r: Record) => r.prediction == prediction) else filtered;
    FilterIsOneSelection(rs, startDate, endDate, prediction);
    SelectIsSubsequence(rs, r => Matches(r, startDate, endDate, prediction));
    assert result == Select(rs, r => Matches(r, startDate, endDate, prediction));
    forall r: Record
      ensures multiset(result)[r] == if Matches(r, startDate, endDate, prediction) then multiset(rs)[r] else 0
    {
      SelectMultiplicity(rs, r => Matches(r, startDate, endDate, prediction), r);
    }
    result
  }

  /** The two-step selection is one selection by the conjunction of both masks. */
  lemma FilterIsOneSelection(rs: seq<Record>, startDate: Date, endDate: Date, prediction: string)
    ensures (if prediction != AllPredictions
             then Select(DateFiltered(rs, startDate, endDate), (r: Record) => r.prediction == prediction)
             else DateFiltered(rs, startDate, endDate))
            == Select(rs, r => Matches(r, startDate, endDate, prediction))
  {
    if prediction != AllPredictions {
      SelectSelect(rs, r => InDateRange(r, startDate, endDate), (r: Record) => r.prediction == prediction,
                   r => Matches(r, startDate, endDate, prediction));
    } else {
      SelectSelect(rs, r => InDateRange(r, startDate, endDate), r => true,
                   r => Matches(r, startDate, endDate, prediction));
      SelectAll(DateFiltered(rs, startDate, endDate));
    }
  }

  lemma SelectAll<T>(ys: seq<T>)
    ensures Select(ys, y => true) == ys
  {
    SelectKeepsAll(ys, y => true);
  }

  /** A mask that holds everywhere keeps the whole sequence. */
  lemma {:induction false} SelectKeepsAll<T>(ys: seq<T>, keep: T -> bool)
    requires forall i :: 0 <= i < |ys| ==> keep(ys[i])
    ensures Select(ys, keep) == ys
  {
    if ys != [] {
      SelectKeepsAll(ys[1..], keep);
    }
  }

  /** A row is kept exactly when it is in the date range and, unless the label is "all", has that label. */
  lemma FilterMembership(rs: seq<Record>, startDate: Date, endDate: Date, prediction: string, r: Record)
    ensures r in FilterRecords(rs, startDate, endDate, prediction)
            <==> r in rs && InDateRange(r, startDate, endDate)
                 && (prediction == AllPredictions || r.prediction == prediction)
  {
    var out := FilterRecords(rs, startDate, endDate, prediction);
    assert r in out <==> multiset(out)[r] > 0;
    assert r in rs <==> multiset(rs)[r] > 0;
  }

  /** With the label "all" no label mask is applied: the result is the date-filtered table. */
  lemma FilterAllIsDateRange(rs: seq<Record>, startDate: Date, endDate: Date)
    ensures FilterRecords(rs, startDate, endDate, AllPredictions) == DateFiltered(rs, startDate, endDate)
  {
  }

  /** With any other label, every kept row carries exactly that label. */
  lemma FilterLabelSound(rs: seq<Record>, startDate: Date, endDate: Date, prediction: string)
    requires prediction != AllPredictions
    ensures forall r :: r in FilterRecords(rs, startDate, endDate, prediction) ==> r.prediction == prediction
  {
    forall r | r in FilterRecords(rs, startDate, endDate, prediction)
      ensures r.prediction == prediction
    {
      FilterMembership(rs, startDate, endDate, prediction, r);
    }
  }

  /**
   * The end date is compared at its midnight: a row stamped on the end date
   * itself but after 00:00 is dropped, and one at 00:00 is kept.
   */
  lemma EndDateIsMidnight(rs: seq<Record>, startDate: Date, endDate: Date, r: Record)
    requires r in rs && r.timestamp.date == endDate
    requires NotAfter(Midnight(startDate), Midnight(endDate))
    ensures r in FilterRecords(rs, startDate, endDate, AllPredictions) <==> r.timestamp.nanos == 0
  {
    FilterMembership(rs, startDate, endDate, AllPredictions, r);
  }

  /** Filtering its own output again with the same bounds and label gives the same table. */
  lemma FilterIdempotent(rs: seq<Record>, startDate: Date, endDate: Date, prediction: string)
    ensures FilterRecords(FilterRecords(rs, startDate, endDate, prediction), startDate, endDate, prediction)
            == FilterRecords(rs, startDate, endDate, prediction)
  {
    var once := FilterRecords(rs, startDate, endDate, prediction);
    FilterIsOneSelection(rs, startDate, endDate, prediction);
    FilterIsOneSelection(once, startDate, endDate, prediction);
    SelectIdempotent(rs, r => Matches(r, startDate, endDate, prediction));
  }

  // ---------------------------------------------------------------------------
  // Column coercion (pd.to_datetime / pd.to_numeric, which raise on a bad cell)

  /**
   * Converts a whole column with `parse`; fails with the first cell that does
   * not parse.
   */
  function ParseColumn<T>(cells: seq<string>, parse: string -> Option<T>): (r: Result<seq<T>, string>)
    ensures r.Ok? <==> forall i :: 0 <= i < |cells| ==> parse(cells[i]).Some?
    ensures r.Ok? ==> |r.value| == |cells| && forall i :: 0 <= i < |cells| ==> parse(cells[i]) == Some(r.value[i])
    ensures r.Err? ==> exists i :: 0 <= i < |cells| && cells[i] == r.error && parse(cells[i]).None?
                                   && forall j :: 0 <= j < i ==> parse(cells[j]).Some?
  {
    if cells == [] then Ok([])
    else match parse(cells[0])
      case None => Err(cells[0])
      case Some(v) =>
        match ParseColumn(cells[1..], parse)
        case Err(e) => Err(e)
        case Ok(vs) => Ok([v] + vs)
  }

  /**
   * Coerces the timestamp column, then the confidence column, of a frame of
   * raw rows; either conversion failing aborts with the offending cell.
   */
  function Coerce(rows: seq<RawRow>, parseTime: string -> Option<Timestamp>, parseNumber: string -> Option<real>)
    : (r: Result<seq<Record>, ParseError>)
    ensures r.Ok? <==> (forall i :: 0 <= i < |rows| ==> parseTime(rows[i].timestamp).Some?)
                       && (forall i :: 0 <= i < |rows| ==> parseNumber(rows[i].confidence).Some?)
    ensures r.Ok? ==> |r.value| == |rows|
    ensures r.Ok? ==> forall i :: 0 <= i < |rows| ==>
      && parseTime(rows[i].timestamp) == Some(r.value[i].timestamp)
      && parseNumber(rows[i].confidence) == Some(r.value[i].confidence)
      && r.value[i].prediction == rows[i].prediction
    ensures r.Err? && r.error.BadTimestamp? ==>
      exists i :: 0 <= i < |rows| && rows[i].timestamp == r.error.text && parseTime(rows[i].timestamp).None?
    ensures r.Err? && r.error.BadConfidence? ==>
      (forall i :: 0 <= i < |rows| ==> parseTime(rows[i].timestamp).Some?) &&
      exists i :: 0 <= i < |rows| && rows[i].confidence == r.error.text && parseNumber(rows[i].confidence).None?
  {
    var timestamps := seq(|rows|, i requires 0 <= i < |rows| => rows[i].timestamp);
    var confidences := seq(|rows|, i requires 0 <= i < |rows| => rows[i].confidence);
    assert forall i :: 0 <= i < |rows| ==> timestamps[i] == rows[i].timestamp && confidences[i] == rows[i].confidence;
    match ParseColumn(timestamps, parseTime)
    case Err(cell) => Err(BadTimestamp(cell))
    case Ok(ts) =>
      match ParseColumn(confidences, parseNumber)
      case Err(cell) => Err(BadConfidence(cell))
      case Ok(cs) => Ok(seq(|rows|, i requires 0 <= i < |rows| => Record(ts[i], cs[i], rows[i].prediction)))
  }

  /**
   * filter_data: coerce the raw frame, then select. A cell that does not parse
   * aborts the whole call; otherwise the result is the selection of the typed rows.
   */
  function FilterData(rows: seq<RawRow>, parseTime: string -> Option<Timestamp>, parseNumber: string -> Option<real>,
                      startDate: Date, endDate: Date, prediction: string): (r: Result<seq<Record>, ParseError>)
    ensures r.Ok? <==> (forall i :: 0 <= i < |rows| ==> parseTime(rows[i].timestamp).Some?)
                       && (forall i :: 0 <= i < |rows| ==> parseNumber(rows[i].confidence).Some?)
    ensures r.Ok? ==> |r.value| <= |rows|
    ensures r.Ok? ==> forall x :: x in r.value ==> Matches(x, startDate, endDate, prediction)
    ensures r.Ok? ==> Coerce(rows, parseTime, parseNumber).Ok?
    ensures r.Ok? ==> IsSubsequence(r.value, Coerce(rows, parseTime, parseNumber).value)
    ensures r.Ok? ==> forall x :: multiset(r.value)[x] ==
                                  (if Matches(x, startDate, endDate, prediction)
                                   then multiset(Coerce(rows, parseTime, parseNumber).value)[x] else 0)
    ensures r.Err? ==> Coerce(rows, parseTime, parseNumber) == Err(r.error)
  {
    match Coerce(rows, parseTime, parseNumber)
    case Err(e) => Err(e)
    case Ok(typed) => Ok(FilterRecords(typed, startDate, endDate, prediction))
  }
}
