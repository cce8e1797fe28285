# Uncertainty viewer: filtering and time-bucket aggregation

This project models the one piece of logic in the uncertainty-table viewer
(`app.py`). It is a Streamlit page that scans a DynamoDB table of model predictions,
each with a timestamp, a confidence and a prediction label. The page lets the user pick
a date range and a label, then charts the mean confidence per hour, day, month or year.

The model has four modules:

- `Calendar` (`calendar.dfy`) holds naive timestamps as pandas keeps them in a
  `datetime64` column: a proleptic Gregorian date plus the time of day in nanoseconds.
  It defines their chronological order, the promotion of a calendar date to its
  midnight, and the calendar-aligned buckets that `resample('H'|'D'|'M'|'A')` groups by.
  It proves that every timestamp lies in exactly one bucket, the one starting at its
  truncation.
- `Filtering` (`filtering.dfy`) models `filter_data`. The raw timestamp and
  confidence columns are coerced first, and a cell that does not parse aborts the
  call. The rows kept are those with `start_date 00:00 <= timestamp <= end_date 00:00`.
  When the label is not `"all"`, the rows must also carry that label. Each boolean
  mask is an order-preserving selection (`Select`).
- `Resampling` (`resampling.dfy`) models the aggregation half of `plot_confidence`.
  An empty frame gives "no data" before anything else is looked at. Otherwise the
  time-frame name picks a granularity, and the series holds one point per non-empty
  bucket: the bucket's first instant and the arithmetic mean of its confidences,
  earliest first.
- `Scenarios` (`scenarios.dfy`) works through examples of the whole pipeline on a
  three-row table.

Everything is a pure function over sequences. The modelled functions (app.py:28-50)
have no loops: their masks and `resample(...).mean()` are whole-column expressions.
The in-place column overwrites are never observed by any caller (see "Left out").

## Model

| member | source | states |
|---|---|---|
| `Calendar.Midnight` | app.py:31 | a date promoted to a timestamp is its 00:00: exactly the instants of earlier dates come before it, and every instant of that date is at or after it |
| `Calendar.Truncate` | app.py:43-50 | the bucket key of a timestamp is a calendar-aligned bucket start (on the hour, at midnight, on the 1st, on 1 January) that is not after the timestamp |
| `Calendar.TruncateIsTheBucket` | app.py:43-50 | buckets partition time: a timestamp lies in the half-open interval [key, end of bucket) of its own key, and any aligned bucket that contains it has exactly that key |
| `Calendar.TruncateIdempotent` | app.py:43-50 | a bucket start is its own bucket key |
| `Calendar.TruncateMonotone` | app.py:43-50 | bucketing never reorders timestamps: `a <= b` implies key(a) <= key(b) |
| `Filtering.Select` | app.py:31-33 | a boolean mask keeps an element iff the mask holds for it; it never adds anything and never lengthens the frame |
| `Filtering.SelectIsSubsequence` | app.py:31-33 | a masked frame is a subsequence of the input, so relative order is preserved |
| `Filtering.SelectMultiplicity` | app.py:31-33 | each row kept by a mask occurs exactly as often as in the input; each dropped row occurs zero times, so nothing is duplicated |
| `Filtering.SelectSelect` | app.py:31-33 | masking with p and then with q equals masking once with p and q |
| `Filtering.SelectIdempotent` | app.py:31-33 | applying the same mask twice equals applying it once |
| `Filtering.DateFiltered` | app.py:31 | a row survives the date mask iff `start_date` at midnight <= timestamp <= `end_date` at midnight |
| `Filtering.FilterRecords` | app.py:31-34 | the filtered frame is a subsequence of the input; each row occurs as often as in the input if it is in range and matches the label (or the label is "all"), and zero times otherwise |
| `Filtering.FilterIsOneSelection` | app.py:31-33 | the date mask followed by the label mask is one selection by the conjunction of both |
| `Filtering.FilterMembership` | app.py:31-33 | soundness and completeness: a row is in the result iff it is in the input, in the date range, and has the requested label (or the label is "all") |
| `Filtering.FilterAllIsDateRange` | app.py:32 | with the label "all" no label mask is applied: the result is exactly the date-filtered frame |
| `Filtering.FilterLabelSound` | app.py:33 | with any other label, every row in the result has exactly that prediction |
| `Filtering.EndDateIsMidnight` | app.py:31 | a row stamped on the end date is kept iff it is stamped at 00:00; later times that day are excluded |
| `Filtering.FilterIdempotent` | app.py:28-34 | filtering the output again with the same bounds and label returns the same frame |
| `Filtering.ParseColumn` | app.py:29-30 | converting a column succeeds iff every cell parses, giving the cells' values in order; otherwise it fails on the first cell that does not parse |
| `Filtering.Coerce` | app.py:29-30 | the frame is typed iff every timestamp cell and every confidence cell parses, with each row's values as parsed and its label kept; a bad timestamp is reported before any bad confidence |
| `Filtering.FilterData` | app.py:28-34 | `filter_data` aborts, with the coercion's error, exactly when some cell fails to parse; otherwise the result is a subsequence of the coerced rows holding each of them as often as they do if it is in range and of the requested label (or the label is "all"), and zero times otherwise |
| `Resampling.ParseTimeFrame` | app.py:43-50 | "Hourly", "Daily", "Monthly" and "Yearly" select hour, day, month and year buckets; any other name selects none |
| `Resampling.BucketContents` | app.py:44-50 | a bucket holds exactly the rows whose timestamps truncate to its key, each as often as in the frame; it is empty iff no row maps to the key |
| `Resampling.BucketKeys` | app.py:44-50 | the keys of the non-empty buckets, each once, in strictly increasing time order |
| `Resampling.Mean` | app.py:44-50 | the `.mean()` of a non-empty bin over `real`: the value whose count-fold multiple is the sum, lying between the smallest and the largest value averaged |
| `Resampling.BucketMean` | app.py:44-50 | the mean confidence of a non-empty bucket's rows lies between their least and greatest confidence |
| `Resampling.Resample` | app.py:42-50 | the series has one point per distinct non-empty bucket, in strictly increasing time order; each point's value is the mean confidence of that bucket's rows |
| `Resampling.SingleBucket` | app.py:44-50 | rows that all fall in one bucket give a single point, their overall mean |
| `Resampling.PlotConfidence` | app.py:36-50 | "no data" iff the frame is empty (checked before the time frame); otherwise an unknown time-frame name yields no series, and a known one yields the non-empty resampled series |
| `Resampling.ResamplePartitionsRecords` | app.py:42-50 | the buckets of the series together hold every row of the frame exactly as often as the frame does |
| `Resampling.RecordInExactlyOnePoint` | app.py:42-50 | every row lies in the bucket of exactly one point, the one whose key is its truncated timestamp, and that bucket's calendar interval contains it |
| `Resampling.ResampleMeanBounds` | app.py:44-50 | each point's value lies between the minimum and the maximum confidence in its bucket |
| `Resampling.ResampleWithinBounds` | app.py:44-50 | if every confidence is in [lo, hi] (for example [0, 1]), every point of the series is too |
| `Scenarios.JanuaryRows` | app.py:31 | on the example table, 2024-01-01..2024-01-02 keeps the 01:00 and 02:00 rows of 1 January and drops the June row |
| `Scenarios.NewYearDaily` | app.py:36-50 | any non-empty frame whose rows are all dated 1 January 2024 plots, by day, as one point at that midnight carrying the overall mean |
| `Scenarios.AllPredictionsRows` | app.py:31-34 | with label "all", the filter returns those two rows |
| `Scenarios.JanuaryMean` | app.py:44-50 | their mean confidence is exactly 0.6 |
| `Scenarios.AllPredictionsDaily` | app.py:28-50 | filtering the table on 1-2 January with label "all" and plotting the result daily gives one point, at 2024-01-01 00:00, with mean 0.6 |
| `Scenarios.PositiveRows` | app.py:31-34 | with label "positive", only the 01:00 row survives |
| `Scenarios.PositiveMean` | app.py:44-50 | that row's mean confidence is 0.8 |
| `Scenarios.PositiveDaily` | app.py:28-50 | filtering with label "positive" and plotting daily gives one point with mean 0.8 |
| `Scenarios.EmptyRangeRows` | app.py:31-34 | a 2023 range matches no row and leaves an empty frame |
| `Scenarios.EmptyRangeHasNoData` | app.py:28-40 | filtering on that range and plotting the result gives "no data" |

## Left out

- `fetch_data` (app.py:15-26) is not modelled. It does the DynamoDB `scan` and the
  `LastEvaluatedKey` pagination, and on failure it shows the error through `st.error`
  and returns an empty frame. All of that is remote I/O through boto3.
- The text parsers behind `pd.to_datetime` and `pd.to_numeric` are parameters:
  `string -> Option<Timestamp>` and `string -> Option<real>`. A pandas column
  conversion infers one timestamp format for the whole column. The model treats each
  cell independently, so that inference is not modelled. Missing values (NaT, NaN)
  and time zones are not modelled either.
- `filter_data` overwrites the `timestamp` and `confidence` columns of the caller's
  frame in place (app.py:29-30). `plot_confidence` re-indexes its frame in place
  (app.py:42). The model returns new values instead. No caller reads those frames
  again, so the in-place effects are not captured.
- A `Record` holds only the three attributes the logic reads. Any other attributes of a
  scanned item travel with the row in the source; here they are left out.
- `Resampling.Resample` keys every point by the first instant of its bucket. pandas
  labels `'M'` and `'A'` bins by the last day of the month or year; the grouping is the
  same.
- `Resampling.Resample` emits only non-empty buckets. pandas also emits NaN entries for
  empty buckets between the first and the last non-empty one, and matplotlib draws them
  as gaps. The model lists only non-empty buckets; it does not reproduce those gaps.
- `Resampling.Mean` is the exact mean over `real`. Floating-point rounding of `.mean()`
  is not modelled.
- `Resampling.PlotConfidence` turns an unknown time-frame name into the
  `UnknownTimeFrame` outcome. In the source no branch assigns the series, so the
  plotting line (app.py:53) raises an unbound-variable error.
- The figure is not modelled: size, title, axis labels, grid, tick rotation, the
  `[0, 1]` y-range and the red threshold line (app.py:52-61). This is rendering only.
- The Streamlit page is not modelled (app.py:8, 64-86). That covers the sidebar
  widgets, the lower-casing of the chosen label (app.py:78), the top-level "No data
  available." branch and the table display. This is UI glue.
