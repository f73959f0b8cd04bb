# Dialer performance summaries, modelled in Dafny

This project models the two aggregation routines of the dialer performance report.

- **Hourly productivity summary** (`main.py`). Fifteen fixed time-of-day intervals, each with a display label, are matched against every call record's `Time`. The bounds are closed at both ends. For every interval, five metrics are computed from the records inside it:
  - Total Connected: distinct accounts with a `CONNECTED` call;
  - Total PTP: distinct accounts whose status contains `PTP` and whose PTP amount is positive;
  - Total RPC: the count of records whose status contains `RPC` and whose Account No. is present;
  - PTP Amount: the sum of positive PTP amounts;
  - Balance Amount: the sum of positive balances on records with a positive PTP amount.

  A `Total` row of column sums follows the fifteen interval rows.

  A row can have Total PTP 0 and PTP Amount > 0, because PTP Amount ignores Status and Account No. (`HourlyReport.PtpAmountWithoutPtpCount`).
- **Per-client record count** (`calculate_combined_summary` in `app.py`). It rejects a table without a `CLIENT` column. Otherwise it groups the rows by client and emits one row per client with its number of records.

Modules:

- `Wrappers` (`wrappers.dfy`): `Option`.
- `TimeBins` (`time_bins.dfy`): the interval and label tables, and interval membership of a time of day.
- `CallMetrics` (`call_metrics.dfy`): the call record and the five metrics as filters and aggregates.
- `HourlyReport` (`hourly_report.dfy`): the summary table, the loop that builds it (`ComputeTimeSummary`), and the total-row properties.
- `StringOrder` (`string_order.dfy`): Python's string order, and the sorted distinct keys that `groupby` produces.
- `CombinedSummary` (`combined_summary.dfy`): the table, the grouping, and the loop of `calculate_combined_summary`.

Representation choices:

- A time of day is a whole number of seconds since midnight, `0 <= t < 86400`.
- A missing `Account No.`, `Status` or `CLIENT` cell is `None`.
- A missing `PTP Amount` or `Balance` is `0`. The source tests both columns with `> 0` before every use, and a missing cell fails that test exactly as `0` does.
- Amounts are integers in the smallest currency unit, so all sums are exact.
- Pandas operations are written out by what they mean:
  - `str.contains(..., na=False)` is substring containment that a missing cell never satisfies;
  - `nunique` is the size of the set of non-missing values;
  - `count` counts non-missing values;
  - `groupby` drops missing keys and visits the keys in ascending order.

## Model

| member | source | states |
|---|---|---|
| TimeBins.InInterval | main.py:24-25 | Definition: a time is in interval i when start_i <= t and t <= end_i, both ends inclusive. |
| TimeBins.Covered | main.py:9-25 | Definition: a time is covered when it lies in at least one of the 15 intervals. |
| TimeBins.IntervalsOf | main.py:9-25 | Definition: the set of intervals that contain a time. |
| TimeBins.IntervalTable | main.py:2-15 | The label and interval tables both have 15 entries, and interval i is [06:00:00, 07:00:00] for i = 0 and [(6+i):01:00, (7+i):00:00] otherwise. |
| TimeBins.IntervalsDisjoint | main.py:9-15 | No time of day lies in two different intervals. |
| TimeBins.AtMostOneInterval | main.py:9-15 | Every time of day lies in at most one interval. |
| TimeBins.CoveredIff | main.py:9-15 | A time lies in some interval iff it is within 06:00:00..21:00:00 and is not in the first 59 seconds after a full hour from 07:00:00 on (so 07:00:01-07:00:59 is the first gap). This characterises the one-minute gaps exactly. |
| TimeBins.NineOClockBoundary | main.py:3-25 | 09:00:00 lies only in interval 2, which is labelled "08:01-09:00 AM". |
| TimeBins.NineOhOneBoundary | main.py:3-25 | 09:01:00 lies only in interval 3, which is labelled "09:01-10:00 AM". |
| TimeBins.UncoveredTimes | main.py:9-25 | 07:00:30, every time before 06:00:00 and every time after 21:00:00 lie in no interval. |
| CallMetrics.HasSubstring | main.py:34-37 | Definition: the marker is a prefix of the text or occurs in the text after its first character, i.e. `marker in text`. |
| CallMetrics.HasSubstringIff | main.py:34-37 | The recursive test holds iff the marker equals some slice text[i..i+|marker|], the direct meaning of substring containment. |
| CallMetrics.ContainsText | main.py:34-37 | Definition of `str.contains(marker, na=False)`: the cell is present and contains the marker. |
| CallMetrics.IsConnected | main.py:31 | Definition: Call Status equals "CONNECTED". |
| CallMetrics.IsPtp | main.py:34 | Definition: Status contains "PTP" (a missing Status does not) and PTP Amount > 0. |
| CallMetrics.IsCountedRpc | main.py:37 | Definition: Status contains "RPC" and Account No. is present, the values that `count()` counts. |
| CallMetrics.InBucket | main.py:23-28 | Definition: the records whose time lies in interval i, in their order (`df[time_mask]`). |
| CallMetrics.AccountsOf | main.py:31-34 | Definition: the set of present account numbers of the records; its size is `nunique()`. |
| CallMetrics.Sum | main.py:37-43 | Definition: the sum of a per-record quantity over the records. |
| CallMetrics.TotalConnected | main.py:31 | Definition: the number of distinct account numbers among the CONNECTED records. |
| CallMetrics.TotalPtp | main.py:34 | Definition: the number of distinct account numbers among the records satisfying IsPtp. |
| CallMetrics.TotalRpc | main.py:37 | Definition: each record satisfying IsCountedRpc counts 1, repeats included. |
| CallMetrics.PtpAmount | main.py:40 | Definition: the sum of the PTP amounts that are > 0. |
| CallMetrics.BalanceAmount | main.py:43 | Definition: the sum of the balances that are > 0 on records whose PTP amount is > 0. |
| CallMetrics.Where | main.py:28-43 | A boolean-mask selection keeps at most as many records as it is given. |
| CallMetrics.InRange | main.py:24-28 | The time mask keeps at most as many records as it is given. |
| CallMetrics.WhereMembership | main.py:28-43 | A record is selected by a mask iff it is in the input and satisfies the mask. |
| CallMetrics.InRangeMembership | main.py:24-28 | A record survives the time mask iff start <= time <= end, both ends inclusive. |
| CallMetrics.InBucketMembership | main.py:23-28 | A record is in interval i's filtered frame iff its time lies in interval i. |
| CallMetrics.AccountsOfMembership | main.py:31-34 | The set that `nunique` counts holds exactly the non-missing account numbers of the records. |
| CallMetrics.AccountsOfBound | main.py:31-34 | There are no more distinct accounts than records. |
| CallMetrics.DistinctCountsBounded | main.py:31-34 | Total Connected is at most the number of CONNECTED records, which is at most the number of records. Likewise for Total PTP and the PTP records. |
| CallMetrics.ConnectedRecordCounted | main.py:31 | A CONNECTED record with an account number contributes that account to Total Connected. |
| CallMetrics.ConnectedAccountIff | main.py:31 | An account is counted by Total Connected iff some record of it has Call Status exactly "CONNECTED". |
| CallMetrics.PtpAccountIff | main.py:34 | An account is counted by Total PTP iff some record of it has a status containing "PTP" and a positive PTP amount. |
| CallMetrics.TotalRpcIsRecordCount | main.py:37 | Total RPC is the number of records, not of distinct accounts, whose status contains "RPC" and whose account number is present. |
| CallMetrics.SumOfNonNegative | main.py:40-43 | A sum of non-negative contributions is non-negative, and it is zero iff every contribution is zero. |
| CallMetrics.AmountsNonNegative | main.py:37-43 | Total RPC, PTP Amount and Balance Amount are never negative. |
| CallMetrics.PtpAmountZeroIff | main.py:40 | PTP Amount is 0 iff no record has a positive PTP amount. |
| CallMetrics.BalanceZeroWithoutPtpAmount | main.py:40-43 | If PTP Amount is 0, then Balance Amount is 0. |
| CallMetrics.NoPromiseContributesNothing | main.py:34-43 | Adding a record whose PTP amount is not positive leaves Total PTP, PTP Amount and Balance Amount unchanged. |
| CallMetrics.MissingStatusMatchesNothing | main.py:34-37 | Adding a record with a missing Status leaves Total PTP and Total RPC unchanged. |
| HourlyReport.ColumnSum | main.py:57-61 | Definition: the sum of one metric column over a list of rows. |
| HourlyReport.IntervalRow | main.py:24-52 | Definition: the row of interval i, with label i and the five metrics of the records whose time is in interval i. |
| HourlyReport.IntervalRows | main.py:23-52 | Definition: the rows of the first n intervals, in table order. |
| HourlyReport.TotalRow | main.py:55-62 | Definition: the row labelled "Total" whose five metrics are the column sums of the given rows. |
| HourlyReport.TimeSummary | main.py:21-64 | The table has 16 rows. Row i is interval i's metrics under label i, in table order. The last row is "Total", and each of its columns is the sum of that column over the 15 interval rows. |
| HourlyReport.ComputeTimeSummary | main.py:20-64 | The loop over the intervals followed by the appended Total row yields exactly that 16-row table. |
| HourlyReport.IntervalRowsStep | main.py:45-52 | Appending interval i's row extends the first i rows to the first i+1 rows. |
| HourlyReport.EmptyIntervalRowIsZero | main.py:23-52 | An interval with no records still has its row, with its label and all five metrics 0. |
| HourlyReport.RowBalanceZeroWithoutPtpAmount | main.py:40-52 | In every interval row, the amounts are non-negative, and Balance Amount is 0 whenever PTP Amount is 0. |
| HourlyReport.SingleRecordRow | main.py:34-40 | For a table of one record lying in interval i, row i's Total PTP is 1 exactly when the record is a PTP record with an account number, and its PTP Amount is the record's amount when that is positive. |
| HourlyReport.PtpAmountWithoutPtpCount | main.py:34-40 | A 09:00:00 record with Status "RPC" and PTP Amount 500, or with Status "PTP", PTP Amount 500 and no Account No., gives row 2 ("08:01-09:00 AM") a Total PTP of 0 and a PTP Amount of 500: a zero PTP count does not imply a zero PTP Amount. |
| HourlyReport.HitsAtMostOnce | main.py:9-28 | A record's time is matched by at most one of the first n intervals, so it contributes once or not at all. |
| HourlyReport.HitsIsCovered | main.py:9-28 | Over all 15 intervals, a record contributes exactly when its time is covered. |
| HourlyReport.BucketSumLast | main.py:23-28 | Summing a weight bucket by bucket, the last record adds its weight once if its time is in one of the intervals. |
| HourlyReport.InBucketLast | main.py:23-28 | One bucket's sum gains the last record's weight iff that record's time lies in the interval. |
| HourlyReport.BucketDecomposition | main.py:23-62 | Summing a per-record quantity interval by interval equals summing it once over the records whose time is covered by some interval. |
| HourlyReport.CoveredSumSnoc | main.py:23-28 | The sum over covered records gains a new record's weight iff its time is covered. |
| HourlyReport.SumOfOnes | main.py:31-34 | Counting each record once gives the number of records. |
| HourlyReport.ColumnSumStep | main.py:55-62 | The column sum of the first n rows is the sum of the first n-1 rows plus row n-1. |
| HourlyReport.ColumnSumIsBucketSum | main.py:55-62 | If each interval entry of a column is the sum of a weight over its interval, the column's sum is the bucket sum of that weight. |
| HourlyReport.ColumnSumAtMostBucketSum | main.py:55-62 | If each interval entry is at most the sum of a weight over its interval, so is the column's sum. |
| HourlyReport.BucketSumOfNoRecords | main.py:23-28 | With no records every bucket sum is 0. |
| HourlyReport.TotalRowOfTimeSummary | main.py:55-64 | The last row of the table is the Total row built from the 15 interval rows. |
| HourlyReport.IntervalRowAdditiveFields | main.py:37-43 | In an interval row, Total RPC, PTP Amount and Balance Amount are sums of a per-record quantity over the interval's records. |
| HourlyReport.TotalRowAdditiveColumn | main.py:55-62 | An additive column of the Total row equals that quantity summed over the records that fall in some interval. |
| HourlyReport.TotalRowAdditiveColumns | main.py:37-62 | The Total row's Total RPC, PTP Amount and Balance Amount equal those metrics computed once over every record whose time is covered. Records in the gaps or outside 06:00-21:00 count nowhere. |
| HourlyReport.TotalRowDistinctCountsBounded | main.py:31-58 | The Total row's Total Connected and Total PTP are at most the number of covered records. |
| HourlyReport.TotalBalanceZeroWithoutPtpAmount | main.py:40-61 | On the Total row too, Balance Amount is 0 whenever PTP Amount is 0. |
| HourlyReport.ConnectedInFirstBound | main.py:31-57 | The distinct connected accounts of the first n intervals are no more than the sum of their Total Connected entries. |
| HourlyReport.ConnectedInFirstContains | main.py:23-31 | A connected record with an account number in interval i puts its account among the connected accounts of every longer prefix of intervals. |
| HourlyReport.CoveredConnectedInUnion | main.py:23-31 | Every connected account among the covered records is a connected account of some interval. |
| HourlyReport.TotalConnectedBetween | main.py:31-57 | The Total row's Total Connected is at least the number of distinct connected accounts among covered records and at most the number of covered records. It is a sum of per-interval distinct counts, so an account connected in two intervals is counted twice. |
| StringOrder.Less | app.py:12 | Definition of Python's `a < b` on str: compare code points from the left, and a proper prefix comes first. |
| StringOrder.LessIrreflexive | app.py:12 | No client key sorts before itself. |
| StringOrder.LessTransitive | app.py:12 | The key order is transitive. |
| StringOrder.LessTotal | app.py:12 | Any two different keys are ordered one way or the other. |
| StringOrder.SortedIsDistinct | app.py:12 | A strictly sorted key sequence has no repeated key. |
| StringOrder.Insert | app.py:12 | Inserting a key into a strictly sorted sequence keeps it strictly sorted, and the result holds exactly the old keys and the new one. |
| StringOrder.SortedDistinct | app.py:12 | The group keys are strictly sorted and are exactly the values of the input. |
| CombinedSummary.ClientOf | app.py:12-17 | Definition: a row's CLIENT cell, None when it is missing. |
| CombinedSummary.ClientValues | app.py:12 | The grouped values are exactly the non-missing CLIENT cells. There are at most as many as rows, and exactly as many when no CLIENT cell is missing. |
| CombinedSummary.Group | app.py:12-14 | A group holds exactly the rows whose CLIENT cell equals its key. |
| CombinedSummary.GroupKeys | app.py:12-14 | Definition: the keys of `groupby('CLIENT')`, the distinct present CLIENT values in ascending order. |
| CombinedSummary.ClientCounts | app.py:14-30 | Definition: for each group key in order, the row (key, size of the key's group). |
| CombinedSummary.RowsWith | app.py:23 | Definition: the positions of the input rows whose CLIENT cell is c. |
| CombinedSummary.ClientValuesSnoc | app.py:12 | Appending a row appends its CLIENT value, if any, to the grouped values. |
| CombinedSummary.RowsWithSnoc | app.py:23 | Appending a row adds its position to the positions of its client and changes no other client's positions. |
| CombinedSummary.ClientMultiplicity | app.py:12-23 | The number of times c occurs among the grouped values equals the number of input rows whose CLIENT cell is c, counted by position. |
| CombinedSummary.CalculateCombinedSummary | app.py:5-34 | Returns None iff the table has no CLIENT column. Otherwise it returns one row per group key, in key order, with that key and the group's size. |
| CombinedSummary.GroupRowIsExpected | app.py:14-30 | Group k is non-empty, its first row's CLIENT cell is present, and the row built from it is the k-th summary row. |
| CombinedSummary.GroupIsNonEmpty | app.py:16-17 | Every group has a first row, and its CLIENT cell is the group key, so the appended client equals the key. |
| CombinedSummary.GroupSizeIsMultiplicity | app.py:23 | A group's size is the number of rows carrying that client value. |
| CombinedSummary.OneRowPerClient | app.py:12-30 | A client appears in the result iff some row carries it. No client appears twice, and the rows are in ascending client order. |
| CombinedSummary.TotalRecordsAreGroupSizes | app.py:17-23 | Each row's Total Records is its client's multiplicity among the CLIENT values, equal to the number of input row positions whose CLIENT cell is that client, and it is at least 1. |
| CombinedSummary.KeyedSumCons | app.py:23 | Counting one more value adds its multiplicity among the keys. |
| CombinedSummary.SortedMultiplicity | app.py:12 | In a strictly sorted key sequence every key occurs once. |
| CombinedSummary.KeyedSumIsLength | app.py:12-23 | When every value is a key and the keys are distinct, the per-key counts add up to the number of values. |
| CombinedSummary.KeyedSumOfNothing | app.py:23 | With no values, every per-key count is 0. |
| CombinedSummary.SumTotalsOfCounts | app.py:23 | Summing Total Records over a list of keys is the per-key count of the client values. |
| CombinedSummary.TotalRecordsSum | app.py:12-23 | The Total Records column sums to the number of input rows with a client value. |

## Left out

- The Streamlit interface is not modelled: `st.markdown`, `st.dataframe`, `st.error`, `st.title`, the file uploader, and `main()` (app.py:37-61). `st.error` has no effect on any result.
- Reading the CSV files is not modelled. Neither is the `to_datetime(..., format='%H:%M:%S')` parsing at main.py:18 and main.py:24-25. Records arrive with the time already parsed into seconds of day; unparseable text is outside the model.
- A missing `Time` cell is not modelled, because a record always carries a time. `to_datetime` turns it into NaT, and NaT fails both comparisons at main.py:24-25. Such a record therefore falls in no interval. The model represents it by leaving the record out of the input, which gives the same 16 rows.
- A missing column is not modelled. If any of `Time`, `Call Status`, `Account No.`, `Status`, `PTP Amount` or `Balance` is absent, main.py raises KeyError (main.py:18-43). A `CallRecord` always has all six fields, so the model assumes all six columns exist and always yields the 16-row table.
- A `Status` column that holds no text at all is not modelled. For example, if every cell is empty, the column is read as floating-point NaN, and `.str.contains` at main.py:34 and main.py:37 raises AttributeError. The model assumes `Status` is a text column, where a missing cell matches nothing (`CallMetrics.MissingStatusMatchesNothing`).
- The in-place overwrite of the `Time` column (main.py:18) is not modelled, because the records already carry a parsed time.
- Data-frame plumbing (`pd.concat`, `pd.DataFrame(summary)`, column dtypes and the index) is not modelled. The result is a sequence of row values.
- PTP Amount and Balance are integers in the smallest currency unit instead of floating-point numbers. This means there is no rounding in the sums.
- A missing (NaN) PTP Amount or Balance is represented as 0. This is exact for every metric, because each use is guarded by `> 0`.
- Only string CLIENT values are modelled. Pandas groups mixed-type keys by its own ordering rules, which are not modelled.
- Call Status is a plain string. A missing value behaves like any value other than "CONNECTED", which is all the source tests.
- The intervals follow the code: closed at both ends, with one-minute gaps (for example 07:00:01-07:00:59 is in no interval).
- HourlyReport.TotalConnectedBetween: states bounds on the Total row's connected count, not an exact value. Its exact value is the sum of the 15 per-interval distinct counts, which `TimeSummary` states.
- The other views of the dashboard (exclusion filters, cycle extraction, balance tiers, rates) are not modelled: their code is not in main.py or app.py.
