/**
 * The hourly productivity summary table (main.py:20-64): one row per interval of the
 * fixed table, in table order, followed by one "Total" row of column sums.
 */
module HourlyReport {
  import opened Wrappers
  import opened TimeBins
  import opened CallMetrics

  /** One output line: 'Time Range' and the five metric columns (main.py:21). */
  datatype SummaryRow = SummaryRow(
    timeRange: string,
    totalConnected: int,
    totalPtp: int,
    totalRpc: int,
    ptpAmount: int,
    balanceAmount: int)

  /** The metric columns, in output order. */
  datatype Column = TotalConnectedColumn | TotalPtpColumn | TotalRpcColumn | PtpAmountColumn | BalanceAmountColumn

  function Field(row: SummaryRow, c: Column): int
  {
    match c
    case TotalConnectedColumn => row.totalConnected
    case TotalPtpColumn => row.totalPtp
    case TotalRpcColumn => row.totalRpc
    case PtpAmountColumn => row.ptpAmount
    case BalanceAmountColumn => row.balanceAmount
  }

  /** The sum of column c over the rows. */
  function ColumnSum(rows: seq<SummaryRow>, c: Column): int
    decreases |rows|
  {
    if rows == [] then 0 else ColumnSum(rows[..|rows| - 1], c) + Field(rows[|rows| - 1], c)
  }

  /** The row of interval i: its label and the five metrics over the records in it (main.py:24-52). */
  function IntervalRow(df: seq<CallRecord>, i: nat): SummaryRow
    requires i < IntervalCount
  {
    var dfFiltered := InBucket(df, i);
    SummaryRow(TimeBinLabels[i], TotalConnected(dfFiltered), TotalPtp(dfFiltered),
               TotalRpc(dfFiltered), PtpAmount(dfFiltered), BalanceAmount(dfFiltered))
  }

  /** The rows of the first n intervals. */
  function IntervalRows(df: seq<CallRecord>, n: nat): seq<SummaryRow>
    requires n <= IntervalCount
  {
    seq(n, i requires 0 <= i < n => IntervalRow(df, i))
  }

  /** The Total row: every metric column summed over the given rows (main.py:55-62). */
  function TotalRow(rows: seq<SummaryRow>): SummaryRow
  {
    SummaryRow("Total", ColumnSum(rows, TotalConnectedColumn), ColumnSum(rows, TotalPtpColumn),
               ColumnSum(rows, TotalRpcColumn), ColumnSum(rows, PtpAmountColumn),
               ColumnSum(rows, BalanceAmountColumn))
  }

  /** The whole table: sixteen rows, the intervals in label order and then Total. */
  function TimeSummary(df: seq<CallRecord>): (t: seq<SummaryRow>)
    ensures |t| == IntervalCount + 1
    ensures forall i :: 0 <= i < IntervalCount ==> t[i] == IntervalRow(df, i) && t[i].timeRange == TimeBinLabels[i]
    ensures t[IntervalCount].timeRange == "Total"
    ensures forall c :: Field(t[IntervalCount], c) == ColumnSum(t[..IntervalCount], c)
  {
    var rows := IntervalRows(df, IntervalCount);
    assert (rows + [TotalRow(rows)])[..IntervalCount] == rows;
    rows + [TotalRow(rows)]
  }

  /** The loop of main.py:23-52 followed by the Total row of main.py:55-64. */
  method ComputeTimeSummary(df: seq<CallRecord>) returns (timeSummary: seq<SummaryRow>)
    ensures timeSummary == TimeSummary(df)
    ensures |timeSummary| == IntervalCount + 1
    ensures forall i :: 0 <= i < IntervalCount ==> timeSummary[i] == IntervalRow(df, i)
    ensures timeSummary[IntervalCount] == TotalRow(timeSummary[..IntervalCount])
  {
    timeSummary := [];
    for i := 0 to |Intervals|
      invariant timeSummary == IntervalRows(df, i)
    {
      var (start, end) := Intervals[i];
      IntervalTable(i);
      var dfFiltered := InRange(df, start, end);
      var totalConnected := TotalConnected(dfFiltered);
      var totalPtp := TotalPtp(dfFiltered);
      var totalRpc := TotalRpc(dfFiltered);
      var ptpAmount := PtpAmount(dfFiltered);
      var balanceAmount := BalanceAmount(dfFiltered);
      IntervalRowsStep(df, i);
      timeSummary := timeSummary + [SummaryRow(TimeBinLabels[i], totalConnected, totalPtp, totalRpc, ptpAmount, balanceAmount)];
    }
    var totals := TotalRow(timeSummary);
    timeSummary := timeSummary + [totals];
  }

  // ---------------------------------------------------------------- per-interval rows

  lemma IntervalRowsStep(df: seq<CallRecord>, i: nat)
    requires i < IntervalCount
    ensures IntervalRows(df, i + 1) == IntervalRows(df, i) + [IntervalRow(df, i)]
  {
  }

  /** An interval without records still has its row, with every metric zero. */
  lemma EmptyIntervalRowIsZero(df: seq<CallRecord>, i: nat)
    requires i < IntervalCount
    requires forall r :: r in df ==> !InInterval(r.time, i)
    ensures var row := TimeSummary(df)[i];
              row.timeRange == TimeBinLabels[i] && forall c :: Field(row, c) == 0
  {
    var b := InBucket(df, i);
    if b != [] {
      InBucketMembership(df, i, b[0]);
    }
  }

  /** Within one row, Balance Amount is zero whenever PTP Amount is, and neither is negative. */
  lemma RowBalanceZeroWithoutPtpAmount(df: seq<CallRecord>, i: nat)
    requires i < IntervalCount
    ensures var row := TimeSummary(df)[i];
              row.ptpAmount >= 0 && row.balanceAmount >= 0 && (row.ptpAmount == 0 ==> row.balanceAmount == 0)
  {
    var b := InBucket(df, i);
    AmountsNonNegative(b);
    if PtpAmount(b) == 0 {
      BalanceZeroWithoutPtpAmount(b);
    }
  }

  /**
   * Total PTP and PTP Amount filter differently: PTP Amount ignores Status and Account No.
   * A 09:00:00 record with Status "RPC" and amount 500, or one with Status "PTP", amount 500
   * and no account number, gives interval 2 a Total PTP of 0 and a PTP Amount of 500.
   */
  lemma PtpAmountWithoutPtpCount()
    ensures var row := TimeSummary([CallRecord(Some("A"), Clock(9, 0, 0), "CONNECTED", Some("RPC"), 500, 0)])[2];
              row.totalPtp == 0 && row.ptpAmount == 500
    ensures var row := TimeSummary([CallRecord(None, Clock(9, 0, 0), "CONNECTED", Some("PTP"), 500, 0)])[2];
              row.totalPtp == 0 && row.ptpAmount == 500
  {
    var r1 := CallRecord(Some("A"), Clock(9, 0, 0), "CONNECTED", Some("RPC"), 500, 0);
    var r2 := CallRecord(None, Clock(9, 0, 0), "CONNECTED", Some("PTP"), 500, 0);
    NoPtpInRpc();
    SingleRecordRow(r1, 2);
    SingleRecordRow(r2, 2);
  }

  /** "PTP" is not a substring of "RPC". */
  lemma NoPtpInRpc()
    ensures !HasSubstring("RPC", "PTP")
  {
    assert "RPC"[1..] == "PC" && "PC"[1..] == "C" && "C"[1..] == [];
    assert !HasSubstring([], "PTP");
    assert "C"[0] != "PTP"[0] && !HasSubstring("C", "PTP");
    assert "PC"[1] != "PTP"[1] && !HasSubstring("PC", "PTP");
    assert "RPC"[0] != "PTP"[0];
  }

  /** A one-record table whose record lies in interval i: row i's Total PTP and PTP Amount are that record's. */
  lemma SingleRecordRow(r: CallRecord, i: nat)
    requires i < IntervalCount && InInterval(r.time, i)
    ensures TimeSummary([r])[i].totalPtp == if IsPtp(r) && r.account.Some? then 1 else 0
    ensures TimeSummary([r])[i].ptpAmount == if r.ptpAmount > 0 then r.ptpAmount else 0
  {
    assert [r][..0] == [];
    assert InBucket([r], i) == [r];
    assert Where([r], IsPtp) == if IsPtp(r) then [r] else [];
    assert AccountsOf([]) == {};
    assert Sum([r], PtpAmountWeight) == PtpAmountWeight(r);
  }

  // ---------------------------------------------------------------- the Total row

  /** The record lies in some interval; records outside all intervals appear in no row. */
  predicate IsCovered(r: CallRecord)
  {
    Covered(r.time)
  }

  function One(r: CallRecord): int
  {
    1
  }

  /** Σ_{i<n} (x if t is in interval i, else 0). */
  function Hits(t: int, x: int, n: nat): int
    requires n <= IntervalCount
  {
    if n == 0 then 0 else Hits(t, x, n - 1) + (if InInterval(t, n - 1) then x else 0)
  }

  /** Σ_{i<n} Sum(records of interval i, w). */
  function BucketSum(df: seq<CallRecord>, w: CallRecord -> int, n: nat): int
    requires n <= IntervalCount
  {
    if n == 0 then 0 else BucketSum(df, w, n - 1) + Sum(InBucket(df, n - 1), w)
  }

  /** Because the intervals are disjoint, a time is counted by at most one of the first n intervals. */
  lemma {:induction false} HitsAtMostOnce(t: int, x: int, n: nat)
    requires n <= IntervalCount
    ensures Hits(t, x, n) == if exists i :: 0 <= i < n && InInterval(t, i) then x else 0
  {
    if n > 0 {
      HitsAtMostOnce(t, x, n - 1);
      if InInterval(t, n - 1) {
        forall i | 0 <= i < n - 1 ensures !InInterval(t, i) {
        }
      }
    }
  }

  /** Splitting off the last record of df: it adds w(last) once for every one of the first n intervals it is in. */
  lemma {:induction false} BucketSumLast(df: seq<CallRecord>, w: CallRecord -> int, n: nat)
    requires df != [] && n <= IntervalCount
    ensures BucketSum(df, w, n) == BucketSum(df[..|df| - 1], w, n) + Hits(df[|df| - 1].time, w(df[|df| - 1]), n)
  {
    if n > 0 {
      BucketSumLast(df, w, n - 1);
      InBucketLast(df, w, n - 1);
    }
  }

  lemma InBucketLast(df: seq<CallRecord>, w: CallRecord -> int, i: nat)
    requires df != [] && i < IntervalCount
    ensures Sum(InBucket(df, i), w) == Sum(InBucket(df[..|df| - 1], i), w) + (if InInterval(df[|df| - 1].time, i) then w(df[|df| - 1]) else 0)
  {
    var front, last := df[..|df| - 1], df[|df| - 1];
    if InInterval(last.time, i) {
      assert InBucket(df, i) == InBucket(front, i) + [last];
      SumSnoc(InBucket(front, i), last, w);
    } else {
      assert InBucket(df, i) == InBucket(front, i) + [];
      assert InBucket(front, i) + [] == InBucket(front, i);
    }
  }

  /** Summing an additive metric over the fifteen intervals sums it over the covered records once each. */
  lemma {:induction false} BucketDecomposition(df: seq<CallRecord>, w: CallRecord -> int)
    ensures BucketSum(df, w, IntervalCount) == Sum(Where(df, IsCovered), w)
    decreases |df|
  {
    if df == [] {
      BucketSumOfNoRecords(w, IntervalCount);
    } else {
      var front, last := df[..|df| - 1], df[|df| - 1];
      BucketDecomposition(front, w);
      BucketSumLast(df, w, IntervalCount);
      HitsIsCovered(last.time, w(last));
      assert df == front + [last];
      CoveredSumSnoc(front, last, w);
    }
  }

  lemma HitsIsCovered(t: int, x: int)
    ensures Hits(t, x, IntervalCount) == if Covered(t) then x else 0
  {
    HitsAtMostOnce(t, x, IntervalCount);
  }

  lemma CoveredSumSnoc(rs: seq<CallRecord>, r: CallRecord, w: CallRecord -> int)
    ensures Sum(Where(rs + [r], IsCovered), w) == Sum(Where(rs, IsCovered), w) + (if IsCovered(r) then w(r) else 0)
  {
    var before := Where(rs, IsCovered);
    WhereSnoc(rs, r, IsCovered);
    if IsCovered(r) {
      SumSnoc(before, r, w);
    } else {
      assert before + [] == before;
    }
  }

  lemma {:induction false} SumOfOnes(rs: seq<CallRecord>)
    ensures Sum(rs, One) == |rs|
    decreases |rs|
  {
    if rs != [] {
      SumOfOnes(rs[..|rs| - 1]);
    }
  }

  lemma ColumnSumStep(df: seq<CallRecord>, n: nat, c: Column)
    requires 0 < n <= IntervalCount
    ensures ColumnSum(IntervalRows(df, n), c) == ColumnSum(IntervalRows(df, n - 1), c) + Field(IntervalRow(df, n - 1), c)
  {
    assert IntervalRows(df, n)[..n - 1] == IntervalRows(df, n - 1);
  }

  /** A column whose every interval entry is Sum(records of the interval, w) sums to the bucket sum of w. */
  lemma {:induction false} ColumnSumIsBucketSum(df: seq<CallRecord>, n: nat, c: Column, w: CallRecord -> int)
    requires n <= IntervalCount
    requires forall i :: 0 <= i < n ==> Field(IntervalRow(df, i), c) == Sum(InBucket(df, i), w)
    ensures ColumnSum(IntervalRows(df, n), c) == BucketSum(df, w, n)
  {
    if n > 0 {
      ColumnSumIsBucketSum(df, n - 1, c, w);
      ColumnSumStep(df, n, c);
      assert Field(IntervalRow(df, n - 1), c) == Sum(InBucket(df, n - 1), w);
      assert BucketSum(df, w, n) == BucketSum(df, w, n - 1) + Sum(InBucket(df, n - 1), w);
    }
  }

  /** A column whose every interval entry is at most Sum(records of the interval, w) sums to at most the bucket sum of w. */
  lemma {:induction false} ColumnSumAtMostBucketSum(df: seq<CallRecord>, n: nat, c: Column, w: CallRecord -> int)
    requires n <= IntervalCount
    requires forall i :: 0 <= i < n ==> Field(IntervalRow(df, i), c) <= Sum(InBucket(df, i), w)
    ensures ColumnSum(IntervalRows(df, n), c) <= BucketSum(df, w, n)
  {
    if n > 0 {
      ColumnSumAtMostBucketSum(df, n - 1, c, w);
      ColumnSumStep(df, n, c);
      assert Field(IntervalRow(df, n - 1), c) <= Sum(InBucket(df, n - 1), w);
      assert BucketSum(df, w, n) == BucketSum(df, w, n - 1) + Sum(InBucket(df, n - 1), w);
    }
  }

  lemma {:induction false} BucketSumOfNoRecords(w: CallRecord -> int, n: nat)
    requires n <= IntervalCount
    ensures BucketSum([], w, n) == 0
  {
    if n > 0 {
      BucketSumOfNoRecords(w, n - 1);
    }
  }

  lemma TotalRowOfTimeSummary(df: seq<CallRecord>)
    ensures TimeSummary(df)[IntervalCount] == TotalRow(IntervalRows(df, IntervalCount))
  {
  }

  lemma IntervalRowAdditiveFields(df: seq<CallRecord>, i: nat)
    requires i < IntervalCount
    ensures Field(IntervalRow(df, i), TotalRpcColumn) == Sum(InBucket(df, i), RpcWeight)
    ensures Field(IntervalRow(df, i), PtpAmountColumn) == Sum(InBucket(df, i), PtpAmountWeight)
    ensures Field(IntervalRow(df, i), BalanceAmountColumn) == Sum(InBucket(df, i), BalanceWeight)
  {
  }

  /** An additive column of the Total row is its metric over all records that fall in some interval. */
  lemma TotalRowAdditiveColumn(df: seq<CallRecord>, c: Column, w: CallRecord -> int)
    requires forall i :: 0 <= i < IntervalCount ==> Field(IntervalRow(df, i), c) == Sum(InBucket(df, i), w)
    ensures Field(TotalRow(IntervalRows(df, IntervalCount)), c) == Sum(Where(df, IsCovered), w)
  {
    ColumnSumIsBucketSum(df, IntervalCount, c, w);
    BucketDecomposition(df, w);
  }

  /**
   * Total RPC, PTP Amount and Balance Amount of the Total row are those metrics taken over
   * all records that fall in some interval: no covered record is counted twice and no
   * uncovered record is counted at all.
   */
  lemma TotalRowAdditiveColumns(df: seq<CallRecord>)
    ensures var total := TimeSummary(df)[IntervalCount];
              && total.totalRpc == TotalRpc(Where(df, IsCovered))
              && total.ptpAmount == PtpAmount(Where(df, IsCovered))
              && total.balanceAmount == BalanceAmount(Where(df, IsCovered))
  {
    TotalRowOfTimeSummary(df);
    forall i | 0 <= i < IntervalCount
      ensures Field(IntervalRow(df, i), TotalRpcColumn) == Sum(InBucket(df, i), RpcWeight)
      ensures Field(IntervalRow(df, i), PtpAmountColumn) == Sum(InBucket(df, i), PtpAmountWeight)
      ensures Field(IntervalRow(df, i), BalanceAmountColumn) == Sum(InBucket(df, i), BalanceWeight)
    {
      IntervalRowAdditiveFields(df, i);
    }
    TotalRowAdditiveColumn(df, TotalRpcColumn, RpcWeight);
    TotalRowAdditiveColumn(df, PtpAmountColumn, PtpAmountWeight);
    TotalRowAdditiveColumn(df, BalanceAmountColumn, BalanceWeight);
  }

  /** Total Connected and Total PTP of the Total row are at most the number of covered records. */
  lemma TotalRowDistinctCountsBounded(df: seq<CallRecord>)
    ensures var total := TimeSummary(df)[IntervalCount];
              && total.totalConnected <= |Where(df, IsCovered)|
              && total.totalPtp <= |Where(df, IsCovered)|
  {
    forall i | 0 <= i < IntervalCount
      ensures Field(IntervalRow(df, i), TotalConnectedColumn) <= Sum(InBucket(df, i), One)
      ensures Field(IntervalRow(df, i), TotalPtpColumn) <= Sum(InBucket(df, i), One)
    {
      DistinctCountsBounded(InBucket(df, i));
      SumOfOnes(InBucket(df, i));
    }
    ColumnSumAtMostBucketSum(df, IntervalCount, TotalConnectedColumn, One);
    ColumnSumAtMostBucketSum(df, IntervalCount, TotalPtpColumn, One);
    BucketDecomposition(df, One);
    SumOfOnes(Where(df, IsCovered));
  }

  /** On the Total row too, Balance Amount is zero whenever PTP Amount is. */
  lemma TotalBalanceZeroWithoutPtpAmount(df: seq<CallRecord>)
    ensures var total := TimeSummary(df)[IntervalCount];
              total.ptpAmount == 0 ==> total.balanceAmount == 0
  {
    TotalRowAdditiveColumns(df);
    var covered := Where(df, IsCovered);
    if PtpAmount(covered) == 0 {
      BalanceZeroWithoutPtpAmount(covered);
    }
  }

  /** The accounts counted as connected by at least one of the first n interval rows. */
  function ConnectedInFirst(df: seq<CallRecord>, n: nat): set<string>
    requires n <= IntervalCount
  {
    if n == 0 then {} else ConnectedInFirst(df, n - 1) + AccountsOf(Where(InBucket(df, n - 1), IsConnected))
  }

  lemma {:induction false} ConnectedInFirstBound(df: seq<CallRecord>, n: nat)
    requires n <= IntervalCount
    ensures |ConnectedInFirst(df, n)| <= ColumnSum(IntervalRows(df, n), TotalConnectedColumn)
  {
    if n > 0 {
      ConnectedInFirstBound(df, n - 1);
      ColumnSumStep(df, n, TotalConnectedColumn);
      var a, b := ConnectedInFirst(df, n - 1), AccountsOf(Where(InBucket(df, n - 1), IsConnected));
      assert |a + b| <= |a| + |b| by {
        assert |a + b| + |a * b| == |a| + |b|;
      }
    }
  }

  lemma {:induction false} ConnectedInFirstContains(df: seq<CallRecord>, n: nat, r: CallRecord, i: nat)
    requires i < n <= IntervalCount
    requires r in df && IsConnected(r) && r.account.Some? && InInterval(r.time, i)
    ensures r.account.value in ConnectedInFirst(df, n)
  {
    if i == n - 1 {
      InBucketMembership(df, i, r);
      ConnectedRecordCounted(InBucket(df, i), r);
    } else {
      ConnectedInFirstContains(df, n - 1, r, i);
    }
  }

  lemma CoveredConnectedInUnion(df: seq<CallRecord>)
    ensures AccountsOf(Where(Where(df, IsCovered), IsConnected)) <= ConnectedInFirst(df, IntervalCount)
  {
    var covered := Where(df, IsCovered);
    forall a | a in AccountsOf(Where(covered, IsConnected)) ensures a in ConnectedInFirst(df, IntervalCount) {
      ConnectedAccountIff(covered, a);
      var r :| r in covered && r.callStatus == "CONNECTED" && r.account == Some(a);
      WhereMembership(df, IsCovered, r);
      assert Covered(r.time);
      var i :| 0 <= i < IntervalCount && InInterval(r.time, i);
      ConnectedInFirstContains(df, IntervalCount, r, i);
    }
  }

  /**
   * The Total row's Total Connected counts an account once per interval it connected in:
   * it lies between the number of distinct connected accounts among the covered records
   * and the number of covered records.
   */
  lemma TotalConnectedBetween(df: seq<CallRecord>)
    ensures var total := TimeSummary(df)[IntervalCount];
              var covered := Where(df, IsCovered);
              |AccountsOf(Where(covered, IsConnected))| <= total.totalConnected <= |covered|
  {
    var distinct := AccountsOf(Where(Where(df, IsCovered), IsConnected));
    var union := ConnectedInFirst(df, IntervalCount);
    CoveredConnectedInUnion(df);
    ConnectedInFirstBound(df, IntervalCount);
    assert |distinct| <= |union| by {
      SubsetCardinality(distinct, union);
    }
    TotalRowDistinctCountsBounded(df);
  }

  lemma SubsetCardinality(a: set<string>, b: set<string>)
    requires a <= b
    ensures |a| <= |b|
  {
    assert b == a + (b - a);
  }
}
