/**
 * One disposition record and the five per-interval metrics of the hourly productivity
 * summary (main.py:28-43), written as filters and aggregates over a sequence of records.
 */
module CallMetrics {
  import opened Wrappers
  import opened TimeBins

  /**
   * The columns of a record that the hourly summary reads. A missing "Account No." or
   * "Status" cell is None. A missing "PTP Amount" or "Balance" is represented by 0:
   * every use of those two columns first tests "> 0", which a missing cell fails just as
   * 0 does. Amounts are whole numbers of the smallest currency unit.
   */
  datatype CallRecord = CallRecord(
    account: Option<string>,
    time: Seconds,
    callStatus: string,
    status: Option<string>,
    ptpAmount: int,
    balance: int)

  /** Substring test on a text cell; a missing cell never matches (str.contains with na=False). */
  predicate ContainsText(text: Option<string>, marker: string)
  {
    text.Some? && HasSubstring(text.value, marker)
  }

  /** marker occurs in s at some position. */
  predicate HasSubstring(s: string, marker: string)
    decreases |s|
  {
    marker <= s || (s != [] && HasSubstring(s[1..], marker))
  }

  /** marker is the slice of s that starts at position i. */
  predicate OccursAt(s: string, marker: string, i: int)
  {
    0 <= i && i + |marker| <= |s| && s[i..i + |marker|] == marker
  }

  /** The recursive test agrees with the direct definition: marker is some slice of s. */
  lemma {:induction false} HasSubstringIff(s: string, marker: string)
    ensures HasSubstring(s, marker) <==> exists i :: OccursAt(s, marker, i)
    decreases |s|
  {
    if HasSubstring(s, marker) {
      if marker <= s {
        assert OccursAt(s, marker, 0);
      } else {
        HasSubstringIff(s[1..], marker);
        var j :| OccursAt(s[1..], marker, j);
        assert s[j + 1..j + 1 + |marker|] == s[1..][j..j + |marker|];
        assert OccursAt(s, marker, j + 1);
      }
    }
    if exists i :: OccursAt(s, marker, i) {
      var i :| OccursAt(s, marker, i);
      if i == 0 {
        assert marker <= s;
      } else {
        HasSubstringIff(s[1..], marker);
        assert s[1..][i - 1..i - 1 + |marker|] == s[i..i + |marker|];
        assert OccursAt(s[1..], marker, i - 1);
      }
    }
  }

  /** "Call Status" is exactly CONNECTED (main.py:31). */
  predicate IsConnected(r: CallRecord)
  {
    r.callStatus == "CONNECTED"
  }

  /** "Status" contains PTP and the promised amount is positive (main.py:34). */
  predicate IsPtp(r: CallRecord)
  {
    ContainsText(r.status, "PTP") && r.ptpAmount > 0
  }

  /** "Status" contains RPC and the record has an account number, the cells that count() counts (main.py:37). */
  predicate IsCountedRpc(r: CallRecord)
  {
    ContainsText(r.status, "RPC") && r.account.Some?
  }

  /** The records of rs that satisfy p, in their original order (boolean-mask indexing). */
  function Where(rs: seq<CallRecord>, p: CallRecord -> bool): (s: seq<CallRecord>)
    ensures |s| <= |rs|
    decreases |rs|
  {
    if rs == [] then []
    else Where(rs[..|rs| - 1], p) + (if p(rs[|rs| - 1]) then [rs[|rs| - 1]] else [])
  }

  /**
   * The records with start <= time <= end, in their original order (df[time_mask], main.py:24-28).
   * This is Where with the time mask as predicate, kept as its own recursion over the two bounds so
   * that the interval lemmas compare plain integers and never have to identify two closures.
   */
  function InRange(rs: seq<CallRecord>, start: int, end: int): (s: seq<CallRecord>)
    ensures |s| <= |rs|
    decreases |rs|
  {
    if rs == [] then []
    else InRange(rs[..|rs| - 1], start, end) + (if start <= rs[|rs| - 1].time <= end then [rs[|rs| - 1]] else [])
  }

  /** The records whose time lies in interval i of the table. */
  function InBucket(rs: seq<CallRecord>, i: nat): seq<CallRecord>
    requires i < IntervalCount
  {
    InRange(rs, IntervalStart(i), IntervalEnd(i))
  }

  /** The distinct non-missing account numbers of rs (the values nunique counts). */
  function AccountsOf(rs: seq<CallRecord>): set<string>
    decreases |rs|
  {
    if rs == [] then {}
    else AccountsOf(rs[..|rs| - 1]) + (if rs[|rs| - 1].account.Some? then {rs[|rs| - 1].account.value} else {})
  }

  /** Σ w(r) over the records of rs. */
  function Sum(rs: seq<CallRecord>, w: CallRecord -> int): int
    decreases |rs|
  {
    if rs == [] then 0 else Sum(rs[..|rs| - 1], w) + w(rs[|rs| - 1])
  }

  function RpcWeight(r: CallRecord): int
  {
    if IsCountedRpc(r) then 1 else 0
  }

  function PtpAmountWeight(r: CallRecord): int
  {
    if r.ptpAmount > 0 then r.ptpAmount else 0
  }

  function BalanceWeight(r: CallRecord): int
  {
    if r.balance > 0 && r.ptpAmount > 0 then r.balance else 0
  }

  /** Total Connected: distinct accounts among CONNECTED records (main.py:31). */
  function TotalConnected(rs: seq<CallRecord>): nat
  {
    |AccountsOf(Where(rs, IsConnected))|
  }

  /** Total PTP: distinct accounts among PTP records with positive amount (main.py:34). */
  function TotalPtp(rs: seq<CallRecord>): nat
  {
    |AccountsOf(Where(rs, IsPtp))|
  }

  /** Total RPC: the number of RPC records with an account number, repeats included (main.py:37). */
  function TotalRpc(rs: seq<CallRecord>): int
  {
    Sum(rs, RpcWeight)
  }

  /** PTP Amount: the sum of the positive promised amounts (main.py:40). */
  function PtpAmount(rs: seq<CallRecord>): int
  {
    Sum(rs, PtpAmountWeight)
  }

  /** Balance Amount: the sum of the positive balances of records with a positive promised amount (main.py:43). */
  function BalanceAmount(rs: seq<CallRecord>): int
  {
    Sum(rs, BalanceWeight)
  }

  // ---------------------------------------------------------------- lemmas

  lemma SumSnoc(rs: seq<CallRecord>, r: CallRecord, w: CallRecord -> int)
    ensures Sum(rs + [r], w) == Sum(rs, w) + w(r)
  {
    assert (rs + [r])[..|rs|] == rs;
  }

  lemma WhereSnoc(rs: seq<CallRecord>, r: CallRecord, p: CallRecord -> bool)
    ensures Where(rs + [r], p) == Where(rs, p) + (if p(r) then [r] else [])
  {
    assert (rs + [r])[..|rs|] == rs;
  }

  /** A record is kept by Where exactly when it is in rs and satisfies p. */
  lemma {:induction false} WhereMembership(rs: seq<CallRecord>, p: CallRecord -> bool, r: CallRecord)
    ensures r in Where(rs, p) <==> r in rs && p(r)
    decreases |rs|
  {
    if rs != [] {
      var front := rs[..|rs| - 1];
      assert rs == front + [rs[|rs| - 1]];
      WhereMembership(front, p, r);
    }
  }

  /** A record is kept by the time mask exactly when it is in rs and start <= time <= end. */
  lemma {:induction false} InRangeMembership(rs: seq<CallRecord>, start: int, end: int, r: CallRecord)
    ensures r in InRange(rs, start, end) <==> r in rs && start <= r.time <= end
    decreases |rs|
  {
    if rs != [] {
      var front := rs[..|rs| - 1];
      assert rs == front + [rs[|rs| - 1]];
      InRangeMembership(front, start, end, r);
    }
  }

  lemma InBucketMembership(rs: seq<CallRecord>, i: nat, r: CallRecord)
    requires i < IntervalCount
    ensures r in InBucket(rs, i) <==> r in rs && InInterval(r.time, i)
  {
    InRangeMembership(rs, IntervalStart(i), IntervalEnd(i), r);
  }

  /** AccountsOf is nunique's set: the account numbers that occur in some record. */
  lemma {:induction false} AccountsOfMembership(rs: seq<CallRecord>, a: string)
    ensures a in AccountsOf(rs) <==> exists r :: r in rs && r.account == Some(a)
    decreases |rs|
  {
    if rs != [] {
      var front, last := rs[..|rs| - 1], rs[|rs| - 1];
      assert rs == front + [last];
      AccountsOfMembership(front, a);
      if exists r :: r in rs && r.account == Some(a) {
        var r :| r in rs && r.account == Some(a);
        if r != last {
          assert r in front;
        }
      }
    }
  }

  /** A distinct count never exceeds the number of records it is taken over. */
  lemma {:induction false} AccountsOfBound(rs: seq<CallRecord>)
    ensures |AccountsOf(rs)| <= |rs|
    decreases |rs|
  {
    if rs != [] {
      AccountsOfBound(rs[..|rs| - 1]);
    }
  }

  /** Total Connected is at most the number of records of the interval, and so is Total PTP. */
  lemma DistinctCountsBounded(rs: seq<CallRecord>)
    ensures TotalConnected(rs) <= |Where(rs, IsConnected)| <= |rs|
    ensures TotalPtp(rs) <= |Where(rs, IsPtp)| <= |rs|
  {
    AccountsOfBound(Where(rs, IsConnected));
    AccountsOfBound(Where(rs, IsPtp));
  }

  /** A CONNECTED record with an account number puts that account in the Total Connected set. */
  lemma ConnectedRecordCounted(rs: seq<CallRecord>, r: CallRecord)
    requires r in rs && IsConnected(r) && r.account.Some?
    ensures r.account.value in AccountsOf(Where(rs, IsConnected))
  {
    WhereMembership(rs, IsConnected, r);
    AccountsOfMembership(Where(rs, IsConnected), r.account.value);
  }

  /** An account is counted by Total Connected exactly when one of its records is CONNECTED. */
  lemma ConnectedAccountIff(rs: seq<CallRecord>, a: string)
    ensures a in AccountsOf(Where(rs, IsConnected)) <==>
              exists r :: r in rs && r.callStatus == "CONNECTED" && r.account == Some(a)
  {
    AccountsOfMembership(Where(rs, IsConnected), a);
    if exists r :: r in rs && r.callStatus == "CONNECTED" && r.account == Some(a) {
      var r :| r in rs && r.callStatus == "CONNECTED" && r.account == Some(a);
      WhereMembership(rs, IsConnected, r);
    }
    if a in AccountsOf(Where(rs, IsConnected)) {
      var r :| r in Where(rs, IsConnected) && r.account == Some(a);
      WhereMembership(rs, IsConnected, r);
    }
  }

  /** An account is counted by Total PTP exactly when one of its records has PTP status text and a positive amount. */
  lemma PtpAccountIff(rs: seq<CallRecord>, a: string)
    ensures a in AccountsOf(Where(rs, IsPtp)) <==>
              exists r :: r in rs && ContainsText(r.status, "PTP") && r.ptpAmount > 0 && r.account == Some(a)
  {
    AccountsOfMembership(Where(rs, IsPtp), a);
    if exists r :: r in rs && ContainsText(r.status, "PTP") && r.ptpAmount > 0 && r.account == Some(a) {
      var r :| r in rs && ContainsText(r.status, "PTP") && r.ptpAmount > 0 && r.account == Some(a);
      WhereMembership(rs, IsPtp, r);
    }
    if a in AccountsOf(Where(rs, IsPtp)) {
      var r :| r in Where(rs, IsPtp) && r.account == Some(a);
      WhereMembership(rs, IsPtp, r);
    }
  }

  /** Total RPC counts records, not accounts: it is the length of the filtered column. */
  lemma {:induction false} TotalRpcIsRecordCount(rs: seq<CallRecord>)
    ensures TotalRpc(rs) == |Where(rs, IsCountedRpc)|
    decreases |rs|
  {
    if rs != [] {
      var front, last := rs[..|rs| - 1], rs[|rs| - 1];
      assert rs == front + [last];
      TotalRpcIsRecordCount(front);
      SumSnoc(front, last, RpcWeight);
      WhereSnoc(front, last, IsCountedRpc);
    }
  }

  /** A sum of non-negative weights is non-negative, and it is zero exactly when every weight is zero. */
  lemma {:induction false} SumOfNonNegative(rs: seq<CallRecord>, w: CallRecord -> int)
    requires forall r :: w(r) >= 0
    ensures Sum(rs, w) >= 0
    ensures Sum(rs, w) == 0 <==> forall r :: r in rs ==> w(r) == 0
    decreases |rs|
  {
    if rs != [] {
      var front, last := rs[..|rs| - 1], rs[|rs| - 1];
      assert rs == front + [last];
      SumOfNonNegative(front, w);
      SumSnoc(front, last, w);
    }
  }

  /** PTP Amount and Balance Amount are never negative. */
  lemma AmountsNonNegative(rs: seq<CallRecord>)
    ensures PtpAmount(rs) >= 0 && BalanceAmount(rs) >= 0 && TotalRpc(rs) >= 0
  {
    SumOfNonNegative(rs, PtpAmountWeight);
    SumOfNonNegative(rs, BalanceWeight);
    SumOfNonNegative(rs, RpcWeight);
  }

  /** PTP Amount is zero exactly when no record promises a positive amount. */
  lemma PtpAmountZeroIff(rs: seq<CallRecord>)
    ensures PtpAmount(rs) == 0 <==> forall r :: r in rs ==> r.ptpAmount <= 0
  {
    SumOfNonNegative(rs, PtpAmountWeight);
  }

  /** Balance Amount is zero whenever PTP Amount is zero. */
  lemma BalanceZeroWithoutPtpAmount(rs: seq<CallRecord>)
    requires PtpAmount(rs) == 0
    ensures BalanceAmount(rs) == 0
  {
    PtpAmountZeroIff(rs);
    SumOfNonNegative(rs, BalanceWeight);
  }

  /** A record whose promised amount is not positive changes no PTP metric, whatever its status text. */
  lemma NoPromiseContributesNothing(rs: seq<CallRecord>, r: CallRecord)
    requires r.ptpAmount <= 0
    ensures TotalPtp(rs + [r]) == TotalPtp(rs)
    ensures PtpAmount(rs + [r]) == PtpAmount(rs)
    ensures BalanceAmount(rs + [r]) == BalanceAmount(rs)
  {
    WhereSnoc(rs, r, IsPtp);
    assert Where(rs + [r], IsPtp) == Where(rs, IsPtp);
    SumSnoc(rs, r, PtpAmountWeight);
    SumSnoc(rs, r, BalanceWeight);
  }

  /** A record with missing status text counts neither as PTP nor as RPC. */
  lemma MissingStatusMatchesNothing(rs: seq<CallRecord>, r: CallRecord)
    requires r.status.None?
    ensures TotalPtp(rs + [r]) == TotalPtp(rs)
    ensures TotalRpc(rs + [r]) == TotalRpc(rs)
  {
    WhereSnoc(rs, r, IsPtp);
    assert Where(rs + [r], IsPtp) == Where(rs, IsPtp);
    SumSnoc(rs, r, RpcWeight);
  }
}
