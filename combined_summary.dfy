/**
 * calculate_combined_summary (app.py:5-34): the number of records of every client.
 */
module CombinedSummary {
  import opened Wrappers
  import opened StringOrder

  const ClientColumn: string := "CLIENT"

  /** One input row: the non-missing cells by column name; a column absent from the map is a missing cell. */
  type Row = map<string, string>

  /** A table: its column names and its rows. */
  datatype Frame = Frame(columns: set<string>, rows: seq<Row>)

  /** One output row: the client and its 'Total Records'. */
  datatype ClientCount = ClientCount(client: string, totalRecords: nat)

  /** The row's CLIENT cell, None when it is missing. */
  function ClientOf(row: Row): Option<string>
  {
    if ClientColumn in row then Some(row[ClientColumn]) else None
  }

  /** The non-missing CLIENT cells, in row order. */
  function ClientValues(rows: seq<Row>): (s: seq<string>)
    ensures forall c :: c in s <==> exists row :: row in rows && ClientOf(row) == Some(c)
    ensures |s| <= |rows|
    ensures (forall row :: row in rows ==> ClientColumn in row) ==> |s| == |rows|
    decreases |rows|
  {
    if rows == [] then []
    else (if ClientOf(rows[0]).Some? then [ClientOf(rows[0]).value] else []) + ClientValues(rows[1..])
  }

  /** The rows whose CLIENT cell is key, in row order (one group of groupby). */
  function Group(rows: seq<Row>, key: string): (g: seq<Row>)
    ensures forall row :: row in g <==> row in rows && ClientOf(row) == Some(key)
    decreases |rows|
  {
    if rows == [] then []
    else (if ClientOf(rows[0]) == Some(key) then [rows[0]] else []) + Group(rows[1..], key)
  }

  /** The group keys of groupby('CLIENT'): the distinct non-missing clients, sorted. */
  function GroupKeys(rows: seq<Row>): seq<string>
  {
    SortedDistinct(ClientValues(rows))
  }

  /** One output row per key of ks, in the order of ks. */
  function CountsFor(rows: seq<Row>, ks: seq<string>): seq<ClientCount>
  {
    seq(|ks|, j requires 0 <= j < |ks| => ClientCount(ks[j], |Group(rows, ks[j])|))
  }

  /** The summary as a value: one row per group key, in key order. */
  function ClientCounts(rows: seq<Row>): seq<ClientCount>
  {
    CountsFor(rows, GroupKeys(rows))
  }

  /** The sum of the 'Total Records' column. */
  function SumTotals(s: seq<ClientCount>): int
    decreases |s|
  {
    if s == [] then 0 else s[0].totalRecords + SumTotals(s[1..])
  }

  /** calculate_combined_summary: None when the CLIENT column is missing, otherwise one row per client. */
  method CalculateCombinedSummary(df: Frame) returns (combinedSummary: Option<seq<ClientCount>>)
    ensures combinedSummary.None? <==> ClientColumn !in df.columns
    ensures combinedSummary.Some? ==> combinedSummary.value == ClientCounts(df.rows)
  {
    if ClientColumn !in df.columns {
      return None;
    }
    var summary: seq<ClientCount> := [];
    var grouped := GroupKeys(df.rows);
    ghost var expected := ClientCounts(df.rows);
    assert |expected| == |grouped|;
    for k := 0 to |grouped|
      invariant summary == expected[..k]
    {
      var clientName := grouped[k];
      // each group keeps all columns of the frame
      var group := Frame(df.columns, Group(df.rows, clientName));
      if ClientColumn in group.columns {
        GroupRowIsExpected(df.rows, k);
        var client := ClientOf(group.rows[0]).value;
        var totalRecords := |group.rows|;
        PrefixStep(expected, k);
        summary := summary + [ClientCount(client, totalRecords)];
      } else {
        assert false;
      }
    }
    assert expected[..|grouped|] == expected;
    return Some(summary);
  }

  // ---------------------------------------------------------------- lemmas

  /** Extending a prefix by one element. */
  lemma PrefixStep<T>(s: seq<T>, k: nat)
    requires k < |s|
    ensures s[..k + 1] == s[..k] + [s[k]]
  {
  }

  /** The k-th group yields the k-th row of the summary. */
  lemma GroupRowIsExpected(rows: seq<Row>, k: nat)
    requires k < |GroupKeys(rows)|
    ensures var key := GroupKeys(rows)[k];
              && Group(rows, key) != []
              && ClientOf(Group(rows, key)[0]).Some?
              && ClientCount(ClientOf(Group(rows, key)[0]).value, |Group(rows, key)|) == ClientCounts(rows)[k]
  {
    GroupIsNonEmpty(rows, GroupKeys(rows)[k]);
  }

  lemma GroupIsNonEmpty(rows: seq<Row>, key: string)
    requires key in GroupKeys(rows)
    ensures Group(rows, key) != []
    ensures ClientOf(Group(rows, key)[0]) == Some(key)
  {
    var row :| row in rows && ClientOf(row) == Some(key);
    assert row in Group(rows, key);
  }

  /** A group holds exactly the rows carrying its key: its size is that key's multiplicity in the CLIENT column. */
  lemma {:induction false} GroupSizeIsMultiplicity(rows: seq<Row>, key: string)
    ensures |Group(rows, key)| == multiset(ClientValues(rows))[key]
    decreases |rows|
  {
    if rows != [] {
      GroupSizeIsMultiplicity(rows[1..], key);
    }
  }

  /** The positions of the input rows whose CLIENT cell is c. */
  function RowsWith(rows: seq<Row>, c: string): set<int>
  {
    set i | 0 <= i < |rows| && ClientOf(rows[i]) == Some(c)
  }

  /** Appending a row appends its CLIENT cell, if it has one. */
  lemma {:induction false} ClientValuesSnoc(rows: seq<Row>, r: Row)
    ensures ClientValues(rows + [r]) == ClientValues(rows) + (if ClientOf(r).Some? then [ClientOf(r).value] else [])
    decreases |rows|
  {
    if rows == [] {
      assert ClientValues([r]) == (if ClientOf(r).Some? then [ClientOf(r).value] else []) + ClientValues([]);
    } else {
      assert (rows + [r])[1..] == rows[1..] + [r];
      ClientValuesSnoc(rows[1..], r);
    }
  }

  /** Appending a row adds its position to the positions of its client. */
  lemma RowsWithSnoc(rows: seq<Row>, r: Row, c: string)
    ensures RowsWith(rows + [r], c) == RowsWith(rows, c) + (if ClientOf(r) == Some(c) then {|rows|} else {})
  {
    var rs := rows + [r];
    forall i | 0 <= i < |rows| ensures rs[i] == rows[i] {
    }
  }

  /** The multiplicity of c among the client values is the number of input rows whose CLIENT cell is c. */
  lemma {:induction false} ClientMultiplicity(rows: seq<Row>, c: string)
    ensures multiset(ClientValues(rows))[c] == |RowsWith(rows, c)|
    decreases |rows|
  {
    if rows == [] {
      assert RowsWith(rows, c) == {};
    } else {
      var init, r := rows[..|rows| - 1], rows[|rows| - 1];
      assert rows == init + [r];
      ClientValuesSnoc(init, r);
      ClientMultiplicity(init, c);
      RowsWithSnoc(init, r, c);
      assert |init| !in RowsWith(init, c);
    }
  }

  /** Every client value has exactly one row, every row's client occurs in the input, and the rows are sorted by client. */
  lemma OneRowPerClient(rows: seq<Row>)
    ensures var s := ClientCounts(rows);
              && (forall c :: (exists i :: 0 <= i < |s| && s[i].client == c) <==> (exists row :: row in rows && ClientOf(row) == Some(c)))
              && (forall i, j :: 0 <= i < j < |s| ==> s[i].client != s[j].client && Less(s[i].client, s[j].client))
  {
    var s, keys := ClientCounts(rows), GroupKeys(rows);
    forall c | exists row :: row in rows && ClientOf(row) == Some(c)
      ensures exists i :: 0 <= i < |s| && s[i].client == c
    {
      assert c in keys;
      var i :| 0 <= i < |keys| && keys[i] == c;
      assert s[i].client == c;
    }
    forall i, j | 0 <= i < j < |s| ensures s[i].client != s[j].client {
      SortedIsDistinct(keys, i, j);
    }
  }

  /** A row's 'Total Records' is the number of input rows carrying its client, at least one. */
  lemma TotalRecordsAreGroupSizes(rows: seq<Row>)
    ensures var s := ClientCounts(rows);
              forall i :: 0 <= i < |s| ==>
                s[i].totalRecords == multiset(ClientValues(rows))[s[i].client] == |RowsWith(rows, s[i].client)| >= 1
  {
    var s, keys := ClientCounts(rows), GroupKeys(rows);
    forall i | 0 <= i < |s| ensures s[i].totalRecords == multiset(ClientValues(rows))[s[i].client] == |RowsWith(rows, s[i].client)| >= 1 {
      GroupSizeIsMultiplicity(rows, keys[i]);
      ClientMultiplicity(rows, keys[i]);
      GroupIsNonEmpty(rows, keys[i]);
    }
  }

  /** Σ_{k in ks} multiplicity of k in vals. */
  function KeyedSum(vals: seq<string>, ks: seq<string>): int
    decreases |ks|
  {
    if ks == [] then 0 else multiset(vals)[ks[0]] + KeyedSum(vals, ks[1..])
  }

  lemma {:induction false} KeyedSumCons(x: string, vals: seq<string>, ks: seq<string>)
    ensures KeyedSum([x] + vals, ks) == KeyedSum(vals, ks) + multiset(ks)[x]
    decreases |ks|
  {
    if ks != [] {
      KeyedSumCons(x, vals, ks[1..]);
      assert ks == [ks[0]] + ks[1..];
    }
  }

  lemma {:induction false} SortedMultiplicity(ks: seq<string>, x: string)
    requires StrictlySorted(ks)
    ensures multiset(ks)[x] == if x in ks then 1 else 0
    decreases |ks|
  {
    if ks != [] {
      assert ks == [ks[0]] + ks[1..];
      SortedMultiplicity(ks[1..], x);
      if ks[0] == x {
        forall j | 1 <= j < |ks| ensures ks[j] != x {
          SortedIsDistinct(ks, 0, j);
        }
      }
    }
  }

  /** Summing the multiplicities over distinct keys that include every value counts every value once. */
  lemma {:induction false} KeyedSumIsLength(vals: seq<string>, ks: seq<string>)
    requires StrictlySorted(ks)
    requires forall x :: x in vals ==> x in ks
    ensures KeyedSum(vals, ks) == |vals|
    decreases |vals|
  {
    if vals == [] {
      KeyedSumOfNothing(ks);
    } else {
      assert vals == [vals[0]] + vals[1..];
      KeyedSumIsLength(vals[1..], ks);
      KeyedSumCons(vals[0], vals[1..], ks);
      SortedMultiplicity(ks, vals[0]);
    }
  }

  lemma {:induction false} KeyedSumOfNothing(ks: seq<string>)
    ensures KeyedSum([], ks) == 0
    decreases |ks|
  {
    if ks != [] {
      KeyedSumOfNothing(ks[1..]);
    }
  }

  lemma {:induction false} SumTotalsOfCounts(rows: seq<Row>, ks: seq<string>)
    ensures SumTotals(CountsFor(rows, ks)) == KeyedSum(ClientValues(rows), ks)
    decreases |ks|
  {
    if ks != [] {
      assert CountsFor(rows, ks)[1..] == CountsFor(rows, ks[1..]);
      SumTotalsOfCounts(rows, ks[1..]);
      GroupSizeIsMultiplicity(rows, ks[0]);
    }
  }

  /** The 'Total Records' column sums to the number of input rows that have a client value. */
  lemma TotalRecordsSum(rows: seq<Row>)
    ensures SumTotals(ClientCounts(rows)) == |ClientValues(rows)|
  {
    SumTotalsOfCounts(rows, GroupKeys(rows));
    KeyedSumIsLength(ClientValues(rows), GroupKeys(rows));
  }
}
