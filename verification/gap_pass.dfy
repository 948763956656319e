/** The gap annotation pass: after the sort, every row that follows a row
    of the same chain is labelled with the time since that row, and every
    out-of-range gap is logged. */
module GapPass {
  import opened Wrappers
  import opened Gaps
  import opened Attacks

  /** The records of a table, without their labels. */
  function AttacksOf(table: seq<Row>): (rows: seq<Attack>)
    ensures |rows| == |table|
    ensures forall i :: 0 <= i < |table| ==> rows[i] == table[i].attack
    decreases |table|
  {
    if table == [] then [] else AttacksOf(table[..|table| - 1]) + [table[|table| - 1].attack]
  }

  /** The label row i receives: the category of the time since the row
      before it, when that row belongs to the same chain; None otherwise. */
  function GapAt(rows: seq<Attack>, i: nat): Option<GapLabel>
    requires i < |rows|
  {
    if i > 0 && rows[i].chainId == rows[i - 1].chainId
    then Some(Categorize(rows[i].endedAt - rows[i - 1].endedAt))
    else None
  }

  /** The table after the pass. */
  function Annotated(rows: seq<Attack>): seq<Row> {
    seq(|rows|, i requires 0 <= i < |rows| => Row(rows[i], GapAt(rows, i)))
  }

  /** The entries of error_logs, in row order; an entry is represented by
      the end time of the attack whose gap was out of range. */
  function ErrorLog(rows: seq<Attack>): seq<int>
    decreases |rows|
  {
    if rows == [] then []
    else
      var n := |rows| - 1;
      ErrorLog(rows[..n]) + if GapAt(rows, n) == Some(OutOfRange) then [rows[n].endedAt] else []
  }

  /** The number of rows whose label is the error label. */
  function OutOfRangeCount(table: seq<Row>): nat
    decreases |table|
  {
    if table == [] then 0
    else
      var n := |table| - 1;
      OutOfRangeCount(table[..n]) + if table[n].gap == Some(OutOfRange) then 1 else 0
  }

  /** The pass, in place: the label column is reset to None, then every row
      after the first is labelled against its predecessor. */
  method AnnotateGaps(table: array<Row>) returns (errorLog: seq<int>)
    modifies table
    ensures table[..] == Annotated(AttacksOf(old(table[..])))
    ensures errorLog == ErrorLog(AttacksOf(old(table[..])))
  {
    ghost var rows := AttacksOf(table[..]);
    ClearGaps(table);
    errorLog := [];
    if table.Length > 0 {
      var i := 1;
      while i < table.Length
        invariant 1 <= i <= table.Length
        invariant forall j :: 0 <= j < table.Length ==> table[j].attack == rows[j]
        invariant forall j :: 0 <= j < i ==> table[j].gap == GapAt(rows, j)
        invariant forall j :: i <= j < table.Length ==> table[j].gap == None
        invariant errorLog == ErrorLog(rows[..i])
      {
        ErrorLogStep(rows, i);
        assert table[i].attack == rows[i] && table[i - 1].attack == rows[i - 1];
        if table[i].attack.chainId == table[i - 1].attack.chainId {
          var timeDiff := table[i].attack.endedAt - table[i - 1].attack.endedAt;
          var category := Categorize(timeDiff);
          if category == OutOfRange {
            errorLog := errorLog + [table[i].attack.endedAt];
          }
          table[i] := table[i].(gap := Some(category));
        }
        assert table[i].gap == GapAt(rows, i);
        i := i + 1;
      }
      assert rows[..table.Length] == rows;
    }
    assert table[..] == Annotated(rows);
  }

  /** The reset of the label column. */
  method ClearGaps(table: array<Row>)
    modifies table
    ensures forall j :: 0 <= j < table.Length ==> table[j] == Row(old(table[j]).attack, None)
  {
    for i := 0 to table.Length
      invariant forall j :: 0 <= j < i ==> table[j] == Row(old(table[j]).attack, None)
      invariant forall j :: i <= j < table.Length ==> table[j] == old(table[j])
    {
      table[i] := table[i].(gap := None);
    }
  }

  /** The log up to row i + 1 is the log up to row i and row i's entry. */
  lemma ErrorLogStep(rows: seq<Attack>, i: nat)
    requires i < |rows|
    ensures ErrorLog(rows[..i + 1])
            == ErrorLog(rows[..i]) + if GapAt(rows, i) == Some(OutOfRange) then [rows[i].endedAt] else []
  {
    assert rows[..i + 1][..i] == rows[..i];
  }

  /** On the sorted table, a row is labelled exactly when an earlier row of
      its chain exists, i.e. every row but the first of its chain; the gap
      is then non-negative and measured to the latest earlier attack of the
      chain, whoever made it. */
  lemma SortedGapIsToLatestChainAttack(rows: seq<Attack>, i: nat)
    requires Sorted(rows) && i < |rows|
    ensures GapAt(rows, i).Some? <==> exists j :: 0 <= j < i && rows[j].chainId == rows[i].chainId
    ensures GapAt(rows, i).Some? ==>
              && rows[i - 1].endedAt <= rows[i].endedAt
              && (forall j :: 0 <= j < i && rows[j].chainId == rows[i].chainId ==> rows[j].endedAt <= rows[i - 1].endedAt)
              && GapAt(rows, i) == Some(Categorize(rows[i].endedAt - rows[i - 1].endedAt))
  {
    if j :| 0 <= j < i && rows[j].chainId == rows[i].chainId {
      assert KeyLe(rows[j], rows[i - 1]) && KeyLe(rows[i - 1], rows[i]);
    }
    if GapAt(rows, i).Some? {
      forall j | 0 <= j < i && rows[j].chainId == rows[i].chainId
        ensures rows[j].endedAt <= rows[i - 1].endedAt
      {
        if j < i - 1 {
          assert KeyLe(rows[j], rows[i - 1]);
        }
      }
    }
  }

  /** One error is logged per out-of-range label, and nothing else. */
  lemma {:induction false} ErrorLogCountsOutOfRange(rows: seq<Attack>)
    ensures |ErrorLog(rows)| == OutOfRangeCount(Annotated(rows))
    decreases |rows|
  {
    if rows != [] {
      var n := |rows| - 1;
      ErrorLogCountsOutOfRange(rows[..n]);
      assert Annotated(rows)[..n] == Annotated(rows[..n]);
    }
  }

  /** Labels do not depend on the rows after them. */
  lemma GapAtPrefix(rows: seq<Attack>, n: nat, i: nat)
    requires i < n <= |rows|
    ensures GapAt(rows[..n], i) == GapAt(rows, i)
  {
  }

  /** An error is logged exactly for the rows whose gap to a same-chain
      predecessor is five minutes or more. */
  lemma {:induction false} ErrorLogEntries(rows: seq<Attack>, t: int)
    ensures t in ErrorLog(rows) <==>
              exists i :: 0 <= i < |rows| && GapAt(rows, i) == Some(OutOfRange) && rows[i].endedAt == t
    decreases |rows|
  {
    if rows != [] {
      var n := |rows| - 1;
      var init := rows[..n];
      ErrorLogEntries(init, t);
      if i :| 0 <= i < |rows| && GapAt(rows, i) == Some(OutOfRange) && rows[i].endedAt == t {
        if i < n {
          GapAtPrefix(rows, n, i);
          assert init[i] == rows[i];
        }
      }
      if t in ErrorLog(init) {
        var i :| 0 <= i < n && GapAt(init, i) == Some(OutOfRange) && init[i].endedAt == t;
        GapAtPrefix(rows, n, i);
        assert rows[i] == init[i];
      }
    }
  }
}
