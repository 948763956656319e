/** The attack table: the records built from fetched attacks, the filter
    that decides which fetched attacks become records, and the sort by
    (Chain ID, Timestamp Ended) that precedes the gap annotation. */
module Attacks {
  import opened Wrappers
  import opened Gaps

  /** A chain id. The API keys chains by their numeric id. */
  type ChainId = nat

  /** A chain of the faction, as listed by the chains endpoint. */
  datatype Chain = Chain(id: ChainId, start: int, end: int)

  /** The fields of a fetched attack that the report reads; chainId is the
      chain whose window the attack was fetched for. */
  datatype FetchedAttack = FetchedAttack(
    chainId: ChainId,
    attackerName: string,
    defenderFactionName: string,
    timestampEnded: int,
    chain: int)

  /** One record of the attack table. */
  datatype Attack = Attack(
    chainId: ChainId,
    attacker: string,
    defender: string,
    endedAt: int,
    chainValue: int)

  /** A row of the annotated table: a record and its "Time Since Last Attack". */
  datatype Row = Row(attack: Attack, gap: Option<GapLabel>)

  /** Only attacks that are part of a chain and not on the placeholder
      faction become records. */
  predicate Kept(a: FetchedAttack) {
    a.chain > 0 && a.defenderFactionName != "Untitled"
  }

  /** The record of a fetched attack: every field is copied unchanged. */
  function ToRecord(a: FetchedAttack): Attack {
    Attack(a.chainId, a.attackerName, a.defenderFactionName, a.timestampEnded, a.chain)
  }

  /** The records of the kept attacks, in fetch order. */
  function Records(fetched: seq<FetchedAttack>): (records: seq<Attack>)
    ensures |records| <= |fetched|
    decreases |fetched|
  {
    if fetched == [] then []
    else
      var last := fetched[|fetched| - 1];
      Records(fetched[..|fetched| - 1]) + if Kept(last) then [ToRecord(last)] else []
  }

  /** A record is in the table exactly when it is the copy of a kept
      fetched attack. */
  lemma {:induction false} RecordsMembership(fetched: seq<FetchedAttack>, x: Attack)
    ensures x in Records(fetched) <==> exists a :: a in fetched && Kept(a) && ToRecord(a) == x
    decreases |fetched|
  {
    if fetched != [] {
      var init, last := fetched[..|fetched| - 1], fetched[|fetched| - 1];
      RecordsMembership(init, x);
      assert fetched == init + [last];
      if x in Records(fetched) && x !in Records(init) {
        assert Kept(last) && ToRecord(last) == x;
      }
      if a :| a in fetched && Kept(a) && ToRecord(a) == x {
        if a != last {
          assert a in init;
        }
      }
    }
  }

  /** One record per kept fetched attack, in fetch order: the records of
      two batches are the records of the first followed by those of the
      second. */
  lemma {:induction false} RecordsAppend(first: seq<FetchedAttack>, second: seq<FetchedAttack>)
    ensures Records(first + second) == Records(first) + Records(second)
    decreases |second|
  {
    if second != [] {
      var n := |second| - 1;
      RecordsAppend(first, second[..n]);
      assert (first + second)[..|first + second| - 1] == first + second[..n];
      assert (first + second)[|first + second| - 1] == second[n];
    } else {
      assert first + second == first;
    }
  }

  /** The record-building loop: appends the record of every kept attack. */
  method BuildRecords(fetched: seq<FetchedAttack>) returns (records: seq<Attack>)
    ensures records == Records(fetched)
  {
    records := [];
    for i := 0 to |fetched|
      invariant records == Records(fetched[..i])
    {
      var attack := fetched[i];
      if attack.chain > 0 && attack.defenderFactionName != "Untitled" {
        records := records + [ToRecord(attack)];
      }
      assert fetched[..i + 1][..i] == fetched[..i];
    }
    assert fetched[..|fetched|] == fetched;
  }

  /** The sort key order: by chain id, then by end time. */
  predicate KeyLe(x: Attack, y: Attack) {
    x.chainId < y.chainId || (x.chainId == y.chainId && x.endedAt <= y.endedAt)
  }

  predicate Sorted(rows: seq<Attack>) {
    forall i, j :: 0 <= i < j < |rows| ==> KeyLe(rows[i], rows[j])
  }

  /** Places x into a sorted sequence. */
  function Insert(x: Attack, rows: seq<Attack>): (r: seq<Attack>)
    requires Sorted(rows)
    ensures Sorted(r) && multiset(r) == multiset(rows) + multiset{x}
    decreases |rows|
  {
    if rows == [] || KeyLe(x, rows[0]) then [x] + rows
    else
      var rest := Insert(x, rows[1..]);
      HeadBelowInsert(x, rows, rest);
      assert rows == [rows[0]] + rows[1..];
      [rows[0]] + rest
  }

  lemma HeadBelowInsert(x: Attack, rows: seq<Attack>, rest: seq<Attack>)
    requires Sorted(rows) && rows != [] && !KeyLe(x, rows[0])
    requires multiset(rest) == multiset(rows[1..]) + multiset{x}
    ensures forall j :: 0 <= j < |rest| ==> KeyLe(rows[0], rest[j])
  {
    forall j | 0 <= j < |rest|
      ensures KeyLe(rows[0], rest[j])
    {
      assert rest[j] in multiset(rest);
      if rest[j] != x {
        assert rest[j] in multiset(rows[1..]);
        var k :| 0 <= k < |rows[1..]| && rows[1..][k] == rest[j];
        assert rows[k + 1] == rest[j];
      }
    }
  }

  /** sort_values(by=["Chain ID", "Timestamp Ended"]): a sorted permutation
      of the records. */
  function SortByChainTime(rows: seq<Attack>): (r: seq<Attack>)
    ensures Sorted(r) && multiset(r) == multiset(rows)
    decreases |rows|
  {
    if rows == [] then []
    else
      assert rows == [rows[0]] + rows[1..];
      Insert(rows[0], SortByChainTime(rows[1..]))
  }
}
