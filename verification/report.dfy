/** The whole war report: records from the fetched attacks, the sort, the
    gap annotation, the chain points, the summary table and, in the release
    script, the cut columns. */
module Report {
  import opened Wrappers
  import opened Gaps
  import opened Attacks
  import opened GapPass
  import opened Points
  import opened Summary
  import opened Cut

  /** The two scripts: the release script (hit milestones by chain value,
      groups restricted to the fetched chains, cut columns) and the
      anonymised one (milestones by the attacker's own hit number, every
      group scored, no cut columns). */
  datatype Script = Release | Anonymised

  function ChainIds(chains: seq<Chain>): set<ChainId> {
    set c | c in chains :: c.id
  }

  function ScoringFor(script: Script, chains: seq<Chain>, opponent: string): (s: Scoring)
    ensures s.opponent == opponent
    ensures script == Release ==> s.milestone == ByChainValue && s.validChains == Some(ChainIds(chains))
    ensures script == Anonymised ==> s.milestone == ByHitNumber && s.validChains.None?
  {
    match script
    case Release => Scoring(opponent, ByChainValue, Some(ChainIds(chains)))
    case Anonymised => Scoring(opponent, ByHitNumber, None)
  }

  /** Why no report is written: nothing was fetched; no record has Chain
      Value at most 10, so the "Attacks #1-10" column is built from an
      empty frame and its assignment raises; or the cuts failed their
      integrity test (the release script's exception). */
  datatype ReportError = NoAttackData | NoWarmUpHits | CutIntegrity(error: CutError)

  /** What the scripts write: the annotated attack table, the error log,
      the penalty hit details (the anonymised script keeps none), the
      summary table and the cut columns. */
  datatype WarReport = WarReport(
    attacks: seq<Row>,
    errorLog: seq<int>,
    penaltyDetails: seq<PenaltyRecord>,
    summary: seq<SummaryRow>,
    cuts: Option<CutTable>)

  /** The early return. The release script tests the attacks kept by the
      record filter; the anonymised one tests the attacks as fetched, so an
      all-filtered fetch passes this test and fails later, at the
      "Attacks #1-10" column. */
  predicate NothingFetched(script: Script, fetched: seq<FetchedAttack>) {
    match script
    case Release => Records(fetched) == []
    case Anonymised => fetched == []
  }

  /** Whether some record is one of the first ten hits of its chain
      (Chain Value at most 10). */
  predicate HasWarmUpHit(records: seq<Attack>) {
    exists i | 0 <= i < |records| :: records[i].chainValue <= 10
  }

  /** Sorting neither adds nor removes a warm-up hit. */
  lemma WarmUpSurvivesSort(records: seq<Attack>)
    ensures HasWarmUpHit(SortByChainTime(records)) <==> HasWarmUpHit(records)
  {
    var sorted := SortByChainTime(records);
    WarmUpSurvivesPermutation(sorted, records);
    WarmUpSurvivesPermutation(records, sorted);
  }

  /** A reordering keeps any Chain Value <= 10 attack. */
  lemma WarmUpSurvivesPermutation(from: seq<Attack>, to: seq<Attack>)
    requires multiset(from) == multiset(to)
    ensures HasWarmUpHit(from) ==> HasWarmUpHit(to)
  {
    if i :| 0 <= i < |from| && from[i].chainValue <= 10 {
      assert from[i] in multiset(to);
      var j :| 0 <= j < |to| && to[j] == from[i];
    }
  }

  /** The annotated attack table. */
  function TableOf(fetched: seq<FetchedAttack>): (rows: seq<Row>)
    ensures |rows| == |Records(fetched)|
  {
    var sorted := SortByChainTime(Records(fetched));
    assert |multiset(sorted)| == |multiset(Records(fetched))|;
    Annotated(sorted)
  }

  function TallyOf(script: Script, chains: seq<Chain>, fetched: seq<FetchedAttack>, opponent: string): Tally {
    var rows := TableOf(fetched);
    ScoreKeys(rows, GroupKeys(rows), ScoringFor(script, chains, opponent))
  }

  function SummaryOf(script: Script, chains: seq<Chain>, fetched: seq<FetchedAttack>, opponent: string): seq<SummaryRow> {
    BuildSummary(TableOf(fetched), TallyOf(script, chains, fetched, opponent), opponent)
  }

  /** The report as a function of the chains, the fetched attacks and the
      opponent's name. */
  function ReportOf(script: Script, chains: seq<Chain>, fetched: seq<FetchedAttack>, opponent: string)
    : (r: Result<WarReport, ReportError>)
    ensures r.Success? ==> HasWarmUpHit(Records(fetched))
    ensures r.Success? ==> |r.value.attacks| == |Records(fetched)|
    ensures r.Success? ==> (r.value.cuts.Some? <==> script == Release)
  {
    WarmUpSurvivesSort(Records(fetched));
    if NothingFetched(script, fetched) then Failure(NoAttackData)
    else if !HasWarmUpHit(SortByChainTime(Records(fetched))) then Failure(NoWarmUpHits)
    else
      var rows := TableOf(fetched);
      var tally := TallyOf(script, chains, fetched, opponent);
      var summary := SummaryOf(script, chains, fetched, opponent);
      var errorLog := ErrorLog(SortByChainTime(Records(fetched)));
      match script
      case Anonymised => Success(WarReport(rows, errorLog, [], summary, None))
      case Release =>
        match Distribute(summary)
        case Failure(e) => Failure(CutIntegrity(e))
        case Success(table) => Success(WarReport(rows, errorLog, tally.details, summary, Some(table)))
  }

  /** process_torn_attacks: the attack table is a mutable frame that the
      gap pass labels in place; the points are accumulated in the ledger's
      four maps. */
  method ProcessTornAttacks(script: Script, chains: seq<Chain>, fetched: seq<FetchedAttack>, opponent: string)
    returns (r: Result<WarReport, ReportError>)
    ensures r == ReportOf(script, chains, fetched, opponent)
  {
    if script == Anonymised && fetched == [] {
      return Failure(NoAttackData);
    }
    var records := BuildRecords(fetched);
    if script == Release && records == [] {
      return Failure(NoAttackData);
    }
    var sorted := SortByChainTime(records);
    var table := new Row[|sorted|](i requires 0 <= i < |sorted| => Row(sorted[i], None));
    assert AttacksOf(table[..]) == sorted;
    var errorLog := AnnotateGaps(table);
    if !HasWarmUpHit(sorted) {
      return Failure(NoWarmUpHits);
    }
    var rows := table[..];
    var ledger := ComputeChainPoints(rows, ScoringFor(script, chains, opponent));
    var tally := ledger.State();
    var summary := BuildSummary(rows, tally, opponent);
    var details: seq<PenaltyRecord> := [];
    var cuts: Option<CutTable> := None;
    if script == Release {
      details := tally.details;
      var distributed := Distribute(summary);
      if distributed.Failure? {
        return Failure(CutIntegrity(distributed.error));
      }
      cuts := Some(distributed.value);
    }
    return Success(WarReport(rows, errorLog, details, summary, cuts));
  }

  // ----------------------------------------------------- what the report promises

  /** The report is missing exactly when nothing was fetched, when no
      record is among the first ten hits of its chain, or, in the release
      script, when the cut pool is 0. An anonymised fetch that the record
      filter empties is of the second kind. */
  lemma ReportFailsIff(script: Script, chains: seq<Chain>, fetched: seq<FetchedAttack>, opponent: string)
    ensures ReportOf(script, chains, fetched, opponent) == Failure(NoAttackData) <==> NothingFetched(script, fetched)
    ensures ReportOf(script, chains, fetched, opponent) == Failure(NoWarmUpHits)
            <==> !NothingFetched(script, fetched) && !HasWarmUpHit(Records(fetched))
    ensures ReportOf(script, chains, fetched, opponent).Failure?
            <==> NothingFetched(script, fetched)
                 || !HasWarmUpHit(Records(fetched))
                 || (script == Release && Denominator(SummaryOf(script, chains, fetched, opponent)) == 0.0)
    ensures script == Anonymised && fetched != [] && Records(fetched) == []
            ==> ReportOf(script, chains, fetched, opponent) == Failure(NoWarmUpHits)
  {
    WarmUpSurvivesSort(Records(fetched));
  }

  lemma AttacksOfAnnotated(rows: seq<Attack>)
    ensures AttacksOf(Annotated(rows)) == rows
  {
  }

  /** The annotated table holds exactly the kept attacks, ordered by chain
      and then by end time, each labelled against the row before it. */
  lemma TableIsSortedRecords(fetched: seq<FetchedAttack>)
    ensures var rows := TableOf(fetched);
            && RowsSorted(rows)
            && multiset(AttacksOf(rows)) == multiset(Records(fetched))
            && forall i :: 0 <= i < |rows| ==> rows[i].gap == GapAt(AttacksOf(rows), i)
  {
    var sorted := SortByChainTime(Records(fetched));
    AttacksOfAnnotated(sorted);
    var rows := Annotated(sorted);
    forall i, j | 0 <= i < j < |rows|
      ensures KeyLe(rows[i].attack, rows[j].attack)
    {
      assert rows[i].attack == sorted[i] && rows[j].attack == sorted[j];
    }
  }

  /** The report's attack table is that table. */
  lemma ReportTableIsSortedRecords(script: Script, chains: seq<Chain>, fetched: seq<FetchedAttack>, opponent: string)
    requires ReportOf(script, chains, fetched, opponent).Success?
    ensures var rows := ReportOf(script, chains, fetched, opponent).value.attacks;
            && RowsSorted(rows)
            && multiset(AttacksOf(rows)) == multiset(Records(fetched))
            && forall i :: 0 <= i < |rows| ==> rows[i].gap == GapAt(AttacksOf(rows), i)
  {
    assert ReportOf(script, chains, fetched, opponent).value.attacks == TableOf(fetched);
    TableIsSortedRecords(fetched);
  }

  /** Every (attacker, chain) group of the table is already in time order,
      so the scripts' per-group re-sort by end time changes nothing. */
  lemma ReportGroupsInTimeOrder(script: Script, chains: seq<Chain>, fetched: seq<FetchedAttack>, opponent: string, key: GroupKey)
    requires ReportOf(script, chains, fetched, opponent).Success?
    ensures InTimeOrder(Group(ReportOf(script, chains, fetched, opponent).value.attacks, key))
  {
    ReportTableIsSortedRecords(script, chains, fetched, opponent);
    GroupInTimeOrder(ReportOf(script, chains, fetched, opponent).value.attacks, key);
  }

  /** With consistent maps, an attacker's Penalty Points is -10 for each of
      their penalty hit records. */
  lemma PenaltyMatchesRecords(t: Tally, a: string)
    requires TallyValid(t)
    ensures Lookup(t.penalty, a) == -10.0 * RecordsFor(t.details, a) as real
  {
    if a !in t.penalty {
      RecordsForAbsent(t.details, a);
    }
  }

  /** Every summary row has a hit, Total Points = base + penalty + bonus,
      and Penalty Points is -10 per penalised hit of that attacker, which
      the release report lists as penalty hit records. */
  lemma ReportSummaryConsistent(script: Script, chains: seq<Chain>, fetched: seq<FetchedAttack>, opponent: string, i: nat)
    requires ReportOf(script, chains, fetched, opponent).Success?
    requires i < |ReportOf(script, chains, fetched, opponent).value.summary|
    ensures var report := ReportOf(script, chains, fetched, opponent).value;
            var row := report.summary[i];
            && row.totalHits >= 1
            && row.totalPoints == row.basePoints + row.penaltyPoints + row.chainBonus
            && row.penaltyPoints == -10.0 * RecordsFor(TallyOf(script, chains, fetched, opponent).details, row.attacker) as real
            && (script == Release ==> report.penaltyDetails == TallyOf(script, chains, fetched, opponent).details)
  {
    var rows := TableOf(fetched);
    var t := TallyOf(script, chains, fetched, opponent);
    ScoreKeysValid(rows, GroupKeys(rows), ScoringFor(script, chains, opponent));
    SummaryRowFacts(rows, t, opponent, i);
    PenaltyMatchesRecords(t, BuildSummary(rows, t, opponent)[i].attacker);
  }

  /** The release report carries the cut columns, whose shares sum to 1
      and whose TOTALS row holds the whole pool; the anonymised report has
      none. */
  lemma ReportCutsSumToOne(script: Script, chains: seq<Chain>, fetched: seq<FetchedAttack>, opponent: string)
    requires ReportOf(script, chains, fetched, opponent).Success?
    ensures var report := ReportOf(script, chains, fetched, opponent).value;
            && (report.cuts.Some? <==> script == Release)
            && (report.cuts.Some? ==>
                  && |report.cuts.value.players| == |report.summary|
                  && SumCuts(report.cuts.value.players) + report.cuts.value.factionCut == 1.0
                  && report.cuts.value.totals.cut == 1.0
                  && report.cuts.value.totals.totalPoints == Denominator(report.summary))
  {
    if script == Release {
      SharesFacts(SummaryOf(script, chains, fetched, opponent));
    }
  }
}
