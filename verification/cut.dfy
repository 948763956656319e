/** The cut distributor: every summary row gets its share of the points
    pool, the faction gets a share worth half a point per hit, a TOTALS row
    sums the numeric columns, and the shares must sum to exactly 1. */
module Cut {
  import opened Wrappers
  import opened Summary

  datatype CutRow = CutRow(attacker: string, totalPoints: real, cut: real)

  /** The numeric columns of the TOTALS row. */
  datatype Totals = Totals(
    totalHits: nat,
    basePoints: real,
    penaltyPoints: real,
    chainBonus: real,
    chainPoints: real,
    totalPoints: real,
    cut: real)

  /** The summary's share columns: one row per attacker, the FACTION CUT
      row (its Total Points and its Cut) and the TOTALS row. */
  datatype CutTable = CutTable(players: seq<CutRow>, factionPoints: real, factionCut: real, totals: Totals)

  /** The integrity exception: the cuts do not sum to 1. */
  datatype CutError = CutSumNotOne

  /** The sum of one numeric column over the summary rows. */
  function SumColumn(summary: seq<SummaryRow>, column: SummaryRow -> real): real
    decreases |summary|
  {
    if summary == [] then 0.0
    else SumColumn(summary[..|summary| - 1], column) + column(summary[|summary| - 1])
  }

  function SumHits(summary: seq<SummaryRow>): nat
    decreases |summary|
  {
    if summary == [] then 0 else SumHits(summary[..|summary| - 1]) + summary[|summary| - 1].totalHits
  }

  function SumCuts(players: seq<CutRow>): real
    decreases |players|
  {
    if players == [] then 0.0 else SumCuts(players[..|players| - 1]) + players[|players| - 1].cut
  }

  function TotalPointsOf(row: SummaryRow): real {
    row.totalPoints
  }

  /** The faction's points: half a point per hit of all attackers. */
  function FactionPoints(summary: seq<SummaryRow>): real {
    SumHits(summary) as real / 2.0
  }

  /** The pool the cuts divide: all attackers' points plus the faction's. */
  function Denominator(summary: seq<SummaryRow>): real {
    SumColumn(summary, TotalPointsOf) + FactionPoints(summary)
  }

  function PlayerCuts(summary: seq<SummaryRow>, denominator: real): seq<CutRow>
    requires denominator != 0.0
  {
    seq(|summary|, i requires 0 <= i < |summary| =>
      CutRow(summary[i].attacker, summary[i].totalPoints, summary[i].totalPoints / denominator))
  }

  /** The attackers' cuts add up to their share of the pool. */
  lemma {:induction false} PlayerCutsSum(summary: seq<SummaryRow>, denominator: real)
    requires denominator != 0.0
    ensures SumCuts(PlayerCuts(summary, denominator)) == SumColumn(summary, TotalPointsOf) / denominator
    decreases |summary|
  {
    if summary != [] {
      var n := |summary| - 1;
      PlayerCutsSum(summary[..n], denominator);
      assert PlayerCuts(summary, denominator)[..n] == PlayerCuts(summary[..n], denominator);
      var p, x := SumColumn(summary[..n], TotalPointsOf), summary[n].totalPoints;
      assert p / denominator + x / denominator == (p + x) / denominator;
    }
  }

  /** The share columns for a non-empty pool. */
  function Shares(summary: seq<SummaryRow>): (table: CutTable)
    requires Denominator(summary) != 0.0
    ensures |table.players| == |summary|
    ensures table.factionPoints == FactionPoints(summary)
    ensures table.totals.totalHits == SumHits(summary) && table.totals.totalPoints == Denominator(summary)
    ensures forall i :: 0 <= i < |summary| ==>
              && table.players[i].attacker == summary[i].attacker
              && table.players[i].cut == summary[i].totalPoints / Denominator(summary)
    ensures table.factionCut == table.factionPoints / Denominator(summary)
  {
    var playersTotalPoints := SumColumn(summary, TotalPointsOf);
    var factionCutPoints := FactionPoints(summary);
    var denominator := playersTotalPoints + factionCutPoints;
    var players := PlayerCuts(summary, denominator);
    PlayerCutsMatch(summary, denominator);
    var factionCut := factionCutPoints / denominator;
    CutTable(players, factionCutPoints, factionCut,
      Totals(
        SumHits(summary),
        SumColumn(summary, (row: SummaryRow) => row.basePoints),
        SumColumn(summary, (row: SummaryRow) => row.penaltyPoints),
        SumColumn(summary, (row: SummaryRow) => row.chainBonus),
        SumColumn(summary, (row: SummaryRow) => row.chainPoints),
        denominator,
        SumCuts(players) + factionCut))
  }

  /** Row i of the cut column belongs to attacker i and is their points
      over the pool. */
  lemma PlayerCutsMatch(summary: seq<SummaryRow>, denominator: real)
    requires denominator != 0.0
    ensures |PlayerCuts(summary, denominator)| == |summary|
    ensures forall i :: 0 <= i < |summary| ==>
              && PlayerCuts(summary, denominator)[i].attacker == summary[i].attacker
              && PlayerCuts(summary, denominator)[i].cut == summary[i].totalPoints / denominator
  {
  }

  /** The attackers' cuts and the faction's cut make exactly 1. */
  lemma SharesSumToOne(summary: seq<SummaryRow>)
    requires Denominator(summary) != 0.0
    ensures SumCuts(Shares(summary).players) + Shares(summary).factionCut == 1.0
    ensures Shares(summary).totals.cut == 1.0
  {
    var d := Denominator(summary);
    var p, f := SumColumn(summary, TotalPointsOf), FactionPoints(summary);
    PlayerCutsSum(summary, d);
    assert p / d + f / d == (p + f) / d;
  }

  /** Each attacker's cut is their points over the pool, the faction's cut
      its half-point-per-hit over the pool, and together they make 1. */
  lemma SharesFacts(summary: seq<SummaryRow>)
    requires Denominator(summary) != 0.0
    ensures var d, table := Denominator(summary), Shares(summary);
              && |table.players| == |summary|
              && (forall i :: 0 <= i < |summary| ==>
                    && table.players[i].attacker == summary[i].attacker
                    && table.players[i].cut == summary[i].totalPoints / d)
              && table.factionPoints == SumHits(summary) as real / 2.0
              && table.factionCut == table.factionPoints / d
              && SumCuts(table.players) + table.factionCut == 1.0
              && table.totals.cut == 1.0
              && table.totals.totalPoints == d
              && table.totals.totalHits == SumHits(summary)
  {
    PlayerCutsMatch(summary, Denominator(summary));
    SharesSumToOne(summary);
  }

  /** The share columns: the integrity error when the pool is empty (the
      shares would be undefined) or the shares do not sum to 1. */
  function Distribute(summary: seq<SummaryRow>): (r: Result<CutTable, CutError>)
    ensures r.Success? <==> Denominator(summary) != 0.0
    ensures r.Success? ==> r.value == Shares(summary)
  {
    if Denominator(summary) == 0.0 then Failure(CutSumNotOne)
    else
      var table := Shares(summary);
      SharesFacts(summary);
      if table.totals.cut == 1.0 then Success(table) else Failure(CutSumNotOne)
  }

  /** No attacker's Total Points is negative. */
  predicate NoNegativePoints(summary: seq<SummaryRow>)
    decreases |summary|
  {
    summary == [] || (NoNegativePoints(summary[..|summary| - 1]) && summary[|summary| - 1].totalPoints >= 0.0)
  }

  lemma {:induction false} SumColumnAtLeastEach(summary: seq<SummaryRow>, i: nat)
    requires i < |summary|
    requires NoNegativePoints(summary)
    ensures 0.0 <= summary[i].totalPoints <= SumColumn(summary, TotalPointsOf)
    decreases |summary|
  {
    var n := |summary| - 1;
    if i < n {
      SumColumnAtLeastEach(summary[..n], i);
      assert summary[..n][i] == summary[i];
    } else if n > 0 {
      SumColumnAtLeastEach(summary[..n], 0);
    }
  }

  /** A part of a positive whole is a share between 0 and 1. */
  lemma ShareBounds(part: real, whole: real)
    requires 0.0 <= part <= whole && whole > 0.0
    ensures 0.0 <= part / whole <= 1.0
    ensures part > 0.0 ==> part / whole > 0.0
  {
  }

  /** With no negative points and at least one hit, the pool is positive. */
  lemma PoolPositive(summary: seq<SummaryRow>)
    requires NoNegativePoints(summary)
    requires SumHits(summary) > 0
    ensures SumColumn(summary, TotalPointsOf) >= 0.0
    ensures Denominator(summary) > 0.0
  {
    assert summary != [];
    SumColumnAtLeastEach(summary, 0);
  }

  lemma FactionShare(summary: seq<SummaryRow>)
    requires SumHits(summary) > 0
    requires SumColumn(summary, TotalPointsOf) >= 0.0
    ensures Denominator(summary) > 0.0
    ensures 0.0 < Shares(summary).factionCut <= 1.0
  {
    assert Shares(summary).factionCut == FactionPoints(summary) / Denominator(summary);
    ShareBounds(FactionPoints(summary), Denominator(summary));
  }

  lemma PlayerShare(summary: seq<SummaryRow>, i: nat)
    requires i < |summary|
    requires NoNegativePoints(summary)
    requires Denominator(summary) > 0.0
    ensures 0.0 <= Shares(summary).players[i].cut <= 1.0
  {
    SumColumnAtLeastEach(summary, i);
    assert Shares(summary).players[i].cut == summary[i].totalPoints / Denominator(summary);
    ShareBounds(summary[i].totalPoints, Denominator(summary));
  }

  /** When no attacker has negative points and someone has a hit, every
      cut, the faction's included, is a share between 0 and 1. */
  lemma CutsAreShares(summary: seq<SummaryRow>)
    requires NoNegativePoints(summary)
    requires SumHits(summary) > 0
    ensures Denominator(summary) > 0.0
    ensures forall i :: 0 <= i < |summary| ==> 0.0 <= Shares(summary).players[i].cut <= 1.0
    ensures 0.0 < Shares(summary).factionCut <= 1.0
  {
    PoolPositive(summary);
    FactionShare(summary);
    forall i | 0 <= i < |summary|
      ensures 0.0 <= Shares(summary).players[i].cut <= 1.0
    {
      PlayerShare(summary, i);
    }
  }
}
