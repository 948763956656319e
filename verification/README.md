# Torn faction war report — scoring core in Dafny

This project models the scoring core of a war report for a Torn faction
chain, as computed by the release script `V1.3.py` and its older
anonymised variant `WarReportAnon.py`. Both scripts take the attacks fetched
for each chain of a war, keep the chained attacks, sort them by chain and
end time, label each attack with the time since the previous attack of the
same chain, score every (attacker, chain) group, and build a per-attacker
summary. The release script also divides the points pool into cuts.

Modules, in pipeline order:

- `Wrappers` (`wrappers.dfy`): `Option` and `Result`.
- `Gaps` (`gaps.dfy`): the gap classifier and the spacing points table.
- `Attacks` (`attacks.dfy`): fetched attacks, the record filter (a loop
  proved equal to a recursive definition) and the sort by (chain id, end
  time), a verified insertion sort.
- `GapPass` (`gap_pass.dfy`): the in-place annotation pass over an
  `array<Row>`, which resets the label column, labels each row against its
  predecessor in the same chain, and returns the error log.
- `Points` (`points.dfy`): the per-group scoring (base, opponent bonus,
  milestone penalty, chain bonus) and the `PointsLedger` class that holds
  the four per-attacker maps and the penalty hit details and updates them in
  place. The milestone rule and the valid-chain filter are parameters
  (`Scoring`), so one model covers both scripts: the release script tests
  the Chain Value and skips chains outside the fetched ones; the
  anonymised script tests the attacker's own hit number and scores every
  group.
- `Summary` (`summary.dfy`): the `"{total}.{sub:03}"` cells, the gap
  columns, the "Attacks #1-10" column and the summary rows.
- `Cut` (`cut.dfy`): faction points, the cuts, the TOTALS row and the
  integrity test.
- `Report` (`report.dfy`): the whole pipeline as a specification function
  `ReportOf` and as the method `ProcessTornAttacks` proved equal to it, with
  lemmas about the report.

Times are integer epoch seconds, points and cuts are `real`, chain ids are
natural numbers, and the opposing faction's name is a parameter.

## Model

| member | source | states |
|---|---|---|
| Gaps.Categorize | V1.3.py:55-67 | The label is the error label exactly when seconds >= 300; for 0 <= seconds < 300 it is bucket seconds/60 (one-minute half-open buckets); a negative gap falls in "<1 minute". |
| Gaps.CategorizeBucketIff | WarReportAnon.py:38-50 | For seconds >= 0, bucket k is chosen exactly when 60k <= seconds < 60k + 60, so 60 seconds is "1-2 minutes". |
| Gaps.NamesDistinct | V1.3.py:178 | Two labels have the same text exactly when they are the same label, so the string test for "ERROR: Time out of range" tests for the out-of-range label. |
| Gaps.SpacingPoints | V1.3.py:33-39 | A hit after the tenth earns 0 exactly when its label is missing or the error label, and never more than 8. |
| Gaps.SpacingGrowsWithGap | WarReportAnon.py:21-27 | A longer bucket earns strictly more spacing points than a shorter one. |
| Attacks.Records | WarReportAnon.py:121-132 | The record filter never yields more records than attacks fetched. |
| Attacks.RecordsMembership | WarReportAnon.py:123-131 | A record appears exactly when some fetched attack has chain > 0 and a defender faction other than "Untitled", and it copies that attack's fields unchanged. |
| Attacks.RecordsAppend | WarReportAnon.py:121-132 | Filtering two fetched lists one after the other yields the records of the first followed by those of the second, so the filter works chain by chain. |
| Attacks.BuildRecords | WarReportAnon.py:121-132 | The record-building loop yields exactly the filtered records, in fetch order. |
| Attacks.SortByChainTime | V1.3.py:171 | The result is sorted by chain id and then end time, and is a permutation of the records. |
| GapPass.ClearGaps | V1.3.py:172 | Every row gets an empty label and keeps its attack. |
| GapPass.AnnotateGaps | V1.3.py:172-180 | After the pass the table is the annotated table of the same attacks (no other column changes), and the returned log has one entry per out-of-range gap, in row order. |
| GapPass.SortedGapIsToLatestChainAttack | V1.3.py:174-177 | In a sorted table, a row is labelled exactly when an earlier row of the same chain exists; the gap is then non-negative and measured to the latest earlier attack of that chain by any attacker. |
| GapPass.ErrorLogCountsOutOfRange | V1.3.py:178-179 | The error log has as many entries as the table has rows labelled with the error label. |
| GapPass.ErrorLogEntries | WarReportAnon.py:147-154 | A time is in the error log exactly when some row whose gap is out of range ended at that time. |
| Points.HitValue | V1.3.py:235-242 | A hit is worth between 0 and 8.5 points before any penalty, at least 2 when it is one of the first ten, and at least 0.5 when it is on the opposing faction. |
| Points.Penalised | V1.3.py:243-254 | A hit on the opposing faction is never penalised; when the milestone rule tests the hit number, only hits 10, 25 and 50 can be. |
| Points.GroupBase | V1.3.py:235-242 | chain_base is at least 2 for each of the first ten hits and at most 8.5 per hit. |
| Points.GroupPenalty | V1.3.py:243-258 | chain_penalty lies between -10 per hit and 0. |
| Points.PenaltyRecords | V1.3.py:246-258 | A group appends at most one detail record per hit. |
| Points.AddGroup | V1.3.py:263-268 | Adding a group gives its attacker a Chain Points entry and keeps every other entry's key; the detail list keeps its old records as a prefix and grows by at most one record per hit of the group. |
| Points.ScoreKeys | V1.3.py:229-268 | After any sequence of groups the four maps have the same attackers as keys. |
| Points.PointsLedger.constructor | V1.3.py:221-227 | The four maps and the detail list start empty. |
| Points.PointsLedger.ScoreHits | V1.3.py:233-258 | The hit loop leaves chain_base and chain_penalty equal to the group's base and penalty, appends the group's penalty records to the detail list, and leaves the four maps unchanged. |
| Points.PointsLedger.ScoreGroup | V1.3.py:259-268 | One group adds its base, penalty, chain bonus and chain total to the attacker's map entries (missing entries count as 0) and appends its penalty records; nothing else changes. |
| Points.ComputeChainPoints | V1.3.py:229-268 | The points loop leaves the ledger holding the fold of all scored groups, in a consistent state. |
| Points.GroupKeys | V1.3.py:229 | The groups are the distinct (attacker, chain) pairs present in the table. |
| Points.GroupMembers | V1.3.py:229 | A row is in a group exactly when it is a row of the table with that attacker and chain. |
| Points.GroupInTimeOrder | V1.3.py:232 | In a table sorted by chain and time, every group is already in time order. |
| Points.GroupBaseSplits | V1.3.py:235-242 | chain_base is 2 for each of the first ten hits, the spacing points of each later hit, plus 0.5 per hit on the opposing faction, penalised or not. |
| Points.ChainBonus | V1.3.py:259-262 | The chain bonus is at least 5, and exactly 5 when the group lasts less than ten minutes. |
| Points.LatestEnded | V1.3.py:259 | The latest end time of a group bounds every hit and is attained. |
| Points.EarliestEnded | V1.3.py:259 | The earliest end time of a group is below every hit and is attained. |
| Points.SortedGroupDuration | V1.3.py:259 | For a group in time order, the duration is last end time minus first. |
| Points.PenaltyIsTenPerRecord | V1.3.py:243-258 | chain_penalty is -10 times the number of detail records the group appends. |
| Points.PenaltyRecordIff | V1.3.py:244-254 | The group has a record for hit k exactly when hit k is a milestone hit not on the opposing faction; the record carries the chain id, attacker, chain value, hit number and end time. |
| Points.RecordNumbersBounded | V1.3.py:246-251 | Every record names a hit of the group and the group's attacker and chain. |
| Points.WarmUpGroupScores25 | WarReportAnon.py:223-239 | Ten hits on non-opponents with no penalty within ten minutes score 10 * 2 + 5 = 25, whatever their labels. |
| Points.AddGroupKeepsValid | V1.3.py:263-268 | Adding a group keeps every attacker's total equal to base + penalty + bonus, the penalty equal to -10 per detail record, the bonus at least 5, and the same attackers in all four maps. |
| Points.ScoreKeysValid | V1.3.py:265-268 | After any sequence of groups the four maps and the detail list are consistent in that sense. |
| Points.AttackerEntries | WarReportAnon.py:241-244 | An attacker has a Chain Points entry exactly when one of their groups is scored, and their Base Points, Penalty Points, Chain Bonus and Chain Points are the sums of chain_base, chain_penalty, chain_bonus and chain_total over those groups. |
| Points.AttackerColumn | V1.3.py:263-268 | Any one of the four columns holds, for an attacker, the sum of that column's group amounts over the attacker's scored groups (0 when there is none). |
| Points.UnscoredGroupChangesNothing | V1.3.py:230-231 | A group whose chain is not a valid chain leaves the maps and the detail list unchanged. |
| Summary.DecodeEncode | V1.3.py:199 | A cell "{total}.{sub:03}" reads back as (total, sub). |
| Summary.SmallSubTakesThreePlaces | V1.3.py:199 | For sub <= 999 the part after the dot is exactly three digits. |
| Summary.EmptyCellIsZeroZero | V1.3.py:216 | The fill value "0.000" is the cell of zero hits. |
| Summary.OpponentHitsWithinHits | V1.3.py:188-192 | In every column, an attacker's hits on the opposing faction are at most their hits. |
| Summary.HitsPositiveIff | V1.3.py:189 | An attacker's count in a column is positive exactly when one of their rows falls in that column. |
| Summary.Encode | V1.3.py:199 | The cell is the numeral of the total, a dot, and at least three more characters. |
| Summary.Cell | V1.3.py:196-216 | Every cell, whether the "0.000" fill or an encoded pair, reads back as (hits, hits on the opposing faction), with sub <= total. |
| Summary.SummaryAttackers | V1.3.py:216 | The summary's attackers are exactly those with a row of Chain Value > 10 and a label, each once. |
| Summary.BuildSummary | V1.3.py:216-218 | The summary has one row per summary attacker, and no attacker has two rows. |
| Summary.SummaryRowIff | V1.3.py:216-217 | An attacker gets a summary row exactly when they have a row of Chain Value > 10 with a label, so an attacker with only warm-up hits gets none. |
| Summary.ErrorColumnIff | V1.3.py:186-194 | The error label is a column exactly when it labels some row of Chain Value > 10. |
| Summary.SummaryCellsDecode | V1.3.py:202-211 | Every gap cell and the "Attacks #1-10" cell of an attacker read back as their counts, within the attacker's total hits. |
| Summary.TotalHitsAtLeastColumn | V1.3.py:275 | Total Hits is at least the count of any column. |
| Summary.SummaryRowFacts | V1.3.py:275-285 | Every summary row has the same gap columns, at least one hit, and, with consistent maps, Total Points = base + penalty + bonus. |
| Cut.Shares | V1.3.py:294-315 | The cut table has one player row per summary row, row i belonging to attacker i with their Total Points over the pool as cut; the faction's cut is its points over the pool; the TOTALS row holds the total hits and the pool. SharesFacts adds that the cuts sum to 1. |
| Cut.PlayerCutsSum | V1.3.py:294-299 | The attackers' cuts add up to their total points over the pool. |
| Cut.SharesFacts | V1.3.py:294-315 | Row i of the cut column belongs to attacker i and is their Total Points over the pool, the faction's points are half a point per hit and its cut is those points over the pool, all cuts sum to exactly 1, and the TOTALS row holds the pool, the total hits and a cut of 1. |
| Cut.Distribute | V1.3.py:294-312 | The cut columns exist exactly when the pool is non-zero, and then are the shares above; otherwise the integrity error. |
| Cut.CutsAreShares | V1.3.py:296-304 | With no negative points and at least one hit, every cut lies in [0, 1] and the faction's cut is positive. |
| Report.ReportOf | V1.3.py:109-321 | A report exists only when some kept attack has Chain Value <= 10; its attack table has one row per kept attack, and it has cut columns exactly for the release script. |
| Report.WarmUpSurvivesSort | V1.3.py:202-209 | Sorting the records keeps or loses a Chain Value <= 10 attack exactly as the unsorted records do. |
| Report.ProcessTornAttacks | V1.3.py:109-321 | The pipeline, with the table labelled in place and the points accumulated in the ledger, returns exactly the specified report, including its failures. |
| Report.ReportFailsIff | V1.3.py:146-321 | There is no report exactly when nothing was fetched (the release script tests after the record filter, the anonymised one before it), or no kept attack has Chain Value <= 10 (the empty "Attacks #1-10" frame cannot be assigned to one column), or the release script's cut pool is 0; an anonymised fetch whose attacks are all filtered out fails at that column. |
| Report.TableIsSortedRecords | V1.3.py:171-180 | The annotated table is sorted by chain and then end time, holds exactly the filtered records (as a multiset), and each row carries the label of its gap to the row before it. |
| Report.ReportTableIsSortedRecords | V1.3.py:171-180 | The report's attack table is sorted by chain and time, holds exactly the filtered records, and each row carries the label of its gap to the row before it. |
| Report.ReportGroupsInTimeOrder | V1.3.py:232 | Every group of the report's table is already in time order, so the per-group re-sort changes nothing. |
| Report.PenaltyMatchesRecords | V1.3.py:244-266 | With consistent maps, an attacker's Penalty Points is -10 per penalty record of that attacker, 0 when there is none. |
| Report.ReportSummaryConsistent | V1.3.py:275-285 | Every summary row of a report has a hit, Total Points = base + penalty + bonus, and Penalty Points is -10 per penalised hit of the attacker, which the release report lists. |
| Report.ReportCutsSumToOne | V1.3.py:309-315 | The release report has cut columns whose shares sum to exactly 1 and whose TOTALS row holds the pool; the anonymised report has none. |

## Left out

- Network access (`fetch_data` and the `requests` calls): the chains and the fetched attacks are parameters, each attack already carrying the id of the chain it was fetched for.
- `update_war_info`: the opposing faction's name is a parameter, and the war's time window, used only by the fetch, is not modelled.
- The per-chain fetch loop and its 60-second window: attacks fetched twice through overlapping windows simply appear twice in the fetched list.
- CSV files, `logging`, `print` and the `strftime` time strings: an error log entry is the end time (epoch seconds) of the attack whose gap was out of range, a penalty record carries the epoch end time, and the "Time Ended (UTC)" column is absent.
- Points.ComputeChainPoints: groups are scored in order of first appearance in the sorted table, while pandas visits them sorted by attacker name and chain id; only the order of the penalty detail records differs, since the maps are sums.
- Summary.BuildSummary: summary rows come in order of first appearance, not in the order of the pandas index.
- Attacks.SortByChainTime: the order of attacks with the same chain id and end time is not specified, as with the pandas sort; only sortedness and permutation are proved.
- Chain ids are numbers, whereas the scripts keep the API's string keys; only the grouping of equal ids matters to the scoring.
- Floating point: points and cuts are exact reals, so the 1e-6 tolerance of the cut test becomes an exact comparison, which the proofs show can only fail when the pool is 0.
- Cut.Distribute: when the pool is 0 the model returns the integrity error; the script's float behaviour there (a NaN cut that slips past the tolerance test, or a division error, depending on the numeric types pandas produces) is not modelled.
- The TOTALS row sums only the numeric columns (Total Hits, the points columns and Cut); the coercion of the "7.002"-style cells into numbers is not modelled.
- The release script's outer exception handler becomes the `CutIntegrity` and `NoWarmUpHits` error results; files written before the exception are not modelled.
- Report.ReportOf: with no kept attack of Chain Value <= 10 the release script logs the pandas error and returns, while the anonymised script stops with the uncaught error; both become `Failure(NoWarmUpHits)`, and the attack CSV both have already written is not modelled.
- The anonymised report carries no penalty detail list, though the ledger collects the records in both variants.
