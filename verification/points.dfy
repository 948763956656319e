/** The chain-point calculator: every (attacker, chain) group of the
    annotated table is scored hit by hit, and the group's base, penalty,
    bonus and total points are added to four per-attacker maps. */
module Points {
  import opened Wrappers
  import opened Gaps
  import opened Attacks

  /** Which counter makes a hit a milestone hit: the chain value reported
      by the game (the fuller script) or the attacker's own hit number
      within the chain (the older script). */
  datatype MilestoneRule = ByChainValue | ByHitNumber

  /** What the scoring depends on besides the table: the opposing faction,
      the milestone rule, and the chain ids a group must belong to in order
      to be scored (None: every group is scored). */
  datatype Scoring = Scoring(opponent: string, milestone: MilestoneRule, validChains: Option<set<ChainId>>)

  /** The key of a group: attacker name and chain id. */
  datatype GroupKey = GroupKey(attacker: string, chainId: ChainId)

  /** An entry of penalty_hits_details. */
  datatype PenaltyRecord = PenaltyRecord(chainId: ChainId, attacker: string, chainValue: int, hitNumber: nat, timestamp: int)

  /** The four per-attacker maps and the penalty detail list. */
  datatype Tally = Tally(
    base: map<string, real>,
    penalty: map<string, real>,
    bonus: map<string, real>,
    points: map<string, real>,
    details: seq<PenaltyRecord>)

  const EmptyTally := Tally(map[], map[], map[], map[], [])

  /** dict.get(a, 0) */
  function Lookup(m: map<string, real>, a: string): real {
    if a in m then m[a] else 0.0
  }

  /** d[a] = d.get(a, 0) + x */
  function AddTo(m: map<string, real>, a: string, x: real): map<string, real> {
    m[a := Lookup(m, a) + x]
  }

  // ---------------------------------------------------------------- hits

  predicate IsMilestone(rule: MilestoneRule, hitNumber: nat, chainValue: int) {
    var counter := if rule == ByChainValue then chainValue else hitNumber;
    counter == 10 || counter == 25 || counter == 50
  }

  /** Base points plus the bonus for a hit on the opposing faction. */
  function HitValue(hitNumber: nat, hit: Row, opponent: string): (value: real)
    ensures 0.0 <= value <= 8.5
    ensures hitNumber <= 10 ==> value >= 2.0
    ensures hit.attack.defender == opponent ==> value >= 0.5
  {
    var base := if hitNumber <= 10 then 2.0 else SpacingPoints(hit.gap) as real;
    var enemyBonus := if hit.attack.defender == opponent then 0.5 else 0.0;
    base + enemyBonus
  }

  /** A milestone hit on anyone but the opposing faction is penalised. */
  predicate Penalised(s: Scoring, hitNumber: nat, hit: Row)
    ensures hit.attack.defender == s.opponent ==> !Penalised(s, hitNumber, hit)
    ensures s.milestone == ByHitNumber && Penalised(s, hitNumber, hit) ==> hitNumber in {10, 25, 50}
  {
    IsMilestone(s.milestone, hitNumber, hit.attack.chainValue) && hit.attack.defender != s.opponent
  }

  // -------------------------------------------------------------- groups
  // A group's hits are numbered from 1 in their order in the group.

  /** chain_base after all hits of the group. */
  function GroupBase(hits: seq<Row>, opponent: string): (base: real)
    ensures 2.0 * (if |hits| <= 10 then |hits| else 10) as real <= base <= 8.5 * |hits| as real
    decreases |hits|
  {
    if hits == [] then 0.0
    else GroupBase(hits[..|hits| - 1], opponent) + HitValue(|hits|, hits[|hits| - 1], opponent)
  }

  /** chain_penalty after all hits of the group. */
  function GroupPenalty(hits: seq<Row>, s: Scoring): (penalty: real)
    ensures -10.0 * |hits| as real <= penalty <= 0.0
    decreases |hits|
  {
    if hits == [] then 0.0
    else GroupPenalty(hits[..|hits| - 1], s) + if Penalised(s, |hits|, hits[|hits| - 1]) then -10.0 else 0.0
  }

  /** The detail records the group appends, one per penalised hit. */
  function PenaltyRecords(key: GroupKey, hits: seq<Row>, s: Scoring): (records: seq<PenaltyRecord>)
    ensures |records| <= |hits|
    decreases |hits|
  {
    if hits == [] then []
    else
      var n := |hits| - 1;
      PenaltyRecords(key, hits[..n], s)
      + if Penalised(s, n + 1, hits[n])
        then [PenaltyRecord(key.chainId, key.attacker, hits[n].attack.chainValue, n + 1, hits[n].attack.endedAt)]
        else []
  }

  /** The largest end time of the group. */
  function LatestEnded(hits: seq<Row>): (t: int)
    requires hits != []
    ensures forall i :: 0 <= i < |hits| ==> hits[i].attack.endedAt <= t
    ensures exists i :: 0 <= i < |hits| && hits[i].attack.endedAt == t
    decreases |hits|
  {
    if |hits| == 1 then hits[0].attack.endedAt
    else
      var rest := LatestEnded(hits[1..]);
      if hits[0].attack.endedAt >= rest then hits[0].attack.endedAt else rest
  }

  /** The smallest end time of the group. */
  function EarliestEnded(hits: seq<Row>): (t: int)
    requires hits != []
    ensures forall i :: 0 <= i < |hits| ==> t <= hits[i].attack.endedAt
    ensures exists i :: 0 <= i < |hits| && hits[i].attack.endedAt == t
    decreases |hits|
  {
    if |hits| == 1 then hits[0].attack.endedAt
    else
      var rest := EarliestEnded(hits[1..]);
      if hits[0].attack.endedAt <= rest then hits[0].attack.endedAt else rest
  }

  /** max - min of the group's end times. */
  function Duration(hits: seq<Row>): nat {
    if hits == [] then 0 else LatestEnded(hits) - EarliestEnded(hits)
  }

  /** Two points per full ten minutes of the group, plus five for taking
      part in the chain. */
  function ChainBonus(hits: seq<Row>): (bonus: int)
    ensures bonus >= 5
    ensures Duration(hits) < 600 <==> bonus == 5
  {
    2 * (Duration(hits) / 600) + 5
  }

  /** chain_total */
  function GroupTotal(hits: seq<Row>, s: Scoring): real {
    GroupBase(hits, s.opponent) + GroupPenalty(hits, s) + ChainBonus(hits) as real
  }

  predicate InTimeOrder(hits: seq<Row>) {
    forall i, j :: 0 <= i < j < |hits| ==> hits[i].attack.endedAt <= hits[j].attack.endedAt
  }

  /** For hits in time order the duration is last minus first. */
  lemma SortedGroupDuration(hits: seq<Row>)
    requires hits != [] && InTimeOrder(hits)
    ensures Duration(hits) == hits[|hits| - 1].attack.endedAt - hits[0].attack.endedAt
  {
    var i :| 0 <= i < |hits| && hits[i].attack.endedAt == LatestEnded(hits);
    var j :| 0 <= j < |hits| && hits[j].attack.endedAt == EarliestEnded(hits);
    assert hits[0].attack.endedAt <= hits[j].attack.endedAt;
    assert hits[i].attack.endedAt <= hits[|hits| - 1].attack.endedAt;
  }

  /** chain_penalty is -10 per detail record of the group. */
  lemma {:induction false} PenaltyIsTenPerRecord(key: GroupKey, hits: seq<Row>, s: Scoring)
    ensures GroupPenalty(hits, s) == -10.0 * |PenaltyRecords(key, hits, s)| as real
    decreases |hits|
  {
    if hits != [] {
      PenaltyIsTenPerRecord(key, hits[..|hits| - 1], s);
    }
  }

  /** A record names hit k of the group exactly when hit k is a milestone
      hit not on the opposing faction; every record carries the group's
      key and the hit's chain value and end time. */
  lemma {:induction false} PenaltyRecordIff(key: GroupKey, hits: seq<Row>, s: Scoring, k: nat)
    requires 1 <= k <= |hits|
    ensures (exists r :: r in PenaltyRecords(key, hits, s) && r.hitNumber == k)
            <==> Penalised(s, k, hits[k - 1])
    ensures forall r :: r in PenaltyRecords(key, hits, s) && r.hitNumber == k ==>
              r == PenaltyRecord(key.chainId, key.attacker, hits[k - 1].attack.chainValue, k, hits[k - 1].attack.endedAt)
    decreases |hits|
  {
    var n := |hits| - 1;
    RecordNumbersBounded(key, hits[..n], s);
    if k <= n {
      PenaltyRecordIff(key, hits[..n], s, k);
      assert hits[..n][k - 1] == hits[k - 1];
    }
  }

  lemma {:induction false} RecordNumbersBounded(key: GroupKey, hits: seq<Row>, s: Scoring)
    ensures forall r :: r in PenaltyRecords(key, hits, s) ==>
              1 <= r.hitNumber <= |hits| && r.attacker == key.attacker && r.chainId == key.chainId
    decreases |hits|
  {
    if hits != [] {
      RecordNumbersBounded(key, hits[..|hits| - 1], s);
    }
  }

  /** Hits 1 to 10 earn 2 each whatever their label; with no hit on the
      opposing faction and no penalty, a group of exactly ten hits within
      ten minutes scores 10 * 2 + 5 = 25. */
  lemma WarmUpGroupScores25(hits: seq<Row>, s: Scoring)
    requires |hits| == 10
    requires forall i :: 0 <= i < 10 ==> hits[i].attack.defender != s.opponent
    requires forall i :: 0 <= i < 10 ==> !Penalised(s, i + 1, hits[i])
    requires Duration(hits) < 600
    ensures GroupTotal(hits, s) == 25.0
  {
    WarmUpBase(hits, s.opponent, 10);
    NoPenaltyNoPoints(hits, s);
    assert hits[..10] == hits;
  }

  lemma {:induction false} WarmUpBase(hits: seq<Row>, opponent: string, n: nat)
    requires n <= 10 && n <= |hits|
    requires forall i :: 0 <= i < n ==> hits[i].attack.defender != opponent
    ensures GroupBase(hits[..n], opponent) == 2.0 * n as real
    decreases n
  {
    if n > 0 {
      WarmUpBase(hits, opponent, n - 1);
      assert hits[..n][..n - 1] == hits[..n - 1];
    }
  }

  lemma {:induction false} NoPenaltyNoPoints(hits: seq<Row>, s: Scoring)
    requires forall i :: 0 <= i < |hits| ==> !Penalised(s, i + 1, hits[i])
    ensures GroupPenalty(hits, s) == 0.0
    decreases |hits|
  {
    if hits != [] {
      NoPenaltyNoPoints(hits[..|hits| - 1], s);
    }
  }

  /** The number of hits of the group on the opposing faction. */
  function OpponentHits(hits: seq<Row>, opponent: string): nat
    decreases |hits|
  {
    if hits == [] then 0
    else OpponentHits(hits[..|hits| - 1], opponent) + if hits[|hits| - 1].attack.defender == opponent then 1 else 0
  }

  /** The spacing points of the hits after the tenth. */
  function SpacingTotal(hits: seq<Row>): nat
    decreases |hits|
  {
    if |hits| <= 10 then 0
    else SpacingTotal(hits[..|hits| - 1]) + SpacingPoints(hits[|hits| - 1].gap)
  }

  /** chain_base is 2 for each of the first ten hits, the spacing points of
      each later hit, and 0.5 for each hit on the opposing faction, whether
      or not the hit is penalised. */
  lemma {:induction false} GroupBaseSplits(hits: seq<Row>, opponent: string)
    ensures GroupBase(hits, opponent)
            == 2.0 * (if |hits| <= 10 then |hits| else 10) as real
               + SpacingTotal(hits) as real
               + 0.5 * OpponentHits(hits, opponent) as real
    decreases |hits|
  {
    if hits != [] {
      GroupBaseSplits(hits[..|hits| - 1], opponent);
    }
  }

  // ----------------------------------------------------- the four maps

  /** The number of detail records of an attacker. */
  function RecordsFor(details: seq<PenaltyRecord>, a: string): nat
    decreases |details|
  {
    if details == [] then 0
    else RecordsFor(details[..|details| - 1], a) + if details[|details| - 1].attacker == a then 1 else 0
  }

  /** The same attackers have an entry in all four maps. */
  ghost predicate SameAttackers(t: Tally) {
    t.base.Keys == t.points.Keys && t.penalty.Keys == t.points.Keys && t.bonus.Keys == t.points.Keys
  }

  /** What the four maps and the list keep true together: the same
      attackers in every map, total = base + penalty + bonus, penalty = -10
      per detail record, a chain bonus of at least 5, and every record's
      attacker has an entry. */
  ghost predicate TallyValid(t: Tally) {
    && SameAttackers(t)
    && (forall a :: a in t.points ==> t.points[a] == t.base[a] + t.penalty[a] + t.bonus[a])
    && (forall a :: a in t.penalty ==> t.penalty[a] == -10.0 * RecordsFor(t.details, a) as real)
    && (forall a :: a in t.bonus ==> t.bonus[a] >= 5.0)
    && (forall i :: 0 <= i < |t.details| ==> t.details[i].attacker in t.points)
  }

  /** The maps and list after crediting attacker `a` with a group's chain
      base, chain penalty, chain bonus and penalty records. */
  function Credit(t: Tally, a: string, base: real, penalty: real, bonus: real, records: seq<PenaltyRecord>): Tally {
    Tally(
      AddTo(t.base, a, base),
      AddTo(t.penalty, a, penalty),
      AddTo(t.bonus, a, bonus),
      AddTo(t.points, a, base + penalty + bonus),
      t.details + records)
  }

  /** The maps and list after one scored group. */
  function AddGroup(t: Tally, key: GroupKey, hits: seq<Row>, s: Scoring): (t': Tally)
    ensures t'.points.Keys == t.points.Keys + {key.attacker}
    ensures |t.details| <= |t'.details| <= |t.details| + |hits|
    ensures t'.details[..|t.details|] == t.details
  {
    Credit(t, key.attacker, GroupBase(hits, s.opponent), GroupPenalty(hits, s), ChainBonus(hits) as real,
      PenaltyRecords(key, hits, s))
  }

  lemma {:induction false} RecordsForAppend(d1: seq<PenaltyRecord>, d2: seq<PenaltyRecord>, a: string)
    ensures RecordsFor(d1 + d2, a) == RecordsFor(d1, a) + RecordsFor(d2, a)
    decreases |d2|
  {
    if d2 != [] {
      var n := |d2| - 1;
      RecordsForAppend(d1, d2[..n], a);
      assert (d1 + d2)[..|d1 + d2| - 1] == d1 + d2[..n];
    } else {
      assert d1 + d2 == d1;
    }
  }

  lemma {:induction false} RecordsForGroup(key: GroupKey, hits: seq<Row>, s: Scoring, a: string)
    ensures RecordsFor(PenaltyRecords(key, hits, s), a) == if a == key.attacker then |PenaltyRecords(key, hits, s)| else 0
    decreases |hits|
  {
    if hits != [] {
      var n := |hits| - 1;
      RecordsForGroup(key, hits[..n], s, a);
      var recs := PenaltyRecords(key, hits, s);
      if Penalised(s, n + 1, hits[n]) {
        assert recs[..|recs| - 1] == PenaltyRecords(key, hits[..n], s);
        assert recs[|recs| - 1].attacker == key.attacker;
      } else {
        assert recs == PenaltyRecords(key, hits[..n], s);
      }
    }
  }

  /** Scoring one group keeps the maps consistent. */
  lemma AddGroupKeepsValid(t: Tally, key: GroupKey, hits: seq<Row>, s: Scoring)
    requires TallyValid(t)
    ensures TallyValid(AddGroup(t, key, hits, s))
  {
    AddGroupKeepsSums(t, key, hits, s);
    AddGroupKeepsPenalty(t, key, hits, s);
    AddGroupKeepsRecordOwners(t, key, hits, s);
  }

  lemma AddGroupKeepsSums(t: Tally, key: GroupKey, hits: seq<Row>, s: Scoring)
    requires SameAttackers(t)
    requires forall a :: a in t.points ==> t.points[a] == t.base[a] + t.penalty[a] + t.bonus[a]
    requires forall a :: a in t.bonus ==> t.bonus[a] >= 5.0
    ensures SameAttackers(AddGroup(t, key, hits, s))
    ensures var t' := AddGroup(t, key, hits, s);
            && (forall a :: a in t'.points ==> t'.points[a] == t'.base[a] + t'.penalty[a] + t'.bonus[a])
            && (forall a :: a in t'.bonus ==> t'.bonus[a] >= 5.0)
  {
  }

  lemma AddGroupKeepsPenalty(t: Tally, key: GroupKey, hits: seq<Row>, s: Scoring)
    requires forall a :: a in t.penalty ==> t.penalty[a] == -10.0 * RecordsFor(t.details, a) as real
    requires forall i :: 0 <= i < |t.details| ==> t.details[i].attacker in t.penalty
    ensures var t' := AddGroup(t, key, hits, s);
            forall a :: a in t'.penalty ==> t'.penalty[a] == -10.0 * RecordsFor(t'.details, a) as real
  {
    var t' := AddGroup(t, key, hits, s);
    var recs := PenaltyRecords(key, hits, s);
    forall a | a in t'.penalty
      ensures t'.penalty[a] == -10.0 * RecordsFor(t'.details, a) as real
    {
      RecordsForAppend(t.details, recs, a);
      RecordsForGroup(key, hits, s, a);
      if a == key.attacker {
        PenaltyIsTenPerRecord(key, hits, s);
        if a !in t.penalty {
          RecordsForAbsent(t.details, a);
        }
      }
    }
  }

  lemma {:induction false} RecordsForAbsent(details: seq<PenaltyRecord>, a: string)
    requires forall i :: 0 <= i < |details| ==> details[i].attacker != a
    ensures RecordsFor(details, a) == 0
    decreases |details|
  {
    if details != [] {
      RecordsForAbsent(details[..|details| - 1], a);
    }
  }

  lemma AddGroupKeepsRecordOwners(t: Tally, key: GroupKey, hits: seq<Row>, s: Scoring)
    requires forall i :: 0 <= i < |t.details| ==> t.details[i].attacker in t.points
    ensures var t' := AddGroup(t, key, hits, s);
            forall i :: 0 <= i < |t'.details| ==> t'.details[i].attacker in t'.points
  {
    var t' := AddGroup(t, key, hits, s);
    var recs := PenaltyRecords(key, hits, s);
    RecordNumbersBounded(key, hits, s);
    forall i | 0 <= i < |t'.details|
      ensures t'.details[i].attacker in t'.points
    {
      if i >= |t.details| {
        assert t'.details[i] == recs[i - |t.details|];
        assert t'.details[i] in recs;
      }
    }
  }

  // -------------------------------------------------------- the groups

  function KeyOf(r: Row): GroupKey {
    GroupKey(r.attack.attacker, r.attack.chainId)
  }

  /** The rows of one group, in table order. */
  function Group(rows: seq<Row>, key: GroupKey): seq<Row>
    decreases |rows|
  {
    if rows == [] then []
    else
      var n := |rows| - 1;
      Group(rows[..n], key) + if KeyOf(rows[n]) == key then [rows[n]] else []
  }

  /** The keys of the groups, each once, in order of first appearance. */
  function GroupKeys(rows: seq<Row>): (keys: seq<GroupKey>)
    ensures forall k :: k in keys <==> exists i :: 0 <= i < |rows| && KeyOf(rows[i]) == k
    ensures forall i, j :: 0 <= i < j < |keys| ==> keys[i] != keys[j]
    decreases |rows|
  {
    if rows == [] then []
    else
      var n := |rows| - 1;
      var keys := GroupKeys(rows[..n]);
      assert forall i :: 0 <= i < n ==> rows[..n][i] == rows[i];
      if KeyOf(rows[n]) in keys then keys else keys + [KeyOf(rows[n])]
  }

  /** A group holds the rows of its key, and nothing else. */
  lemma {:induction false} GroupMembers(rows: seq<Row>, key: GroupKey, r: Row)
    ensures r in Group(rows, key) <==> r in rows && KeyOf(r) == key
    decreases |rows|
  {
    if rows != [] {
      var n := |rows| - 1;
      GroupMembers(rows[..n], key, r);
      assert rows == rows[..n] + [rows[n]];
    }
  }

  predicate RowsSorted(rows: seq<Row>) {
    forall i, j :: 0 <= i < j < |rows| ==> KeyLe(rows[i].attack, rows[j].attack)
  }

  /** In a table sorted by chain and time, each group is in time order, so
      re-sorting a group by time leaves it as it is. */
  lemma {:induction false} GroupInTimeOrder(rows: seq<Row>, key: GroupKey)
    requires RowsSorted(rows)
    ensures InTimeOrder(Group(rows, key))
    decreases |rows|
  {
    if rows != [] {
      var n := |rows| - 1;
      var init := rows[..n];
      GroupInTimeOrder(init, key);
      var g := Group(init, key);
      if KeyOf(rows[n]) == key {
        forall i | 0 <= i < |g|
          ensures g[i].attack.endedAt <= rows[n].attack.endedAt
        {
          GroupMembers(init, key, g[i]);
          var j :| 0 <= j < n && init[j] == g[i];
          assert KeyLe(rows[j].attack, rows[n].attack);
        }
      }
    }
  }

  // ----------------------------------------------------- all the groups

  /** Whether a group takes part in the scoring. */
  predicate Scored(key: GroupKey, s: Scoring) {
    s.validChains.None? || key.chainId in s.validChains.value
  }

  /** The maps and list after the groups of `keys`, in that order. */
  function ScoreKeys(rows: seq<Row>, keys: seq<GroupKey>, s: Scoring): (t: Tally)
    ensures t.base.Keys == t.points.Keys && t.penalty.Keys == t.points.Keys && t.bonus.Keys == t.points.Keys
    decreases |keys|
  {
    if keys == [] then EmptyTally
    else
      var n := |keys| - 1;
      var t := ScoreKeys(rows, keys[..n], s);
      if Scored(keys[n], s) then AddGroup(t, keys[n], Group(rows, keys[n]), s) else t
  }

  /** The four per-attacker columns the points loop fills. */
  datatype ScoreColumn = BasePoints | PenaltyPoints | ChainBonusColumn | ChainPoints

  /** The map of a tally that holds a column. */
  function ColumnOf(t: Tally, c: ScoreColumn): map<string, real> {
    match c
    case BasePoints => t.base
    case PenaltyPoints => t.penalty
    case ChainBonusColumn => t.bonus
    case ChainPoints => t.points
  }

  /** What one group adds to a column: chain_base, chain_penalty,
      chain_bonus or chain_total. */
  function GroupAmount(hits: seq<Row>, s: Scoring, c: ScoreColumn): real {
    match c
    case BasePoints => GroupBase(hits, s.opponent)
    case PenaltyPoints => GroupPenalty(hits, s)
    case ChainBonusColumn => ChainBonus(hits) as real
    case ChainPoints => GroupTotal(hits, s)
  }

  /** The sum of a column's group amounts over the scored groups of an attacker. */
  function AttackerSum(rows: seq<Row>, keys: seq<GroupKey>, s: Scoring, a: string, c: ScoreColumn): real
    decreases |keys|
  {
    if keys == [] then 0.0
    else
      var n := |keys| - 1;
      AttackerSum(rows, keys[..n], s, a, c)
      + if Scored(keys[n], s) && keys[n].attacker == a then GroupAmount(Group(rows, keys[n]), s, c) else 0.0
  }

  lemma {:induction false} ScoreKeysValid(rows: seq<Row>, keys: seq<GroupKey>, s: Scoring)
    ensures TallyValid(ScoreKeys(rows, keys, s))
    decreases |keys|
  {
    if keys != [] {
      var n := |keys| - 1;
      ScoreKeysValid(rows, keys[..n], s);
      if Scored(keys[n], s) {
        AddGroupKeepsValid(ScoreKeys(rows, keys[..n], s), keys[n], Group(rows, keys[n]), s);
      }
    }
  }

  /** An attacker has an entry exactly when one of their groups is scored,
      and the entry is the sum of their groups' chain totals. */
  lemma {:induction false} AttackerEntries(rows: seq<Row>, keys: seq<GroupKey>, s: Scoring, a: string)
    ensures a in ScoreKeys(rows, keys, s).points <==> exists k :: k in keys && Scored(k, s) && k.attacker == a
    ensures forall c :: Lookup(ColumnOf(ScoreKeys(rows, keys, s), c), a) == AttackerSum(rows, keys, s, a, c)
    decreases |keys|
  {
    if keys != [] {
      var n := |keys| - 1;
      AttackerEntries(rows, keys[..n], s, a);
      assert keys == keys[..n] + [keys[n]];
    }
    forall c {
      AttackerColumn(rows, keys, s, a, c);
    }
  }

  /** Each column's entry for an attacker is the sum of that column's
      amounts over the attacker's scored groups. */
  lemma {:induction false} AttackerColumn(rows: seq<Row>, keys: seq<GroupKey>, s: Scoring, a: string, c: ScoreColumn)
    ensures Lookup(ColumnOf(ScoreKeys(rows, keys, s), c), a) == AttackerSum(rows, keys, s, a, c)
    decreases |keys|
  {
    if keys != [] {
      AttackerColumn(rows, keys[..|keys| - 1], s, a, c);
    }
  }

  /** A group outside the valid chains leaves the maps and the list unchanged. */
  lemma UnscoredGroupChangesNothing(rows: seq<Row>, keys: seq<GroupKey>, key: GroupKey, s: Scoring)
    requires !Scored(key, s)
    ensures ScoreKeys(rows, keys + [key], s) == ScoreKeys(rows, keys, s)
  {
    assert (keys + [key])[..|keys|] == keys;
  }

  // ----------------------------------------------------- the imperative ledger

  /** The four dicts and the detail list the points loop updates. */
  class PointsLedger {
    var basePoints: map<string, real>
    var penaltyPoints: map<string, real>
    var chainBonus: map<string, real>
    var chainPoints: map<string, real>
    var penaltyDetails: seq<PenaltyRecord>

    function State(): Tally
      reads this
    {
      Tally(basePoints, penaltyPoints, chainBonus, chainPoints, penaltyDetails)
    }

    ghost predicate Valid()
      reads this
    {
      TallyValid(State())
    }

    constructor ()
      ensures Valid() && State() == EmptyTally
    {
      basePoints, penaltyPoints, chainBonus, chainPoints := map[], map[], map[], map[];
      penaltyDetails := [];
    }

    /** Scores one group and adds its points to the four maps; the maps
        stay consistent by AddGroupKeepsValid. */
    method ScoreGroup(key: GroupKey, hits: seq<Row>, s: Scoring)
      modifies this
      ensures State() == AddGroup(old(State()), key, hits, s)
    {
      var chainBase, chainPenalty := ScoreHits(key, hits, s);
      var bonus := 2 * (Duration(hits) / 600) + 5;
      var chainTotal := chainBase + chainPenalty + bonus as real;
      var a := key.attacker;
      basePoints := AddTo(basePoints, a, chainBase);
      penaltyPoints := AddTo(penaltyPoints, a, chainPenalty);
      chainBonus := AddTo(chainBonus, a, bonus as real);
      chainPoints := AddTo(chainPoints, a, chainTotal);
    }

    /** The loop over the hits of one group: accumulates chain_base and
        chain_penalty and appends a detail record per penalised hit. */
    method ScoreHits(key: GroupKey, hits: seq<Row>, s: Scoring) returns (chainBase: real, chainPenalty: real)
      modifies this
      ensures chainBase == GroupBase(hits, s.opponent)
      ensures chainPenalty == GroupPenalty(hits, s)
      ensures penaltyDetails == old(penaltyDetails) + PenaltyRecords(key, hits, s)
      ensures basePoints == old(basePoints) && penaltyPoints == old(penaltyPoints)
      ensures chainBonus == old(chainBonus) && chainPoints == old(chainPoints)
    {
      chainBase := 0.0;
      chainPenalty := 0.0;
      for i := 0 to |hits|
        invariant chainBase == GroupBase(hits[..i], s.opponent)
        invariant chainPenalty == GroupPenalty(hits[..i], s)
        invariant penaltyDetails == old(penaltyDetails) + PenaltyRecords(key, hits[..i], s)
        invariant basePoints == old(basePoints) && penaltyPoints == old(penaltyPoints)
        invariant chainBonus == old(chainBonus) && chainPoints == old(chainPoints)
      {
        var hit := hits[i];
        var overallHit := i + 1;
        var base := if overallHit <= 10 then 2.0 else SpacingPoints(hit.gap) as real;
        var enemyBonus := if hit.attack.defender == s.opponent then 0.5 else 0.0;
        var bonusPen := 0.0;
        if IsMilestone(s.milestone, overallHit, hit.attack.chainValue) && hit.attack.defender != s.opponent {
          bonusPen := -10.0;
          penaltyDetails := penaltyDetails
            + [PenaltyRecord(key.chainId, key.attacker, hit.attack.chainValue, overallHit, hit.attack.endedAt)];
        }
        chainBase := chainBase + (base + enemyBonus);
        chainPenalty := chainPenalty + bonusPen;
        assert hits[..i + 1][..i] == hits[..i] && hits[..i + 1][i] == hit;
      }
      assert hits[..|hits|] == hits;
    }
  }

  /** The points loop over all groups of the annotated table; groups of a
      chain outside the valid chains are skipped. */
  method ComputeChainPoints(rows: seq<Row>, s: Scoring) returns (ledger: PointsLedger)
    ensures fresh(ledger) && ledger.Valid()
    ensures ledger.State() == ScoreKeys(rows, GroupKeys(rows), s)
  {
    ledger := new PointsLedger();
    var keys := GroupKeys(rows);
    for i := 0 to |keys|
      invariant ledger.State() == ScoreKeys(rows, keys[..i], s)
    {
      var key := keys[i];
      if s.validChains.None? || key.chainId in s.validChains.value {
        ledger.ScoreGroup(key, Group(rows, key), s);
      }
      assert keys[..i + 1][..i] == keys[..i];
    }
    assert keys[..|keys|] == keys;
    ScoreKeysValid(rows, keys, s);
  }
}
