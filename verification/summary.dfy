/** The summary aggregator: per attacker, the hits in each gap column and
    in the first-ten column, each paired with the hits on the opposing
    faction and encoded as "{total}.{sub:03}", joined with the attacker's
    points. */
module Summary {
  import opened Wrappers
  import opened Gaps
  import opened Attacks
  import opened Points

  // ------------------------------------------------------ cell encoding

  predicate IsDigit(c: char) {
    '0' <= c <= '9'
  }

  predicate AllDigits(s: string) {
    forall i :: 0 <= i < |s| ==> IsDigit(s[i])
  }

  function DigitChar(d: nat): char
    requires d < 10
  {
    ('0' as int + d) as char
  }

  function DigitValue(c: char): nat
    requires IsDigit(c)
  {
    c as int - '0' as int
  }

  /** The decimal numeral of n, without leading zeros. */
  function Digits(n: nat): (s: string)
    ensures s != [] && AllDigits(s)
    decreases n
  {
    if n < 10 then [DigitChar(n)] else Digits(n / 10) + [DigitChar(n % 10)]
  }

  /** The value of a decimal numeral (leading zeros allowed). */
  function ParseDigits(s: string): nat
    requires AllDigits(s)
    decreases |s|
  {
    if s == [] then 0 else 10 * ParseDigits(s[..|s| - 1]) + DigitValue(s[|s| - 1])
  }

  /** The numeral is zero-padded on the left to at least three digits (the
      ":03" format). */
  function PadTo3(s: string): (padded: string)
    ensures |padded| >= 3 && |padded| >= |s|
    decreases if |s| < 3 then 3 - |s| else 0
  {
    if |s| < 3 then PadTo3(['0'] + s) else s
  }

  /** "{total}.{sub:03}": the numeral of total, a dot, and the numeral of
      sub in at least three places. */
  function Encode(total: nat, sub: nat): (cell: string)
    ensures |cell| >= |Digits(total)| + 4
    ensures cell[..|Digits(total)|] == Digits(total) && cell[|Digits(total)|] == '.'
  {
    Digits(total) + "." + PadTo3(Digits(sub))
  }

  /** The position of the first '.' of a string. */
  function DotIndex(s: string): (k: nat)
    requires '.' in s
    ensures k < |s| && s[k] == '.' && '.' !in s[..k]
    decreases |s|
  {
    if s[0] == '.' then 0
    else
      assert '.' in s[1..] by { assert s == [s[0]] + s[1..]; }
      var k := DotIndex(s[1..]);
      assert s[..k + 1] == [s[0]] + s[1..][..k];
      k + 1
  }

  /** Reads a cell back into its two counts; None when it is not two
      numerals separated by a dot. */
  function Decode(cell: string): Option<(nat, nat)> {
    if '.' !in cell then None
    else
      var k := DotIndex(cell);
      var whole, frac := cell[..k], cell[k + 1..];
      if whole != [] && frac != [] && AllDigits(whole) && AllDigits(frac)
      then Some((ParseDigits(whole), ParseDigits(frac)))
      else None
  }

  lemma {:induction false} ParseDigitsOfDigits(n: nat)
    ensures ParseDigits(Digits(n)) == n
    decreases n
  {
    if n >= 10 {
      ParseDigitsOfDigits(n / 10);
      var d := Digits(n);
      assert d[..|d| - 1] == Digits(n / 10);
    }
  }

  lemma {:induction false} ParseLeadingZero(s: string)
    requires AllDigits(s)
    ensures AllDigits(['0'] + s) && ParseDigits(['0'] + s) == ParseDigits(s)
    decreases |s|
  {
    var z := ['0'] + s;
    if s == [] {
      assert z[..0] == [];
    } else {
      ParseLeadingZero(s[..|s| - 1]);
      assert z[..|z| - 1] == ['0'] + s[..|s| - 1];
    }
  }

  lemma {:induction false} PadTo3Parse(s: string)
    requires AllDigits(s)
    ensures AllDigits(PadTo3(s)) && ParseDigits(PadTo3(s)) == ParseDigits(s)
    decreases if |s| < 3 then 3 - |s| else 0
  {
    if |s| < 3 {
      ParseLeadingZero(s);
      PadTo3Parse(['0'] + s);
    }
  }

  /** The encoding is read back unambiguously: the cell decodes to the two
      counts it was made from. */
  lemma DecodeEncode(total: nat, sub: nat)
    ensures Decode(Encode(total, sub)) == Some((total, sub))
  {
    var whole, frac := Digits(total), PadTo3(Digits(sub));
    var cell := Encode(total, sub);
    assert cell[|whole|] == '.';
    var k := DotIndex(cell);
    assert k == |whole|;
    assert cell[..k] == whole && cell[k + 1..] == frac;
    ParseDigitsOfDigits(total);
    ParseDigitsOfDigits(sub);
    PadTo3Parse(Digits(sub));
    PadTo3Length(Digits(sub));
    assert whole != [] && frac != [] && AllDigits(whole) && AllDigits(frac);
  }

  /** A count of at most 999 takes exactly three places after the dot, so
      the cell read as a decimal number is total + sub / 1000. */
  lemma {:induction false} SmallSubTakesThreePlaces(total: nat, sub: nat)
    requires sub <= 999
    ensures |Encode(total, sub)| == |Digits(total)| + 4
  {
    assert |Digits(sub)| <= 3 by {
      if sub >= 10 {
        assert |Digits(sub / 10)| <= 2 by {
          if sub / 10 >= 10 {
            assert |Digits(sub / 100)| == 1;
          }
        }
      }
    }
    PadTo3Length(Digits(sub));
  }

  lemma {:induction false} PadTo3Length(s: string)
    ensures |PadTo3(s)| == if |s| < 3 then 3 else |s|
    decreases if |s| < 3 then 3 - |s| else 0
  {
    if |s| < 3 {
      PadTo3Length(['0'] + s);
    }
  }

  /** The fill value of a missing cell is the encoding of no hits. */
  lemma EmptyCellIsZeroZero()
    ensures Encode(0, 0) == "0.000"
  {
    assert Digits(0) == "0";
    assert PadTo3("000") == "000";
    assert PadTo3("00") == PadTo3(['0'] + "00") == "000";
    assert PadTo3("0") == PadTo3(['0'] + "0") == "000";
  }

  // ------------------------------------------------------------- counts

  /** A column of the summary: a gap category, or the first-ten column. */
  datatype Column = CategoryColumn(category: GapLabel) | WarmUpColumn

  /** A gap column counts the attacker's rows past chain value 10 with that
      label; the first-ten column counts the rows with chain value <= 10. */
  predicate InColumn(r: Row, attacker: string, col: Column) {
    && r.attack.attacker == attacker
    && match col
       case CategoryColumn(c) => r.attack.chainValue > 10 && r.gap == Some(c)
       case WarmUpColumn => r.attack.chainValue <= 10
  }

  function Hits(rows: seq<Row>, attacker: string, col: Column): nat
    decreases |rows|
  {
    if rows == [] then 0
    else
      var n := |rows| - 1;
      Hits(rows[..n], attacker, col) + if InColumn(rows[n], attacker, col) then 1 else 0
  }

  function HitsOnOpponent(rows: seq<Row>, attacker: string, col: Column, opponent: string): nat
    decreases |rows|
  {
    if rows == [] then 0
    else
      var n := |rows| - 1;
      HitsOnOpponent(rows[..n], attacker, col, opponent)
      + if InColumn(rows[n], attacker, col) && rows[n].attack.defender == opponent then 1 else 0
  }

  /** The hits on the opposing faction are among the column's hits. */
  lemma {:induction false} OpponentHitsWithinHits(rows: seq<Row>, attacker: string, col: Column, opponent: string)
    ensures HitsOnOpponent(rows, attacker, col, opponent) <= Hits(rows, attacker, col)
    decreases |rows|
  {
    if rows != [] {
      OpponentHitsWithinHits(rows[..|rows| - 1], attacker, col, opponent);
    }
  }

  /** A column counts nothing for an attacker none of whose rows is in it. */
  lemma {:induction false} HitsPositiveIff(rows: seq<Row>, attacker: string, col: Column)
    ensures Hits(rows, attacker, col) > 0 <==> exists i :: 0 <= i < |rows| && InColumn(rows[i], attacker, col)
    decreases |rows|
  {
    if rows != [] {
      var n := |rows| - 1;
      HitsPositiveIff(rows[..n], attacker, col);
      assert forall i :: 0 <= i < n ==> rows[..n][i] == rows[i];
    }
  }

  /** A cell of the table: the encoded pair for an attacker with hits in
      the column, and the fill value "0.000" for one without. */
  /** Every cell, filled or not, reads back as (hits, hits on the
      opposing faction), with the second at most the first. */
  function Cell(rows: seq<Row>, attacker: string, col: Column, opponent: string): (cell: string)
    ensures HitsOnOpponent(rows, attacker, col, opponent) <= Hits(rows, attacker, col)
    ensures Decode(cell) == Some((Hits(rows, attacker, col), HitsOnOpponent(rows, attacker, col, opponent)))
  {
    var total := Hits(rows, attacker, col);
    OpponentHitsWithinHits(rows, attacker, col, opponent);
    EmptyCellIsZeroZero();
    DecodeEncode(total, HitsOnOpponent(rows, attacker, col, opponent));
    if total == 0 then "0.000" else Encode(total, HitsOnOpponent(rows, attacker, col, opponent))
  }

  // ------------------------------------------------------------ the rows

  /** The rows that count towards the gap columns. */
  predicate Bucketed(r: Row) {
    r.attack.chainValue > 10 && r.gap.Some?
  }

  /** The attackers that get a summary row: those with a bucketed row, in
      order of first appearance. */
  function SummaryAttackers(rows: seq<Row>): (attackers: seq<string>)
    ensures forall a :: a in attackers <==> exists i :: 0 <= i < |rows| && Bucketed(rows[i]) && rows[i].attack.attacker == a
    ensures forall i, j :: 0 <= i < j < |attackers| ==> attackers[i] != attackers[j]
    decreases |rows|
  {
    if rows == [] then []
    else
      var n := |rows| - 1;
      var attackers := SummaryAttackers(rows[..n]);
      assert forall i :: 0 <= i < n ==> rows[..n][i] == rows[i];
      var a := rows[n].attack.attacker;
      if !Bucketed(rows[n]) || a in attackers then attackers else attackers + [a]
  }

  /** The gap columns: the five buckets, plus every label that occurs on a
      bucketed row (the error label among them, when it occurs). */
  function Columns(rows: seq<Row>): set<GapLabel> {
    {UnderOneMinute, OneToTwoMinutes, TwoToThreeMinutes, ThreeToFourMinutes, FourToFiveMinutes}
    + set i | 0 <= i < |rows| && Bucketed(rows[i]) :: rows[i].gap.value
  }

  /** "Total Hits": all the attacker's rows. */
  function TotalHits(rows: seq<Row>, attacker: string): nat
    decreases |rows|
  {
    if rows == [] then 0
    else
      var n := |rows| - 1;
      TotalHits(rows[..n], attacker) + if rows[n].attack.attacker == attacker then 1 else 0
  }

  datatype SummaryRow = SummaryRow(
    attacker: string,
    categories: map<GapLabel, string>,
    warmUp: string,
    totalHits: nat,
    basePoints: real,
    penaltyPoints: real,
    chainBonus: real,
    chainPoints: real,
    totalPoints: real)

  /** The row of one attacker; points missing from the maps read as 0. */
  function SummaryRowOf(rows: seq<Row>, t: Tally, opponent: string, a: string): SummaryRow {
    SummaryRow(
      a,
      map c | c in Columns(rows) :: Cell(rows, a, CategoryColumn(c), opponent),
      Cell(rows, a, WarmUpColumn, opponent),
      TotalHits(rows, a),
      Lookup(t.base, a),
      Lookup(t.penalty, a),
      Lookup(t.bonus, a),
      Lookup(t.points, a),
      Lookup(t.points, a))
  }

  /** The summary table, one row per attacker with a bucketed row. */
  function BuildSummary(rows: seq<Row>, t: Tally, opponent: string): (summary: seq<SummaryRow>)
    ensures |summary| == |SummaryAttackers(rows)|
    ensures forall i, j :: 0 <= i < j < |summary| ==> summary[i].attacker != summary[j].attacker
  {
    var attackers := SummaryAttackers(rows);
    seq(|attackers|, i requires 0 <= i < |attackers| => SummaryRowOf(rows, t, opponent, attackers[i]))
  }

  lemma {:induction false} TotalHitsAtLeastColumn(rows: seq<Row>, attacker: string, col: Column)
    ensures Hits(rows, attacker, col) <= TotalHits(rows, attacker)
    decreases |rows|
  {
    if rows != [] {
      TotalHitsAtLeastColumn(rows[..|rows| - 1], attacker, col);
    }
  }

  /** An attacker gets a row exactly when they have a hit past chain value
      10 with a label; so an attacker whose hits all have chain value <= 10
      gets none. */
  lemma SummaryRowIff(rows: seq<Row>, t: Tally, opponent: string, a: string)
    ensures (exists i :: 0 <= i < |BuildSummary(rows, t, opponent)| && BuildSummary(rows, t, opponent)[i].attacker == a)
            <==> exists i :: 0 <= i < |rows| && Bucketed(rows[i]) && rows[i].attack.attacker == a
  {
    var attackers := SummaryAttackers(rows);
    if a in attackers {
      var i :| 0 <= i < |attackers| && attackers[i] == a;
      assert BuildSummary(rows, t, opponent)[i].attacker == a;
    }
  }

  /** The gap columns include the error label exactly when it occurs on a
      bucketed row. */
  lemma ErrorColumnIff(rows: seq<Row>)
    ensures OutOfRange in Columns(rows) <==> exists j :: 0 <= j < |rows| && Bucketed(rows[j]) && rows[j].gap == Some(OutOfRange)
  {
    if j :| 0 <= j < |rows| && Bucketed(rows[j]) && rows[j].gap == Some(OutOfRange) {
      assert rows[j].gap.value in Columns(rows);
    }
  }

  /** Every cell of a row reads back as its two counts, which lie within
      the attacker's total hits. */
  lemma SummaryCellsDecode(rows: seq<Row>, opponent: string, a: string)
    ensures forall c :: Decode(Cell(rows, a, CategoryColumn(c), opponent))
              == Some((Hits(rows, a, CategoryColumn(c)), HitsOnOpponent(rows, a, CategoryColumn(c), opponent)))
    ensures forall c :: HitsOnOpponent(rows, a, CategoryColumn(c), opponent) <= Hits(rows, a, CategoryColumn(c)) <= TotalHits(rows, a)
    ensures Decode(Cell(rows, a, WarmUpColumn, opponent))
            == Some((Hits(rows, a, WarmUpColumn), HitsOnOpponent(rows, a, WarmUpColumn, opponent)))
  {
    forall c
      ensures Decode(Cell(rows, a, CategoryColumn(c), opponent))
              == Some((Hits(rows, a, CategoryColumn(c)), HitsOnOpponent(rows, a, CategoryColumn(c), opponent)))
      ensures HitsOnOpponent(rows, a, CategoryColumn(c), opponent) <= Hits(rows, a, CategoryColumn(c)) <= TotalHits(rows, a)
    {
      TotalHitsAtLeastColumn(rows, a, CategoryColumn(c));
    }
  }

  /** A summary row has at least one hit, its columns are Columns(rows),
      and with consistent maps its Total Points is base + penalty + bonus. */
  lemma SummaryRowFacts(rows: seq<Row>, t: Tally, opponent: string, i: nat)
    requires TallyValid(t)
    requires i < |BuildSummary(rows, t, opponent)|
    ensures var row := BuildSummary(rows, t, opponent)[i];
            && row.categories.Keys == Columns(rows)
            && row.totalHits >= 1
            && row.totalPoints == row.basePoints + row.penaltyPoints + row.chainBonus
  {
    var row := BuildSummary(rows, t, opponent)[i];
    var a := row.attacker;
    assert a in SummaryAttackers(rows);
    var j :| 0 <= j < |rows| && Bucketed(rows[j]) && rows[j].attack.attacker == a;
    var c := rows[j].gap.value;
    assert InColumn(rows[j], a, CategoryColumn(c));
    HitsPositiveIff(rows, a, CategoryColumn(c));
    TotalHitsAtLeastColumn(rows, a, CategoryColumn(c));
  }
}
