/** Classification of the time between two consecutive attacks of a chain
    into one-minute buckets, and the base points each bucket earns. */
module Gaps {
  import opened Wrappers

  /** The values the "Time Since Last Attack" column holds besides None. */
  datatype GapLabel =
    | UnderOneMinute
    | OneToTwoMinutes
    | TwoToThreeMinutes
    | ThreeToFourMinutes
    | FourToFiveMinutes
    | OutOfRange

  /** The text of a category, which is also the header of its summary column. */
  function Name(category: GapLabel): string {
    match category
    case UnderOneMinute => "<1 minute"
    case OneToTwoMinutes => "1-2 minutes"
    case TwoToThreeMinutes => "2-3 minutes"
    case ThreeToFourMinutes => "3-4 minutes"
    case FourToFiveMinutes => "4-5 minutes"
    case OutOfRange => "ERROR: Time out of range"
  }

  /** Two categories have the same text only when they are the same, so
      comparing a label with "ERROR: Time out of range" tests for OutOfRange. */
  lemma NamesDistinct(x: GapLabel, y: GapLabel)
    ensures Name(x) == Name(y) <==> x == y
  {
  }

  /** The category of the k-th one-minute bucket, [60k, 60k + 60) seconds. */
  function Bucket(k: nat): (category: GapLabel)
    requires k < 5
    ensures category != OutOfRange
  {
    if k == 0 then UnderOneMinute
    else if k == 1 then OneToTwoMinutes
    else if k == 2 then TwoToThreeMinutes
    else if k == 3 then ThreeToFourMinutes
    else FourToFiveMinutes
  }

  /** categorize_time_difference: a gap of at least five minutes is an
      error; a shorter gap falls in the bucket of its whole minutes.
      Negative gaps (which the sorted table never produces) fall in the
      first bucket, as in the source's if-chain. */
  function Categorize(seconds: int): (category: GapLabel)
    ensures category == OutOfRange <==> seconds >= 300
    ensures 0 <= seconds < 300 ==> category == Bucket(seconds / 60)
    ensures seconds < 0 ==> category == UnderOneMinute
  {
    if seconds < 60 then UnderOneMinute
    else if seconds < 120 then OneToTwoMinutes
    else if seconds < 180 then TwoToThreeMinutes
    else if seconds < 240 then ThreeToFourMinutes
    else if seconds < 300 then FourToFiveMinutes
    else OutOfRange
  }

  /** The buckets are half-open and closed on the left: a non-negative gap
      gets bucket k exactly when it lies in [60k, 60k + 60). */
  lemma CategorizeBucketIff(seconds: int, k: nat)
    requires 0 <= seconds && k < 5
    ensures Categorize(seconds) == Bucket(k) <==> 60 * k <= seconds < 60 * k + 60
  {
  }

  /** spacing_mapping.get(category, 0): the base points of a hit after the
      tenth; a missing category or the error category earns nothing. */
  function SpacingPoints(category: Option<GapLabel>): (points: nat)
    ensures points == 0 <==> category.None? || category.value == OutOfRange
    ensures points <= 8
  {
    match category
    case Some(UnderOneMinute) => 1
    case Some(OneToTwoMinutes) => 2
    case Some(TwoToThreeMinutes) => 3
    case Some(ThreeToFourMinutes) => 5
    case Some(FourToFiveMinutes) => 8
    case _ => 0
  }

  /** A slower hit (within the five minutes) earns strictly more. */
  lemma SpacingGrowsWithGap(i: nat, j: nat)
    requires i < j < 5
    ensures SpacingPoints(Some(Bucket(i))) < SpacingPoints(Some(Bucket(j)))
  {
  }
}
