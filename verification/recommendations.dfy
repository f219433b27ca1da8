/** The "Personalized for You" carousel
    (src/pages/career-exploration/components/PersonalizedRecommendations.jsx):
    a wrapping index over a fixed, non-empty list of recommendations, the
    match-percentage tiers, the demand colours and the position label. */
module Recommendations {
  import opened Strings
  import Arith

  /** The carousel opens on the first recommendation. */
  const START_INDEX: int := 0

  /** `nextRecommendation`: `(prev + 1) % n`. The list is a non-empty
      constant, so `n > 0`; the index is always one the carousel produced. */
  function NextIndex(i: int, n: int): (r: int)
    requires 0 <= i < n
    ensures 0 <= r < n
    ensures r == if i + 1 < n then i + 1 else 0
  {
    if i + 1 < n then
      Arith.DivUnique(i + 1, n, 0, i + 1);
      (i + 1) % n
    else
      Arith.DivUnique(i + 1, n, 1, 0);
      (i + 1) % n
  }

  /** `prevRecommendation`: `(prev - 1 + n) % n`. */
  function PrevIndex(i: int, n: int): (r: int)
    requires 0 <= i < n
    ensures 0 <= r < n
    ensures r == if i > 0 then i - 1 else n - 1
  {
    if i > 0 then
      Arith.DivUnique(i - 1 + n, n, 1, i - 1);
      (i - 1 + n) % n
    else
      Arith.DivUnique(n - 1, n, 0, n - 1);
      (i - 1 + n) % n
  }

  /** Previous undoes next and next undoes previous. */
  lemma PrevNextInverse(i: int, n: int)
    requires 0 <= i < n
    ensures PrevIndex(NextIndex(i, n), n) == i
    ensures NextIndex(PrevIndex(i, n), n) == i
  {
  }

  /** `k` presses of the next arrow. */
  function NextTimes(i: int, k: nat, n: int): (r: int)
    requires 0 <= i < n
    ensures 0 <= r < n
    decreases k
  {
    if k == 0 then i else NextIndex(NextTimes(i, k - 1, n), n)
  }

  /** `k` presses of next land on `(i + k) mod n`. */
  lemma {:induction false} NextTimesIsShift(i: int, k: nat, n: int)
    requires 0 <= i < n
    ensures NextTimes(i, k, n) == (i + k) % n
    decreases k
  {
    if k == 0 {
      Arith.DivUnique(i, n, 0, i);
    } else {
      NextTimesIsShift(i, k - 1, n);
      ModSucc(i + k - 1, n);
    }
  }

  /** One step of next on a remainder is the remainder of the successor. */
  lemma ModSucc(a: int, n: int)
    requires n > 0
    ensures NextIndex(a % n, n) == (a + 1) % n
  {
    var q, r := a / n, a % n;
    if r + 1 < n {
      Arith.DivUnique(a + 1, n, q, r + 1);
    } else {
      assert a + 1 == n * (q + 1);
      Arith.DivUnique(a + 1, n, q + 1, 0);
    }
  }

  /** `n` presses of next go all the way round to the starting card. */
  lemma NextCycle(i: int, n: int)
    requires 0 <= i < n
    ensures NextTimes(i, n, n) == i
  {
    NextTimesIsShift(i, n, n);
    Arith.DivUnique(i + n, n, 1, i);
  }

  /** Clicks on the carousel: the two arrows and the k-th dot. */
  datatype Click = NextArrow | PrevArrow | Dot(k: int)

  /** The arrows are disabled when there is at most one recommendation. */
  predicate ArrowsEnabled(n: int)
  {
    n > 1
  }

  /** One click. Disabled arrows do nothing; a dot sets the index to its
      own position, and dots exist only for positions `0 .. n-1`. */
  function ClickStep(i: int, c: Click, n: int): (r: int)
    requires 0 <= i < n
    requires c.Dot? ==> 0 <= c.k < n
    ensures 0 <= r < n
    ensures !ArrowsEnabled(n) && !c.Dot? ==> r == i
  {
    match c
    case NextArrow => if ArrowsEnabled(n) then NextIndex(i, n) else i
    case PrevArrow => if ArrowsEnabled(n) then PrevIndex(i, n) else i
    case Dot(k) => k
  }

  predicate DotsInRange(clicks: seq<Click>, n: int)
  {
    forall j :: 0 <= j < |clicks| && clicks[j].Dot? ==> 0 <= clicks[j].k < n
  }

  function ClickAll(i: int, clicks: seq<Click>, n: int): (r: int)
    requires 0 <= i < n && DotsInRange(clicks, n)
    decreases |clicks|
  {
    if |clicks| == 0 then i else ClickAll(ClickStep(i, clicks[0], n), clicks[1..], n)
  }

  /** Whatever is clicked, the index names one of the `n` recommendations,
      so `recommendations[currentIndex]` is always defined. */
  lemma {:induction false} ClicksStayInRange(i: int, clicks: seq<Click>, n: int)
    requires 0 <= i < n && DotsInRange(clicks, n)
    ensures 0 <= ClickAll(i, clicks, n) < n
    decreases |clicks|
  {
    if |clicks| > 0 {
      ClicksStayInRange(ClickStep(i, clicks[0], n), clicks[1..], n);
    }
  }

  /** With a single recommendation only the dot can be clicked, and it keeps
      the carousel on the only card. */
  lemma {:induction false} SingleCardNeverMoves(clicks: seq<Click>)
    requires DotsInRange(clicks, 1)
    ensures ClickAll(0, clicks, 1) == 0
    decreases |clicks|
  {
    if |clicks| > 0 {
      SingleCardNeverMoves(clicks[1..]);
    }
  }

  /** `getMatchColor`, as the tier it selects. */
  datatype MatchTier = StrongMatch | GoodMatch | FairMatch | WeakMatch

  function MatchTierOf(percentage: int): (t: MatchTier)
    ensures t == StrongMatch <==> percentage >= 90
    ensures t == GoodMatch <==> 80 <= percentage < 90
    ensures t == FairMatch <==> 70 <= percentage < 80
    ensures t == WeakMatch <==> percentage < 70
  {
    if percentage >= 90 then StrongMatch
    else if percentage >= 80 then GoodMatch
    else if percentage >= 70 then FairMatch
    else WeakMatch
  }

  /** A higher percentage never falls into a lower tier. */
  function TierRank(t: MatchTier): int
  {
    match t
    case WeakMatch => 0
    case FairMatch => 1
    case GoodMatch => 2
    case StrongMatch => 3
  }

  lemma MatchTierMonotone(a: int, b: int)
    requires a <= b
    ensures TierRank(MatchTierOf(a)) <= TierRank(MatchTierOf(b))
  {
  }

  /** `getDemandColor`, shared word for word with the career tree. */
  datatype DemandTone = DemandSuccess | DemandPrimary | DemandWarning | DemandMuted

  function DemandToneOf(demand: string): (t: DemandTone)
    ensures t == DemandSuccess <==> demand == "Very High"
    ensures t == DemandPrimary <==> demand == "High"
    ensures t == DemandWarning <==> demand == "Medium"
    ensures t == DemandMuted <==> demand !in {"Very High", "High", "Medium"}
  {
    if demand == "Very High" then DemandSuccess
    else if demand == "High" then DemandPrimary
    else if demand == "Medium" then DemandWarning
    else DemandMuted
  }

  /** The "i+1 of n" position label. */
  function PositionLabel(i: int, n: int): (s: string)
    requires 0 <= i < n
    ensures Split(s, ' ') == [NatToString(i + 1), "of", NatToString(n)]
  {
    NoSeparatorInNumber(i + 1, ' ');
    NoSeparatorInNumber(n, ' ');
    var s := NatToString(i + 1) + " " + "of" + " " + NatToString(n);
    assert s == NatToString(i + 1) + [' '] + ("of" + [' '] + NatToString(n));
    SplitAppend(NatToString(i + 1), "of" + [' '] + NatToString(n), ' ');
    SplitAppend("of", NatToString(n), ' ');
    SplitNoSep(NatToString(n), ' ');
    s
  }

  /** Reading the label back gives the 1-based position and the count. */
  lemma PositionLabelReadsBack(i: int, n: int)
    requires 0 <= i < n
    ensures var parts := Split(PositionLabel(i, n), ' ');
            |parts| == 3 && ParseNat(parts[0]).Some? && ParseNat(parts[0]).value == i + 1
            && ParseNat(parts[2]).Some? && ParseNat(parts[2]).value == n
  {
    ParseNatToString(i + 1);
    ParseNatToString(n);
  }
}
