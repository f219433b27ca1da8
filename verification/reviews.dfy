/** The reviews tab of the college page
    (src/pages/college-details/components/ReviewsTab.jsx): the star filter,
    the rating distribution and its bar widths, the star row and the empty
    state. */
module Reviews {
  import opened Seqs

  /** A review; only the rating takes part in any decision. */
  datatype Review = Review(id: int, author: string, rating: int, content: string)

  /** The "Filter by rating" select: 'all' or one of the star values, which
      the component turns into a number with `parseInt`. */
  datatype RatingFilter = AllRatings | ExactRating(stars: int)

  /** The "Sort by" select. Its value is stored but never used. */
  datatype SortOption = MostRecent | MostHelpful | HighestRating | LowestRating

  function Kept(f: RatingFilter): Review -> bool
  {
    (r: Review) => f.AllRatings? || r.rating == f.stars
  }

  /** `filteredReviews`. */
  function FilterReviews(reviews: seq<Review>, f: RatingFilter): (r: seq<Review>)
    ensures f.AllRatings? ==> r == reviews
    ensures forall x :: x in r ==> x in reviews && (f.AllRatings? || x.rating == f.stars)
    ensures forall i :: 0 <= i < |reviews| && (f.AllRatings? || reviews[i].rating == f.stars) ==> reviews[i] in r
    ensures IsSubseq(r, reviews)
  {
    FilterIsSubseq(reviews, Kept(f));
    if f.AllRatings? then
      FilterAll(reviews, Kept(f));
      Filter(reviews, Kept(f))
    else
      Filter(reviews, Kept(f))
  }

  /** The list the tab renders: the filtered reviews, whatever sort is chosen. */
  function DisplayedReviews(reviews: seq<Review>, f: RatingFilter, sortBy: SortOption): seq<Review>
  {
    FilterReviews(reviews, f)
  }

  /** Changing the sort option never changes the list, which stays in input order. */
  lemma SortIgnored(reviews: seq<Review>, f: RatingFilter, a: SortOption, b: SortOption)
    ensures DisplayedReviews(reviews, f, a) == DisplayedReviews(reviews, f, b)
    ensures IsSubseq(DisplayedReviews(reviews, f, a), reviews)
  {
  }

  /** "No Reviews Found" is shown exactly when no review passes the filter. */
  predicate EmptyState(reviews: seq<Review>, f: RatingFilter)
  {
    |FilterReviews(reviews, f)| == 0
  }

  lemma EmptyStateIff(reviews: seq<Review>, f: RatingFilter)
    ensures EmptyState(reviews, f) <==>
            forall i :: 0 <= i < |reviews| ==> !(f.AllRatings? || reviews[i].rating == f.stars)
  {
    var r := FilterReviews(reviews, f);
    if |r| > 0 {
      assert r[0] in r;
    }
  }

  function HasRating(s: int): Review -> bool
  {
    (r: Review) => r.rating == s
  }

  /** The five counters `{5: 0, …, 1: 0}`, keyed by star value. */
  const EmptyDistribution: map<int, nat> := map[1 := 0, 2 := 0, 3 := 0, 4 := 0, 5 := 0]

  /** `getRatingDistribution`: one increment per review, over all reviews
      (not just the filtered ones). Ratings outside 1..5 touch no displayed
      counter. */
  function Distribution(reviews: seq<Review>): (d: map<int, nat>)
    ensures d.Keys == {1, 2, 3, 4, 5}
    ensures forall s :: 1 <= s <= 5 ==> d[s] == Count(reviews, HasRating(s))
    decreases |reviews|
  {
    if |reviews| == 0 then EmptyDistribution
    else
      var d := Distribution(reviews[1..]);
      var k := reviews[0].rating;
      if k in d then d[k := d[k] + 1] else d
  }

  /** When every rating is a whole star from 1 to 5 the five bars add up to
      the number of reviews. */
  lemma {:induction false} DistributionSumsToTotal(reviews: seq<Review>)
    requires forall i :: 0 <= i < |reviews| ==> 1 <= reviews[i].rating <= 5
    ensures var d := Distribution(reviews); d[1] + d[2] + d[3] + d[4] + d[5] == |reviews|
    decreases |reviews|
  {
    if |reviews| > 0 {
      DistributionSumsToTotal(reviews[1..]);
    }
  }

  /** The width of a bar in percent; 0 when there are no reviews, so there
      is never a division by zero. */
  function BarPercent(count: nat, total: nat): (p: real)
    ensures total == 0 ==> p == 0.0
    ensures total > 0 ==> p * (total as real) == 100.0 * (count as real)
    ensures count <= total ==> 0.0 <= p <= 100.0
  {
    if total > 0 then (count as real) / (total as real) * 100.0 else 0.0
  }

  /** `renderStars`: five stars, the `i`-th filled when `i < rating`. */
  function Stars(rating: int): (r: seq<bool>)
    ensures |r| == 5
    ensures forall i :: 0 <= i < 5 ==> (r[i] <==> i < rating)
  {
    [0 < rating, 1 < rating, 2 < rating, 3 < rating, 4 < rating]
  }

  function IsFilled(b: bool): bool
  {
    b
  }

  /** Exactly `min(max(rating, 0), 5)` stars are filled. */
  lemma FilledStars(rating: int)
    ensures Count(Stars(rating), IsFilled) == if rating <= 0 then 0 else if rating >= 5 then 5 else rating
  {
    var s := Stars(rating);
    assert s[5..] == [];
    assert |Filter(s[4..], IsFilled)| == (if s[4] then 1 else 0) + |Filter(s[5..], IsFilled)|;
    assert |Filter(s[3..], IsFilled)| == (if s[3] then 1 else 0) + |Filter(s[4..], IsFilled)|;
    assert |Filter(s[2..], IsFilled)| == (if s[2] then 1 else 0) + |Filter(s[3..], IsFilled)|;
    assert |Filter(s[1..], IsFilled)| == (if s[1] then 1 else 0) + |Filter(s[2..], IsFilled)|;
    assert |Filter(s, IsFilled)| == (if s[0] then 1 else 0) + |Filter(s[1..], IsFilled)|;
  }
}
