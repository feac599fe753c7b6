/** The `StarRating` component of the client: a rating becomes five stars,
    each full, empty, or partially filled to a whole percentage. */
module StarRating {
  import opened Wrappers

  const StarCount := 5

  /** The state of one star; `percent` is the width of the filled overlay. */
  datatype Star = Full | Partial(percent: int) | Empty

  /** JavaScript's `Math.round`: the nearest integer, halves rounded up. */
  function Round(x: real): (n: int)
    ensures n as real - 0.5 <= x < n as real + 0.5
  {
    (x + 0.5).Floor
  }

  /** Star number `i` (counting from 1) for `rating`, as one iteration of the loop decides it. */
  function StarAt(rating: real, i: int): (s: Star)
    ensures s.Full? <==> rating >= i as real
    ensures s.Empty? <==> rating <= (i - 1) as real
    ensures s.Partial? ==>
              0 <= s.percent <= 100 &&
              s.percent as real - 0.5 <= (rating - (i - 1) as real) * 100.0 < s.percent as real + 0.5
  {
    if rating >= i as real then Full
    else if rating > (i - 1) as real then Partial(Round((rating - (i - 1) as real) * 100.0))
    else Empty
  }

  /** The five stars drawn for `rating`. */
  function Stars(rating: real): (stars: seq<Star>)
    ensures |stars| == StarCount
    ensures forall k :: 0 <= k < |stars| ==> (stars[k].Full? <==> rating >= (k + 1) as real)
    ensures forall k :: 0 <= k < |stars| ==> (stars[k].Empty? <==> rating <= k as real)
    ensures forall k :: 0 <= k < |stars| ==> (stars[k].Partial? <==> k as real < rating < (k + 1) as real)
    ensures forall k :: 0 <= k < |stars| && stars[k].Partial? ==>
              0 <= stars[k].percent <= 100 &&
              stars[k].percent as real - 0.5 <= (rating - k as real) * 100.0 < stars[k].percent as real + 0.5
  {
    seq(StarCount, k requires 0 <= k < StarCount => StarAt(rating, k + 1))
  }

  /** The stars the result cards and the detail view draw for an optional rating (`rating ?? 0`). */
  function StarsFor(rating: Option<real>): (stars: seq<Star>)
    ensures |stars| == StarCount
    ensures rating.Some? ==> stars == Stars(rating.value)
    ensures rating.None? ==> stars == Stars(0.0)
  {
    Stars(rating.GetOr(0.0))
  }

  /** How much of a star is lit, for ordering stars left to right. */
  function Fill(s: Star): int {
    match s
    case Full => 2
    case Partial(_) => 1
    case Empty => 0
  }

  /** The number of full stars, stated without the loop: the rating's floor clamped to 0..5. */
  function FullCount(rating: real): (n: int)
    ensures 0 <= n <= StarCount
  {
    if rating >= StarCount as real then StarCount
    else if rating < 0.0 then 0
    else rating.Floor
  }

  /** Stars never increase left to right: full ones, then at most one partial one, then empty ones. */
  lemma StarsOrdered(rating: real)
    ensures forall j, k :: 0 <= j < k < StarCount ==> Fill(Stars(rating)[j]) >= Fill(Stars(rating)[k])
    ensures forall j, k ::
              0 <= j < StarCount && 0 <= k < StarCount && Stars(rating)[j].Partial? && Stars(rating)[k].Partial?
              ==> j == k
  {
  }

  /** The first `FullCount(rating)` stars are full, the star after them (if any) is partial or empty,
      and every later star is empty. */
  lemma StarsShape(rating: real)
    ensures forall k :: 0 <= k < FullCount(rating) ==> Stars(rating)[k].Full?
    ensures forall k :: FullCount(rating) <= k < StarCount ==> !Stars(rating)[k].Full?
    ensures forall k :: FullCount(rating) < k < StarCount ==> Stars(rating)[k].Empty?
  {
  }

  /** A partial star appears exactly when the rating lies strictly between 0 and 5 and is not whole. */
  lemma PartialIffFractional(rating: real)
    ensures (exists k :: 0 <= k < StarCount && Stars(rating)[k].Partial?) <==>
            (0.0 < rating < StarCount as real && rating != rating.Floor as real)
  {
    var stars := Stars(rating);
    if 0.0 < rating < StarCount as real && rating != rating.Floor as real {
      var k := rating.Floor;
      assert 0 <= k < StarCount;
      assert stars[k].Partial?;
    }
  }

  /** Ratings at or below zero draw five empty stars; ratings at or above five draw five full stars. */
  lemma StarsClamp(rating: real)
    ensures rating <= 0.0 ==> Stars(rating) == [Empty, Empty, Empty, Empty, Empty]
    ensures rating >= StarCount as real ==> Stars(rating) == [Full, Full, Full, Full, Full]
  {
  }

  /** A missing rating is drawn as zero: five empty stars. */
  lemma MissingRatingIsEmpty()
    ensures StarsFor(None) == [Empty, Empty, Empty, Empty, Empty]
  {
  }

  /** A rating of 3.4 draws three full stars, a 40% star and an empty star. */
  lemma StarsExample()
    ensures Stars(3.4) == [Full, Full, Full, Partial(40), Empty]
  {
  }
}
