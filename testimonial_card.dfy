/**
 * The star row of a testimonial: one full star per whole point of the rating, then a half star
 * when the rating has a fractional part.
 */
module TestimonialCard {

  /** A rendered star; a full star's index is the `i` in its key `star-${i}`. */
  datatype Star = FullStar(index: nat) | HalfStar

  /** `Math.trunc`: rounds toward zero. */
  function Trunc(x: real): (r: int)
    ensures x >= 0.0 ==> r == x.Floor
    ensures x < 0.0 ==> r == -((-x).Floor)
  {
    if x >= 0.0 then x.Floor else -((-x).Floor)
  }

  /** JavaScript's `%` on numbers: the remainder takes the sign of the dividend. */
  function JsRem(a: real, b: real): (r: real)
    requires b != 0.0
  {
    a - b * Trunc(a / b) as real
  }

  /** `rating % 1 !== 0` holds exactly for a rating that is not a whole number. */
  lemma RemOneIsFraction(rating: real)
    ensures JsRem(rating, 1.0) != 0.0 <==> rating.Floor as real != rating
  {
    assert rating / 1.0 == rating;
    if rating < 0.0 {
      var m := (-rating).Floor;
      assert JsRem(rating, 1.0) == rating + m as real;
      if rating.Floor as real == rating {
        assert m == -rating.Floor;
      }
      if m as real == -rating {
        assert rating.Floor == -m;
      }
    } else {
      assert JsRem(rating, 1.0) == rating - rating.Floor as real;
    }
  }

  /** The number of times the loop runs: `Math.floor(rating)`, or none for a negative rating. */
  function FullCount(rating: real): (n: nat)
    ensures n as real <= rating || (n == 0 && rating < 1.0)
    ensures rating >= 0.0 ==> n as real <= rating < n as real + 1.0
  {
    if rating.Floor > 0 then rating.Floor else 0
  }

  predicate HasHalf(rating: real) {
    rating.Floor as real != rating
  }

  /** `n` full stars with keys 0 .. n - 1. */
  function FullStars(n: nat): (r: seq<Star>)
    ensures |r| == n
    ensures forall k :: 0 <= k < n ==> r[k] == FullStar(k)
  {
    if n == 0 then [] else FullStars(n - 1) + [FullStar(n - 1)]
  }

  /** What `renderStars` returns. */
  function Stars(rating: real): seq<Star> {
    FullStars(FullCount(rating)) + (if HasHalf(rating) then [HalfStar] else [])
  }

  /** `renderStars`: the `for` loop pushes the full stars, then the half star follows if any. */
  method RenderStars(rating: real) returns (stars: seq<Star>)
    ensures stars == Stars(rating)
    ensures |stars| == FullCount(rating) + (if HasHalf(rating) then 1 else 0)
  {
    stars := [];
    var fullStars := rating.Floor;
    var hasHalfStar := JsRem(rating, 1.0) != 0.0;
    RemOneIsFraction(rating);
    var i := 0;
    while i < fullStars
      invariant 0 <= i <= (if fullStars > 0 then fullStars else 0)
      invariant stars == FullStars(i)
    {
      stars := stars + [FullStar(i)];
      i := i + 1;
    }
    assert i == FullCount(rating);
    if hasHalfStar {
      stars := stars + [HalfStar];
    }
  }

  /** The half star, when present, is the last star and the only one. */
  lemma HalfStarIsLast(rating: real, k: nat)
    requires k < |Stars(rating)|
    ensures Stars(rating)[k] == HalfStar <==> HasHalf(rating) && k == |Stars(rating)| - 1
  {
  }

  /** A rating between 0 and 5 never shows more than five stars. */
  lemma AtMostFiveStars(rating: real)
    requires 0.0 <= rating <= 5.0
    ensures |Stars(rating)| <= 5
  {
    if HasHalf(rating) {
      assert rating.Floor < 5;
    }
  }

  /** Whole ratings show exactly that many full stars; 4.5 shows four full stars and a half. */
  lemma WholeAndHalfRatings(n: nat)
    ensures Stars(n as real) == FullStars(n)
    ensures Stars(n as real + 0.5) == FullStars(n) + [HalfStar]
  {
    assert (n as real + 0.5).Floor == n;
  }

  /** The keys `star-0` .. and `half-star` never repeat within one row. */
  lemma StarKeysDistinct(rating: real)
    ensures forall i, j :: 0 <= i < j < |Stars(rating)| ==> Stars(rating)[i] != Stars(rating)[j]
  {
  }
}
