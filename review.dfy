/** A review of a place: two lists of attribute codes, those rated positively
    and those rated negatively, validated before a review is stored. */
module Reviews {
  import opened Seqs
  import opened Feedbacks

  /** The reviewer reference is cleared when the user account is deleted. */
  datatype Reviewer = Deleted | User(id: nat)

  /** A review. Places and users are opaque identifiers; the codes are not
      checked against the code table by `save`. */
  datatype Review = Review(
    place: nat,
    reviewer: Reviewer,
    positive: seq<string>,
    negative: seq<string>)

  /** The two reasons `save` refuses a review. */
  datatype Rejection = BothPositiveAndNegative | TooFewRatings

  /** What `save` does with a review. */
  datatype Verdict = Accept | Reject(reason: Rejection)

  /** The least number of ratings a stored review carries. */
  const MinRatings: nat := 3

  /** Some code is rated both positively and negatively. */
  ghost predicate Overlaps(r: Review) {
    exists x :: x in r.positive && x in r.negative
  }

  /** `check_feedback_count`: the number of entries in both lists. It is the
      number of distinct codes rated exactly when no list repeats a code and
      no code is in both lists; otherwise it is larger. */
  function FeedbackCount(r: Review): (n: nat)
    ensures n >= |Elems(r.positive) + Elems(r.negative)|
    ensures n == |Elems(r.positive) + Elems(r.negative)| <==>
              Distinct(r.positive) && Distinct(r.negative) && !Overlaps(r)
  {
    CardElems(r.positive);
    CardElems(r.negative);
    var both := Elems(r.positive) * Elems(r.negative);
    assert |Elems(r.positive) + Elems(r.negative)| + |both|
           == |Elems(r.positive)| + |Elems(r.negative)|;
    assert Overlaps(r) <==> both != {} by {
      if Overlaps(r) {
        var x :| x in r.positive && x in r.negative;
        assert x in both;
      }
      if both != {} {
        var x :| x in both;
        assert x in r.positive && x in r.negative;
      }
    }
    |r.positive| + |r.negative|
  }

  /** `check_unique`: true when the set of positive codes has no element in
      common with the negative list. */
  function CheckUnique(r: Review): (b: bool)
    ensures b <==> !Overlaps(r)
  {
    assert forall x :: x in r.positive && x in r.negative ==> x in Elems(r.positive) * Elems(r.negative);
    |Elems(r.positive) * Elems(r.negative)| == 0
  }

  /** The guards of `save`, in their order: overlap first, then the count. */
  function Validate(r: Review): (v: Verdict)
    ensures v == Reject(BothPositiveAndNegative) <==> Overlaps(r)
    ensures v == Reject(TooFewRatings) <==> !Overlaps(r) && |r.positive| + |r.negative| < MinRatings
    ensures v == Accept <==> !Overlaps(r) && |r.positive| + |r.negative| >= MinRatings
  {
    if !CheckUnique(r) then Reject(BothPositiveAndNegative)
    else if FeedbackCount(r) < MinRatings then Reject(TooFewRatings)
    else Accept
  }

  /** The review with its two lists exchanged. */
  function Swap(r: Review): Review {
    r.(positive := r.negative, negative := r.positive)
  }

  /** Exchanging the lists changes neither check nor the verdict. */
  lemma SwapInvariant(r: Review)
    ensures CheckUnique(Swap(r)) == CheckUnique(r)
    ensures FeedbackCount(Swap(r)) == FeedbackCount(r)
    ensures Validate(Swap(r)) == Validate(r)
  {
  }

  /** With overlapping lists the overlap error wins however many ratings
      there are: adding entries to either list never turns it into another
      verdict. */
  lemma OverlapWins(r: Review, morePositive: seq<string>, moreNegative: seq<string>)
    requires exists i, j :: 0 <= i < |r.positive| && 0 <= j < |r.negative| && r.positive[i] == r.negative[j]
    ensures Validate(r) == Reject(BothPositiveAndNegative)
    ensures Validate(r.(positive := r.positive + morePositive, negative := r.negative + moreNegative))
            == Reject(BothPositiveAndNegative)
  {
    var i, j :| 0 <= i < |r.positive| && 0 <= j < |r.negative| && r.positive[i] == r.negative[j];
    var x := r.positive[i];
    assert x in r.positive && x in r.negative;
    var longer := r.(positive := r.positive + morePositive, negative := r.negative + moreNegative);
    assert longer.positive[i] == x && longer.negative[j] == x;
    assert x in longer.positive && x in longer.negative;
  }

  /** With disjoint lists, two ratings are refused and three are accepted. */
  lemma ThresholdIsThree(r: Review)
    requires forall i, j :: 0 <= i < |r.positive| && 0 <= j < |r.negative| ==> r.positive[i] != r.negative[j]
    ensures |r.positive| + |r.negative| == 2 ==> Validate(r) == Reject(TooFewRatings)
    ensures |r.positive| + |r.negative| == 3 ==> Validate(r) == Accept
  {
  }

  /** One code listed three times is accepted: the count is of entries, not of
      distinct attributes. */
  lemma RepeatedCodeCounted()
    ensures var r := Review(0, Deleted, ["FO", "FO", "FO"], []);
      FeedbackCount(r) == 3 && |Elems(r.positive)| == 1 && Validate(r) == Accept
  {
    var r := Review(0, Deleted, ["FO", "FO", "FO"], []);
    assert Elems(r.positive) == {"FO"};
  }

  /** A review built from a tri-state record (the codes of the attributes
      rated good as the positive list, of those rated poor as the negative
      list) never overlaps; its count is the number of rated attributes, and
      it is accepted exactly when at least three are rated. */
  lemma FromFeedback(fb: Feedback, place: nat, reviewer: Reviewer)
    ensures var r := Review(place, reviewer, CodesOf(GetFeedback(fb, true)), CodesOf(GetFeedback(fb, false)));
      CheckUnique(r)
      && FeedbackCount(r) == GetCounts(fb).0 + GetCounts(fb).1
      && (Validate(r) == Accept <==> GetCounts(fb).0 + GetCounts(fb).1 >= MinRatings)
  {
    var good, poor := GetFeedback(fb, true), GetFeedback(fb, false);
    var pos, neg := CodesOf(good), CodesOf(poor);
    forall k, m | 0 <= k < |pos| && 0 <= m < |neg| ensures pos[k] != neg[m] {
      CodeOfInjective(good[k], poor[m]);
    }
    forall x | x in pos ensures x !in neg {
      var k :| 0 <= k < |pos| && pos[k] == x;
    }
  }

  /** The stored reviews of all places. */
  class ReviewStore {
    var reviews: seq<Review>

    /** Every stored review passed validation. */
    ghost predicate Valid()
      reads this
    {
      forall i :: 0 <= i < |reviews| ==> Validate(reviews[i]) == Accept
    }

    constructor ()
      ensures reviews == [] && Valid()
    {
      reviews := [];
    }

    /** `save`: refuse on overlap, then on too few ratings; otherwise store
        the review. A refused review leaves the store as it was. */
    method Save(r: Review) returns (v: Verdict)
      modifies this
      ensures v == Validate(r)
      ensures reviews == if v == Accept then old(reviews) + [r] else old(reviews)
      ensures old(Valid()) ==> Valid()
    {
      if !CheckUnique(r) {
        return Reject(BothPositiveAndNegative);
      }
      if FeedbackCount(r) < MinRatings {
        return Reject(TooFewRatings);
      }
      reviews := reviews + [r];
      return Accept;
    }
  }
}
