/** The reviews store: a map from movie id to that movie's reviews, most recent first,
    persisted under the storage key `movie-reviews`. Ids index a JavaScript object, so
    they are keyed by their string form. */
module Reviews {
  import opened Options
  import opened Movies
  import Arrays

  /** The storage key the map is persisted under. */
  const StorageKey: string := "movie-reviews"

  /** A review: its text, the time it was written and its id. */
  datatype Review = Review(text: string, date: string, id: string)

  type ReviewMap = map<string, seq<Review>>

  /** The id `setReview` gives a review of `movieId` written at time `now`:
      the template `${movieId}-${now}`. */
  function ReviewId(movieId: Id, now: string): (r: string)
    ensures |r| == |PropertyKey(movieId)| + 1 + |now|
    ensures r[..|PropertyKey(movieId)| + 1] == PropertyKey(movieId) + "-"
    ensures r[|PropertyKey(movieId)| + 1..] == now
  {
    PropertyKey(movieId) + "-" + now
  }

  /** The review `setReview(movieId, text)` builds at time `now`. */
  function NewReview(movieId: Id, text: string, now: string): (r: Review)
    ensures r.text == text && r.date == now
    ensures r.id == ReviewId(movieId, r.date)
  {
    Review(text, now, ReviewId(movieId, now))
  }

  /** The filter predicate `r => r.id !== reviewId`. */
  function NotId(reviewId: string): Review -> bool { (r: Review) => r.id != reviewId }

  /** No movie is kept with an empty review list. */
  ghost predicate NoEmptyLists(m: ReviewMap) {
    forall k :: k in m ==> m[k] != []
  }

  /** `getReviews(movieId)`, that is `reviews[movieId] || []`: the movie's list, and the
      empty list when it has none. */
  function ReviewsOf(m: ReviewMap, movieId: Id): (r: seq<Review>)
    ensures PropertyKey(movieId) in m ==> r == m[PropertyKey(movieId)]
    ensures PropertyKey(movieId) !in m ==> r == []
  {
    var k := PropertyKey(movieId);
    if k in m then m[k] else []
  }

  /** The map after `setReview(movieId, text)` at time `now`. */
  function WithReview(m: ReviewMap, movieId: Id, text: string, now: string): (r: ReviewMap)
    ensures PropertyKey(movieId) in r && r[PropertyKey(movieId)] != []
    ensures r[PropertyKey(movieId)][0] == NewReview(movieId, text, now)
    ensures r.Keys == m.Keys + {PropertyKey(movieId)}
  {
    m[PropertyKey(movieId) := [NewReview(movieId, text, now)] + ReviewsOf(m, movieId)]
  }

  /** The map after `removeReview(movieId, reviewId)`. */
  function WithoutReview(m: ReviewMap, movieId: Id, reviewId: string): (r: ReviewMap)
    ensures r.Keys <= m.Keys
    ensures PropertyKey(movieId) in r ==> r[PropertyKey(movieId)] != []
  {
    var k := PropertyKey(movieId);
    if k !in m then m
    else
      var kept := Arrays.Filter(m[k], NotId(reviewId));
      if |kept| == 0 then m - {k} else m[k := kept]
  }

  /** Adding puts the new review in front of the movie's list, so the list grows by one,
      and leaves every other movie's list as it was. */
  lemma WithReviewShape(m: ReviewMap, movieId: Id, text: string, now: string)
    ensures ReviewsOf(WithReview(m, movieId, text, now), movieId)
              == [NewReview(movieId, text, now)] + ReviewsOf(m, movieId)
    ensures |ReviewsOf(WithReview(m, movieId, text, now), movieId)| == |ReviewsOf(m, movieId)| + 1
    ensures WithReview(m, movieId, text, now).Keys == m.Keys + {PropertyKey(movieId)}
    ensures forall k :: k in m && k != PropertyKey(movieId) ==> WithReview(m, movieId, text, now)[k] == m[k]
  {
  }

  /** Removing drops exactly the reviews with that id and keeps the others in order;
      a movie left without reviews loses its key; other movies are unchanged; and a
      movie without reviews is left alone. */
  lemma WithoutReviewShape(m: ReviewMap, movieId: Id, reviewId: string)
    ensures ReviewsOf(WithoutReview(m, movieId, reviewId), movieId)
              == Arrays.Filter(ReviewsOf(m, movieId), NotId(reviewId))
    ensures forall i :: 0 <= i < |ReviewsOf(WithoutReview(m, movieId, reviewId), movieId)| ==>
              ReviewsOf(WithoutReview(m, movieId, reviewId), movieId)[i].id != reviewId
    ensures forall r :: r in ReviewsOf(m, movieId) && r.id != reviewId ==>
              r in ReviewsOf(WithoutReview(m, movieId, reviewId), movieId)
    ensures PropertyKey(movieId) in WithoutReview(m, movieId, reviewId) ==>
              WithoutReview(m, movieId, reviewId)[PropertyKey(movieId)] != []
    ensures PropertyKey(movieId) !in m ==> WithoutReview(m, movieId, reviewId) == m
    ensures WithoutReview(m, movieId, reviewId).Keys <= m.Keys
    ensures forall k :: k in m && k != PropertyKey(movieId) ==>
              k in WithoutReview(m, movieId, reviewId) && WithoutReview(m, movieId, reviewId)[k] == m[k]
  {
    var before := ReviewsOf(m, movieId);
    var after := ReviewsOf(WithoutReview(m, movieId, reviewId), movieId);
    var kept := Arrays.Filter(before, NotId(reviewId));
    if PropertyKey(movieId) in m && |kept| == 0 {
      assert kept == [];
    }
    forall i | 0 <= i < |after|
      ensures after[i].id != reviewId
    {
      assert NotId(reviewId)(after[i]);
    }
    forall r | r in before && r.id != reviewId
      ensures r in after
    {
      var i :| 0 <= i < |before| && before[i] == r;
      assert NotId(reviewId)(before[i]);
    }
  }

  /** Both operations keep every movie's list non-empty. */
  lemma NoEmptyListsPreserved(m: ReviewMap, movieId: Id, text: string, now: string, reviewId: string)
    requires NoEmptyLists(m)
    ensures NoEmptyLists(WithReview(m, movieId, text, now))
    ensures NoEmptyLists(WithoutReview(m, movieId, reviewId))
  {
    WithoutReviewShape(m, movieId, reviewId);
  }

  /** Adding a review and then removing it by its id restores the map, provided no
      earlier review of the movie had that id and the movie's list, if any, was not
      empty. In particular a movie without reviews before has no key again afterwards. */
  lemma RemoveUndoesAdd(m: ReviewMap, movieId: Id, text: string, now: string)
    requires PropertyKey(movieId) in m ==> m[PropertyKey(movieId)] != []
    requires forall r :: r in ReviewsOf(m, movieId) ==> r.id != ReviewId(movieId, now)
    ensures WithoutReview(WithReview(m, movieId, text, now), movieId, ReviewId(movieId, now)) == m
  {
    var k := PropertyKey(movieId);
    var before := ReviewsOf(m, movieId);
    var added := WithReview(m, movieId, text, now);
    var rid := ReviewId(movieId, now);
    assert added[k] == [NewReview(movieId, text, now)] + before;
    assert ([NewReview(movieId, text, now)] + before)[1..] == before;
    assert !NotId(rid)(NewReview(movieId, text, now));
    forall i | 0 <= i < |before|
      ensures NotId(rid)(before[i])
    {
      assert before[i] in before;
    }
    Arrays.FilterAllKept(before, NotId(rid));
    assert Arrays.Filter(added[k], NotId(rid)) == before;
    if k in m {
      assert before != [];
      assert added[k := before] == m;
    } else {
      assert added - {k} == m;
    }
  }

  /** Reviews of one movie written at different times get different ids, so an id
      collision needs two reviews in the same clock tick. */
  lemma ReviewIdsDistinct(movieId: Id, now1: string, now2: string)
    requires now1 != now2
    ensures ReviewId(movieId, now1) != ReviewId(movieId, now2)
  {
    var prefix := PropertyKey(movieId) + "-";
    assert ReviewId(movieId, now1) == prefix + now1 && ReviewId(movieId, now2) == prefix + now2;
    assert (prefix + now1)[|prefix|..] == now1;
    assert (prefix + now2)[|prefix|..] == now2;
  }

  /** The reviews store. `stored` is the value under the storage key `StorageKey`
      ("movie-reviews"), `None` while the key is absent; the deep watcher that persists the
      map becomes an explicit commit at the end of each change that alters it. */
  class ReviewsStore {
    var reviews: ReviewMap
    var stored: Option<ReviewMap>

    /** The stored copy is the map, or the key was never written and the map is empty. */
    ghost predicate Valid()
      reads this
    {
      stored == Some(reviews) || (stored == None && reviews == map[])
    }

    /** Loads the map from the storage slot; an absent key loads as the empty map. */
    constructor (slot: Option<ReviewMap>)
      ensures Valid()
      ensures reviews == slot.GetOr(map[]) && stored == slot
    {
      reviews := slot.GetOr(map[]);
      stored := slot;
    }

    /** `setReview(movieId, text)`, written at time `now`: creates the movie's list when it
        has none and puts the new review in front of it. */
    method SetReview(movieId: Id, text: string, now: string)
      requires Valid()
      modifies this
      ensures Valid()
      ensures reviews == WithReview(old(reviews), movieId, text, now) && stored == Some(reviews)
      ensures ReviewsOf(reviews, movieId) == [NewReview(movieId, text, now)] + ReviewsOf(old(reviews), movieId)
      ensures forall k :: k != PropertyKey(movieId) ==>
                (k in reviews <==> k in old(reviews)) && (k in reviews ==> reviews[k] == old(reviews)[k])
      ensures old(NoEmptyLists(reviews)) ==> NoEmptyLists(reviews)
    {
      var k := PropertyKey(movieId);
      if k !in reviews {
        reviews := reviews[k := []];
      }
      var review := Review(text, now, k + "-" + now);
      reviews := reviews[k := [review] + reviews[k]];
      stored := Some(reviews);
    }

    /** `getReviews(movieId)`. */
    method GetReviews(movieId: Id) returns (r: seq<Review>)
      ensures r == ReviewsOf(reviews, movieId)
      ensures PropertyKey(movieId) !in reviews ==> r == []
    {
      var k := PropertyKey(movieId);
      r := if k in reviews then reviews[k] else [];
    }

    /** `removeReview(movieId, reviewId)`: drops the movie's reviews with that id and
        deletes the movie's key once its list is empty; nothing happens, and nothing is
        written, when the movie has no list. */
    method RemoveReview(movieId: Id, reviewId: string)
      requires Valid()
      modifies this
      ensures Valid()
      ensures reviews == WithoutReview(old(reviews), movieId, reviewId)
      ensures stored == if PropertyKey(movieId) in old(reviews) then Some(reviews) else old(stored)
      ensures forall i :: 0 <= i < |ReviewsOf(reviews, movieId)| ==> ReviewsOf(reviews, movieId)[i].id != reviewId
      ensures forall k :: k != PropertyKey(movieId) ==>
                (k in reviews <==> k in old(reviews)) && (k in reviews ==> reviews[k] == old(reviews)[k])
      ensures old(NoEmptyLists(reviews)) ==> NoEmptyLists(reviews)
    {
      WithoutReviewShape(reviews, movieId, reviewId);
      var k := PropertyKey(movieId);
      if k in reviews {
        reviews := reviews[k := Arrays.Filter(reviews[k], NotId(reviewId))];
        if |reviews[k]| == 0 {
          reviews := reviews - {k};
        }
        stored := Some(reviews);
      }
    }
  }
}
