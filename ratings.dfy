/** The ratings store: a map from movie id to rating, persisted under the storage key
    `movie-ratings`. Ids index a JavaScript object, so they are keyed by their string form. */
module Ratings {
  import opened Options
  import opened Movies

  /** The storage key the map is persisted under. */
  const StorageKey: string := "movie-ratings"

  /** A rating is an opaque number; the store does no arithmetic on it and checks no range. */
  type Rating = real

  type RatingMap = map<string, Rating>

  /** `getRating(id)`, that is `ratings[id] || 0`: the stored rating, and 0 when there is
      none. A stored 0 is falsy and also reads as 0, so the two cases cannot be told apart. */
  function RatingOf(m: RatingMap, id: Id): (r: Rating)
    ensures PropertyKey(id) in m ==> r == m[PropertyKey(id)]
    ensures PropertyKey(id) !in m ==> r == 0.0
  {
    var k := PropertyKey(id);
    if k in m && m[k] != 0.0 then m[k] else 0.0
  }

  /** The map after `setRating(id, rating)`. */
  function WithRating(m: RatingMap, id: Id, rating: Rating): (r: RatingMap)
    ensures PropertyKey(id) in r && r[PropertyKey(id)] == rating
    ensures r.Keys == m.Keys + {PropertyKey(id)}
  {
    m[PropertyKey(id) := rating]
  }

  /** The map after `removeRating(id)`. */
  function WithoutRating(m: RatingMap, id: Id): (r: RatingMap)
    ensures r.Keys == m.Keys - {PropertyKey(id)}
  {
    m - {PropertyKey(id)}
  }

  /** Setting overwrites unconditionally: the id reads back the rating just set, and
      only the id's own slot changes. */
  lemma SetThenGet(m: RatingMap, id: Id, rating: Rating)
    ensures RatingOf(WithRating(m, id, rating), id) == rating
    ensures WithRating(m, id, rating).Keys == m.Keys + {PropertyKey(id)}
    ensures forall k :: k in m && k != PropertyKey(id) ==> WithRating(m, id, rating)[k] == m[k]
  {
  }

  /** Removing leaves the key absent, so the id reads 0; removing an absent key is a
      no-op; only the id's own slot changes. */
  lemma RemoveThenGet(m: RatingMap, id: Id)
    ensures PropertyKey(id) !in WithoutRating(m, id)
    ensures RatingOf(WithoutRating(m, id), id) == 0.0
    ensures PropertyKey(id) !in m ==> WithoutRating(m, id) == m
    ensures WithoutRating(m, id).Keys == m.Keys - {PropertyKey(id)}
    ensures forall k :: k in WithoutRating(m, id) ==> WithoutRating(m, id)[k] == m[k]
  {
  }

  /** A rating set for one numeric id is not seen by another numeric id, and removing
      one numeric id's rating keeps every other numeric id's rating. */
  lemma NumericIdsIndependent(m: RatingMap, a: int, b: int, rating: Rating)
    requires a != b
    ensures RatingOf(WithRating(m, Num(a), rating), Num(b)) == RatingOf(m, Num(b))
    ensures RatingOf(WithoutRating(m, Num(a)), Num(b)) == RatingOf(m, Num(b))
  {
    NumericKeysDistinct(a, b);
  }

  /** The ratings store. `stored` is the value under the storage key `StorageKey`
      ("movie-ratings"), `None` while the key is absent; the deep watcher that persists the
      map becomes an explicit commit at the end of each change that alters it. */
  class RatingsStore {
    var ratings: RatingMap
    var stored: Option<RatingMap>

    /** The stored copy is the map, or the key was never written and the map is empty. */
    ghost predicate Valid()
      reads this
    {
      stored == Some(ratings) || (stored == None && ratings == map[])
    }

    /** Loads the map from the storage slot; an absent key loads as the empty map. */
    constructor (slot: Option<RatingMap>)
      ensures Valid()
      ensures ratings == slot.GetOr(map[]) && stored == slot
    {
      ratings := slot.GetOr(map[]);
      stored := slot;
    }

    /** `setRating(id, rating)`: overwrites or creates the id's slot. */
    method SetRating(id: Id, rating: Rating)
      requires Valid()
      modifies this
      ensures Valid()
      ensures ratings == WithRating(old(ratings), id, rating) && stored == Some(ratings)
      ensures RatingOf(ratings, id) == rating
      ensures forall k :: k != PropertyKey(id) ==>
                (k in ratings <==> k in old(ratings)) && (k in ratings ==> ratings[k] == old(ratings)[k])
    {
      ratings := ratings[PropertyKey(id) := rating];
      stored := Some(ratings);
    }

    /** `getRating(id)`. */
    method GetRating(id: Id) returns (r: Rating)
      ensures r == RatingOf(ratings, id)
      ensures PropertyKey(id) !in ratings ==> r == 0.0
    {
      var k := PropertyKey(id);
      r := if k in ratings && ratings[k] != 0.0 then ratings[k] else 0.0;
    }

    /** `removeRating(id)`: deletes the id's slot. Deleting an absent key is no change,
        so nothing is written then. */
    method RemoveRating(id: Id)
      requires Valid()
      modifies this
      ensures Valid()
      ensures ratings == WithoutRating(old(ratings), id)
      ensures stored == if PropertyKey(id) in old(ratings) then Some(ratings) else old(stored)
      ensures PropertyKey(id) !in ratings && RatingOf(ratings, id) == 0.0
      ensures forall k :: k != PropertyKey(id) ==>
                (k in ratings <==> k in old(ratings)) && (k in ratings ==> ratings[k] == old(ratings)[k])
    {
      var k := PropertyKey(id);
      if k in ratings {
        ratings := ratings - {k};
        stored := Some(ratings);
      }
    }
  }
}
