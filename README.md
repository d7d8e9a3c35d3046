# Movie collection stores, modelled in Dafny

This project models the four collection stores of a small Vue movie-browsing app:
favorites, viewing history, ratings and reviews. Each store keeps one collection in
memory. It loads that collection once, from a named `localStorage` key, when the store
is created. It changes the collection only through a few small operations, and after
every change a deep watcher writes the whole collection back under the same key.

Each store is a Dafny `class` with two fields:

- the collection itself: a `seq` for favorites and history, a `map` for ratings and
  reviews;
- `stored`, the value under the store's storage key. It is `None` while the key is absent.

The constructor takes the slot's content and loads it, with an absent key loading as an
empty collection. Every mutator that changes the collection ends with an explicit commit
`stored := Some(...)` in place of the watcher. `Valid()` states the write-through invariant: the stored value is
the collection, or the key was never written and the collection is empty. A fresh store
built from `stored` therefore reloads exactly the collection it was written from.

Beside each class sits a pure model of the collection: functions such as
`Favorites.Added`, `History.Recorded` and `Reviews.WithoutReview` give the collection
after one operation. Each mutator's `ensures` ties the new state to that function of the
old state, and lemmas prove what the source promises about it: ids stay unique, the
length cap holds, order is kept, no list is empty, adding twice is adding once, and
removing undoes adding.

Modules:

- `Options`: `Option`, standing for `null`/`undefined` values and for an absent storage key.
- `Arrays`: the JavaScript built-ins `filter`, `some` and `slice(0, end)`, with
  negative `end` handled as JavaScript does, and the laws the stores use.
- `Movies`: movie ids and movie snapshots. An id is `Num(n)` or `Str(s)`. Favorites and
  history compare ids with `===`, which is datatype equality here. Ratings and reviews
  index a JavaScript object, so they key by `PropertyKey(id)`, the id's string form;
  numeric ids whose values differ never share a key.
- `Favorites`, `History`, `Ratings`, `Reviews`: one module per store file.

The current time (`new Date().toISOString()`) is a parameter `now` of the operations that
read the clock.

Some behaviours of the code are worth stating because a reader might expect otherwise:

- A load of corrupt JSON throws in the code rather than falling back to an empty
  collection. The model covers only the absent-key case (see "Left out").
- `removeFavorite` and `removeFromHistory` remove every entry with the id, not just one.
- The history is not kept sorted by `watched_at`. Entries are ordered by when they were
  recorded, and the code never compares timestamps.
- A movie record is never rejected for lacking an id. The model's `MovieRef` always has one.

## Model

| member | source | states |
|---|---|---|
| `Arrays.Filter` | src/stores/favorites.js:27 | `filter` keeps exactly the elements that satisfy the predicate: every kept element comes from the input and satisfies it, every such input element is kept, and the result is no longer than the input |
| `Arrays.Any` | src/stores/favorites.js:32 | `some` holds iff some element satisfies the predicate |
| `Arrays.SliceTo` | src/stores/history.js:45 | `slice(0, end)` is a prefix; its length is min(end, length) for end ≥ 0 and max(length + end, 0) for a negative end |
| `Arrays.FilterConcat` | src/stores/history.js:35 | filtering a concatenation filters each part, so the kept elements keep their relative order |
| `Arrays.FilterAllKept` | src/stores/history.js:15 | a filter that keeps every element returns the input unchanged |
| `Arrays.FilterPreservesUnique` | src/stores/favorites.js:27 | a filtered list of elements with distinct keys still has distinct keys |
| `Movies.NumberString` | src/stores/ratings.js:14 | `String(n)` of an integral number is non-empty and, after an optional leading sign, all decimal digits |
| `Movies.PropertyKey` | src/stores/ratings.js:14 | the object key for an id: a string id is its own key; a non-negative number is its decimal digits; a negative number is `-` followed by the digits of its magnitude |
| `Movies.DigitsInjective` | src/stores/ratings.js:14 | different non-negative integers have different decimal strings |
| `Movies.NumberStringSign` | src/stores/ratings.js:14 | an integer's string starts with `-` exactly when the integer is negative |
| `Movies.NumericKeysDistinct` | src/stores/ratings.js:14 | two different numeric ids coerce to different object keys |
| `Favorites.Contains` | src/stores/favorites.js:14 | `favorites.some(f => f.id === id)` holds iff some entry has the id |
| `Favorites.Added` | src/stores/favorites.js:13-23 | the list after `addFavorite` extends the old list by at most one entry, and the movie's id is present in it |
| `Favorites.Removed` | src/stores/favorites.js:26-28 | the list after `removeFavorite` is no longer than the old one, and no entry in it has the id |
| `Favorites.AddedShape` | src/stores/favorites.js:13-23 | adding a new id appends the snapshot at the end and leaves the existing entries as they were; adding a present id changes nothing; the movie is a favorite afterwards |
| `Favorites.AddedIdempotent` | src/stores/favorites.js:14 | adding the same movie twice gives the same list as adding it once |
| `Favorites.AddedUnique` | src/stores/favorites.js:13-23 | adding keeps ids unique, so exactly one entry has the added id |
| `Favorites.RemovedShape` | src/stores/favorites.js:26-28 | after removing, no entry has the id, every entry with another id is still there, and removing an absent id changes nothing |
| `Favorites.RemovedConcat` | src/stores/favorites.js:27 | removing works piecewise over a concatenation, so the surviving entries keep their order |
| `Favorites.RemovedUnique` | src/stores/favorites.js:27 | removing keeps ids unique |
| `Favorites.RemoveUndoesAdd` | src/stores/favorites.js:13-28 | adding a movie that was not a favorite and then removing its id restores the list |
| `Favorites.FavoritesStore.constructor` | src/stores/favorites.js:5 | loads the stored list, or the empty list when the key is absent; the write-through invariant holds |
| `Favorites.FavoritesStore.AddFavorite` | src/stores/favorites.js:13-23 | the list becomes `Added(old, movie)`: the snapshot is appended if the id was absent and the list is written to storage; a present id leaves list and storage untouched; the movie is a favorite; unique ids stay unique |
| `Favorites.FavoritesStore.RemoveFavorite` | src/stores/favorites.js:26-28 | the list becomes the old list filtered by `id !== movieId` and is written to storage; no entry has the id; every other entry is kept; unique ids stay unique |
| `Favorites.FavoritesStore.IsFavorite` | src/stores/favorites.js:31-33 | returns true iff some entry has the id, and changes nothing |
| `History.Stamp` | src/stores/history.js:18-25 | the entry built for a movie carries the movie's id and the view time |
| `History.Forgotten` | src/stores/history.js:34-36 | the log after `removeFromHistory` is no longer than the old one, and no entry in it has the id |
| `History.Recorded` | src/stores/history.js:13-31 | the log after `addToHistory` holds between 1 and 100 entries, and its first entry is the new one |
| `History.Recent` | src/stores/history.js:44-46 | `getRecentHistory` returns a prefix of the log; with no argument it holds min(10, length) entries |
| `History.ForgottenShape` | src/stores/history.js:35 | after forgetting, no entry has the id, every entry with another id is still there, and forgetting an absent id changes nothing |
| `History.ForgottenConcat` | src/stores/history.js:35 | forgetting works piecewise over a concatenation, so the surviving entries keep their order |
| `History.ForgottenUnique` | src/stores/history.js:34-36 | forgetting keeps ids unique |
| `History.RecordedShape` | src/stores/history.js:13-31 | after recording: 1 ≤ length ≤ 100; entry 0 is the movie's snapshot with `watchedAt == now`; no other entry has the movie's id; the rest is a prefix of the old log without that id, in order; the length is min(others + 1, 100), so the new entry is never cut |
| `History.RecordedUnique` | src/stores/history.js:13-31 | recording keeps ids unique |
| `History.ForgottenOfFront` | src/stores/history.js:15 | filtering out the front entry's id from a log whose other entries have other ids drops only the front entry |
| `History.RecordedAgain` | src/stores/history.js:13-31 | recording a movie, then recording it again, gives the same log as recording it only the second time: one entry, moved to the front, with the later time |
| `History.RecordScenario` | src/stores/history.js:13-46 | from any log, recording movie 1, movie 2, then movie 1 again makes the two most recent entries movie 1 with its latest time, then movie 2 |
| `History.HistoryStore.constructor` | src/stores/history.js:5 | loads the stored log, or the empty log when the key is absent; the write-through invariant holds |
| `History.HistoryStore.AddToHistory` | src/stores/history.js:13-31 | the log becomes `Recorded(old, movie, now)` and is written to storage; entry 0 is the new entry, the length is at most 100, no other entry has the id, the rest is a prefix of the old log filtered by id; unique ids stay unique |
| `History.HistoryStore.RemoveFromHistory` | src/stores/history.js:34-36 | the log becomes the old log filtered by `id !== movieId` and is written to storage; no entry has the id; every other entry is kept; unique ids stay unique |
| `History.HistoryStore.ClearHistory` | src/stores/history.js:39-41 | the log is empty, and the empty log is written to storage |
| `History.HistoryStore.GetRecentHistory` | src/stores/history.js:44-46 | returns a prefix of the log of length min(limit, length) for a non-negative limit, with 10 when no limit is given; a negative limit counts back from the end; changes nothing |
| `Ratings.RatingOf` | src/stores/ratings.js:18-20 | the falsy-defaulting read of `ratings[id]` is the stored rating when the key is present (a stored 0 reads as 0) and 0 when it is absent |
| `Ratings.WithRating` | src/stores/ratings.js:13-15 | the map after `setRating` holds the rating under the id's key, and its keys are the old keys plus that one |
| `Ratings.WithoutRating` | src/stores/ratings.js:23-25 | the map after `removeRating` has the old keys minus the id's key |
| `Ratings.SetThenGet` | src/stores/ratings.js:13-15 | after setting, the id reads back exactly the rating set, with no range check; the key set grows by that key only and other keys keep their values |
| `Ratings.RemoveThenGet` | src/stores/ratings.js:23-25 | after removing, the key is absent and the id reads 0; removing an absent key is a no-op; other keys keep their values |
| `Ratings.NumericIdsIndependent` | src/stores/ratings.js:13-25 | setting or removing one numeric id's rating never changes what another numeric id reads |
| `Ratings.RatingsStore.constructor` | src/stores/ratings.js:5 | loads the stored map, or the empty map when the key is absent; the write-through invariant holds |
| `Ratings.RatingsStore.SetRating` | src/stores/ratings.js:13-15 | the slot is overwritten or created and the map written to storage; the id reads back the rating; every other key is unchanged |
| `Ratings.RatingsStore.GetRating` | src/stores/ratings.js:18-20 | returns `RatingOf(ratings, id)`, 0 for an absent key, and changes nothing |
| `Ratings.RatingsStore.RemoveRating` | src/stores/ratings.js:23-25 | the key is deleted, the id reads 0 and every other key is unchanged; storage is written only when the key was there, since deleting an absent key is no change |
| `Reviews.ReviewsOf` | src/stores/reviews.js:26-28 | the falsy-defaulting read of `reviews[movieId]` is the movie's list, or `[]` when the key is absent |
| `Reviews.ReviewId` | src/stores/reviews.js:21 | a review id is the movie's key, a `-`, then the time; given the movie, the time can be read back, so one movie's reviews written at different times get different ids (`Reviews.ReviewIdsDistinct`) |
| `Reviews.NewReview` | src/stores/reviews.js:17-22 | the new review holds the text and the time, and its id is derived from the movie and its own date |
| `Reviews.WithReview` | src/stores/reviews.js:13-23 | the map after `setReview` has the movie's key with a non-empty list headed by the new review, and its keys are the old keys plus that one |
| `Reviews.WithoutReview` | src/stores/reviews.js:31-38 | the map after `removeReview` has no key that the old map lacked, and the movie's key is kept only with a non-empty list |
| `Reviews.WithReviewShape` | src/stores/reviews.js:13-23 | adding puts `{text, date: now, id: movieId + "-" + now}` in front of the movie's list, creating the list if absent; the list grows by exactly one; every other movie is unchanged |
| `Reviews.WithoutReviewShape` | src/stores/reviews.js:31-38 | removing keeps exactly the movie's reviews with another id, in order; no review with that id remains; a key is kept only with a non-empty list; other movies are unchanged; an absent movie is a no-op |
| `Reviews.NoEmptyListsPreserved` | src/stores/reviews.js:13-38 | if no movie maps to an empty list, adding and removing keep it so |
| `Reviews.RemoveUndoesAdd` | src/stores/reviews.js:13-38 | adding a review and removing it by its id restores the map, given no earlier review of the movie had that id and the movie's own list, if present, was not empty; a movie without reviews has no key again |
| `Reviews.ReviewIdsDistinct` | src/stores/reviews.js:17-21 | two reviews of one movie written at different times get different ids |
| `Reviews.ReviewsStore.constructor` | src/stores/reviews.js:5 | loads the stored map, or the empty map when the key is absent; the write-through invariant holds |
| `Reviews.ReviewsStore.SetReview` | src/stores/reviews.js:13-23 | the map becomes `WithReview(old, movieId, text, now)` and is written to storage; the movie's list is the new review followed by the old list; every other movie is unchanged; no list becomes empty |
| `Reviews.ReviewsStore.GetReviews` | src/stores/reviews.js:26-28 | returns the movie's list, or `[]` when it has none, and changes nothing |
| `Reviews.ReviewsStore.RemoveReview` | src/stores/reviews.js:31-38 | the map becomes `WithoutReview(old, movieId, reviewId)`; no review with that id remains for the movie; every other movie is unchanged; no list becomes empty; storage is written only when the movie had a list |

## Left out

- Vue and Pinia reactivity (`defineStore`, `ref`, the deep `watch`). The watcher is the explicit commit at the end of each mutator. A commit happens exactly when Vue would report a change: a no-op `addFavorite`, `removeRating` of an absent key, or `removeReview` of a movie without a list writes nothing. The watcher's deferred, batched flush is not modelled: the stored value is up to date as soon as a mutator returns.
- `setRating` with the rating already stored: Vue reports no change then, so it writes nothing. The model commits anyway. Under `Valid()` the stored map already equals the map, so both end in the same state.
- `localStorage` I/O and JSON. The slot holds the decoded collection, and encoding is assumed to round-trip. A stored value that decodes to something falsy, such as `null`, counts as an absent key. Corrupt JSON, which makes `JSON.parse` throw at load, and a stored value of the wrong shape are not modelled. A write that the storage rejects, for example over quota, is not modelled either.
- The clock. `now` is a parameter, and no order of `watchedAt` values is claimed, because the code does not make the clock monotonic.
- Review-id collisions within one clock tick. Such a collision depends on the clock's resolution. The round trip is stated only for a review id that no earlier review of the movie has.
- JavaScript number semantics. Ids are integers or strings, and `String(n)` is modelled for integers only: fractional, huge, `NaN` and `-0` ids are not. Ratings and `vote_average` are `real`, so falsy values such as `NaN` or a non-number rating are not modelled. Because 0 is therefore the only falsy rating, the `|| 0` in `getRating` matters only for an absent key.
- Object keys that JavaScript inherits from the prototype, such as `constructor` or `__proto__`. For ratings and reviews, the model's maps contain only the keys that were set.
- Aliasing through the read operations. `getReviews` returns the store's own array, and `getRecentHistory` returns a fresh array that holds the store's own entry objects. A caller can change store state through either one. The model returns values and captures neither.
- Extra fields of the movie record passed in. The model takes exactly the five snapshot fields as a `MovieRef`.
- A non-integer `limit` for `getRecentHistory`, and an explicit `null` limit. `None` stands for the omitted (`undefined`) argument, which takes the default 10; `slice(0, null)` would return `[]`, and that case is not modelled.
- `src/router/index.js`, a static route table with no logic. It is not part of this model.
