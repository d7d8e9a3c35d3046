/** The history store: a most-recent-first log of viewed movies, one entry per id,
    at most 100 entries, persisted under the storage key `movie-history`. */
module History {
  import opened Options
  import opened Movies
  import Arrays

  /** The storage key the log is persisted under. */
  const StorageKey: string := "movie-history"

  /** The log keeps at most this many entries. */
  const MaxEntries: nat := 100

  /** How many entries `getRecentHistory()` returns when no limit is passed. */
  const DefaultRecentLimit: int := 10

  /** A log entry: the movie snapshot plus the time it was viewed. */
  datatype Entry = Entry(
    id: Id,
    title: string,
    posterPath: Option<string>,
    voteAverage: real,
    releaseDate: string,
    watchedAt: string)

  /** The entry `addToHistory` builds for `movie` at time `now`. */
  function Stamp(movie: MovieRef, now: string): (e: Entry)
    ensures e.id == movie.id && e.watchedAt == now
  {
    Entry(movie.id, movie.title, movie.posterPath, movie.voteAverage, movie.releaseDate, now)
  }

  function IdOf(e: Entry): Id { e.id }

  /** The filter predicate `m => m.id !== id`. */
  function NotId(id: Id): Entry -> bool { (e: Entry) => e.id != id }

  /** At most one entry per movie id. */
  ghost predicate UniqueIds(h: seq<Entry>) {
    Arrays.UniqueBy(h, IdOf)
  }

  /** The log after `removeFromHistory(id)`: the filter at src/stores/history.js:35. It mirrors
      `Favorites.Removed` on log entries, since each store runs its own filter. */
  function Forgotten(h: seq<Entry>, id: Id): (r: seq<Entry>)
    ensures |r| <= |h|
    ensures forall i :: 0 <= i < |r| ==> r[i].id != id
  {
    var r := Arrays.Filter(h, NotId(id));
    assert forall i :: 0 <= i < |r| ==> NotId(id)(r[i]);
    r
  }

  /** The log after `addToHistory(movie)` at time `now`: the old entry for the movie
      is dropped, the new one goes in front, and the tail past the cap is cut. */
  function Recorded(h: seq<Entry>, movie: MovieRef, now: string): (r: seq<Entry>)
    ensures 1 <= |r| <= MaxEntries
    ensures r[0] == Stamp(movie, now)
  {
    var moved := [Stamp(movie, now)] + Forgotten(h, movie.id);
    if |moved| > MaxEntries then moved[..MaxEntries] else moved
  }

  /** `getRecentHistory(limit)`, with `None` for the omitted (`undefined`) argument, which
      takes the default; an explicit `null` limit is not modelled. */
  function Recent(h: seq<Entry>, limit: Option<int>): (r: seq<Entry>)
    ensures r <= h
    ensures limit == None ==> |r| == if |h| < DefaultRecentLimit then |h| else DefaultRecentLimit
  {
    Arrays.SliceTo(h, limit.GetOr(DefaultRecentLimit))
  }

  /** After forgetting, no entry has the id; every other entry is still there. */
  lemma ForgottenShape(h: seq<Entry>, id: Id)
    ensures forall i :: 0 <= i < |Forgotten(h, id)| ==> Forgotten(h, id)[i].id != id
    ensures forall i :: 0 <= i < |h| && h[i].id != id ==> h[i] in Forgotten(h, id)
    ensures (forall i :: 0 <= i < |h| ==> h[i].id != id) ==> Forgotten(h, id) == h
  {
    var r := Forgotten(h, id);
    forall i | 0 <= i < |r|
      ensures r[i].id != id
    {
      assert NotId(id)(r[i]);
    }
    forall i | 0 <= i < |h| && h[i].id != id
      ensures h[i] in r
    {
      assert NotId(id)(h[i]);
    }
    if forall i :: 0 <= i < |h| ==> h[i].id != id {
      Arrays.FilterAllKept(h, NotId(id));
    }
  }

  /** Forgetting keeps the surviving entries in their order: it works piecewise. */
  lemma ForgottenConcat(front: seq<Entry>, back: seq<Entry>, id: Id)
    ensures Forgotten(front + back, id) == Forgotten(front, id) + Forgotten(back, id)
  {
    Arrays.FilterConcat(front, back, NotId(id));
  }

  /** Forgetting keeps ids unique. */
  lemma ForgottenUnique(h: seq<Entry>, id: Id)
    requires UniqueIds(h)
    ensures UniqueIds(Forgotten(h, id))
  {
    Arrays.FilterPreservesUnique(h, NotId(id), IdOf);
  }

  /** Recording puts the new entry first, keeps it the only entry for the movie, never
      cuts it away, and keeps a prefix of the other entries in their old order, so that
      the log holds min(others + 1, 100) entries. */
  lemma RecordedShape(h: seq<Entry>, movie: MovieRef, now: string)
    ensures 1 <= |Recorded(h, movie, now)| <= MaxEntries
    ensures Recorded(h, movie, now)[0] == Stamp(movie, now)
    ensures forall i :: 1 <= i < |Recorded(h, movie, now)| ==> Recorded(h, movie, now)[i].id != movie.id
    ensures Recorded(h, movie, now)[1..] <= Forgotten(h, movie.id)
    ensures |Recorded(h, movie, now)| ==
              if |Forgotten(h, movie.id)| < MaxEntries then |Forgotten(h, movie.id)| + 1 else MaxEntries
  {
    var rest := Forgotten(h, movie.id);
    var r := Recorded(h, movie, now);
    ForgottenShape(h, movie.id);
    assert r[1..] <= rest;
    forall i | 1 <= i < |r|
      ensures r[i].id != movie.id
    {
      assert r[i] == rest[i - 1];
    }
  }

  /** Recording keeps ids unique. */
  lemma RecordedUnique(h: seq<Entry>, movie: MovieRef, now: string)
    requires UniqueIds(h)
    ensures UniqueIds(Recorded(h, movie, now))
  {
    var r := Recorded(h, movie, now);
    var rest := Forgotten(h, movie.id);
    ForgottenUnique(h, movie.id);
    RecordedShape(h, movie, now);
    forall i, j | 0 <= i < j < |r|
      ensures IdOf(r[i]) != IdOf(r[j])
    {
      if i > 0 {
        assert r[i] == rest[i - 1] && r[j] == rest[j - 1];
      }
    }
  }

  /** Forgetting the id of the front entry of a log whose other entries all have
      another id drops exactly that front entry. */
  lemma ForgottenOfFront(e: Entry, tail: seq<Entry>, id: Id)
    requires e.id == id
    requires forall i :: 0 <= i < |tail| ==> tail[i].id != id
    ensures Forgotten([e] + tail, id) == tail
  {
    assert ([e] + tail)[1..] == tail;
    forall i | 0 <= i < |tail|
      ensures NotId(id)(tail[i])
    {
    }
    Arrays.FilterAllKept(tail, NotId(id));
  }

  /** Recording a movie again replaces its entry: the log is the same as if the movie
      had been recorded only the second time. */
  lemma RecordedAgain(h: seq<Entry>, movie: MovieRef, first: string, second: string)
    ensures Recorded(Recorded(h, movie, first), movie, second) == Recorded(h, movie, second)
  {
    var rest := Forgotten(h, movie.id);
    var once := Recorded(h, movie, first);
    var k := if |rest| < MaxEntries then |rest| else MaxEntries - 1;
    var kept := rest[..k];
    assert once == [Stamp(movie, first)] + kept;
    ForgottenShape(h, movie.id);
    ForgottenOfFront(Stamp(movie, first), kept, movie.id);
    assert Forgotten(once, movie.id) == kept;
    if k < |rest| {
      assert [Stamp(movie, second)] + rest[..k] == ([Stamp(movie, second)] + rest)[..MaxEntries];
    }
  }

  /** Whatever the log held before, recording movie 1, movie 2 and movie 1 again leaves
      movie 1 (with its latest time) in front of movie 2, and those two are the two most
      recent entries. */
  lemma RecordScenario(h: seq<Entry>, m1: MovieRef, m2: MovieRef, t1: string, t2: string, t3: string)
    requires m1.id != m2.id
    ensures Recent(Recorded(Recorded(Recorded(h, m1, t1), m2, t2), m1, t3), Some(2))
              == [Stamp(m1, t3), Stamp(m2, t2)]
  {
    var x1 := Recorded(h, m1, t1);
    var x2 := Recorded(x1, m2, t2);
    var x3 := Recorded(x2, m1, t3);
    RecordedShape(h, m1, t1);
    RecordedShape(x1, m2, t2);
    RecordedShape(x2, m1, t3);
    assert x1 == [x1[0]] + x1[1..];
    ForgottenConcat([x1[0]], x1[1..], m2.id);
    assert Forgotten([x1[0]], m2.id) == [Stamp(m1, t1)] by {
      assert NotId(m2.id)(x1[0]);
      assert [x1[0]][1..] == [];
    }
    assert x2[1] == Stamp(m1, t1);
    assert x2 == [x2[0]] + x2[1..];
    ForgottenConcat([x2[0]], x2[1..], m1.id);
    assert Forgotten([x2[0]], m1.id) == [Stamp(m2, t2)] by {
      assert NotId(m1.id)(x2[0]);
      assert [x2[0]][1..] == [];
    }
    assert x3[1] == Stamp(m2, t2);
    assert Recent(x3, Some(2)) == x3[..2];
  }

  /** The history store. `stored` is the value under the storage key `StorageKey`
      ("movie-history"), `None` while the key is absent; the deep watcher that persists the
      log becomes an explicit commit at the end of each change that alters it. */
  class HistoryStore {
    var history: seq<Entry>
    var stored: Option<seq<Entry>>

    /** The stored copy is the log, or the key was never written and the log is empty. */
    ghost predicate Valid()
      reads this
    {
      stored == Some(history) || (stored == None && history == [])
    }

    /** Loads the log from the storage slot; an absent key loads as the empty log. */
    constructor (slot: Option<seq<Entry>>)
      ensures Valid()
      ensures history == slot.GetOr([]) && stored == slot
    {
      history := slot.GetOr([]);
      stored := slot;
    }

    /** `addToHistory(movie)`, viewed at time `now`. */
    method AddToHistory(movie: MovieRef, now: string)
      requires Valid()
      modifies this
      ensures Valid()
      ensures history == Recorded(old(history), movie, now) && stored == Some(history)
      ensures 1 <= |history| <= MaxEntries
      ensures history[0] == Stamp(movie, now)
      ensures forall i :: 1 <= i < |history| ==> history[i].id != movie.id
      ensures history[1..] <= Forgotten(old(history), movie.id)
      ensures old(UniqueIds(history)) ==> UniqueIds(history)
    {
      RecordedShape(history, movie, now);
      if UniqueIds(history) {
        RecordedUnique(history, movie, now);
      }
      history := Arrays.Filter(history, NotId(movie.id));
      history := [Stamp(movie, now)] + history;
      if |history| > MaxEntries {
        history := history[..MaxEntries];
      }
      stored := Some(history);
    }

    /** `removeFromHistory(id)`: keeps the entries with another id, in order. */
    method RemoveFromHistory(id: Id)
      requires Valid()
      modifies this
      ensures Valid()
      ensures history == Forgotten(old(history), id) && stored == Some(history)
      ensures forall i :: 0 <= i < |history| ==> history[i].id != id
      ensures forall i :: 0 <= i < |old(history)| && old(history)[i].id != id ==> old(history)[i] in history
      ensures old(UniqueIds(history)) ==> UniqueIds(history)
    {
      ForgottenShape(history, id);
      if UniqueIds(history) {
        ForgottenUnique(history, id);
      }
      history := Arrays.Filter(history, NotId(id));
      stored := Some(history);
    }

    /** `clearHistory()`. */
    method ClearHistory()
      requires Valid()
      modifies this
      ensures Valid()
      ensures history == [] && stored == Some([])
    {
      history := [];
      stored := Some(history);
    }

    /** `getRecentHistory(limit)`: the most recent entries, with `None` for the default
        argument of 10. */
    method GetRecentHistory(limit: Option<int>) returns (recent: seq<Entry>)
      ensures recent == Recent(history, limit)
      ensures recent <= history
      ensures 0 <= limit.GetOr(DefaultRecentLimit) ==>
                |recent| == if limit.GetOr(DefaultRecentLimit) < |history| then limit.GetOr(DefaultRecentLimit) else |history|
    {
      recent := Arrays.SliceTo(history, limit.GetOr(DefaultRecentLimit));
    }
  }
}
