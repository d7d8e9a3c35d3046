/** The favorites store: an insertion-ordered list of movie snapshots, one per id,
    persisted under the storage key `favorites`. */
module Favorites {
  import opened Options
  import opened Movies
  import Arrays

  /** The storage key the list is persisted under. */
  const StorageKey: string := "favorites"

  function IdOf(f: MovieRef): Id { f.id }

  /** The filter predicate `f => f.id !== id`. */
  function NotId(id: Id): MovieRef -> bool { (f: MovieRef) => f.id != id }

  /** The query `f => f.id === id`. */
  function HasId(id: Id): MovieRef -> bool { (f: MovieRef) => f.id == id }

  /** At most one entry per movie id. */
  ghost predicate UniqueIds(favs: seq<MovieRef>) {
    Arrays.UniqueBy(favs, IdOf)
  }

  /** `favorites.some(f => f.id === id)`. */
  function Contains(favs: seq<MovieRef>, id: Id): (b: bool)
    ensures b <==> exists i :: 0 <= i < |favs| && favs[i].id == id
  {
    Arrays.Any(favs, HasId(id))
  }

  /** The list after `addFavorite(movie)`. */
  function Added(favs: seq<MovieRef>, movie: MovieRef): (r: seq<MovieRef>)
    ensures favs <= r && |r| <= |favs| + 1
    ensures Contains(r, movie.id)
  {
    assert (favs + [movie])[|favs|] == movie;
    if Contains(favs, movie.id) then favs else favs + [movie]
  }

  /** The list after `removeFavorite(id)`: the filter at src/stores/favorites.js:27. `History.Forgotten`
      mirrors it on log entries, since each store runs its own filter. */
  function Removed(favs: seq<MovieRef>, id: Id): (r: seq<MovieRef>)
    ensures |r| <= |favs|
    ensures forall i :: 0 <= i < |r| ==> r[i].id != id
  {
    var r := Arrays.Filter(favs, NotId(id));
    assert forall i :: 0 <= i < |r| ==> NotId(id)(r[i]);
    r
  }

  /** Adding a new id appends its snapshot; adding a present id changes nothing.
      Either way the movie is a favorite afterwards. */
  lemma AddedShape(favs: seq<MovieRef>, movie: MovieRef)
    ensures !Contains(favs, movie.id) ==> Added(favs, movie) == favs + [movie]
    ensures Contains(favs, movie.id) ==> Added(favs, movie) == favs
    ensures Contains(Added(favs, movie), movie.id)
  {
    assert (favs + [movie])[|favs|] == movie;
  }

  /** Adding twice is adding once. */
  lemma AddedIdempotent(favs: seq<MovieRef>, movie: MovieRef)
    ensures Added(Added(favs, movie), movie) == Added(favs, movie)
  {
    AddedShape(favs, movie);
  }

  /** Adding keeps ids unique; with the movie now present, exactly one entry has its id. */
  lemma AddedUnique(favs: seq<MovieRef>, movie: MovieRef)
    requires UniqueIds(favs)
    ensures UniqueIds(Added(favs, movie))
  {
    var r := Added(favs, movie);
    if !Contains(favs, movie.id) {
      forall i, j | 0 <= i < j < |r|
        ensures IdOf(r[i]) != IdOf(r[j])
      {
        if j == |favs| {
          assert r[i] == favs[i];
        } else {
          assert r[i] == favs[i] && r[j] == favs[j];
        }
      }
    }
  }

  /** After removing, no entry has the id; every other entry is still there. */
  lemma RemovedShape(favs: seq<MovieRef>, id: Id)
    ensures !Contains(Removed(favs, id), id)
    ensures forall i :: 0 <= i < |favs| && favs[i].id != id ==> favs[i] in Removed(favs, id)
    ensures !Contains(favs, id) ==> Removed(favs, id) == favs
  {
    var r := Removed(favs, id);
    forall i | 0 <= i < |r|
      ensures r[i].id != id
    {
      assert NotId(id)(r[i]);
    }
    forall i | 0 <= i < |favs| && favs[i].id != id
      ensures favs[i] in r
    {
      assert NotId(id)(favs[i]);
    }
    if !Contains(favs, id) {
      Arrays.FilterAllKept(favs, NotId(id));
    }
  }

  /** Removing keeps the surviving entries in their order: it works piecewise. */
  lemma RemovedConcat(front: seq<MovieRef>, back: seq<MovieRef>, id: Id)
    ensures Removed(front + back, id) == Removed(front, id) + Removed(back, id)
  {
    Arrays.FilterConcat(front, back, NotId(id));
  }

  /** Removing keeps ids unique. */
  lemma RemovedUnique(favs: seq<MovieRef>, id: Id)
    requires UniqueIds(favs)
    ensures UniqueIds(Removed(favs, id))
  {
    Arrays.FilterPreservesUnique(favs, NotId(id), IdOf);
  }

  /** Adding a movie that was not a favorite and then removing it restores the list. */
  lemma RemoveUndoesAdd(favs: seq<MovieRef>, movie: MovieRef)
    requires !Contains(favs, movie.id)
    ensures Removed(Added(favs, movie), movie.id) == favs
  {
    RemovedConcat(favs, [movie], movie.id);
    RemovedShape(favs, movie.id);
    assert Removed([movie], movie.id) == [];
  }

  /** The favorites store. `stored` is the value under the storage key `StorageKey`
      ("favorites"), `None` while the key is absent; the deep watcher that persists the
      list becomes an explicit commit at the end of each change that alters it. */
  class FavoritesStore {
    var favorites: seq<MovieRef>
    var stored: Option<seq<MovieRef>>

    /** The stored copy is the list, or the key was never written and the list is empty. */
    ghost predicate Valid()
      reads this
    {
      stored == Some(favorites) || (stored == None && favorites == [])
    }

    /** Loads the list from the storage slot; an absent key loads as the empty list. */
    constructor (slot: Option<seq<MovieRef>>)
      ensures Valid()
      ensures favorites == slot.GetOr([]) && stored == slot
    {
      favorites := slot.GetOr([]);
      stored := slot;
    }

    /** `addFavorite(movie)`: appends the snapshot unless the id is already present. */
    method AddFavorite(movie: MovieRef)
      requires Valid()
      modifies this
      ensures Valid()
      ensures favorites == Added(old(favorites), movie)
      ensures old(Contains(favorites, movie.id)) ==> favorites == old(favorites) && stored == old(stored)
      ensures !old(Contains(favorites, movie.id)) ==> favorites == old(favorites) + [movie] && stored == Some(favorites)
      ensures Contains(favorites, movie.id)
      ensures old(UniqueIds(favorites)) ==> UniqueIds(favorites)
    {
      AddedShape(favorites, movie);
      if UniqueIds(favorites) {
        AddedUnique(favorites, movie);
      }
      if !Contains(favorites, movie.id) {
        favorites := favorites + [movie];
        stored := Some(favorites);
      }
    }

    /** `removeFavorite(id)`: keeps the entries with another id, in order. */
    method RemoveFavorite(id: Id)
      requires Valid()
      modifies this
      ensures Valid()
      ensures favorites == Removed(old(favorites), id) && stored == Some(favorites)
      ensures !Contains(favorites, id)
      ensures forall i :: 0 <= i < |old(favorites)| && old(favorites)[i].id != id ==> old(favorites)[i] in favorites
      ensures old(UniqueIds(favorites)) ==> UniqueIds(favorites)
    {
      RemovedShape(favorites, id);
      if UniqueIds(favorites) {
        RemovedUnique(favorites, id);
      }
      favorites := Arrays.Filter(favorites, NotId(id));
      stored := Some(favorites);
    }

    /** `isFavorite(id)`: whether some entry has the id. */
    method IsFavorite(id: Id) returns (b: bool)
      ensures b <==> exists i :: 0 <= i < |favorites| && favorites[i].id == id
    {
      b := Arrays.Any(favorites, HasId(id));
    }
  }
}
