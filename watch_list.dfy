/** The watch list state container of `WatchListProvider`: an in-memory list of
    movies mirrored, on every change, into the browser's local storage under
    the key "watchList", and loaded from there once when the provider mounts. */
module WatchList {
  import opened Wrappers
  import opened MovieTypes
  import ArrayOps

  /** The storage key the list is persisted under. */
  const WatchListKey := "watchList"

  /** The browser's `localStorage`. JSON serialisation is taken to be an exact
      round trip, so an entry is held as the list it encodes. */
  class LocalStorage {
    var entries: map<string, seq<Movie>>

    constructor (entries: map<string, seq<Movie>>)
      ensures this.entries == entries
    {
      this.entries := entries;
    }
  }

  /** The persisted list as hydration reads it; nothing stored reads as empty. */
  function StoredWatchList(storage: LocalStorage): seq<Movie>
    reads storage
  {
    if WatchListKey in storage.entries then storage.entries[WatchListKey] else []
  }

  /** Whether an entry of the list carries the id. */
  predicate HasId(list: seq<Movie>, movieId: int) {
    exists i :: 0 <= i < |list| && list[i].id == movieId
  }

  /** `watchList.filter((movie) => movie.id !== movieId)` */
  function WithoutId(list: seq<Movie>, movieId: int): (r: seq<Movie>)
    ensures !HasId(r, movieId)
    ensures forall i :: 0 <= i < |list| && list[i].id != movieId ==> list[i] in r
    ensures multiset(r) <= multiset(list)
  {
    ArrayOps.Filter(list, (m: Movie) => m.id != movieId)
  }

  /** Removal keeps the remaining entries in their order: removing from a
      concatenation removes from each part. */
  lemma WithoutIdConcat(a: seq<Movie>, b: seq<Movie>, movieId: int)
    ensures WithoutId(a + b, movieId) == WithoutId(a, movieId) + WithoutId(b, movieId)
  {
    ArrayOps.FilterConcat(a, b, (m: Movie) => m.id != movieId);
  }

  /** Removing an id no entry carries leaves the list as it is, and only then. */
  lemma WithoutIdUnchanged(list: seq<Movie>, movieId: int)
    ensures WithoutId(list, movieId) == list <==> !HasId(list, movieId)
  {
    ArrayOps.FilterKeepsAll(list, (m: Movie) => m.id != movieId);
  }

  /** Removing twice is removing once. */
  lemma WithoutIdIdempotent(list: seq<Movie>, movieId: int)
    ensures WithoutId(WithoutId(list, movieId), movieId) == WithoutId(list, movieId)
  {
    WithoutIdUnchanged(WithoutId(list, movieId), movieId);
  }

  /** Adding a movie whose id is not yet listed and then removing that id gives
      back the list: the length grows by one and falls by one. */
  lemma AddThenRemove(list: seq<Movie>, movie: Movie)
    requires !HasId(list, movie.id)
    ensures |list + [movie]| == |list| + 1
    ensures WithoutId(list + [movie], movie.id) == list
  {
    WithoutIdConcat(list, [movie], movie.id);
    WithoutIdUnchanged(list, movie.id);
    assert WithoutId([movie], movie.id) == [];
  }

  /** The provider (context/watchListContext.tsx). */
  class WatchListProvider {
    var watchList: seq<Movie>
    const storage: LocalStorage

    /** The in-memory list is what local storage holds. */
    ghost predicate InSync()
      reads this, storage
    {
      watchList == StoredWatchList(storage)
    }

    /** `useState<Movie[]>([])` */
    constructor (storage: LocalStorage)
      ensures this.storage == storage && watchList == []
    {
      this.storage := storage;
      watchList := [];
    }

    /** The mount effect: load the stored list when there is one. */
    method Hydrate()
      modifies this
      ensures watchList == if WatchListKey in storage.entries then storage.entries[WatchListKey] else old(watchList)
      ensures old(watchList) == [] ==> InSync()
    {
      if WatchListKey in storage.entries {
        watchList := storage.entries[WatchListKey];
      }
    }

    /** Replace the list and write it to storage under the key. */
    method UpdateWatchList(newWatchList: seq<Movie>)
      modifies this, storage
      ensures watchList == newWatchList
      ensures storage.entries == old(storage.entries)[WatchListKey := newWatchList]
      ensures InSync()
    {
      watchList := newWatchList;
      storage.entries := storage.entries[WatchListKey := newWatchList];
    }

    /** Append the movie at the end, without a duplicate check. */
    method AddToWatchList(movie: Movie)
      modifies this, storage
      ensures watchList == old(watchList) + [movie]
      ensures storage.entries == old(storage.entries)[WatchListKey := watchList]
      ensures InSync()
    {
      var newWatchList := watchList + [movie];
      UpdateWatchList(newWatchList);
    }

    /** Drop every entry with the id; storage is written even when none matched. */
    method RemoveFromWatchList(movieId: int)
      modifies this, storage
      ensures watchList == WithoutId(old(watchList), movieId)
      ensures storage.entries == old(storage.entries)[WatchListKey := watchList]
      ensures InSync()
    {
      var newWatchList := WithoutId(watchList, movieId);
      UpdateWatchList(newWatchList);
    }
  }

  /** Adding has no duplicate check: a movie added twice through the provider
      is listed, and stored, twice more than before. */
  method AddTwiceListsTwice(p: WatchListProvider, movie: Movie)
    modifies p, p.storage
    ensures p.watchList == old(p.watchList) + [movie, movie]
    ensures multiset(p.watchList)[movie] == multiset(old(p.watchList))[movie] + 2
    ensures p.storage.entries == old(p.storage.entries)[WatchListKey := p.watchList]
    ensures p.InSync()
  {
    p.AddToWatchList(movie);
    p.AddToWatchList(movie);
  }

  /** Mounting a provider: construct, then run the hydration effect. */
  method MountProvider(storage: LocalStorage) returns (p: WatchListProvider)
    ensures fresh(p) && p.storage == storage
    ensures p.watchList == StoredWatchList(storage) && p.InSync()
  {
    p := new WatchListProvider(storage);
    p.Hydrate();
  }

  /** The list survives a reload: after a change, a provider mounted on the same
      storage starts from the changed list. */
  method ReloadAfterAdd(storage: LocalStorage, movie: Movie) returns (before: seq<Movie>, after: seq<Movie>)
    modifies storage
    ensures before == old(StoredWatchList(storage))
    ensures after == StoredWatchList(storage)
    ensures after == before + [movie]
    ensures storage.entries == old(storage.entries)[WatchListKey := after]
  {
    var p := MountProvider(storage);
    before := p.watchList;
    p.AddToWatchList(movie);
    var q := MountProvider(storage);
    after := q.watchList;
  }
}
