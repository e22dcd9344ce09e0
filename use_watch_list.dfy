/** The standalone `useWatchList` hook (hooks/useWatchList.ts): the same state
    as the provider, owned by one component instead of shared through a
    context. The list computations and the storage are those of `WatchList`. */
module UseWatchList {
  import opened MovieTypes
  import opened WatchList

  class WatchListHook {
    var watchList: seq<Movie>
    const storage: LocalStorage

    ghost predicate InSync()
      reads this, storage
    {
      watchList == StoredWatchList(storage)
    }

    /** `useState<Movie[]>([])` */
    constructor (storage: LocalStorage)
      ensures this.storage == storage && watchList == []
    {
      this.storage := storage;
      watchList := [];
    }

    /** The mount effect: copy the stored list when there is one. */
    method Hydrate()
      modifies this
      ensures watchList == if WatchListKey in storage.entries then storage.entries[WatchListKey] else old(watchList)
      ensures old(watchList) == [] ==> InSync()
    {
      if WatchListKey in storage.entries {
        watchList := storage.entries[WatchListKey];
      }
    }

    method UpdateWatchList(newWatchList: seq<Movie>)
      modifies this, storage
      ensures watchList == newWatchList
      ensures storage.entries == old(storage.entries)[WatchListKey := newWatchList]
      ensures InSync()
    {
      watchList := newWatchList;
      storage.entries := storage.entries[WatchListKey := newWatchList];
    }

    method AddToWatchList(movie: Movie)
      modifies this, storage
      ensures watchList == old(watchList) + [movie]
      ensures storage.entries == old(storage.entries)[WatchListKey := watchList]
      ensures InSync()
    {
      UpdateWatchList(watchList + [movie]);
    }

    method RemoveFromWatchList(movieId: int)
      modifies this, storage
      ensures watchList == WithoutId(old(watchList), movieId)
      ensures storage.entries == old(storage.entries)[WatchListKey := watchList]
      ensures InSync()
    {
      UpdateWatchList(WithoutId(watchList, movieId));
    }
  }

  /** Two hooks on one storage do not share their lists: each keeps its own
      in-memory copy, and storage holds whichever wrote last. */
  method TwoHooksLastWriteWins(storage: LocalStorage, a: Movie, b: Movie) returns (first: seq<Movie>, second: seq<Movie>, stored: seq<Movie>)
    requires StoredWatchList(storage) == []
    modifies storage
    ensures first == [a] && second == [b] && stored == [b]
    ensures StoredWatchList(storage) == [b]
    ensures storage.entries == old(storage.entries)[WatchListKey := [b]]
  {
    var h1 := new WatchListHook(storage);
    h1.Hydrate();
    var h2 := new WatchListHook(storage);
    h2.Hydrate();
    h1.AddToWatchList(a);
    h2.AddToWatchList(b);
    first, second, stored := h1.watchList, h2.watchList, StoredWatchList(storage);
  }
}
