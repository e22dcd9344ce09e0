/** The values the movie detail header (components/MovieDetails/Info/infoHead.tsx)
    computes before rendering: watch list membership, the trailer to link,
    what the watch list button does, and the runtime text. */
module InfoHead {
  import opened Wrappers
  import opened MovieTypes
  import ArrayOps
  import Numbers
  import Urls
  import GetUrl
  import WatchList

  /** `watchList.some((item) => item.id === movie.id)` */
  function IsInWatchlist(watchList: seq<Movie>, movie: Movie): (r: bool)
    ensures r <==> WatchList.HasId(watchList, movie.id)
  {
    ArrayOps.Any(watchList, (m: Movie) => m.id == movie.id)
  }

  /** The button removes something exactly when the membership test says the
      movie is listed. */
  lemma InWatchlistIffRemovalChanges(watchList: seq<Movie>, movie: Movie)
    ensures IsInWatchlist(watchList, movie) <==> WatchList.WithoutId(watchList, movie.id) != watchList
  {
    WatchList.WithoutIdUnchanged(watchList, movie.id);
  }

  predicate IsYoutubeTrailer(v: Video) {
    v.kind == "Trailer" && v.site == "YouTube"
  }

  /** The key of the first YouTube trailer, `None` when there is none. */
  function TrailerKey(videos: seq<Video>): (r: Option<string>)
    ensures r.None? <==> forall i :: 0 <= i < |videos| ==> !IsYoutubeTrailer(videos[i])
    ensures r.Some? ==> exists i :: 0 <= i < |videos| && IsYoutubeTrailer(videos[i]) && videos[i].key == r.value
                                   && forall j :: 0 <= j < i ==> !IsYoutubeTrailer(videos[j])
  {
    match ArrayOps.Find(videos, IsYoutubeTrailer)
    case None => None
    case Some(v) => Some(v.key)
  }

  /** The trailer link shown, if any: only a truthy key gets one, and the link
      watches that key. */
  function TrailerLink(videos: seq<Video>): (r: Option<string>)
    ensures r.Some? <==> TrailerKey(videos).Some? && TrailerKey(videos).value != ""
    ensures r.Some? ==> |Urls.YoutubeWatchPrefix| < |r.value|
    ensures r.Some? ==> r.value[..|Urls.YoutubeWatchPrefix|] == Urls.YoutubeWatchPrefix
    ensures r.Some? ==> r.value[|Urls.YoutubeWatchPrefix|..] == TrailerKey(videos).value
  {
    match TrailerKey(videos)
    case Some(key) => if key != "" then Some(GetUrl.YoutubeUrl(key)) else None
    case None => None
  }

  /** The list `handleWatchlistToggle` leaves behind: the movie's id removed if
      it was listed, the movie appended otherwise. */
  function Toggled(watchList: seq<Movie>, movie: Movie): (r: seq<Movie>)
    ensures IsInWatchlist(r, movie) <==> !IsInWatchlist(watchList, movie)
  {
    if IsInWatchlist(watchList, movie) then WatchList.WithoutId(watchList, movie.id)
    else
      assert (watchList + [movie])[|watchList|] == movie;
      watchList + [movie]
  }

  /** handleWatchlistToggle, acting on the shared provider. */
  method HandleWatchlistToggle(provider: WatchList.WatchListProvider, movie: Movie)
    modifies provider, provider.storage
    ensures provider.watchList == Toggled(old(provider.watchList), movie)
    ensures provider.storage.entries == old(provider.storage.entries)[WatchList.WatchListKey := provider.watchList]
    ensures provider.InSync()
  {
    var isInWatchlist := IsInWatchlist(provider.watchList, movie);
    if isInWatchlist {
      provider.RemoveFromWatchList(movie.id);
    } else {
      provider.AddToWatchList(movie);
    }
  }

  /** Toggling a movie that is not listed twice gives the list back. */
  lemma ToggleTwiceRestores(watchList: seq<Movie>, movie: Movie)
    requires !IsInWatchlist(watchList, movie)
    ensures Toggled(Toggled(watchList, movie), movie) == watchList
  {
    WatchList.AddThenRemove(watchList, movie);
  }

  /** `Math.floor(minutes / 60)` and `minutes % 60`. */
  function RuntimeParts(minutes: int): (r: (int, int))
    ensures r.0 * 60 <= minutes < r.0 * 60 + 60
    ensures minutes >= 0 ==> 0 <= r.1 < 60 && r.0 * 60 + r.1 == minutes
    ensures minutes < 0 ==> -60 < r.1 <= 0
    ensures minutes < 0 && minutes % 60 != 0 ==> r.0 * 60 + r.1 == minutes - 60
    ensures minutes < 0 && minutes % 60 == 0 ==> r.1 == 0
  {
    (minutes / 60, Numbers.TruncatingRemainder(minutes, 60))
  }

  /** formatRuntime: `${hours}h ${remainingMinutes}m`; for a non-negative
      runtime, the whole hours and the minutes left over, in decimal. */
  function FormatRuntime(minutes: int): (r: string)
    ensures minutes >= 0 ==> r == Numbers.IntToString(minutes / 60) + "h " + Numbers.IntToString(minutes % 60) + "m"
    ensures |r| >= 5 && r[|r| - 1] == 'm'
  {
    var (hours, rest) := RuntimeParts(minutes);
    Numbers.IntToString(hours) + "h " + Numbers.IntToString(rest) + "m"
  }

  lemma FormatRuntimeTwoHours()
    ensures FormatRuntime(120) == "2h 0m"
  {
    assert RuntimeParts(120) == (2, 0);
  }

  lemma MarkAt(a: string, c: char, x: string)
    ensures |a| < |a + [c] + x| && (a + [c] + x)[|a|] == c
  {
  }

  /** In `a + [c] + x == b + [c] + y` with `a`, `b` free of `c`, the parts agree. */
  lemma SplitAtMark(a: string, x: string, b: string, y: string, c: char)
    requires forall i :: 0 <= i < |a| ==> a[i] != c
    requires forall i :: 0 <= i < |b| ==> b[i] != c
    requires a + [c] + x == b + [c] + y
    ensures a == b && x == y
  {
    var s := a + [c] + x;
    if |a| < |b| {
      MarkAt(a, c, x);
      assert false;
    } else if |b| < |a| {
      MarkAt(b, c, y);
      assert false;
    }
    assert a == s[..|a|] && b == s[..|b|];
    assert x == s[|a| + 1..] && y == (b + [c] + y)[|b| + 1..];
  }

  /** The hours and minutes can be read back from the `"<h>h <m>m"` text. */
  lemma RuntimeTextInjective(ha: int, ra: int, hb: int, rb: int)
    requires Numbers.IntToString(ha) + "h " + Numbers.IntToString(ra) + "m"
          == Numbers.IntToString(hb) + "h " + Numbers.IntToString(rb) + "m"
    ensures ha == hb && ra == rb
  {
    var sa, sb := Numbers.IntToString(ha), Numbers.IntToString(hb);
    var ta, tb := Numbers.IntToString(ra), Numbers.IntToString(rb);
    assert sa + ['h'] + (" " + ta + "m") == sa + "h " + ta + "m";
    assert sb + ['h'] + (" " + tb + "m") == sb + "h " + tb + "m";
    SplitAtMark(sa, " " + ta + "m", sb, " " + tb + "m", 'h');
    assert ta == (" " + ta + "m")[1..|ta| + 1] && tb == (" " + tb + "m")[1..|tb| + 1];
    Numbers.IntToStringInjective(ha, hb);
    Numbers.IntToStringInjective(ra, rb);
  }

  /** A non-negative runtime can be read back from its text. */
  lemma FormatRuntimeInjective(a: int, b: int)
    requires a >= 0 && b >= 0
    requires FormatRuntime(a) == FormatRuntime(b)
    ensures a == b
  {
    RuntimeTextInjective(a / 60, a % 60, b / 60, b % 60);
  }
}
