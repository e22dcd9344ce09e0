# movie-database core, modelled in Dafny

A browser application for browsing movies and keeping a personal watch list.
This project models its pure and state-keeping core:

- **Payload normalisation** (`Transform`): `transformMovie` and
  `transformMovieDetail` replace every falsy or non-array field of an API
  payload by a fixed default, so downstream code sees a complete record.
- **Watch list container** (`WatchList`, `UseWatchList`): an in-memory list of
  movies that every change mirrors into local storage under the key
  `"watchList"`. It is hydrated from there once, when the provider (or the
  standalone hook) mounts. Add appends with no duplicate check. Remove drops
  every entry with the id.
- **URL builders** (`GetUrl`, `LegacyApiUrl`, `PlaceholderUrls`, with the shared
  parts in `Urls`): image and YouTube URLs, and two API URL builders. Each API
  builder appends `api_key`, an optional `language` and the parameters to the
  query in order. A present but empty parameter map yields `null`.
- **List ordering** (`OrderList`): a sorted copy of a movie list by popularity,
  rating or release timestamp, ascending or descending.
- **Detail view selections** (`InfoHead`, `InfoContent`): watch list membership,
  the first YouTube trailer, the add/remove toggle, the runtime text, the
  director and the first eight cast members.

`ArrayOps` states the contracts of the JavaScript array methods the code relies
on (`find`, `some`, `filter`); `find` is defined from `FindIndex`, the
first-match search it performs. `Numbers` models `toString()` of an
integral number, and proves that the decimal text can be read back.

Modelling choices:
- JavaScript `undefined`/`null` is `None`. A list field that is not an array is
  `None` too, because `Array.isArray` treats missing and wrong-typed values alike.
- Ids, counts, runtimes and parameter numbers are integers. `vote_average`,
  `popularity` and sort keys are reals.
- `localStorage` is an object holding a map from keys to movie lists, so JSON
  encoding is taken as an exact round trip.
- The ordering is a function, so its input cannot change. `Array.prototype.sort`
  is stable, and `OrderList.OrderListIsTheStableSort` proves that exactly one
  list is sorted by the comparator while keeping equal keys in input order. The
  insertion sort used here computes that list.

Behaviour the code does not have, which a reader of the application might expect:
- The watch list provider has no `isLoading` flag and no hydration state
  machine. Hydration is a single effect that copies a stored list when one
  exists.
- Reordering is not an operation of the container. `orderList` returns a sorted
  copy, and nothing is written back to storage.
- `transformMovie` keeps any truthy value, not only a type-correct one.
- The older builder in helpers/getApiUrl.ts appends no `language` and keeps
  falsy parameter values.

## Model

| member | source | states |
|---|---|---|
| Transform.TransformMovie | helpers/transform.ts:3-21 | each field keeps a truthy input value (`genre_ids`: an array) and otherwise takes its default; the result is normalised: title and original language never empty, image paths non-empty or null |
| Transform.TransformMovieEmpty | helpers/transform.ts:4-19 | an empty object gives id 0, "Unknown Title", empty strings, null paths, zero numbers, `[]`, false flags and language "en" |
| Transform.TransformMovieFixedPoint | helpers/transform.ts:3-21 | a complete movie comes back unchanged exactly when it is already normalised |
| Transform.TransformMovieIdempotent | helpers/transform.ts:4-19 | transforming a transformed movie changes nothing |
| Transform.TransformMovieDetail | helpers/transform.ts:23-55 | the shared fields are `transformMovie` of the detail object; the detail fields keep truthy values or take 0, "", "Unknown", `[]`; cast, crew and videos are kept if arrays and are `[]` otherwise |
| Transform.TransformMovieDetailMissing | helpers/transform.ts:29-51 | with detail fields, credits and videos all missing: runtime, budget and revenue 0, status "Unknown", empty genres, empty credits, no videos |
| Transform.TransformMovieDetailFixedPoint | helpers/transform.ts:23-55 | a detail bundle comes back unchanged exactly when its movie is normalised and its status non-empty |
| Transform.TransformMovieDetailIdempotent | helpers/transform.ts:23-55 | transforming a transformed detail bundle changes nothing |
| ArrayOps.FindIndex | components/MovieDetails/Info/infoHead.tsx:18-20 | the first-match search of `find`: the index of the first element satisfying the predicate; none exactly when no element does |
| ArrayOps.Find | components/MovieDetails/Info/infoContent.tsx:7 | the first element satisfying the predicate, or nothing exactly when no element does |
| ArrayOps.Any | components/MovieDetails/Info/infoHead.tsx:17 | true exactly when some element satisfies the predicate |
| ArrayOps.Filter | context/watchListContext.tsx:39 | every kept element passes, every passing element is kept, and the result is a sub-multiset of the input |
| ArrayOps.FilterConcat | context/watchListContext.tsx:39 | filtering a concatenation filters each part, so the kept elements stay in order |
| ArrayOps.FilterKeepsAll | context/watchListContext.tsx:39 | the filter returns its input exactly when every element passes |
| WatchList.WithoutId | context/watchListContext.tsx:39 | no entry with the id remains, every other entry is kept, and nothing is added |
| WatchList.WithoutIdConcat | context/watchListContext.tsx:38-41 | removal keeps the remaining entries in their original order |
| WatchList.WithoutIdUnchanged | context/watchListContext.tsx:38-41 | removing an id leaves the list as it was exactly when no entry carries it |
| WatchList.WithoutIdIdempotent | context/watchListContext.tsx:38-41 | removing an id twice is removing it once |
| WatchList.AddThenRemove | context/watchListContext.tsx:33-41 | adding a movie whose id is not listed grows the list by one, and removing that id gives the list back |
| WatchList.AddTwiceListsTwice | context/watchListContext.tsx:33-36 | add has no duplicate check: adding a movie twice through the provider appends it twice, so it is listed twice more, and storage holds that list |
| WatchList.WatchListProvider.constructor | context/watchListContext.tsx:19 | the list starts empty |
| WatchList.WatchListProvider.Hydrate | context/watchListContext.tsx:21-26 | a stored list replaces the in-memory one and a missing entry leaves it; from the initial empty list, memory and storage then agree |
| WatchList.WatchListProvider.UpdateWatchList | context/watchListContext.tsx:28-31 | the list becomes the new list, storage under "watchList" holds exactly it, and other storage keys are untouched |
| WatchList.WatchListProvider.AddToWatchList | context/watchListContext.tsx:33-36 | the movie is appended at the end and storage holds the new list |
| WatchList.WatchListProvider.RemoveFromWatchList | context/watchListContext.tsx:38-41 | every entry with the id is dropped and storage holds the new list, even when nothing matched |
| WatchList.MountProvider | context/watchListContext.tsx:19-26 | after mounting, the list is the stored list, or empty when nothing is stored |
| WatchList.ReloadAfterAdd | context/watchListContext.tsx:21-36 | the first provider starts from the stored list, and a provider mounted after an add on the same storage starts from the stored list, which is that list with the movie appended; no other storage key changes |
| UseWatchList.WatchListHook.constructor | hooks/useWatchList.ts:5 | the hook's list starts empty |
| UseWatchList.WatchListHook.Hydrate | hooks/useWatchList.ts:7-12 | a stored list is copied in; from the initial empty list, memory and storage then agree |
| UseWatchList.WatchListHook.UpdateWatchList | hooks/useWatchList.ts:14-17 | the list becomes the new list and storage under "watchList" holds exactly it |
| UseWatchList.WatchListHook.AddToWatchList | hooks/useWatchList.ts:19-22 | the movie is appended and storage holds the new list |
| UseWatchList.WatchListHook.RemoveFromWatchList | hooks/useWatchList.ts:24-27 | every entry with the id is dropped, the rest keep their order, and storage holds the new list |
| UseWatchList.TwoHooksLastWriteWins | hooks/useWatchList.ts:4-17 | two hooks on one empty storage keep separate lists, and storage then holds the list of the hook that wrote last, with no other key changed |
| Numbers.IntToString | helpers/getUrl.ts:24 | a number's text is an optional minus sign followed by digits, with the sign exactly for negative numbers and no leading zero (only 0 itself starts with "0") |
| Numbers.IntToStringRoundTrip | helpers/getUrl.ts:24 | reading the decimal text back gives the number |
| Numbers.TruncatingRemainder | components/MovieDetails/Info/infoHead.tsx:33 | JavaScript's `%` by a positive divisor: `a` minus the quotient rounded toward zero times `b`, so in [0, b) for non-negative operands and in (-b, 0] for negative ones |
| Urls.RenderedParams | helpers/getApiUrl.ts:11-13 | one query entry per parameter, in order, with the value rendered through `toString` |
| Urls.TruthyRenderedNonEmpty | helpers/getUrl.ts:23-24 | a value that passes the falsy check renders as a non-empty string |
| GetUrl.ImageUrl | helpers/getUrl.ts:3-6 | "" exactly for an empty, null or undefined path; otherwise the base URL, "/", the size (default "w500"), then the path |
| GetUrl.ImageUrlInjective | helpers/getUrl.ts:3-6 | for one size, a non-empty image URL determines the path |
| GetUrl.YoutubeUrl | helpers/getUrl.ts:8-10 | the watch URL prefix followed by the id |
| GetUrl.YoutubeUrlInjective | helpers/getUrl.ts:8-10 | the id can be read back from the URL |
| GetUrl.AppendedParams | helpers/getUrl.ts:22-26 | at most one entry per parameter, and no appended value is empty |
| GetUrl.AppendedParamsIsFilter | helpers/getUrl.ts:22-26 | the loop appends exactly what a `filter` on truthy values keeps, rendered, in order |
| GetUrl.AppendParams | helpers/getUrl.ts:22-26 | the forEach loop appends exactly `AppendedParams` of the entries after the key and language |
| GetUrl.AppendedParamsSnoc | helpers/getUrl.ts:22-26 | each parameter in turn appends its rendered entry when its value is truthy and nothing when it is 0 or "" |
| GetUrl.AppendedParamsAllTruthy | helpers/getUrl.ts:22-26 | when no value is falsy, every parameter is appended in order |
| GetUrl.ApiKeyOf | helpers/getUrl.ts:18 | the key from the environment when it is set and non-empty; "" exactly when it is unset or empty |
| GetUrl.GetApiUrl | helpers/getUrl.ts:12-29 | the loop builds exactly `ApiUrl`: `api_key`, then `language` (default "zh-TW"), then the truthy parameters; null for a present but empty map |
| GetUrl.ApiUrl | helpers/getUrl.ts:17-28 | the result is null exactly when the parameter map is present and empty; otherwise the endpoint is base URL plus path, and the query starts with `api_key` and then `language` |
| GetUrl.ApiUrlWithoutParams | helpers/getUrl.ts:17-28 | without a parameter map the query is exactly `api_key` and `language` |
| GetUrl.ApiUrlSearchQuery | helpers/getUrl.ts:22-26 | a search query and a page number follow the key and language in that order, with the page in decimal |
| LegacyApiUrl.GetApiUrl | helpers/getApiUrl.ts:3-16 | the loop builds exactly `ApiUrl`: `api_key`, then every parameter rendered; null for a present but empty map |
| LegacyApiUrl.ApiUrl | helpers/getApiUrl.ts:7-15 | the result is null exactly when the parameter map is present and empty; otherwise the endpoint is base URL plus path and the query starts with `api_key` |
| LegacyApiUrl.ApiUrlQueryShape | helpers/getApiUrl.ts:7-13 | the query is the key followed by one entry per parameter, falsy values included, with no language entry |
| LegacyApiUrl.ApiUrlWithoutParams | helpers/getApiUrl.ts:7-15 | without a parameter map the query is the key alone |
| LegacyApiUrl.AgreesWithCurrentBuilder | helpers/getApiUrl.ts:7-13 | the endpoints agree, and the current builder's query is the legacy one with the language inserted after the key exactly when no value is falsy |
| PlaceholderUrls.ImageUrl | helpers/getUlrl.ts:3-6 | never empty; the placeholder image exactly for an empty, null or undefined path; otherwise the same URL as the other image helper |
| PlaceholderUrls.ImageUrlVariants | helpers/getUlrl.ts:3-6 | the two image helpers differ only in what an empty path gives |
| PlaceholderUrls.YoutubeUrl | helpers/getUlrl.ts:8-10 | the same watch URL as the other helper file builds |
| OrderList.SortKey | helpers/orderList.ts:5-10 | the compared value: the release date's timestamp for "release_date", otherwise the field the type names |
| OrderList.InOrder | helpers/orderList.ts:12-16 | the comparator returns at most 0, so `a` may precede `b`, exactly when a <= b ascending and b <= a descending |
| OrderList.OrderList | helpers/orderList.ts:3-19 | the result is a permutation of the list, sorted by the key (release date by timestamp) in the chosen direction, and entries with equal keys keep their input order |
| OrderList.InsertWithKey | helpers/orderList.ts:4-17 | inserting an entry places it before the entries with its key and changes no other key's entries |
| OrderList.SortByCorrect | helpers/orderList.ts:4-17 | the insertion sort yields a sorted, stable permutation |
| OrderList.SortedStableUnique | helpers/orderList.ts:4-17 | two lists sorted by the comparator with the same order among equal keys are equal |
| OrderList.OrderListIsTheStableSort | helpers/orderList.ts:3-19 | any sorted reordering that keeps equal keys in input order, as a stable `sort` produces, is the model's result |
| InfoHead.IsInWatchlist | components/MovieDetails/Info/infoHead.tsx:17 | true exactly when some entry has the movie's id |
| InfoHead.InWatchlistIffRemovalChanges | components/MovieDetails/Info/infoHead.tsx:17-29 | the movie counts as listed exactly when removing its id changes the list |
| InfoHead.TrailerKey | components/MovieDetails/Info/infoHead.tsx:18-20 | the key of the first video with type "Trailer" and site "YouTube"; none exactly when no video is one |
| InfoHead.TrailerLink | components/MovieDetails/Info/infoHead.tsx:18-73 | the URL built at lines 18-21 and shown by the `trailerKey &&` link at lines 71-73: a link exists exactly when a trailer key exists and is non-empty, and it is the watch URL of that key |
| InfoHead.Toggled | components/MovieDetails/Info/infoHead.tsx:23-29 | after the toggle, the movie is listed exactly when it was not listed before |
| InfoHead.HandleWatchlistToggle | components/MovieDetails/Info/infoHead.tsx:23-29 | removes by id when the movie is listed and appends it otherwise; storage under "watchList" then holds the new list and other storage keys are untouched |
| InfoHead.ToggleTwiceRestores | components/MovieDetails/Info/infoHead.tsx:23-29 | toggling an unlisted movie twice gives the list back |
| InfoHead.RuntimeParts | components/MovieDetails/Info/infoHead.tsx:31-33 | the hours are the floor of m / 60; for m >= 0, hours * 60 + minutes == m with 0 <= minutes < 60; for m < 0 the minutes lie in (-60, 0], when m is not divisible by 60 the parts sum to m - 60, and when it is the minutes are 0 |
| InfoHead.FormatRuntime | components/MovieDetails/Info/infoHead.tsx:31-35 | the text ends in "m"; for a non-negative runtime it is the whole hours, "h ", the minutes left over, and "m", each number in decimal |
| InfoHead.FormatRuntimeTwoHours | components/MovieDetails/Info/infoHead.tsx:31-35 | 120 minutes render as "2h 0m" |
| InfoHead.FormatRuntimeInjective | components/MovieDetails/Info/infoHead.tsx:31-35 | a non-negative runtime can be read back from its text |
| InfoContent.Director | components/MovieDetails/Info/infoContent.tsx:7 | the first crew member whose job is "Director"; none exactly when no crew member has that job |
| InfoContent.MainCast | components/MovieDetails/Info/infoContent.tsx:8 | the prefix of the cast of length min(8, cast size), in order |
| InfoContent.ShowsDirectorIffDirectorCredited | components/MovieDetails/Info/infoContent.tsx:17 | the director block appears exactly when some crew member's job is "Director" |
| InfoContent.ShowsMainCastIffCast | components/MovieDetails/Info/infoContent.tsx:25 | the cast block appears exactly when the cast is non-empty |
| InfoContent.SmallCastShownWhole | components/MovieDetails/Info/infoContent.tsx:8 | a cast of at most eight is shown whole |

## Left out

- Network access: helpers/fetcher.ts, apis/movies.ts and the data hooks in hooks/useMovie.ts are HTTP and JSON I/O with third-party caching, so they are not part of this model.
- The toast channel (context/toastContext.tsx) is driven by `setTimeout` timers and is not part of this model.
- Date formatting (helpers/formatDate.ts) uses locale formatting and is not modelled.
- Floating point: `vote_average.toFixed(1)` is not modelled. Decimal numbers are reals, integral numbers are integers, and NaN is not represented.
- OrderList.SortKey: the release date timestamp (`new Date(d).getTime()`) is a parameter. An invalid date gives NaN in the source, which makes the comparator inconsistent; that case is not modelled.
- Parameter values are integral numbers or strings, so `toString()` of a non-integral number is not modelled.
- Numbers.IntToString: integral values are taken to be below 10^21 in magnitude, and exact only up to 2^53. JavaScript writes larger numbers in exponent form (`"1e+21"`), while the model always writes plain decimal digits. This affects the parameter values rendered at helpers/getUrl.ts:24 and helpers/getApiUrl.ts:12.
- `Object.entries` lists integer-like keys first in ascending order. The model takes the parameter entries in the order given.
- The percent-encoding and text form of the URL (`URLSearchParams`, `URL.toString`) are not modelled. A URL is its endpoint and its ordered query list.
- The API key comes from `process.env` in helpers/getUrl.ts and from the config module in helpers/getApiUrl.ts. Both are parameters here. The config module is not part of this model; the base URLs are the values the repository's tests configure.
- JSON text in storage is not modelled. A corrupt stored value, which makes hydration throw, is therefore not modelled either, and neither is a stored empty string, which no write produces.
- React state updates are applied at once here, one handler per render. Two updates issued from one handler would both start from the same list in the source.
- The "must be used within a provider" throw in `useWatchList` is not modelled. A default context value always exists, so the throw cannot be reached.
- Transform.TransformMovieDetail: a missing (`null` or `undefined`) `movie` or `credits` object makes the source throw a TypeError, because it reads `data.id` and `credits.cast`. The model's input always holds both objects, so that error path is not represented.
- Transform.TransformMovie: each raw field has its declared type. A truthy value of another type, such as a numeric title, would be kept by the source but cannot be written here.
- InfoHead.HandleWatchlistToggle: the source appends the whole detail object to the watch list. The model appends its summary `Movie`, so the detail-only fields are not persisted.
- `videos?.` and `credits?.` in the detail view are taken as always present, because those props come from `transformMovieDetail`. Building the unused `getYoutubeUrl(undefined)` when no trailer exists is not modelled.
- InfoHead.RuntimeParts: the runtime is an integer, so `Math.floor` of a fractional quotient is Dafny's division.
- Rendering, routing and browser plumbing (components other than the two detail helpers, app pages, the IntersectionObserver hook, and the toggle duplicated in the movie card) are not part of this model.
