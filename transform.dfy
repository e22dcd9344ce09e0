/** The transform layer: total default substitution that turns an API payload of
    unknown completeness into the normalised shapes of `MovieTypes`. */
module Transform {
  import opened Wrappers
  import opened MovieTypes

  /** A movie payload as it arrives. A scalar field is `None` when it is
      `undefined` or `null`; a list field is `None` when it is not an array
      (missing, `null`, or any other value). */
  datatype RawMovie = RawMovie(
    id: Option<int>,
    title: Option<string>,
    overview: Option<string>,
    posterPath: Option<string>,
    backdropPath: Option<string>,
    releaseDate: Option<string>,
    voteAverage: Option<real>,
    voteCount: Option<int>,
    genreIds: Option<seq<int>>,
    adult: Option<bool>,
    originalLanguage: Option<string>,
    originalTitle: Option<string>,
    popularity: Option<real>,
    video: Option<bool>)

  /** A detail payload: the summary fields and the detail-only fields of one object. */
  datatype RawMovieDetail = RawMovieDetail(
    summary: RawMovie,
    runtime: Option<int>,
    genres: Option<seq<Genre>>,
    productionCompanies: Option<seq<ProductionCompany>>,
    productionCountries: Option<seq<ProductionCountry>>,
    spokenLanguages: Option<seq<SpokenLanguage>>,
    status: Option<string>,
    tagline: Option<string>,
    budget: Option<int>,
    revenue: Option<int>,
    homepage: Option<string>,
    imdbId: Option<string>)

  datatype RawCredits = RawCredits(cast: Option<seq<CastMember>>, crew: Option<seq<CrewMember>>)

  /** The three fetched fragments. `movie` and `credits` are objects the transform
      dereferences, so they are always present; `videos` may be anything. */
  datatype RawAllMovieDetail = RawAllMovieDetail(movie: RawMovieDetail, credits: RawCredits, videos: Option<seq<Video>>)

  /** JavaScript truthiness of a field whose type has the single falsy value
      `falsy` (0 for numbers, "" for strings, false for booleans). */
  predicate Truthy<T(==)>(x: Option<T>, falsy: T) {
    x.Some? && x.value != falsy
  }

  /** `x || fallback` */
  function Or<T(==)>(x: Option<T>, falsy: T, fallback: T): T {
    if Truthy(x, falsy) then x.value else fallback
  }

  /** `x || null` for a string */
  function OrNull(x: Option<string>): Option<string> {
    if Truthy(x, "") then x else None
  }

  /** `Array.isArray(x) ? x : []` */
  function ArrayOrEmpty<T>(x: Option<seq<T>>): seq<T> {
    if x.Some? then x.value else []
  }

  /** What `transformMovie` makes of an empty object. */
  const DefaultMovie := Movie(0, "Unknown Title", "", None, None, "", 0.0, 0, [], false, "en", "", 0.0, false)

  /** The detail-only defaults `transformMovieDetail` substitutes. */
  const DefaultStatus := "Unknown"

  const EmptyRawMovie := RawMovie(None, None, None, None, None, None, None, None, None, None, None, None, None, None)

  /** The shape `transformMovie` guarantees beyond typing: a title and an
      original language are never empty, and an image path is a non-empty
      string or null. */
  predicate Normalized(m: Movie) {
    m.title != "" && m.originalLanguage != "" && m.posterPath != Some("") && m.backdropPath != Some("")
  }

  predicate NormalizedDetail(d: MovieDetail) {
    Normalized(d.summary) && d.status != ""
  }

  /** `out` is the raw value `x` when that is truthy, and `fallback` otherwise. */
  predicate KeptOrDefault<T(==)>(x: Option<T>, falsy: T, out: T, fallback: T) {
    if Truthy(x, falsy) then out == x.value else out == fallback
  }

  /** `out` is the raw list when it is an array, and empty otherwise. */
  predicate KeptOrEmpty<T(==)>(x: Option<seq<T>>, out: seq<T>) {
    if x.Some? then out == x.value else out == []
  }

  /** Field by field, `m` keeps what `d` holds where that is truthy (a list:
      where it is an array) and holds `DefaultMovie`'s value elsewhere. */
  predicate KeepsTruthyFields(d: RawMovie, m: Movie) {
    && KeptOrDefault(d.id, 0, m.id, DefaultMovie.id)
    && KeptOrDefault(d.title, "", m.title, DefaultMovie.title)
    && KeptOrDefault(d.overview, "", m.overview, DefaultMovie.overview)
    && (if Truthy(d.posterPath, "") then m.posterPath == d.posterPath else m.posterPath == DefaultMovie.posterPath)
    && (if Truthy(d.backdropPath, "") then m.backdropPath == d.backdropPath else m.backdropPath == DefaultMovie.backdropPath)
    && KeptOrDefault(d.releaseDate, "", m.releaseDate, DefaultMovie.releaseDate)
    && KeptOrDefault(d.voteAverage, 0.0, m.voteAverage, DefaultMovie.voteAverage)
    && KeptOrDefault(d.voteCount, 0, m.voteCount, DefaultMovie.voteCount)
    && KeptOrEmpty(d.genreIds, m.genreIds)
    && KeptOrDefault(d.adult, false, m.adult, DefaultMovie.adult)
    && KeptOrDefault(d.originalLanguage, "", m.originalLanguage, DefaultMovie.originalLanguage)
    && KeptOrDefault(d.originalTitle, "", m.originalTitle, DefaultMovie.originalTitle)
    && KeptOrDefault(d.popularity, 0.0, m.popularity, DefaultMovie.popularity)
    && KeptOrDefault(d.video, false, m.video, DefaultMovie.video)
  }

  /** The detail-only fields of `out` keep what `d` holds where that is truthy
      and take 0, "", "Unknown" or [] elsewhere. */
  predicate DetailKeepsTruthyFields(d: RawMovieDetail, out: MovieDetail) {
    && KeptOrDefault(d.runtime, 0, out.runtime, 0)
    && KeptOrEmpty(d.genres, out.genres)
    && KeptOrEmpty(d.productionCompanies, out.productionCompanies)
    && KeptOrEmpty(d.productionCountries, out.productionCountries)
    && KeptOrEmpty(d.spokenLanguages, out.spokenLanguages)
    && KeptOrDefault(d.status, "", out.status, DefaultStatus)
    && KeptOrDefault(d.tagline, "", out.tagline, "")
    && KeptOrDefault(d.budget, 0, out.budget, 0)
    && KeptOrDefault(d.revenue, 0, out.revenue, 0)
    && KeptOrDefault(d.homepage, "", out.homepage, "")
    && KeptOrDefault(d.imdbId, "", out.imdbId, "")
  }

  /** transformMovie */
  function TransformMovie(data: RawMovie): (m: Movie)
    ensures Normalized(m)
    ensures KeepsTruthyFields(data, m)
  {
    Movie(
      id := Or(data.id, 0, 0),
      title := Or(data.title, "", "Unknown Title"),
      overview := Or(data.overview, "", ""),
      posterPath := OrNull(data.posterPath),
      backdropPath := OrNull(data.backdropPath),
      releaseDate := Or(data.releaseDate, "", ""),
      voteAverage := Or(data.voteAverage, 0.0, 0.0),
      voteCount := Or(data.voteCount, 0, 0),
      genreIds := ArrayOrEmpty(data.genreIds),
      adult := Or(data.adult, false, false),
      originalLanguage := Or(data.originalLanguage, "", "en"),
      originalTitle := Or(data.originalTitle, "", ""),
      popularity := Or(data.popularity, 0.0, 0.0),
      video := Or(data.video, false, false))
  }

  /** transformMovieDetail: the summary part is `transformMovie` of the detail
      object; credits and videos are normalised independently. */
  function TransformMovieDetail(data: RawAllMovieDetail): (r: AllMovieDetail)
    ensures r.movie.summary == TransformMovie(data.movie.summary)
    ensures NormalizedDetail(r.movie)
    ensures DetailKeepsTruthyFields(data.movie, r.movie)
    ensures KeptOrEmpty(data.credits.cast, r.credits.cast)
    ensures KeptOrEmpty(data.credits.crew, r.credits.crew)
    ensures KeptOrEmpty(data.videos, r.videos)
  {
    var movie := data.movie;
    AllMovieDetail(
      MovieDetail(
        summary := TransformMovie(movie.summary),
        runtime := Or(movie.runtime, 0, 0),
        genres := ArrayOrEmpty(movie.genres),
        productionCompanies := ArrayOrEmpty(movie.productionCompanies),
        productionCountries := ArrayOrEmpty(movie.productionCountries),
        spokenLanguages := ArrayOrEmpty(movie.spokenLanguages),
        status := Or(movie.status, "", DefaultStatus),
        tagline := Or(movie.tagline, "", ""),
        budget := Or(movie.budget, 0, 0),
        revenue := Or(movie.revenue, 0, 0),
        homepage := Or(movie.homepage, "", ""),
        imdbId := Or(movie.imdbId, "", "")),
      Credits(ArrayOrEmpty(data.credits.cast), ArrayOrEmpty(data.credits.crew)),
      ArrayOrEmpty(data.videos))
  }

  /** A normalised movie seen again as a payload: every field present. */
  function AsRaw(m: Movie): RawMovie {
    RawMovie(Some(m.id), Some(m.title), Some(m.overview), m.posterPath, m.backdropPath,
             Some(m.releaseDate), Some(m.voteAverage), Some(m.voteCount), Some(m.genreIds),
             Some(m.adult), Some(m.originalLanguage), Some(m.originalTitle), Some(m.popularity), Some(m.video))
  }

  function AsRawDetail(d: MovieDetail): RawMovieDetail {
    RawMovieDetail(AsRaw(d.summary), Some(d.runtime), Some(d.genres), Some(d.productionCompanies),
                   Some(d.productionCountries), Some(d.spokenLanguages), Some(d.status), Some(d.tagline),
                   Some(d.budget), Some(d.revenue), Some(d.homepage), Some(d.imdbId))
  }

  function AsRawAll(a: AllMovieDetail): RawAllMovieDetail {
    RawAllMovieDetail(AsRawDetail(a.movie), RawCredits(Some(a.credits.cast), Some(a.credits.crew)), Some(a.videos))
  }

  /** An empty object gets every default. */
  lemma TransformMovieEmpty()
    ensures TransformMovie(EmptyRawMovie) == Movie(0, "Unknown Title", "", None, None, "", 0.0, 0, [], false, "en", "", 0.0, false)
  {
  }

  /** A complete movie comes back unchanged exactly when it is already normalised:
      only an empty title or language, or an empty image path, gets replaced. */
  lemma TransformMovieFixedPoint(m: Movie)
    ensures TransformMovie(AsRaw(m)) == m <==> Normalized(m)
  {
  }

  /** Transforming an already transformed movie changes nothing. */
  lemma TransformMovieIdempotent(data: RawMovie)
    ensures TransformMovie(AsRaw(TransformMovie(data))) == TransformMovie(data)
  {
    TransformMovieFixedPoint(TransformMovie(data));
  }

  /** A detail bundle comes back unchanged exactly when its movie is normalised. */
  lemma TransformMovieDetailFixedPoint(a: AllMovieDetail)
    ensures TransformMovieDetail(AsRawAll(a)) == a <==> NormalizedDetail(a.movie)
  {
    TransformMovieFixedPoint(a.movie.summary);
  }

  lemma TransformMovieDetailIdempotent(data: RawAllMovieDetail)
    ensures TransformMovieDetail(AsRawAll(TransformMovieDetail(data))) == TransformMovieDetail(data)
  {
    TransformMovieDetailFixedPoint(TransformMovieDetail(data));
  }

  /** A detail payload with only some summary fields, an empty credits object and
      no videos array: defaults everywhere else, and empty lists. */
  lemma TransformMovieDetailMissing(summary: RawMovie)
    ensures var r := TransformMovieDetail(RawAllMovieDetail(
              RawMovieDetail(summary, None, None, None, None, None, None, None, None, None, None, None),
              RawCredits(None, None), None));
      && r.movie.runtime == 0 && r.movie.genres == [] && r.movie.status == "Unknown"
      && r.movie.budget == 0 && r.movie.revenue == 0
      && r.credits == Credits([], []) && r.videos == []
  {
  }
}
