/** The normalised shapes the application works with once a payload has been
    through the transform layer: every field present, lists always lists.
    `None` in an `Option` field is JSON `null`. */
module MovieTypes {
  import opened Wrappers

  /** A movie summary, as list endpoints return it. Numbers the API sends as
      decimals (`vote_average`, `popularity`) are reals. */
  datatype Movie = Movie(
    id: int,
    title: string,
    overview: string,
    posterPath: Option<string>,
    backdropPath: Option<string>,
    releaseDate: string,
    voteAverage: real,
    voteCount: int,
    genreIds: seq<int>,
    adult: bool,
    originalLanguage: string,
    originalTitle: string,
    popularity: real,
    video: bool)

  datatype Genre = Genre(id: int, name: string)
  datatype ProductionCompany = ProductionCompany(id: int, name: string, logoPath: Option<string>, originCountry: string)
  datatype ProductionCountry = ProductionCountry(iso3166: string, name: string)
  datatype SpokenLanguage = SpokenLanguage(iso639: string, name: string)

  /** A movie's detail record: the summary fields plus the detail-only ones. */
  datatype MovieDetail = MovieDetail(
    summary: Movie,
    runtime: int,
    genres: seq<Genre>,
    productionCompanies: seq<ProductionCompany>,
    productionCountries: seq<ProductionCountry>,
    spokenLanguages: seq<SpokenLanguage>,
    status: string,
    tagline: string,
    budget: int,
    revenue: int,
    homepage: string,
    imdbId: string)

  datatype CastMember = CastMember(id: int, name: string, character: string, profilePath: Option<string>)
  datatype CrewMember = CrewMember(id: int, name: string, job: string, profilePath: Option<string>)
  datatype Credits = Credits(cast: seq<CastMember>, crew: seq<CrewMember>)

  /** A video attached to a movie; `kind` is the API's `type` field. */
  datatype Video = Video(id: string, key: string, name: string, site: string, kind: string, official: bool, publishedAt: string)

  /** The detail, credits and videos of one movie, fetched together. */
  datatype AllMovieDetail = AllMovieDetail(movie: MovieDetail, credits: Credits, videos: seq<Video>)
}
