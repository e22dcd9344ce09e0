/** The values the movie detail body (components/MovieDetails/Info/infoContent.tsx)
    selects from the credits before rendering: the director and the main cast. */
module InfoContent {
  import opened Wrappers
  import opened MovieTypes
  import ArrayOps

  /** How many cast members the page shows. */
  const MainCastSize := 8

  predicate IsDirector(c: CrewMember) {
    c.job == "Director"
  }

  /** `credits.crew.find((person) => person.job === "Director")` */
  function Director(credits: Credits): (r: Option<CrewMember>)
    ensures r.None? <==> forall i :: 0 <= i < |credits.crew| ==> credits.crew[i].job != "Director"
    ensures r.Some? ==> exists i :: 0 <= i < |credits.crew| && credits.crew[i] == r.value && r.value.job == "Director"
                                   && forall j :: 0 <= j < i ==> credits.crew[j].job != "Director"
  {
    ArrayOps.Find(credits.crew, IsDirector)
  }

  /** `credits.cast.slice(0, 8)`: the first eight cast members, or all of them. */
  function MainCast(credits: Credits): (r: seq<CastMember>)
    ensures |r| == if |credits.cast| < MainCastSize then |credits.cast| else MainCastSize
    ensures r <= credits.cast
  {
    if |credits.cast| < MainCastSize then credits.cast else credits.cast[..MainCastSize]
  }

  /** The director block is rendered when a director was found. */
  predicate ShowsDirector(credits: Credits) {
    Director(credits).Some?
  }

  /** The cast block is rendered when the main cast is not empty. */
  predicate ShowsMainCast(credits: Credits) {
    |MainCast(credits)| > 0
  }

  lemma ShowsDirectorIffDirectorCredited(credits: Credits)
    ensures ShowsDirector(credits) <==> exists i :: 0 <= i < |credits.crew| && credits.crew[i].job == "Director"
  {
  }

  lemma ShowsMainCastIffCast(credits: Credits)
    ensures ShowsMainCast(credits) <==> credits.cast != []
  {
  }

  /** A cast of at most eight is shown whole. */
  lemma SmallCastShownWhole(credits: Credits)
    requires |credits.cast| <= MainCastSize
    ensures MainCast(credits) == credits.cast
  {
  }
}
