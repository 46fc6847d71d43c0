/**
 * The movie record and its computed properties (Models/Movie.swift).
 * A movie is an immutable value; the derived fields are pure string functions.
 */
module Movies {
  import opened Wrappers

  /**
   * A movie as the catalog API returns it. The two floating-point fields of the
   * record (vote average and popularity) are not modelled.
   */
  datatype Movie = Movie(
    id: int,
    title: string,
    originalTitle: string,
    overview: string,
    releaseDate: string,
    posterPath: Option<string>,
    backdropPath: Option<string>,
    voteCount: int,
    originalLanguage: string,
    adult: bool,
    video: bool,
    genreIds: seq<int>)

  /** Image base URL for posters (width 500). */
  const PosterBase: string := "https://image.tmdb.org/t/p/w500"

  /** Image base URL for backdrops (width 1280). */
  const BackdropBase: string := "https://image.tmdb.org/t/p/w1280"

  /** `releaseYear`: the first four characters of the release date, or all of it when shorter. */
  function ReleaseYear(m: Movie): (year: string)
    ensures |year| == if |m.releaseDate| < 4 then |m.releaseDate| else 4
    ensures year <= m.releaseDate
  {
    if |m.releaseDate| <= 4 then m.releaseDate else m.releaseDate[..4]
  }

  /** An optional path fragment appended to a base URL; no fragment gives no URL. */
  function Prefixed(base: string, path: Option<string>): (url: Option<string>)
    ensures url.Some? <==> path.Some?
    ensures url.Some? ==> base <= url.value && url.value[|base|..] == path.value
  {
    match path
    case None => None
    case Some(p) => Some(base + p)
  }

  /** `fullPosterPath`: the poster fragment behind the w500 base URL. */
  function FullPosterPath(m: Movie): (url: Option<string>)
    ensures url.Some? <==> m.posterPath.Some?
    ensures url.Some? ==> PosterBase <= url.value
  {
    Prefixed(PosterBase, m.posterPath)
  }

  /** `fullBackdropPath`: the backdrop fragment behind the w1280 base URL. */
  function FullBackdropPath(m: Movie): (url: Option<string>)
    ensures url.Some? <==> m.backdropPath.Some?
    ensures url.Some? ==> BackdropBase <= url.value
  {
    Prefixed(BackdropBase, m.backdropPath)
  }

  /** Removes a base URL from the front of a URL; the inverse of `Prefixed`. */
  function StripBase(base: string, url: string): (path: Option<string>)
    ensures path.Some? <==> base <= url
    ensures path.Some? ==> base + path.value == url
  {
    if base <= url then Some(url[|base|..]) else None
  }

  /** Stripping the poster base from a full poster URL gives back the poster fragment. */
  lemma PosterPathRoundTrip(m: Movie)
    requires m.posterPath.Some?
    ensures StripBase(PosterBase, FullPosterPath(m).value) == m.posterPath
  {
    var p := m.posterPath.value;
    assert (PosterBase + p)[|PosterBase|..] == p;
  }

  /** Stripping the backdrop base from a full backdrop URL gives back the backdrop fragment. */
  lemma BackdropPathRoundTrip(m: Movie)
    requires m.backdropPath.Some?
    ensures StripBase(BackdropBase, FullBackdropPath(m).value) == m.backdropPath
  {
    var p := m.backdropPath.value;
    assert (BackdropBase + p)[|BackdropBase|..] == p;
  }

  /** Two movies get the same poster URL exactly when they have the same poster fragment. */
  lemma FullPosterPathInjective(m: Movie, n: Movie)
    ensures FullPosterPath(m) == FullPosterPath(n) <==> m.posterPath == n.posterPath
  {
    if FullPosterPath(m) == FullPosterPath(n) && m.posterPath.Some? {
      PosterPathRoundTrip(m);
      PosterPathRoundTrip(n);
    }
  }

  /** A poster URL never equals a backdrop URL: the two bases differ at the width digit. */
  lemma PosterNeverBackdrop(m: Movie, n: Movie)
    requires m.posterPath.Some? && n.backdropPath.Some?
    ensures FullPosterPath(m).value != FullBackdropPath(n).value
  {
    var poster, backdrop := FullPosterPath(m).value, FullBackdropPath(n).value;
    assert poster[28] == PosterBase[28] == '5';
    assert backdrop[28] == BackdropBase[28] == '1';
  }

  /** A release date of at least four characters gives a four-character year, which with the rest is the date. */
  lemma ReleaseYearSplitsDate(m: Movie)
    requires |m.releaseDate| >= 4
    ensures |ReleaseYear(m)| == 4
    ensures ReleaseYear(m) + m.releaseDate[4..] == m.releaseDate
  {
    assert m.releaseDate[..4] + m.releaseDate[4..] == m.releaseDate;
  }
}
