/** The movie record, one row of the movie data frame, and the data frame
    itself as the recommenders see it. */
module Movies {
  import opened Options

  /** A row of the movie dataset. The list-valued columns (`genres`,
      `keywords`, `spoken_languages`, `directors`, `cast`) are strings the
      scorers split on `", "`; `recommendations` and `similar_movies` are
      free text searched for titles. A NaN `belongs_to_id` is `None`.
      Display-only columns are omitted. */
  datatype Movie = Movie(
    id: int,
    originalTitle: string,
    releaseYear: int,
    genres: string,
    keywords: string,
    spokenLanguages: string,
    directors: string,
    cast: string,
    belongsToId: Option<int>,
    voteAverage: real,
    voteCount: int,
    runtime: int,
    recommendations: string,
    similarMovies: string)

  /** Both `belongs_to_id` values are present and equal (`pd.notna` on both
      sides, then `==`): the two movies are in the same collection. */
  predicate SameFranchise(a: Movie, b: Movie)
  {
    a.belongsToId.Some? && b.belongsToId.Some? && a.belongsToId.value == b.belongsToId.value
  }

  /** The caller's data frame: its rows, and the `similarity` column that the
      recommenders write into it (absent until one of them runs). */
  class Frame {
    var movies: seq<Movie>
    var similarity: Option<seq<real>>

    constructor (movies: seq<Movie>)
      ensures this.movies == movies && similarity == None
    {
      this.movies := movies;
      similarity := None;
    }
  }

  /** `df.apply(f, axis=1)`: the value of `f` on every row, in row order. */
  method Apply(rows: seq<Movie>, f: Movie -> real) returns (column: seq<real>)
    ensures |column| == |rows|
    ensures forall i :: 0 <= i < |rows| ==> column[i] == f(rows[i])
  {
    column := [];
    var i := 0;
    while i < |rows|
      invariant i <= |rows|
      invariant |column| == i
      invariant forall k :: 0 <= k < i ==> column[k] == f(rows[k])
    {
      column := column + [f(rows[i])];
      i := i + 1;
    }
  }
}
