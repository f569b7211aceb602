/** `get_recommendations_by_name` of the movie-details page
    (individual_movies/similarity.py, repeated in
    individual_movies/movie_data.py): the first movie whose title contains
    the given name is the seed; every row is scored against it with the
    page's own scorer, the seven best rows are kept, and those titled
    exactly the name are dropped. */
module RecommendationsByName {
  import opened Options
  import opened Seqs
  import opened Text
  import opened Movies
  import opened Ranking
  import opened IndividualSimilarity

  /** The separator before a release year in a display name: `" ("`. */
  const YearSep: string := " ("

  /** `movie_name.split(' (')[0]`: the name up to its first `" ("`. */
  function TitleStem(name: string): (stem: string)
    ensures stem <= name
    ensures !Contains(stem, YearSep)
    ensures !Contains(name, YearSep) ==> stem == name
    ensures Contains(name, YearSep) ==> OccursAt(name, YearSep, |stem|)
  {
    SplitFirstPiece(name, YearSep);
    Split(name, YearSep)[0]
  }

  /** `df['original_title'].str.contains(stem, case=False)`. */
  predicate TitleMatches(m: Movie, stem: string)
  {
    ContainsIgnoringCase(m.originalTitle, stem)
  }

  /** The rows whose title matches, in frame order. */
  function Matches(movies: seq<Movie>, stem: string): (matches: seq<Movie>)
    ensures forall m :: m in matches <==> m in movies && TitleMatches(m, stem)
  {
    WhereElements(movies, (m: Movie) => TitleMatches(m, stem));
    Where(movies, (m: Movie) => TitleMatches(m, stem))
  }

  /** The empty name is contained in every title, so every row matches and
      the seed is the first row of the frame. */
  lemma EmptyNameMatchesEveryRow(movies: seq<Movie>)
    ensures Matches(movies, TitleStem("")) == movies
  {
    assert TitleStem("") == [] by { SplitEmpty(YearSep); }
    assert Lower([]) == [];
    forall m: Movie ensures TitleMatches(m, []) {
      ContainsEmpty(Lower(m.originalTitle));
    }
    WhereAll(movies, (m: Movie) => TitleMatches(m, []));
  }

  /** `head(7)`, then the rows not titled exactly `stem`. */
  function TopWithoutTitle(ranked: seq<Scored>, stem: string): seq<Scored>
  {
    Where(Head(ranked, 7), (r: Scored) => r.movie.originalTitle != stem)
  }

  /** `recs` is what the pipeline returns for some ranking of `rows`: the
      order of equal scores is left open. */
  ghost predicate IsNameSelection(recs: seq<Scored>, rows: seq<Scored>, stem: string)
  {
    exists ranked :: IsRanking(ranked, rows) && recs == TopWithoutTitle(ranked, stem)
  }

  /** Whatever the order of ties: at most seven rows of the frame, in
      non-increasing score order, none titled exactly the name. */
  lemma NameSelectionProperties(recs: seq<Scored>, rows: seq<Scored>, stem: string)
    requires IsNameSelection(recs, rows, stem)
    ensures |recs| <= 7
    ensures NonIncreasing(recs)
    ensures forall r :: r in recs ==> r in rows && r.movie.originalTitle != stem
  {
    var ranked :| IsRanking(ranked, rows) && recs == TopWithoutTitle(ranked, stem);
    var top := Head(ranked, 7);
    assert NonIncreasing(top);
    WhereKeepsOrder(top, (r: Scored) => r.movie.originalTitle != stem);
    WhereElements(top, (r: Scored) => r.movie.originalTitle != stem);
    forall r | r in recs ensures r in rows && r.movie.originalTitle != stem {
      var i :| 0 <= i < |recs| && recs[i] == r;
      assert r in top;
      assert r in multiset(ranked);
    }
  }

  /** `df.sort_values(by='similarity', ascending=False).head(7)` and the drop
      of rows titled `stem`. */
  method RankAndDropTitle(rows: seq<Scored>, stem: string) returns (recs: seq<Scored>)
    ensures IsNameSelection(recs, rows, stem)
  {
    var ranked := SortByScore(rows);
    recs := Head(ranked, 7);
    recs := Where(recs, (r: Scored) => r.movie.originalTitle != stem);
    assert recs == TopWithoutTitle(ranked, stem);
  }

  /** `get_recommendations_by_name(movie_name, df)`. With no matching title
      the result is empty and the frame is untouched. Otherwise the frame's
      `similarity` column holds every row's score against the first match,
      and the result is the top seven of some ranking of the rows, minus
      those titled exactly the name. */
  method RecommendByName(movieName: string, df: Frame) returns (recs: seq<Scored>)
    modifies df`similarity
    ensures Matches(df.movies, TitleStem(movieName)) == [] ==> recs == [] && df.similarity == old(df.similarity)
    ensures Matches(df.movies, TitleStem(movieName)) != [] ==>
      var seed := Matches(df.movies, TitleStem(movieName))[0];
      df.similarity.Some? && |df.similarity.value| == |df.movies| &&
      (forall i :: 0 <= i < |df.movies| ==> df.similarity.value[i] == IndividualScore(seed, df.movies[i])) &&
      IsNameSelection(recs, WithScores(df.movies, df.similarity.value), TitleStem(movieName))
    ensures |recs| <= 7 && NonIncreasing(recs)
    ensures forall r :: r in recs ==>
      r.movie in df.movies && r.movie.originalTitle != TitleStem(movieName) &&
      r.score == IndividualScore(Matches(df.movies, TitleStem(movieName))[0], r.movie)
  {
    var stem := TitleStem(movieName);
    var matching := Matches(df.movies, stem);
    if matching == [] {
      return [];
    }
    var seed := matching[0];
    var column := Apply(df.movies, (x: Movie) => IndividualScore(seed, x));
    df.similarity := Some(column);
    var rows := WithScores(df.movies, column);
    recs := RankAndDropTitle(rows, stem);
    NameSelectionProperties(recs, rows, stem);
    forall r | r in recs ensures r.movie in df.movies && r.score == IndividualScore(seed, r.movie) {
      var i :| 0 <= i < |rows| && rows[i] == r;
    }
  }
}
