/** `get_recommendations_by_ids` of the recommendation tab, in its two
    variants: recommendations/display.py with the rating, language, runtime,
    year and genre filters, and recommendations/movie_recs.py with the rating
    filter only. Both score every row of the frame against the seed rows,
    write that score into the frame's `similarity` column, rank the rows,
    filter them, drop suspiciously under-voted high ratings, keep the first
    seven and then take the seeds out. */
module RecommendationsByIds {
  import opened Options
  import opened Seqs
  import opened Text
  import opened Movies
  import opened Ranking
  import opened RecommendationScore

  /** `df[df['id'].isin(movie_ids)]`: the seed rows, in frame order. */
  function Seeds(movieIds: seq<int>, movies: seq<Movie>): (seeds: seq<Movie>)
    ensures forall m :: m in seeds <==> m in movies && m.id in movieIds
  {
    WhereElements(movies, (m: Movie) => m.id in movieIds);
    Where(movies, (m: Movie) => m.id in movieIds)
  }

  /** Which rows are seeds depends only on the set of ids asked for: an id
      repeated in `movie_ids` does not make its row count twice. */
  lemma SeedsIgnoreRepeats(movieIds1: seq<int>, movieIds2: seq<int>, movies: seq<Movie>)
    requires forall id :: id in movieIds1 <==> id in movieIds2
    ensures Seeds(movieIds1, movies) == Seeds(movieIds2, movies)
  {
    WhereExt(movies, (m: Movie) => m.id in movieIds1, (m: Movie) => m.id in movieIds2);
  }

  /** `sum(calculate_similarity(movie, x) for movie in seeds)`. Against a row
      that no seed excludes the sum is between 0 and 1.1 per seed; against a
      row that some seed excludes (itself, or one of its collection) the
      sentinel pulls it below `Sentinel + 1.1 * (|seeds| - 1)`. */
  function AggregateScore(seeds: seq<Movie>, x: Movie): (r: real)
    ensures r <= 1.1 * (|seeds| as real)
    ensures (forall s :: s in seeds ==> !Excluded(s, x)) ==> 0.0 <= r
    ensures (exists s :: s in seeds && Excluded(s, x)) ==> r <= Sentinel + 1.1 * ((|seeds| - 1) as real)
    decreases |seeds|
  {
    if seeds == [] then 0.0
    else
      assert forall s :: s in seeds[1..] ==> s in seeds;
      assert forall s :: s in seeds ==> s == seeds[0] || s in seeds[1..];
      PairScore(seeds[0], x) + AggregateScore(seeds[1..], x)
  }

  /** With fewer than 900001 seeds, every row that some seed excludes ranks
      strictly below every row that no seed excludes. */
  lemma ExcludedRowsRankLast(seeds: seq<Movie>, x: Movie, y: Movie)
    requires |seeds| <= 900000
    requires exists s :: s in seeds && Excluded(s, x)
    requires forall s :: s in seeds ==> !Excluded(s, y)
    ensures AggregateScore(seeds, x) < AggregateScore(seeds, y)
  {
  }

  /** `column` is the `similarity` column: each row's summed score against the seeds. */
  predicate IsScoreColumn(column: seq<real>, seeds: seq<Movie>, movies: seq<Movie>)
  {
    |column| == |movies| &&
    forall i :: 0 <= i < |movies| ==> column[i] == AggregateScore(seeds, movies[i])
  }

  predicate InRatingRange(m: Movie, minRating: real, maxRating: real)
  {
    minRating <= m.voteAverage <= maxRating
  }

  /** `spoken_languages.str.contains(language_filter, case=False)`. */
  predicate SpeaksLanguage(m: Movie, languageFilter: string)
  {
    ContainsIgnoringCase(m.spokenLanguages, languageFilter)
  }

  predicate WithinRuntime(m: Movie, runtimeMax: int)
  {
    m.runtime <= runtimeMax
  }

  predicate InYearRange(m: Movie, releaseYearRange: (int, int))
  {
    releaseYearRange.0 <= m.releaseYear <= releaseYearRange.1
  }

  /** Every requested genre occurs in the `genres` text (AND over substrings). */
  predicate HasAllGenres(m: Movie, genreFilters: seq<string>)
  {
    forall g :: g in genreFilters ==> Contains(m.genres, g)
  }

  /** A high rating on too few votes: `vote_average > 6.5 and vote_count < 500`. */
  predicate Suspicious(m: Movie)
  {
    m.voteAverage > 6.5 && m.voteCount < 500
  }

  /** The filters of display.py, all at once. */
  predicate PassesFilters(m: Movie, minRating: real, maxRating: real, languageFilter: string,
                          runtimeMax: int, releaseYearRange: (int, int), genreFilters: seq<string>)
  {
    InRatingRange(m, minRating, maxRating) && SpeaksLanguage(m, languageFilter) &&
    WithinRuntime(m, runtimeMax) && InYearRange(m, releaseYearRange) && HasAllGenres(m, genreFilters)
  }

  /** An empty language filter admits every row. */
  lemma EmptyLanguageAdmitsAll(m: Movie)
    ensures SpeaksLanguage(m, "")
  {
    assert Lower("") == "";
    ContainsEmpty(Lower(m.spokenLanguages));
  }

  /** An empty genre list imposes nothing, and a row with the genres text
      "Action, Drama" passes the filter for "Drama" and "Action" alike. */
  lemma GenreFilterIsSubstringAnd(m: Movie)
    ensures HasAllGenres(m, [])
    ensures m.genres == "Action, Drama" ==> HasAllGenres(m, ["Drama", "Action"])
    ensures m.genres == "Action, Drama" ==> !HasAllGenres(m, ["Drama", "Comedy"])
  {
    if m.genres == "Action, Drama" {
      assert OccursAt(m.genres, "Drama", 8);
      assert OccursAt(m.genres, "Action", 0);
      assert !Contains(m.genres, "Comedy") by {
        forall i | 0 <= i <= |m.genres| ensures !OccursAt(m.genres, "Comedy", i) {
          if i + 6 <= |m.genres| {
            assert m.genres[i..i + 6][0] == m.genres[i];
          }
        }
      }
    }
  }

  /** After ranking, the shared tail of both variants: keep the admitted rows
      that are not suspicious, take the first seven, drop the seeds. */
  function Shortlist(ranked: seq<Scored>, movieIds: seq<int>, admit: Movie -> bool): seq<Scored>
  {
    Where(Head(Where(ranked, (r: Scored) => admit(r.movie) && !Suspicious(r.movie)), 7),
          (r: Scored) => r.movie.id !in movieIds)
  }

  /** `recs` is what the pipeline returns for some ranking of `rows`: pandas
      leaves the order of equal scores open. */
  ghost predicate IsSelection(recs: seq<Scored>, rows: seq<Scored>, movieIds: seq<int>, admit: Movie -> bool)
  {
    exists ranked :: IsRanking(ranked, rows) && recs == Shortlist(ranked, movieIds, admit)
  }

  /** Whatever the order of ties: at most seven rows, in non-increasing score
      order, each one a row of the frame that passes the filters, is not
      suspicious and is not a seed. */
  lemma SelectionProperties(recs: seq<Scored>, rows: seq<Scored>, movieIds: seq<int>, admit: Movie -> bool)
    requires IsSelection(recs, rows, movieIds, admit)
    ensures |recs| <= 7
    ensures NonIncreasing(recs)
    ensures forall r :: r in recs ==>
      r in rows && admit(r.movie) && !Suspicious(r.movie) && r.movie.id !in movieIds
  {
    var ranked :| IsRanking(ranked, rows) && recs == Shortlist(ranked, movieIds, admit);
    var kept := Where(ranked, (r: Scored) => admit(r.movie) && !Suspicious(r.movie));
    WhereKeepsOrder(ranked, (r: Scored) => admit(r.movie) && !Suspicious(r.movie));
    var top := Head(kept, 7);
    assert NonIncreasing(top);
    WhereKeepsOrder(top, (r: Scored) => r.movie.id !in movieIds);
    WhereElements(ranked, (r: Scored) => admit(r.movie) && !Suspicious(r.movie));
    WhereElements(top, (r: Scored) => r.movie.id !in movieIds);
    forall r | r in recs
      ensures r in rows && admit(r.movie) && !Suspicious(r.movie) && r.movie.id !in movieIds
    {
      assert r in top;
      assert r in kept;
      assert r in multiset(ranked);
    }
  }

  /** The shortlist as taken from the frame: besides the properties of any
      selection, every result carries its row's summed score against the seeds. */
  lemma {:induction false} FrameSelectionProperties(recs: seq<Scored>, movies: seq<Movie>, column: seq<real>,
                                                    seeds: seq<Movie>, movieIds: seq<int>, admit: Movie -> bool)
    requires IsScoreColumn(column, seeds, movies)
    requires IsSelection(recs, WithScores(movies, column), movieIds, admit)
    ensures |recs| <= 7 && NonIncreasing(recs)
    ensures forall r :: r in recs ==>
      r.movie in movies && r.score == AggregateScore(seeds, r.movie) &&
      admit(r.movie) && !Suspicious(r.movie) && r.movie.id !in movieIds
  {
    var rows := WithScores(movies, column);
    SelectionProperties(recs, rows, movieIds, admit);
    forall r | r in recs
      ensures r.movie in movies && r.score == AggregateScore(seeds, r.movie)
    {
      var i :| 0 <= i < |rows| && rows[i] == r;
      assert r.movie == movies[i];
    }
  }

  /** display.py lines 12-21 on the scored rows: rank them, apply the five
      filters and the popularity floor one mask at a time, keep the first
      seven, drop the seeds. */
  method RankAndFilter(rows: seq<Scored>, movieIds: seq<int>, minRating: real, maxRating: real,
                       languageFilter: string, runtimeMax: int, releaseYearRange: (int, int),
                       genreFilters: seq<string>) returns (recs: seq<Scored>)
    ensures IsSelection(recs, rows, movieIds,
                        (m: Movie) => PassesFilters(m, minRating, maxRating, languageFilter, runtimeMax, releaseYearRange, genreFilters))
  {
    var ranked := SortByScore(rows);
    // The successive masks. After each one, `recs` is the mask of `ranked`
    // by the conjunction of the masks so far (`upToLanguage`, ...).
    var byRating := (r: Scored) => InRatingRange(r.movie, minRating, maxRating);
    var byLanguage := (r: Scored) => SpeaksLanguage(r.movie, languageFilter);
    var byRuntime := (r: Scored) => WithinRuntime(r.movie, runtimeMax);
    var byYear := (r: Scored) => InYearRange(r.movie, releaseYearRange);
    var byGenres := (r: Scored) => HasAllGenres(r.movie, genreFilters);
    var notSuspicious := (r: Scored) => !Suspicious(r.movie);
    ghost var upToLanguage := (r: Scored) =>
      InRatingRange(r.movie, minRating, maxRating) && SpeaksLanguage(r.movie, languageFilter);
    ghost var upToRuntime := (r: Scored) =>
      InRatingRange(r.movie, minRating, maxRating) && SpeaksLanguage(r.movie, languageFilter) &&
      WithinRuntime(r.movie, runtimeMax);
    ghost var upToYear := (r: Scored) =>
      InRatingRange(r.movie, minRating, maxRating) && SpeaksLanguage(r.movie, languageFilter) &&
      WithinRuntime(r.movie, runtimeMax) && InYearRange(r.movie, releaseYearRange);
    ghost var upToGenres := (r: Scored) =>
      PassesFilters(r.movie, minRating, maxRating, languageFilter, runtimeMax, releaseYearRange, genreFilters);
    ghost var upToFloor := (r: Scored) =>
      PassesFilters(r.movie, minRating, maxRating, languageFilter, runtimeMax, releaseYearRange, genreFilters) &&
      !Suspicious(r.movie);

    recs := Where(ranked, byRating);
    recs := Where(recs, byLanguage);
    assert recs == Where(ranked, upToLanguage) by {
      WhereWhere(ranked, byRating, byLanguage, upToLanguage);
    }
    recs := Where(recs, byRuntime);
    assert recs == Where(ranked, upToRuntime) by {
      WhereWhere(ranked, upToLanguage, byRuntime, upToRuntime);
    }
    recs := Where(recs, byYear);
    assert recs == Where(ranked, upToYear) by {
      WhereWhere(ranked, upToRuntime, byYear, upToYear);
    }
    if |genreFilters| > 0 {
      recs := Where(recs, byGenres);
      assert recs == Where(ranked, upToGenres) by {
        WhereWhere(ranked, upToYear, byGenres, upToGenres);
      }
    } else {
      assert recs == Where(ranked, upToGenres) by {
        WhereExt(ranked, upToYear, upToGenres);
      }
    }
    recs := Where(recs, notSuspicious);
    assert recs == Where(ranked, upToFloor) by {
      WhereWhere(ranked, upToGenres, notSuspicious, upToFloor);
    }
    recs := Head(recs, 7);
    recs := Where(recs, (r: Scored) => r.movie.id !in movieIds);

    ghost var admit := (m: Movie) => PassesFilters(m, minRating, maxRating, languageFilter, runtimeMax, releaseYearRange, genreFilters);
    WhereExt(ranked, upToFloor, (r: Scored) => admit(r.movie) && !Suspicious(r.movie));
    assert IsRanking(ranked, rows) && recs == Shortlist(ranked, movieIds, admit);
  }

  /** movie_recs.py lines 45-49 on the scored rows: rank, rating filter,
      popularity floor, first seven, drop the seeds. */
  method RankAndFilterByRating(rows: seq<Scored>, movieIds: seq<int>, minRating: real, maxRating: real)
    returns (recs: seq<Scored>)
    ensures IsSelection(recs, rows, movieIds, (m: Movie) => InRatingRange(m, minRating, maxRating))
  {
    var ranked := SortByScore(rows);
    var byRating := (r: Scored) => InRatingRange(r.movie, minRating, maxRating);
    var notSuspicious := (r: Scored) => !Suspicious(r.movie);
    ghost var admit := (m: Movie) => InRatingRange(m, minRating, maxRating);
    WhereWhere(ranked, byRating, notSuspicious, (r: Scored) => admit(r.movie) && !Suspicious(r.movie));
    recs := Where(ranked, byRating);
    recs := Where(recs, notSuspicious);
    recs := Head(recs, 7);
    recs := Where(recs, (r: Scored) => r.movie.id !in movieIds);
    assert recs == Shortlist(ranked, movieIds, admit);
  }

  /** display.py `get_recommendations_by_ids`. With no seed row in the frame
      the result is empty and the frame is untouched. Otherwise the frame's
      `similarity` column is replaced by the summed scores (its rows stay as
      they were) and the result is the shortlist of some ranking of the rows. */
  method RecommendByIds(movieIds: seq<int>, minRating: real, maxRating: real, df: Frame,
                        languageFilter: string, runtimeMax: int, releaseYearRange: (int, int),
                        genreFilters: seq<string>) returns (recs: seq<Scored>)
    modifies df`similarity
    ensures Seeds(movieIds, df.movies) == [] ==> recs == [] && df.similarity == old(df.similarity)
    ensures Seeds(movieIds, df.movies) != [] ==>
      df.similarity.Some? && IsScoreColumn(df.similarity.value, Seeds(movieIds, df.movies), df.movies) &&
      IsSelection(recs, WithScores(df.movies, df.similarity.value), movieIds,
                  (m: Movie) => PassesFilters(m, minRating, maxRating, languageFilter, runtimeMax, releaseYearRange, genreFilters))
    ensures |recs| <= 7 && NonIncreasing(recs)
    ensures forall r :: r in recs ==>
      r.movie in df.movies && r.score == AggregateScore(Seeds(movieIds, df.movies), r.movie) &&
      r.movie.id !in movieIds && !Suspicious(r.movie) &&
      PassesFilters(r.movie, minRating, maxRating, languageFilter, runtimeMax, releaseYearRange, genreFilters)
  {
    var selected := Seeds(movieIds, df.movies);
    if selected == [] {
      return [];
    }
    var column := Apply(df.movies, (x: Movie) => AggregateScore(selected, x));
    df.similarity := Some(column);
    recs := RankAndFilter(WithScores(df.movies, column), movieIds, minRating, maxRating,
                          languageFilter, runtimeMax, releaseYearRange, genreFilters);
    FrameSelectionProperties(recs, df.movies, column, selected, movieIds,
                             (m: Movie) => PassesFilters(m, minRating, maxRating, languageFilter, runtimeMax, releaseYearRange, genreFilters));
  }

  /** movie_recs.py `get_recommendations_by_ids`: the same pipeline with the
      rating filter only. */
  method RecommendByIdsRatingOnly(movieIds: seq<int>, minRating: real, maxRating: real, df: Frame)
    returns (recs: seq<Scored>)
    modifies df`similarity
    ensures Seeds(movieIds, df.movies) == [] ==> recs == [] && df.similarity == old(df.similarity)
    ensures Seeds(movieIds, df.movies) != [] ==>
      df.similarity.Some? && IsScoreColumn(df.similarity.value, Seeds(movieIds, df.movies), df.movies) &&
      IsSelection(recs, WithScores(df.movies, df.similarity.value), movieIds,
                  (m: Movie) => InRatingRange(m, minRating, maxRating))
    ensures |recs| <= 7 && NonIncreasing(recs)
    ensures forall r :: r in recs ==>
      r.movie in df.movies && r.score == AggregateScore(Seeds(movieIds, df.movies), r.movie) &&
      r.movie.id !in movieIds && !Suspicious(r.movie) && InRatingRange(r.movie, minRating, maxRating)
  {
    var selected := Seeds(movieIds, df.movies);
    if selected == [] {
      return [];
    }
    var column := Apply(df.movies, (x: Movie) => AggregateScore(selected, x));
    df.similarity := Some(column);
    recs := RankAndFilterByRating(WithScores(df.movies, column), movieIds, minRating, maxRating);
    FrameSelectionProperties(recs, df.movies, column, selected, movieIds,
                             (m: Movie) => InRatingRange(m, minRating, maxRating));
  }
}
