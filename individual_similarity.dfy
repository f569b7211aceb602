/** `calculate_similarity` of the movie-details page
    (individual_movies/similarity.py, repeated verbatim in
    individual_movies/movie_data.py). Unlike the recommendation tab it gives
    0 (not a sentinel) to two movies of the same collection, never compares
    ids, has no language term, and passes `genres`, `keywords` and
    `directors` to `set(...)` / `jaccard_similarity` as raw strings, so those
    three terms compare sets of CHARACTERS; only the cast is split. */
module IndividualSimilarity {
  import opened Options
  import opened Seqs
  import opened Text
  import opened SetSimilarity
  import opened Movies
  import RecommendationScore

  /** `set(s)` of a string: its set of characters. */
  function Chars(s: string): set<char>
  {
    Elems(s)
  }

  /** `1 if set(directors1) == set(directors2) else 0`: the two strings are
      made of the same characters. */
  function CharDirectorMatch(directors1: string, directors2: string): (r: real)
    ensures r == 0.0 || r == 1.0
    ensures r == 1.0 <==> forall c :: c in directors1 <==> c in directors2
  {
    if Chars(directors1) == Chars(directors2) then
      assert forall c :: c in directors1 ==> c in Chars(directors1);
      assert forall c :: c in directors2 ==> c in Chars(directors2);
      1.0
    else
      var c :| (c in Chars(directors1)) != (c in Chars(directors2));
      assert (c in directors1) != (c in directors2);
      0.0
  }

  /** `calculate_similarity(movie1, movie2)`: 0.4 genre + 0.3 keyword + 0.2
      director + 0.1 top-eight cast, plus 0.1 per endorsement. The weights sum
      to 1.0, so outside the collection case the score lies in [0, 1.2]. */
  function IndividualScore(movie1: Movie, movie2: Movie): (r: real)
    ensures SameFranchise(movie1, movie2) ==> r == 0.0
    ensures !SameFranchise(movie1, movie2) ==> 0.0 <= r <= 1.2
  {
    if SameFranchise(movie1, movie2) then 0.0
    else
      0.4 * Jaccard(Chars(movie1.genres), Chars(movie2.genres)) +
      0.3 * Jaccard(Chars(movie1.keywords), Chars(movie2.keywords)) +
      0.2 * CharDirectorMatch(movie1.directors, movie2.directors) +
      0.1 * JaccardLists(RecommendationScore.TopCast(movie1.cast), RecommendationScore.TopCast(movie2.cast)) +
      RecommendationScore.Endorsement(movie1, movie2)
  }

  /** The letters of "Action" and of "Animation". */
  lemma ActionAnimationChars()
    ensures Chars("Action") == {'A', 'c', 't', 'i', 'o', 'n'}
    ensures Chars("Animation") == {'A', 'n', 'i', 'm', 'a', 't', 'o'}
  {
    assert "Action" == ['A', 'c', 't', 'i', 'o', 'n'];
    assert "Animation" == ['A', 'n', 'i', 'm', 'a', 't', 'i', 'o', 'n'];
  }

  /** The five letters "Action" and "Animation" share. */
  lemma SharedLetterCount()
    ensures |{'A', 't', 'i', 'o', 'n'}| == 5
  {
    var s: set<char> := {'A', 't'};
    assert |s| == 2;
    assert |s + {'i'}| == 3;
    assert |s + {'i'} + {'o'}| == 4;
    assert s + {'i'} + {'o'} + {'n'} == {'A', 't', 'i', 'o', 'n'};
  }

  /** The eight letters "Action" and "Animation" use between them. */
  lemma AllLetterCount()
    ensures |{'A', 'c', 't', 'i', 'o', 'n', 'm', 'a'}| == 8
  {
    SharedLetterCount();
    var s: set<char> := {'A', 't', 'i', 'o', 'n'};
    assert |s + {'c'}| == 6;
    assert |s + {'c'} + {'m'}| == 7;
    assert s + {'c'} + {'m'} + {'a'} == {'A', 'c', 't', 'i', 'o', 'n', 'm', 'a'};
  }

  /** "Action" and "Animation" share the five letters A, t, i, o, n, and
      use eight letters between them. */
  lemma ActionAnimationLetters()
    ensures |Chars("Action") * Chars("Animation")| == 5
    ensures |Chars("Action") + Chars("Animation")| == 8
  {
    ActionAnimationChars();
    SharedLetterCount();
    AllLetterCount();
    assert Chars("Action") * Chars("Animation") == {'A', 't', 'i', 'o', 'n'};
    assert Chars("Action") + Chars("Animation") == {'A', 'c', 't', 'i', 'o', 'n', 'm', 'a'};
  }

  /** Genre and keyword similarity look at characters: "Action" and
      "Animation" are 5/8 similar here, where the recommendation tab,
      comparing the split lists, finds them not similar at all. */
  lemma GenresCompareCharacters()
    ensures Jaccard(Chars("Action"), Chars("Animation")) == 5.0 / 8.0
    ensures JaccardLists(Split("Action", ListSep), Split("Animation", ListSep)) == 0.0
  {
    ActionAnimationLetters();
    JaccardRatio(Chars("Action"), Chars("Animation"), 5, 8);
    SplitWithoutSeparator("Action", ListSep);
    SplitWithoutSeparator("Animation", ListSep);
    assert Elems(["Action"]) * Elems(["Animation"]) == {};
  }

  /** Two empty genre cells have no characters, so the details page gives
      them no genre credit at all, where the recommendation tab, comparing
      `[""]` with `[""]`, gives them the whole genre weight. */
  lemma EmptyGenresEarnNothing(movie1: Movie, movie2: Movie)
    requires !SameFranchise(movie1, movie2)
    requires movie1.genres == "" && movie2.genres == ""
    ensures IndividualScore(movie1, movie2) <= 0.8
  {
    assert Chars("") == {};
  }

  /** Genres and keywords enter the score only through their sets of
      characters: any strings with the same letters, however they split into
      names, give the same score. */
  lemma OnlyLettersMatter(movie1: Movie, movie2: Movie, genres: string, keywords: string)
    requires Chars(genres) == Chars(movie2.genres) && Chars(keywords) == Chars(movie2.keywords)
    ensures IndividualScore(movie1, movie2.(genres := genres, keywords := keywords)) == IndividualScore(movie1, movie2)
    ensures IndividualScore(movie2.(genres := genres, keywords := keywords), movie1) == IndividualScore(movie2, movie1)
  {
  }

  /** Two non-empty genre strings with the same letters earn the whole 0.4
      genre weight, even when they name different genres. */
  lemma SameLettersFullGenreWeight(movie1: Movie, movie2: Movie)
    requires !SameFranchise(movie1, movie2)
    requires movie1.genres != [] && Chars(movie1.genres) == Chars(movie2.genres)
    ensures IndividualScore(movie1, movie2) >= 0.4
  {
    assert movie1.genres[0] in Chars(movie1.genres);
    assert Jaccard(Chars(movie1.genres), Chars(movie2.genres)) == 1.0;
  }

  /** There is no id check: a movie outside any collection is similar to
      itself, by at least the director and cast weights. */
  lemma SelfScoreIsPositive(m: Movie)
    requires m.belongsToId.None?
    ensures IndividualScore(m, m) >= 0.3
  {
    var cast := RecommendationScore.TopCast(m.cast);
    assert cast != [];
    JaccardSameElements(cast, cast);
  }

  /** Actors billed after the eighth never change the score. */
  lemma CastAfterEighthIgnored(movie1: Movie, movie2: Movie, more: string)
    requires |Split(movie2.cast, ListSep)| >= 8
    ensures IndividualScore(movie1, movie2.(cast := movie2.cast + ListSep + more)) == IndividualScore(movie1, movie2)
    ensures IndividualScore(movie2.(cast := movie2.cast + ListSep + more), movie1) == IndividualScore(movie2, movie1)
  {
    RecommendationScore.TopCastIgnoresTail(movie2.cast, more);
  }
}
