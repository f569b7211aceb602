/** `calculate_similarity` of the recommendation tab
    (recommendations/similarity_calculator.py, repeated verbatim in
    recommendations/movie_recs.py): a sentinel for the same movie or the same
    collection, otherwise a weighted sum of five Jaccard-style terms over the
    `", "`-split list columns plus 0.1 per title endorsement. */
module RecommendationScore {
  import opened Options
  import opened Seqs
  import opened Text
  import opened SetSimilarity
  import opened Movies

  /** The score of a pair that must never be recommended. */
  const Sentinel: real := -1000000.0

  /** Only the first eight billed actors are compared: `cast.split(', ')[:8]`. */
  function TopCast(cast: string): (top: seq<string>)
    ensures top <= Split(cast, ListSep) && |top| <= 8
    ensures |top| < 8 ==> top == Split(cast, ListSep)
  {
    Head(Split(cast, ListSep), 8)
  }

  /** 1 when the two director lists name the same set of directors, else 0. */
  function DirectorMatch(directors1: string, directors2: string): (r: real)
    ensures r == 0.0 || r == 1.0
    ensures r == 1.0 <==> forall d :: d in Split(directors1, ListSep) <==> d in Split(directors2, ListSep)
  {
    var a, b := Elems(Split(directors1, ListSep)), Elems(Split(directors2, ListSep));
    if a == b then
      assert forall d :: d in Split(directors1, ListSep) ==> d in a;
      assert forall d :: d in Split(directors2, ListSep) ==> d in b;
      1.0
    else
      var d :| (d in a) != (d in b);
      assert (d in Split(directors1, ListSep)) != (d in Split(directors2, ListSep));
      0.0
  }

  /** 0.1 if the candidate's title occurs in the seed's `recommendations`
      text, plus 0.1 if it occurs in its `similar_movies` text. */
  function Endorsement(movie1: Movie, movie2: Movie): (r: real)
    ensures 0.0 <= r <= 0.2
  {
    (if Contains(movie1.recommendations, movie2.originalTitle) then 0.1 else 0.0) +
    (if Contains(movie1.similarMovies, movie2.originalTitle) then 0.1 else 0.0)
  }

  /** The pair gets the sentinel: same `id`, or the same present `belongs_to_id`. */
  predicate Excluded(movie1: Movie, movie2: Movie)
  {
    movie1.id == movie2.id || SameFranchise(movie1, movie2)
  }

  /** `calculate_similarity(movie1, movie2)`: `movie1` is the seed, `movie2`
      the candidate. The weights 0.3 + 0.2 + 0.2 + 0.1 + 0.1 sum to 0.9 and
      the endorsements add at most 0.2, so a non-sentinel score lies in
      [0, 1.1]; the sentinel is returned exactly for excluded pairs. */
  function PairScore(movie1: Movie, movie2: Movie): (r: real)
    ensures Excluded(movie1, movie2) ==> r == Sentinel
    ensures !Excluded(movie1, movie2) ==> 0.0 <= r <= 1.1
    ensures r == Sentinel <==> Excluded(movie1, movie2)
  {
    if Excluded(movie1, movie2) then Sentinel
    else
      0.3 * JaccardLists(Split(movie1.genres, ListSep), Split(movie2.genres, ListSep)) +
      0.2 * JaccardLists(Split(movie1.keywords, ListSep), Split(movie2.keywords, ListSep)) +
      0.2 * DirectorMatch(movie1.directors, movie2.directors) +
      0.1 * JaccardLists(TopCast(movie1.cast), TopCast(movie2.cast)) +
      0.1 * JaccardLists(Split(movie1.spokenLanguages, ListSep), Split(movie2.spokenLanguages, ListSep)) +
      Endorsement(movie1, movie2)
  }

  /** A missing `belongs_to_id` on either side never triggers the sentinel:
      only the `id` check can. */
  lemma MissingFranchiseNeverExcludes(movie1: Movie, movie2: Movie)
    requires movie1.belongsToId.None? || movie2.belongsToId.None?
    requires movie1.id != movie2.id
    ensures 0.0 <= PairScore(movie1, movie2) <= 1.1
  {
  }

  /** Empty list columns split to `[""]` on both sides, so each of the five
      terms is fully similar rather than 0: the pair scores the whole 0.9. */
  lemma EmptyListColumnsMatch(movie1: Movie, movie2: Movie)
    requires !Excluded(movie1, movie2)
    requires movie1.genres == movie2.genres == ""
    requires movie1.keywords == movie2.keywords == ""
    requires movie1.directors == movie2.directors == ""
    requires movie1.cast == movie2.cast == ""
    requires movie1.spokenLanguages == movie2.spokenLanguages == ""
    ensures PairScore(movie1, movie2) == 0.9 + Endorsement(movie1, movie2)
  {
    SplitEmpty(ListSep);
    JaccardSameElements([""], [""]);
  }

  /** Appending more names to a cast that already lists eight leaves its
      top eight as they were. */
  lemma TopCastIgnoresTail(cast: string, more: string)
    requires |Split(cast, ListSep)| >= 8
    ensures TopCast(cast + ListSep + more) == TopCast(cast)
  {
    var parts := Split(cast, ListSep);
    SplitAppend(cast, more);
    assert (parts + Split(more, ListSep))[..8] == parts[..8];
  }

  /** Actors billed after the eighth never change the score. */
  lemma CastAfterEighthIgnored(movie1: Movie, movie2: Movie, more: string)
    requires |Split(movie2.cast, ListSep)| >= 8
    ensures PairScore(movie1, movie2.(cast := movie2.cast + ListSep + more)) == PairScore(movie1, movie2)
    ensures PairScore(movie2.(cast := movie2.cast + ListSep + more), movie1) == PairScore(movie2, movie1)
  {
    TopCastIgnoresTail(movie2.cast, more);
  }

  /** Naming the candidate's title in the seed's `recommendations` text adds
      exactly 0.1 to the score. */
  lemma RecommendedTitleAddsTenth(movie1: Movie, movie2: Movie, text: string)
    requires !Excluded(movie1, movie2)
    requires !Contains(movie1.recommendations, movie2.originalTitle)
    ensures PairScore(movie1.(recommendations := text + movie2.originalTitle), movie2) == PairScore(movie1, movie2) + 0.1
  {
    ContainsSuffix(text, movie2.originalTitle);
  }

  /** Naming the candidate's title in the seed's `similar_movies` text adds
      exactly 0.1 to the score. */
  lemma SimilarTitleAddsTenth(movie1: Movie, movie2: Movie, text: string)
    requires !Excluded(movie1, movie2)
    requires !Contains(movie1.similarMovies, movie2.originalTitle)
    ensures PairScore(movie1.(similarMovies := text + movie2.originalTitle), movie2) == PairScore(movie1, movie2) + 0.1
  {
    ContainsSuffix(text, movie2.originalTitle);
  }

  /** The endorsements look only at the seed's texts, so the score is not
      symmetric. */
  lemma PairScoreAsymmetric()
    ensures exists movie1: Movie, movie2: Movie :: PairScore(movie1, movie2) != PairScore(movie2, movie1)
  {
    var a := Movie(1, "A", 2000, "", "", "", "", "", None, 7.0, 1000, 100, "B", "");
    var b := Movie(2, "B", 2000, "", "", "", "", "", None, 7.0, 1000, 100, "", "");
    assert Contains("B", "B") by { assert OccursAt("B", "B", 0); }
    assert !Contains("", "A");
    EmptyListColumnsMatch(a, b);
    EmptyListColumnsMatch(b, a);
    assert PairScore(a, b) == 1.0;
    assert PairScore(b, a) == 0.9;
  }
}
