/** `get_similarity_explanation` of the movie-details page
    (individual_movies/similarity.py, repeated in
    individual_movies/movie_data.py): one line per thing the two movies have
    in common, in a fixed order, or a fallback sentence when there is none.
    Here, unlike in the scorer of the same file, the list columns ARE split
    on ", ". */
module SimilarityExplanation {
  import opened Seqs
  import opened Text
  import opened Movies
  import RecommendationScore

  const Fallback: string := "No significant similarities"
  const RecommendedLine: string := "Recommended by the same movie"
  const SimilarLine: string := "Similar movies"
  const LineSep: string := "\n"

  /** The four list-valued columns the explanation compares. */
  datatype Field = Genres | Keywords | Directors | Cast

  /** One line of the explanation. */
  datatype Reason = Shared(field: Field, items: seq<string>) | Recommended | Similar

  /** The entries of a list column; for the cast, only the top eight. */
  function Entries(m: Movie, f: Field): seq<string>
  {
    match f
    case Genres => Split(m.genres, ListSep)
    case Keywords => Split(m.keywords, ListSep)
    case Directors => Split(m.directors, ListSep)
    case Cast => RecommendationScore.TopCast(m.cast)
  }

  /** `set(...).intersection(set(...))` of one column of the two movies. */
  function Common(movie1: Movie, movie2: Movie, f: Field): set<string>
  {
    Elems(Entries(movie1, f)) * Elems(Entries(movie2, f))
  }

  /** `sorted(set(list1).intersection(set(list2)))`: the shared entries, each
      once, in increasing order. */
  function CommonItems(list1: seq<string>, list2: seq<string>): (r: seq<string>)
    ensures StrictlySorted(r)
    ensures Elems(r) == Elems(list1) * Elems(list2)
  {
    var shared := Where(list1, (x: string) => x in list2);
    WhereElements(list1, (x: string) => x in list2);
    assert Elems(shared) == Elems(list1) * Elems(list2) by {
      forall x | x in Elems(list1) * Elems(list2) ensures x in Elems(shared) {
        var i :| 0 <= i < |list1| && list1[i] == x;
      }
    }
    SortedDistinct(shared)
  }

  /** The position of each kind of line in the explanation. */
  function Rank(r: Reason): nat
  {
    match r
    case Shared(f, _) => (match f case Genres => 0 case Keywords => 1 case Directors => 2 case Cast => 3)
    case Recommended => 4
    case Similar => 5
  }

  function Title(f: Field): string
  {
    match f
    case Genres => "Genres"
    case Keywords => "Keywords"
    case Directors => "Directors"
    case Cast => "Cast"
  }

  /** The text of one line: `f"Genres: {', '.join(...)}"` and so on. */
  function Render(r: Reason): (line: string)
    ensures line != [] && line[0] != 'N'
  {
    match r
    case Shared(f, items) => Title(f) + ": " + Join(items, ListSep)
    case Recommended => RecommendedLine
    case Similar => SimilarLine
  }

  function RenderAll(rs: seq<Reason>): (lines: seq<string>)
    ensures |lines| == |rs|
  {
    seq(|rs|, i requires 0 <= i < |rs| => Render(rs[i]))
  }

  /** The two movies have nothing the explanation mentions. */
  predicate NothingInCommon(movie1: Movie, movie2: Movie)
  {
    Common(movie1, movie2, Genres) == {} && Common(movie1, movie2, Keywords) == {} &&
    Common(movie1, movie2, Directors) == {} && Common(movie1, movie2, Cast) == {} &&
    !Contains(movie1.recommendations, movie2.originalTitle) &&
    !Contains(movie1.similarMovies, movie2.originalTitle)
  }

  /** `r` is a line the explanation of `movie1` against `movie2` has. */
  predicate Applies(movie1: Movie, movie2: Movie, r: Reason)
  {
    match r
    case Shared(f, items) =>
      Common(movie1, movie2, f) != {} && StrictlySorted(items) && Elems(items) == Common(movie1, movie2, f)
    case Recommended => Contains(movie1.recommendations, movie2.originalTitle)
    case Similar => Contains(movie1.similarMovies, movie2.originalTitle)
  }

  /** The lines are in strictly increasing order of rank. */
  predicate InOrder(rs: seq<Reason>)
  {
    forall i, j :: 0 <= i < j < |rs| ==> Rank(rs[i]) < Rank(rs[j])
  }

  predicate RanksBetween(rs: seq<Reason>, lo: nat, hi: nat)
  {
    forall i :: 0 <= i < |rs| ==> lo <= Rank(rs[i]) < hi
  }

  lemma InOrderConcat(a: seq<Reason>, b: seq<Reason>, lo: nat, mid: nat, hi: nat)
    requires lo <= mid <= hi
    requires InOrder(a) && RanksBetween(a, lo, mid)
    requires InOrder(b) && RanksBetween(b, mid, hi)
    ensures InOrder(a + b) && RanksBetween(a + b, lo, hi)
  {
    forall i, j | 0 <= i < j < |a + b| ensures Rank((a + b)[i]) < Rank((a + b)[j]) {
      if j < |a| {
      } else if i < |a| {
        assert Rank((a + b)[i]) < mid <= Rank(b[j - |a|]);
      } else {
        assert Rank(b[i - |a|]) < Rank(b[j - |a|]);
      }
    }
  }

  /** The line for one column, present when the column has something in
      common. */
  function SharedReason(movie1: Movie, movie2: Movie, f: Field): (r: seq<Reason>)
    ensures |r| <= 1
  {
    var items := CommonItems(Entries(movie1, f), Entries(movie2, f));
    if items == [] then [] else [Shared(f, items)]
  }

  /** A column's line is there exactly when it applies, and it lists the
      shared entries in sorted order. */
  lemma SharedReasonApplies(movie1: Movie, movie2: Movie, f: Field)
    ensures forall x :: x in SharedReason(movie1, movie2, f) <==> x.Shared? && x.field == f && Applies(movie1, movie2, x)
    ensures InOrder(SharedReason(movie1, movie2, f))
    ensures RanksBetween(SharedReason(movie1, movie2, f), Rank(Shared(f, [])), Rank(Shared(f, [])) + 1)
  {
    var items := CommonItems(Entries(movie1, f), Entries(movie2, f));
    ElemsEmpty(items);
    forall x: Reason | x.Shared? && x.field == f && Applies(movie1, movie2, x) ensures x == Shared(f, items) {
      SortedListingUnique(x.items, items);
    }
  }

  /** The two lines for titles `movie1` endorses. */
  function EndorsementReasons(movie1: Movie, movie2: Movie): (r: seq<Reason>)
    ensures |r| <= 2
  {
    (if Contains(movie1.recommendations, movie2.originalTitle) then [Recommended] else []) +
    (if Contains(movie1.similarMovies, movie2.originalTitle) then [Similar] else [])
  }

  lemma EndorsementReasonsApply(movie1: Movie, movie2: Movie)
    ensures forall x :: x in EndorsementReasons(movie1, movie2) <==> !x.Shared? && Applies(movie1, movie2, x)
    ensures InOrder(EndorsementReasons(movie1, movie2)) && RanksBetween(EndorsementReasons(movie1, movie2), 4, 6)
  {
  }

  /** The lines of the explanation, as reasons: the four columns in order,
      then the two endorsements. */
  function Reasons(movie1: Movie, movie2: Movie): seq<Reason>
  {
    SharedReason(movie1, movie2, Genres) + SharedReason(movie1, movie2, Keywords) +
    SharedReason(movie1, movie2, Directors) + SharedReason(movie1, movie2, Cast) +
    EndorsementReasons(movie1, movie2)
  }

  /** The explanation has exactly the lines that apply, each once, in the
      fixed order Genres, Keywords, Directors, Cast, "Recommended by the same
      movie", "Similar movies"; a column's line lists the shared entries in
      sorted order. */
  lemma ReasonsAreTheApplicableLines(movie1: Movie, movie2: Movie)
    ensures forall x :: x in Reasons(movie1, movie2) <==> Applies(movie1, movie2, x)
    ensures InOrder(Reasons(movie1, movie2))
  {
    var g := SharedReason(movie1, movie2, Genres);
    var k := SharedReason(movie1, movie2, Keywords);
    var d := SharedReason(movie1, movie2, Directors);
    var c := SharedReason(movie1, movie2, Cast);
    var e := EndorsementReasons(movie1, movie2);
    SharedReasonApplies(movie1, movie2, Genres);
    SharedReasonApplies(movie1, movie2, Keywords);
    SharedReasonApplies(movie1, movie2, Directors);
    SharedReasonApplies(movie1, movie2, Cast);
    EndorsementReasonsApply(movie1, movie2);
    InOrderConcat(g, k, 0, 1, 2);
    InOrderConcat(g + k, d, 0, 2, 3);
    InOrderConcat(g + k + d, c, 0, 3, 4);
    InOrderConcat(g + k + d + c, e, 0, 4, 6);
    forall x: Reason ensures x in Reasons(movie1, movie2) <==> Applies(movie1, movie2, x) {
      assert x in Reasons(movie1, movie2) <==> x in g || x in k || x in d || x in c || x in e;
    }
  }

  /** The head of a list in rank order ranks below all the rest. */
  lemma InOrderTail(a: seq<Reason>)
    requires InOrder(a) && a != []
    ensures InOrder(a[1..])
    ensures forall x :: x in a[1..] ==> Rank(a[0]) < Rank(x)
  {
    forall i, j | 0 <= i < j < |a[1..]| ensures Rank(a[1..][i]) < Rank(a[1..][j]) {
      assert a[1..][i] == a[i + 1] && a[1..][j] == a[j + 1];
    }
    forall x | x in a[1..] ensures Rank(a[0]) < Rank(x) {
      var i :| 0 <= i < |a[1..]| && a[1..][i] == x;
      assert a[i + 1] == x;
    }
  }

  /** Two lists of lines in rank order with the same lines are the same. */
  lemma {:induction false} InOrderUnique(a: seq<Reason>, b: seq<Reason>)
    requires InOrder(a) && InOrder(b)
    requires forall x :: x in a <==> x in b
    ensures a == b
    decreases |a|
  {
    if a != [] {
      assert a[0] in b;
      assert b != [];
      InOrderTail(a);
      InOrderTail(b);
      assert a == [a[0]] + a[1..] && b == [b[0]] + b[1..];
      var k :| 0 <= k < |b| && b[k] == a[0];
      assert b[0] in a;
      var m :| 0 <= m < |a| && a[m] == b[0];
      assert Rank(b[0]) <= Rank(a[0]) && Rank(a[0]) <= Rank(b[0]);
      assert k == 0;
      forall x ensures x in a[1..] <==> x in b[1..] {
        assert x in a <==> x == a[0] || x in a[1..];
        assert x in b <==> x == b[0] || x in b[1..];
      }
      InOrderUnique(a[1..], b[1..]);
    } else {
      ElemsEmpty(b);
    }
  }

  /** The explanation's lines are the only list, in the fixed order, of the
      lines that apply. */
  lemma ReasonsUnique(movie1: Movie, movie2: Movie, rs: seq<Reason>)
    requires InOrder(rs)
    requires forall x :: x in rs <==> Applies(movie1, movie2, x)
    ensures rs == Reasons(movie1, movie2)
  {
    ReasonsAreTheApplicableLines(movie1, movie2);
    InOrderUnique(rs, Reasons(movie1, movie2));
  }

  /** A column has a line exactly when the two movies share an entry of it. */
  lemma SharedLineIffCommon(movie1: Movie, movie2: Movie, f: Field)
    ensures Common(movie1, movie2, f) != {} <==>
            exists items :: Shared(f, items) in Reasons(movie1, movie2)
  {
    ReasonsAreTheApplicableLines(movie1, movie2);
    if Common(movie1, movie2, f) != {} {
      var items := CommonItems(Entries(movie1, f), Entries(movie2, f));
      assert Applies(movie1, movie2, Shared(f, items));
    }
  }

  /** There are no lines exactly when the movies have nothing in common. */
  lemma NoReasonsIffNothingInCommon(movie1: Movie, movie2: Movie)
    ensures Reasons(movie1, movie2) == [] <==> NothingInCommon(movie1, movie2)
  {
    SharedLineIffCommon(movie1, movie2, Genres);
    SharedLineIffCommon(movie1, movie2, Keywords);
    SharedLineIffCommon(movie1, movie2, Directors);
    SharedLineIffCommon(movie1, movie2, Cast);
    ReasonsAreTheApplicableLines(movie1, movie2);
    if !NothingInCommon(movie1, movie2) {
      if Contains(movie1.recommendations, movie2.originalTitle) {
        assert Recommended in Reasons(movie1, movie2);
      } else if Contains(movie1.similarMovies, movie2.originalTitle) {
        assert Similar in Reasons(movie1, movie2);
      }
    }
  }

  lemma RenderAllConcat(a: seq<Reason>, b: seq<Reason>)
    ensures RenderAll(a + b) == RenderAll(a) + RenderAll(b)
  {
    assert forall i :: 0 <= i < |a| ==> (a + b)[i] == a[i];
    assert forall i :: |a| <= i < |a| + |b| ==> (a + b)[i] == b[i - |a|];
  }

  /** The text of the lines, column by column. */
  lemma RenderReasons(movie1: Movie, movie2: Movie)
    ensures RenderAll(Reasons(movie1, movie2)) ==
            RenderAll(SharedReason(movie1, movie2, Genres)) + RenderAll(SharedReason(movie1, movie2, Keywords)) +
            RenderAll(SharedReason(movie1, movie2, Directors)) + RenderAll(SharedReason(movie1, movie2, Cast)) +
            RenderAll(if Contains(movie1.recommendations, movie2.originalTitle) then [Recommended] else []) +
            RenderAll(if Contains(movie1.similarMovies, movie2.originalTitle) then [Similar] else [])
  {
    var g := SharedReason(movie1, movie2, Genres);
    var k := SharedReason(movie1, movie2, Keywords);
    var d := SharedReason(movie1, movie2, Directors);
    var c := SharedReason(movie1, movie2, Cast);
    var rec: seq<Reason> := if Contains(movie1.recommendations, movie2.originalTitle) then [Recommended] else [];
    var sim: seq<Reason> := if Contains(movie1.similarMovies, movie2.originalTitle) then [Similar] else [];
    assert Reasons(movie1, movie2) == g + k + d + c + (rec + sim);
    assert g + k + d + c + (rec + sim) == g + k + d + c + rec + sim;
    RenderAllConcat(g, k);
    RenderAllConcat(g + k, d);
    RenderAllConcat(g + k + d, c);
    RenderAllConcat(g + k + d + c, rec);
    RenderAllConcat(g + k + d + c + rec, sim);
    assert RenderAll(Reasons(movie1, movie2)) == RenderAll(g + k + d + c + rec + sim);
  }

  /** `if common: explanations.append(line)`: adds the text of the line,
      when there is one. */
  method AppendIfAny(explanations: seq<string>, line: seq<Reason>) returns (r: seq<string>)
    requires |line| <= 1
    ensures r == explanations + RenderAll(line)
  {
    if line != [] {
      r := explanations + [Render(line[0])];
    } else {
      r := explanations;
    }
  }

  /** Joining lines whose first one is not empty starts with that line's
      first character. */
  lemma JoinStartsWithFirst(lines: seq<string>, sep: string)
    requires lines != [] && lines[0] != []
    ensures Join(lines, sep) != [] && Join(lines, sep)[0] == lines[0][0]
  {
  }

  /** `get_similarity_explanation(movie1, movie2)`: collects the lines one
      by one and joins them with a newline, or gives the fallback sentence.
      The fallback appears exactly when the movies have nothing in common. */
  method Explain(movie1: Movie, movie2: Movie) returns (text: string)
    ensures text == Fallback <==> NothingInCommon(movie1, movie2)
    ensures !NothingInCommon(movie1, movie2) ==> text == Join(RenderAll(Reasons(movie1, movie2)), LineSep)
  {
    var explanations: seq<string> := [];
    var genres := SharedReason(movie1, movie2, Genres);
    explanations := AppendIfAny(explanations, genres);
    assert explanations == RenderAll(genres);
    var keywords := SharedReason(movie1, movie2, Keywords);
    explanations := AppendIfAny(explanations, keywords);
    var directors := SharedReason(movie1, movie2, Directors);
    explanations := AppendIfAny(explanations, directors);
    var cast := SharedReason(movie1, movie2, Cast);
    explanations := AppendIfAny(explanations, cast);
    var recommended := if Contains(movie1.recommendations, movie2.originalTitle) then [Recommended] else [];
    explanations := AppendIfAny(explanations, recommended);
    var similar := if Contains(movie1.similarMovies, movie2.originalTitle) then [Similar] else [];
    explanations := AppendIfAny(explanations, similar);
    RenderReasons(movie1, movie2);
    assert explanations == RenderAll(Reasons(movie1, movie2));
    NoReasonsIffNothingInCommon(movie1, movie2);

    if explanations != [] {
      text := Join(explanations, LineSep);
      JoinStartsWithFirst(explanations, LineSep);
      assert Render(Reasons(movie1, movie2)[0]) == explanations[0];
    } else {
      text := Fallback;
    }
  }
}
