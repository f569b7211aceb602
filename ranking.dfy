/** `sort_values(by='similarity', ascending=False)`: rows carrying their
    score, put in non-increasing score order. pandas sorts with an unstable
    quicksort by default, so the only promise is "some non-increasing
    permutation of the rows" (`IsRanking`); `SortByScore` is one such
    ordering, and `RankingScoresAgree` shows every ranking has the same
    sequence of scores, so rankings differ only in the order of ties. */
module Ranking {
  import opened Seqs
  import opened Movies

  /** A row together with its `similarity` value. */
  datatype Scored = Scored(movie: Movie, score: real)

  /** The rows of a frame paired with a column of the same length. */
  function WithScores(movies: seq<Movie>, column: seq<real>): (rows: seq<Scored>)
    requires |movies| == |column|
    ensures |rows| == |movies|
    ensures forall i :: 0 <= i < |rows| ==> rows[i] == Scored(movies[i], column[i])
  {
    seq(|movies|, i requires 0 <= i < |movies| => Scored(movies[i], column[i]))
  }

  predicate NonIncreasing(s: seq<Scored>)
  {
    forall i, j :: 0 <= i < j < |s| ==> s[i].score >= s[j].score
  }

  /** `ranked` is a non-increasing rearrangement of `rows`. */
  predicate IsRanking(ranked: seq<Scored>, rows: seq<Scored>)
  {
    NonIncreasing(ranked) && multiset(ranked) == multiset(rows)
  }

  /** The tail of a ranked sequence is ranked. */
  lemma TailKeepsOrder(s: seq<Scored>)
    requires NonIncreasing(s) && s != []
    ensures NonIncreasing(s[1..])
  {
    forall i, j | 0 <= i < j < |s| - 1 ensures s[1..][i].score >= s[1..][j].score {
      assert s[1..][i] == s[i + 1] && s[1..][j] == s[j + 1];
    }
  }

  /** A row scoring at least every row of a ranked sequence can lead it. */
  lemma ConsKeepsOrder(x: Scored, s: seq<Scored>)
    requires NonIncreasing(s)
    requires forall j :: 0 <= j < |s| ==> x.score >= s[j].score
    ensures NonIncreasing([x] + s)
  {
    forall i, j | 0 <= i < j < |s| + 1 ensures ([x] + s)[i].score >= ([x] + s)[j].score {
      assert ([x] + s)[j] == s[j - 1];
      if i > 0 {
        assert ([x] + s)[i] == s[i - 1];
      }
    }
  }

  /** Inserts `x` into a ranked sequence after the rows that score more. */
  function Insert(x: Scored, s: seq<Scored>): (r: seq<Scored>)
    requires NonIncreasing(s)
    ensures NonIncreasing(r)
    ensures multiset(r) == multiset(s) + multiset{x}
    decreases |s|
  {
    if s == [] || x.score >= s[0].score then
      ConsKeepsOrder(x, s);
      [x] + s
    else
      TailKeepsOrder(s);
      var rest := Insert(x, s[1..]);
      assert s == [s[0]] + s[1..];
      forall j | 0 <= j < |rest| ensures s[0].score >= rest[j].score {
        assert rest[j] in multiset(rest);
      }
      ConsKeepsOrder(s[0], rest);
      [s[0]] + rest
  }

  /** One ranking of `rows` (an insertion sort). */
  function SortByScore(rows: seq<Scored>): (r: seq<Scored>)
    ensures IsRanking(r, rows)
    decreases |rows|
  {
    if rows == [] then []
    else
      assert rows == [rows[0]] + rows[1..];
      Insert(rows[0], SortByScore(rows[1..]))
  }

  /** Masking rows keeps a ranked sequence ranked. */
  lemma {:induction false} WhereKeepsOrder(s: seq<Scored>, p: Scored -> bool)
    requires NonIncreasing(s)
    ensures NonIncreasing(Where(s, p))
    decreases |s|
  {
    if s != [] {
      WhereKeepsOrder(s[1..], p);
      var rest := Where(s[1..], p);
      WhereElements(s[1..], p);
      forall j | 0 <= j < |rest| ensures s[0].score >= rest[j].score {
        var k :| 0 <= k < |s[1..]| && s[1..][k] == rest[j];
        assert s[k + 1] == rest[j];
      }
    }
  }

  /** Removing one row keeps a ranked sequence ranked. */
  lemma RemoveKeepsOrder(s: seq<Scored>, k: nat)
    requires NonIncreasing(s) && k < |s|
    ensures NonIncreasing(s[..k] + s[k + 1..])
  {
    var t := s[..k] + s[k + 1..];
    forall i, j | 0 <= i < j < |t| ensures t[i].score >= t[j].score {
      var i' := if i < k then i else i + 1;
      var j' := if j < k then j else j + 1;
      assert t[i] == s[i'] && t[j] == s[j'];
    }
  }

  /** Removing a row that ties with the first one shifts the scores left by one. */
  lemma RemoveTieShiftsScores(s: seq<Scored>, k: nat, t: seq<Scored>)
    requires NonIncreasing(s) && k < |s| && s[k].score == s[0].score
    requires t == s[..k] + s[k + 1..]
    ensures |t| == |s| - 1
    ensures forall i :: 0 <= i < |t| ==> t[i].score == s[i + 1].score
  {
    forall i | 0 <= i < |t| ensures t[i].score == s[i + 1].score {
      if i < k {
        assert t[i] == s[i];
        assert s[0].score >= s[i].score >= s[i + 1].score >= s[k].score;
      } else {
        assert t[i] == s[i + 1];
      }
    }
  }

  /** Removing the row at `k` removes one occurrence of it. */
  lemma RemoveMultiset(s: seq<Scored>, k: nat)
    requires k < |s|
    ensures multiset(s) == multiset(s[..k] + s[k + 1..]) + multiset{s[k]}
  {
    assert s == s[..k] + [s[k]] + s[k + 1..];
  }

  lemma MultisetCancel<T>(a: multiset<T>, b: multiset<T>, x: T)
    requires a + multiset{x} == b + multiset{x}
    ensures a == b
  {
    forall y ensures a[y] == b[y] {
      assert (a + multiset{x})[y] == (b + multiset{x})[y];
    }
  }

  /** The first row of one ranking sits somewhere in another ranking of the
      same rows, at a position whose score ties with that ranking's first. */
  lemma MatchHead(r1: seq<Scored>, r2: seq<Scored>) returns (k: nat)
    requires NonIncreasing(r1) && NonIncreasing(r2)
    requires multiset(r1) == multiset(r2) && r1 != []
    ensures k < |r2| && r2[k] == r1[0] && r2[k].score == r2[0].score
  {
    assert r1[0] in multiset(r2);
    k :| 0 <= k < |r2| && r2[k] == r1[0];
    assert r2[0] in multiset(r1);
    var m :| 0 <= m < |r1| && r1[m] == r2[0];
    assert r1[0].score >= r1[m].score;
    assert r2[0].score >= r2[k].score;
  }

  /** Two rankings of the same rows have the same score at every position:
      they can differ only by reordering rows of equal score. */
  lemma {:induction false} RankingScoresAgree(r1: seq<Scored>, r2: seq<Scored>, rows: seq<Scored>)
    requires IsRanking(r1, rows) && IsRanking(r2, rows)
    ensures |r1| == |r2|
    ensures forall i :: 0 <= i < |r1| ==> r1[i].score == r2[i].score
    decreases |r1|
  {
    assert |multiset(r1)| == |multiset(r2)|;
    if r1 != [] {
      var k := MatchHead(r1, r2);
      var r2' := r2[..k] + r2[k + 1..];
      RemoveMultiset(r2, k);
      assert r1 == [r1[0]] + r1[1..];
      assert multiset(r1) == multiset{r1[0]} + multiset(r1[1..]);
      assert multiset(r2') + multiset{r1[0]} == multiset(r1[1..]) + multiset{r1[0]};
      RemoveKeepsOrder(r2, k);
      RemoveTieShiftsScores(r2, k, r2');
      TailKeepsOrder(r1);
      MultisetCancel(multiset(r2'), multiset(r1[1..]), r1[0]);
      RankingScoresAgree(r1[1..], r2', r1[1..]);
      forall i | 0 < i < |r1| ensures r1[i].score == r2[i].score {
        assert r1[1..][i - 1] == r1[i];
      }
    }
  }
}
