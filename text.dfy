/** The Python string operations the scorers use, on `string` = `seq<char>`:
    `needle in hay`, `s.split(sep)`, `sep.join(parts)`, `s.lower()` and
    `sorted(...)` of strings. */
module Text {
  import opened Options
  import opened Seqs

  /** The separator of every list-valued text column: `", "`. */
  const ListSep: string := ", "

  /** `needle` occurs in `hay` starting at index `i`. */
  predicate OccursAt(hay: string, needle: string, i: int)
  {
    0 <= i && i + |needle| <= |hay| && hay[i..i + |needle|] == needle
  }

  /** Python's `needle in hay` on two strings: substring containment. */
  predicate Contains(hay: string, needle: string)
  {
    exists i :: 0 <= i <= |hay| && OccursAt(hay, needle, i)
  }

  /** The empty string is contained in every string. */
  lemma ContainsEmpty(hay: string)
    ensures Contains(hay, "")
  {
    assert OccursAt(hay, "", 0);
  }

  /** A string that ends with `needle` contains it. */
  lemma ContainsSuffix(prefix: string, needle: string)
    ensures Contains(prefix + needle, needle)
  {
    assert (prefix + needle)[|prefix|..] == needle;
    assert OccursAt(prefix + needle, needle, |prefix|);
  }

  /** The leftmost occurrence of `sep` in `s` at or after index `k`. */
  function FindFrom(s: string, sep: string, k: nat): (r: Option<nat>)
    ensures r.Some? ==> k <= r.value && OccursAt(s, sep, r.value)
    ensures forall j :: k <= j && (r.None? || j < r.value) ==> !OccursAt(s, sep, j)
    decreases |s| - k
  {
    if k + |sep| > |s| then None
    else if s[k..k + |sep|] == sep then Some(k)
    else FindFrom(s, sep, k + 1)
  }

  /** `FindFrom` finds the first occurrence at or after `k`. */
  lemma {:induction false} FindFromFirst(s: string, sep: string, k: nat, i: nat)
    requires k <= i && OccursAt(s, sep, i)
    requires forall j :: k <= j < i ==> !OccursAt(s, sep, j)
    ensures FindFrom(s, sep, k) == Some(i)
    decreases i - k
  {
    if k < i {
      assert !OccursAt(s, sep, k);
      FindFromFirst(s, sep, k + 1, i);
    }
  }

  /** Python's `s.split(sep)` for a non-empty separator: the pieces between
      the leftmost non-overlapping occurrences of `sep`. It never returns an
      empty list: `"".split(", ")` is `[""]`. */
  function Split(s: string, sep: string): (parts: seq<string>)
    requires sep != []
    ensures |parts| >= 1
    decreases |s|
  {
    match FindFrom(s, sep, 0)
    case None => [s]
    case Some(i) => [s[..i]] + Split(s[i + |sep|..], sep)
  }

  /** A string in which the separator's first character never appears is
      not split at all. */
  lemma SplitWithoutSeparator(s: string, sep: string)
    requires sep != [] && sep[0] !in s
    ensures Split(s, sep) == [s]
  {
  }

  /** `s.split(sep)[0]` is the part of `s` before the first `sep`: a prefix
      of `s` that does not contain `sep`, and all of `s` when `sep` does not
      occur in it. */
  lemma SplitFirstPiece(s: string, sep: string)
    requires sep != []
    ensures Split(s, sep)[0] <= s
    ensures !Contains(Split(s, sep)[0], sep)
    ensures !Contains(s, sep) ==> Split(s, sep)[0] == s
    ensures Contains(s, sep) ==> OccursAt(s, sep, |Split(s, sep)[0]|)
  {
    var first := Split(s, sep)[0];
    match FindFrom(s, sep, 0)
    case None =>
    case Some(i) =>
      assert first == s[..i];
      assert OccursAt(s, sep, i);
      forall j | 0 <= j <= |first| ensures !OccursAt(first, sep, j) {
        if OccursAt(first, sep, j) {
          assert s[j..j + |sep|] == first[j..j + |sep|];
          assert OccursAt(s, sep, j);
        }
      }
  }

  /** `split` cuts at every separator: no piece contains one. With
      `JoinSplit` and a separator that cannot overlap itself, such as `", "`,
      this pins the pieces down. */
  lemma {:induction false} SplitPiecesLackSeparator(s: string, sep: string)
    requires sep != []
    ensures forall p :: p in Split(s, sep) ==> !Contains(p, sep)
    decreases |s|
  {
    SplitFirstPiece(s, sep);
    match FindFrom(s, sep, 0)
    case None =>
    case Some(i) =>
      var rest := Split(s[i + |sep|..], sep);
      SplitPiecesLackSeparator(s[i + |sep|..], sep);
      assert Split(s, sep) == [s[..i]] + rest;
  }

  /** Python's `sep.join(parts)`. */
  function Join(parts: seq<string>, sep: string): string
    decreases |parts|
  {
    if |parts| == 0 then ""
    else if |parts| == 1 then parts[0]
    else parts[0] + sep + Join(parts[1..], sep)
  }

  /** Joining the pieces of a split gives back the string. */
  lemma {:induction false} JoinSplit(s: string, sep: string)
    requires sep != []
    ensures Join(Split(s, sep), sep) == s
    decreases |s|
  {
    match FindFrom(s, sep, 0)
    case None =>
    case Some(i) =>
      var tail := s[i + |sep|..];
      var rest := Split(tail, sep);
      JoinSplit(tail, sep);
      assert Split(s, sep) == [s[..i]] + rest;
      assert ([s[..i]] + rest)[1..] == rest;
      assert Join([s[..i]] + rest, sep) == s[..i] + sep + Join(rest, sep);
      assert s == s[..i] + sep + tail by {
        assert s[i..i + |sep|] == sep;
        assert s == s[..i] + s[i..i + |sep|] + tail;
      }
  }

  /** The empty string splits into one empty piece. */
  lemma SplitEmpty(sep: string)
    requires sep != []
    ensures Split("", sep) == [""]
  {
  }

  /** Splitting on `", "` two strings glued by `", "` splits each of them:
      no occurrence of the separator can straddle the glue, because `", "`
      does not overlap itself. */
  lemma {:induction false} SplitAppend(a: string, b: string)
    ensures Split(a + ListSep + b, ListSep) == Split(a, ListSep) + Split(b, ListSep)
    decreases |a|
  {
    match FindFrom(a, ListSep, 0)
    case None =>
      GlueSplit(a, b);
    case Some(i) =>
      FirstPieceStays(a, b, i);
      SplitAppend(a[i + 2..], b);
      assert Split(a, ListSep) == [a[..i]] + Split(a[i + 2..], ListSep);
  }

  /** With no separator in `a`, `a` is the first piece of `a + ", " + b`. */
  lemma GlueSplit(a: string, b: string)
    requires FindFrom(a, ListSep, 0).None?
    ensures Split(a + ListSep + b, ListSep) == [a] + Split(b, ListSep)
  {
    var s := a + ListSep + b;
    GlueIsFirstSeparator(a, b);
    assert s[..|a|] == a;
    assert s[|a| + 2..] == b;
  }

  /** The first piece of `a` is also the first piece of `a + ", " + b`. */
  lemma FirstPieceStays(a: string, b: string, i: nat)
    requires FindFrom(a, ListSep, 0) == Some(i)
    ensures Split(a + ListSep + b, ListSep) == [a[..i]] + Split(a[i + 2..] + ListSep + b, ListSep)
  {
    var s := a + ListSep + b;
    FirstSeparatorStays(a, b, i);
    assert s[..i] == a[..i];
    assert s[i + 2..] == a[i + 2..] + ListSep + b;
  }

  /** With no separator in `a`, the first one in `a + ", " + b` is the glue. */
  lemma GlueIsFirstSeparator(a: string, b: string)
    requires FindFrom(a, ListSep, 0).None?
    ensures FindFrom(a + ListSep + b, ListSep, 0) == Some(|a|)
  {
    var s := a + ListSep + b;
    forall j | 0 <= j < |a|
      ensures !OccursAt(s, ListSep, j)
    {
      if j + 2 <= |a| {
        assert s[j..j + 2] == a[j..j + 2];
        assert !OccursAt(a, ListSep, j);
      } else {
        assert s[j + 1] == ListSep[0] != ListSep[1];
        assert s[j..j + 2][1] == s[j + 1];
      }
    }
    assert s[|a|..|a| + 2] == ListSep;
    FindFromFirst(s, ListSep, 0, |a|);
  }

  /** The first separator of `a` stays the first one of `a + ", " + b`. */
  lemma FirstSeparatorStays(a: string, b: string, i: nat)
    requires FindFrom(a, ListSep, 0) == Some(i)
    ensures FindFrom(a + ListSep + b, ListSep, 0) == Some(i)
  {
    var s := a + ListSep + b;
    forall j | 0 <= j <= i
      ensures OccursAt(s, ListSep, j) == OccursAt(a, ListSep, j)
    {
      assert s[j..j + 2] == a[j..j + 2];
    }
    FindFromFirst(s, ListSep, 0, i);
  }

  /** Python's `c.lower()` on the ASCII letters. */
  function LowerChar(c: char): char
  {
    if 'A' <= c <= 'Z' then (c as int + 32) as char else c
  }

  /** Python's `s.lower()` on the ASCII letters. */
  function Lower(s: string): (r: string)
    ensures |r| == |s|
    ensures forall i :: 0 <= i < |r| ==> !('A' <= r[i] <= 'Z')
    ensures forall i {:trigger r[i]} :: 0 <= i < |s| && 'A' <= s[i] <= 'Z' ==> r[i] as int == s[i] as int + 32
    ensures forall i {:trigger r[i]} :: 0 <= i < |s| && !('A' <= s[i] <= 'Z') ==> r[i] == s[i]
  {
    seq(|s|, i requires 0 <= i < |s| => LowerChar(s[i]))
  }

  /** Lowercasing is idempotent, and only changes the ASCII capitals. */
  lemma LowerIdempotent(s: string)
    ensures Lower(Lower(s)) == Lower(s)
    ensures (forall i :: 0 <= i < |s| ==> !('A' <= s[i] <= 'Z')) ==> Lower(s) == s
  {
    assert forall i :: 0 <= i < |s| ==> Lower(Lower(s))[i] == Lower(s)[i];
  }

  /** Two characters that are equal, or an ASCII capital and its small letter. */
  predicate SameLetterUpToCase(c: char, d: char)
  {
    c == d || ('A' <= c <= 'Z' && d as int == c as int + 32) || ('A' <= d <= 'Z' && c as int == d as int + 32)
  }

  /** Two strings lowercase alike exactly when they agree character by
      character up to the case of ASCII letters. */
  lemma LowerIgnoresCase(s: string, t: string)
    ensures Lower(s) == Lower(t) <==>
            |s| == |t| && forall i :: 0 <= i < |s| ==> SameLetterUpToCase(s[i], t[i])
  {
    if Lower(s) == Lower(t) {
      forall i | 0 <= i < |s| ensures SameLetterUpToCase(s[i], t[i]) {
        assert Lower(s)[i] == Lower(t)[i];
      }
    }
    if |s| == |t| && forall i :: 0 <= i < |s| ==> SameLetterUpToCase(s[i], t[i]) {
      forall i | 0 <= i < |s| ensures Lower(s)[i] == Lower(t)[i] {
        assert SameLetterUpToCase(s[i], t[i]);
      }
    }
  }

  /** `needle` occurs in `hay` when the case of letters is ignored. */
  predicate ContainsIgnoringCase(hay: string, needle: string)
  {
    Contains(Lower(hay), Lower(needle))
  }

  /** `str.contains(..., case=False)` does not see the case of either side:
      lowercasing the text or the pattern first changes nothing. */
  lemma ContainsIgnoringCaseIgnoresCase(hay: string, needle: string)
    ensures ContainsIgnoringCase(Lower(hay), needle) == ContainsIgnoringCase(hay, needle)
    ensures ContainsIgnoringCase(hay, Lower(needle)) == ContainsIgnoringCase(hay, needle)
  {
    LowerIdempotent(hay);
    LowerIdempotent(needle);
  }

  /** Python's `<` on strings: lexicographic by code point. */
  predicate StrLess(a: string, b: string)
    decreases |a|
  {
    if a == [] then b != []
    else if b == [] then false
    else a[0] < b[0] || (a[0] == b[0] && StrLess(a[1..], b[1..]))
  }

  lemma {:induction false} StrLessIrreflexive(a: string)
    ensures !StrLess(a, a)
    decreases |a|
  {
    if a != [] {
      StrLessIrreflexive(a[1..]);
    }
  }

  lemma {:induction false} StrLessTransitive(a: string, b: string, c: string)
    requires StrLess(a, b) && StrLess(b, c)
    ensures StrLess(a, c)
    decreases |a|
  {
    if a != [] && a[0] == b[0] && b[0] == c[0] {
      StrLessTransitive(a[1..], b[1..], c[1..]);
    }
  }

  lemma {:induction false} StrLessTotal(a: string, b: string)
    requires a != b
    ensures StrLess(a, b) || StrLess(b, a)
    decreases |a|
  {
    if a != [] && b != [] && a[0] == b[0] {
      assert a == [a[0]] + a[1..] && b == [b[0]] + b[1..];
      StrLessTotal(a[1..], b[1..]);
    }
  }

  lemma StrLessAsymmetric(a: string, b: string)
    requires StrLess(a, b)
    ensures !StrLess(b, a)
  {
    if StrLess(b, a) {
      StrLessTransitive(a, b, a);
      StrLessIrreflexive(a);
    }
  }

  /** Strictly increasing: sorted and free of duplicates. */
  predicate StrictlySorted(s: seq<string>)
  {
    forall i, j :: 0 <= i < j < |s| ==> StrLess(s[i], s[j])
  }

  /** The tail of a strictly sorted list is strictly sorted. */
  lemma SortedTail(s: seq<string>)
    requires StrictlySorted(s) && s != []
    ensures StrictlySorted(s[1..])
  {
    forall i, j | 0 <= i < j < |s| - 1 ensures StrLess(s[1..][i], s[1..][j]) {
      assert s[1..][i] == s[i + 1] && s[1..][j] == s[j + 1];
    }
  }

  /** A string below every element of a strictly sorted list can lead it. */
  lemma SortedCons(x: string, s: seq<string>)
    requires StrictlySorted(s)
    requires forall j :: 0 <= j < |s| ==> StrLess(x, s[j])
    ensures StrictlySorted([x] + s)
  {
    forall i, j | 0 <= i < j < |s| + 1 ensures StrLess(([x] + s)[i], ([x] + s)[j]) {
      assert ([x] + s)[j] == s[j - 1];
      if i > 0 {
        assert ([x] + s)[i] == s[i - 1];
      }
    }
  }

  /** Inserts `x` into a strictly sorted list unless it is there already. */
  function InsertDistinct(x: string, s: seq<string>): (r: seq<string>)
    requires StrictlySorted(s)
    ensures StrictlySorted(r)
    ensures Elems(r) == Elems(s) + {x}
    decreases |s|
  {
    if s == [] then [x]
    else if x == s[0] then s
    else if StrLess(x, s[0]) then
      forall j | 0 < j < |s| ensures StrLess(x, s[j]) {
        StrLessTransitive(x, s[0], s[j]);
      }
      SortedCons(x, s);
      [x] + s
    else
      StrLessTotal(x, s[0]);
      SortedTail(s);
      var rest := InsertDistinct(x, s[1..]);
      assert Elems(s) == {s[0]} + Elems(s[1..]) by {
        assert s == [s[0]] + s[1..];
      }
      forall j | 0 <= j < |rest| ensures StrLess(s[0], rest[j]) {
        assert rest[j] in Elems(rest);
      }
      SortedCons(s[0], rest);
      assert Elems([s[0]] + rest) == {s[0]} + Elems(rest);
      [s[0]] + rest
  }

  /** Python's `sorted(set(s))` for strings: the distinct elements of `s` in
      increasing order. */
  function SortedDistinct(s: seq<string>): (r: seq<string>)
    ensures StrictlySorted(r)
    ensures Elems(r) == Elems(s)
    decreases |s|
  {
    if s == [] then []
    else
      assert s == [s[0]] + s[1..];
      InsertDistinct(s[0], SortedDistinct(s[1..]))
  }

  /** A set of strings has exactly one strictly sorted listing, so
      `sorted(...)` of a set is determined by the set alone. */
  lemma {:induction false} SortedListingUnique(a: seq<string>, b: seq<string>)
    requires StrictlySorted(a) && StrictlySorted(b)
    requires Elems(a) == Elems(b)
    ensures a == b
    decreases |a|
  {
    if a != [] {
      assert a[0] in Elems(b);
      assert b != [];
      assert b[0] in Elems(a);
      var k :| 0 <= k < |b| && b[k] == a[0];
      var m :| 0 <= m < |a| && a[m] == b[0];
      if k > 0 {
        assert StrLess(b[0], a[0]);
        assert m > 0 by { if m == 0 { StrLessIrreflexive(a[0]); } }
        StrLessAsymmetric(a[0], b[0]);
        assert false;
      }
      forall x | x in Elems(a[1..]) ensures x in Elems(b[1..]) {
        var i :| 0 <= i < |a[1..]| && a[1..][i] == x;
        assert StrLess(a[0], x);
        assert x in Elems(b);
        var j :| 0 <= j < |b| && b[j] == x;
        if j == 0 { StrLessIrreflexive(x); }
        assert b[1..][j - 1] == x;
      }
      forall x | x in Elems(b[1..]) ensures x in Elems(a[1..]) {
        var j :| 0 <= j < |b[1..]| && b[1..][j] == x;
        assert StrLess(b[0], x);
        assert x in Elems(a);
        var i :| 0 <= i < |a| && a[i] == x;
        if i == 0 { StrLessIrreflexive(x); }
        assert a[1..][i - 1] == x;
      }
      SortedListingUnique(a[1..], b[1..]);
      assert a == [a[0]] + a[1..] && b == [b[0]] + b[1..];
    } else {
      ElemsEmpty(a);
      ElemsEmpty(b);
    }
  }
}
