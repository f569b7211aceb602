# Movie similarity and recommendations, modelled in Dafny

This project models the scoring and recommendation core of a Streamlit movie
browser. Two separate pipelines are modelled.

- The **recommendation tab** takes the ids of seed movies and some filters.
  - `calculate_similarity` scores every movie of the frame against each seed
    row. The score is 0.3 genre Jaccard + 0.2 keyword Jaccard + 0.2 director
    equality + 0.1 top-eight cast Jaccard + 0.1 spoken-language Jaccard, plus
    0.1 for each of the seed's "recommendations" and "similar movies" columns
    that mentions the row's title.
  - A row that is the seed itself, or shares its collection, gets
    -1 000 000.
  - The scores are summed into a `similarity` column written into the
    caller's frame.
  - Ranking sorts by that column. Then the filters apply in order: rating
    range, spoken language, runtime ceiling, year range, all required
    genres, and a floor that drops well-rated movies with few votes.
  - The first seven rows are kept, minus any seed.
  - The second copy of the tab applies the rating filter only.
- The **movie-details page** has its own scorer.
  - The score is 0.4 genre + 0.3 keyword + 0.2 director + 0.1 cast, plus the
    same endorsements.
  - It works on the *characters* of the raw genre, keyword and director
    strings, gives 0 to a movie of the same collection, and never compares
    ids.
  - The page's explanation text names what two movies share, in a fixed
    order.
  - The by-name lookup cuts the name at its first `" ("` (a release year),
    takes the first row whose title contains that stem ignoring case, scores
    every row against it, writes the scores into the frame, keeps the seven
    best rows and drops those titled exactly the stem.

Modules, in dependency order:

- `Options` and `Seqs`: `Option`, element sets, pandas boolean masks
  (`Where`) and `head` (`Head`).
- `Text`: Python's `in` on strings, `split(", ")`, `join`, ASCII `lower()`,
  and `sorted` over distinct strings.
- `SetSimilarity`: the Jaccard measure.
- `Movies`: the movie record, and the mutable data frame `Frame` with its
  `similarity` column.
- `Ranking`: scored rows. `sort_values(ascending=False)` is specified as
  *some* non-increasing permutation, because pandas does not fix the order
  of ties.
- `RecommendationScore` and `RecommendationsByIds`: the recommendation tab.
- `IndividualSimilarity`, `SimilarityExplanation` and `RecommendationsByName`:
  the movie-details page.

Each mutating pipeline is a `method` that writes `df.similarity`. It calls a
non-mutating method that ranks and selects. Its result is specified by an
existential over the possible sort orders (`IsSelection`, `IsNameSelection`).
`RankingScoresAgree` proves that every such order has the same score at
every position. So the tie freedom is confined to which of several equal
scores comes first.

## Model

| member | source | states |
|---|---|---|
| Seqs.Elems | movie_app/recommendations/similarity_calculator.py:6 | `set(list)`: the set of the list's elements |
| Seqs.Where | movie_app/recommendations/display.py:13-21 | `df[mask]`: the rows that satisfy the mask, in order, never more of them than there were (also display.py:9 and similarity.py:66, 71) |
| Seqs.Head | movie_app/recommendations/display.py:20 | `head(7)` and `[:n]`: the first `n` elements, or all of them when there are fewer (also similarity.py:70 and the cast's `[:8]`) |
| SetSimilarity.Jaccard | movie_app/recommendations/similarity_calculator.py:4-9 | the measure lies in [0, 1]; it is 0 exactly when the sets share nothing (so also when both are empty), and 1 exactly when the sets are equal and non-empty |
| SetSimilarity.JaccardLists | movie_app/recommendations/movie_recs.py:5-10 | `jaccard_similarity` on two lists compares their element sets and lies in [0, 1] |
| SetSimilarity.JaccardSymmetric | movie_app/recommendations/similarity_calculator.py:6-9 | the measure does not depend on argument order |
| SetSimilarity.JaccardSameElements | movie_app/recommendations/similarity_calculator.py:6-9 | two lists with the same non-empty element set are 1 similar |
| Text.Split | movie_app/recommendations/similarity_calculator.py:17-21 | `split(", ")` always returns at least one piece; `SplitPiecesLackSeparator` adds that no piece holds a separator |
| Text.JoinSplit | movie_app/recommendations/similarity_calculator.py:17-21 | joining the pieces of a split with the separator gives back the string |
| Text.SplitPiecesLackSeparator | movie_app/recommendations/similarity_calculator.py:17-21 | `split` cuts at every separator: no piece contains the separator; with `JoinSplit` this fixes the pieces of a `", "` split |
| Text.Contains | movie_app/recommendations/similarity_calculator.py:24 | Python's `in` on strings: the needle occurs at some position of the text |
| Text.Join | movie_app/individual_movies/similarity.py:61 | `sep.join(parts)`: the parts with `sep` between neighbours, `""` for no parts (also the `', '.join` of line 42) |
| Text.SplitEmpty | movie_app/recommendations/similarity_calculator.py:17-21 | the empty string splits to one empty piece, `[""]` |
| Text.SplitAppend | movie_app/recommendations/similarity_calculator.py:20 | appending `", " + more` to a list column appends `more`'s pieces to its pieces |
| Text.SplitFirstPiece | movie_app/individual_movies/similarity.py:65 | `split(' (')[0]` is a prefix of the name that contains no `" ("`, followed in the name by the first `" ("` when there is one, and is the whole name when there is none |
| Text.Lower | movie_app/recommendations/display.py:14 | `case=False`: each ASCII capital becomes its small letter (code + 32) and every other character stays; the result has no ASCII capital |
| Text.LowerIgnoresCase | movie_app/recommendations/display.py:14 | two strings lowercase alike exactly when they agree character by character up to the case of ASCII letters |
| Text.LowerIdempotent | movie_app/recommendations/display.py:14 | lowercasing twice is lowercasing once, and a string without capitals is unchanged |
| Text.ContainsIgnoringCase | movie_app/individual_movies/similarity.py:66 | `str.contains(pattern, case=False)`: the lowercased pattern occurs in the lowercased text |
| Text.ContainsIgnoringCaseIgnoresCase | movie_app/individual_movies/similarity.py:66 | lowercasing the text or the pattern first changes nothing |
| Text.SortedDistinct | movie_app/individual_movies/similarity.py:42 | `sorted(set(...))`: a strictly increasing list of exactly the given strings |
| Text.SortedListingUnique | movie_app/individual_movies/similarity.py:42-54 | two strictly sorted lists of the same strings are equal, so `sorted` of a set is determined by the set |
| Text.StrLess | movie_app/individual_movies/similarity.py:42 | Python's `<` on strings, which `sorted` uses: lexicographic by code point, a proper prefix coming first |
| Text.StrLessTransitive | movie_app/individual_movies/similarity.py:42 | Python's string order is transitive |
| Text.StrLessTotal | movie_app/individual_movies/similarity.py:42 | any two different strings are ordered one way or the other |
| Text.StrLessIrreflexive | movie_app/individual_movies/similarity.py:42 | no string is less than itself |
| Movies.SameFranchise | movie_app/recommendations/similarity_calculator.py:14 | `pd.notna` on both `belongs_to_id` values, and they are equal (also similarity.py:5) |
| Movies.Frame.constructor | movie_app/recommendations/display.py:11 | the caller's `df`: its rows, with no `similarity` column yet; the pipelines write that column in place (also similarity.py:69) |
| Movies.Apply | movie_app/recommendations/display.py:11 | `df.apply(f, axis=1)`: a column with `f` of every row, in row order |
| Ranking.IsRanking | movie_app/recommendations/display.py:12 | what `sort_values(by='similarity', ascending=False)` promises: a permutation of the rows, as a multiset, in non-increasing score order |
| Ranking.SortByScore | movie_app/recommendations/display.py:12 | the sorted rows are a permutation of the rows in non-increasing score order |
| Ranking.RankingScoresAgree | movie_app/recommendations/movie_recs.py:45 | any two descending sorts of the same rows have the same score at every position: only ties are reordered |
| Ranking.WhereKeepsOrder | movie_app/recommendations/display.py:13-19 | a boolean mask keeps the non-increasing order of a sorted frame |
| RecommendationScore.Excluded | movie_app/recommendations/similarity_calculator.py:14 | the pair is excluded when the ids are equal, or when both collections are present and equal |
| RecommendationScore.TopCast | movie_app/recommendations/similarity_calculator.py:20 | `split(', ')[:8]`: a prefix of the split cast of at most eight names, and the whole split when it has fewer than eight |
| RecommendationScore.TopCastIgnoresTail | movie_app/recommendations/similarity_calculator.py:20 | appending names to a cast of eight or more leaves its top eight unchanged |
| RecommendationScore.DirectorMatch | movie_app/recommendations/similarity_calculator.py:19 | the director term is 0 or 1, and 1 exactly when both director lists have the same names |
| RecommendationScore.Endorsement | movie_app/recommendations/similarity_calculator.py:23-27 | the bonus lies in [0, 0.2] |
| RecommendationScore.PairScore | movie_app/recommendations/similarity_calculator.py:12-36 | equal ids or an equal present collection give exactly -1 000 000, and only they do; otherwise the score lies in [0, 1.1] |
| RecommendationScore.MissingFranchiseNeverExcludes | movie_app/recommendations/movie_recs.py:15-16 | a missing collection on either side never triggers the sentinel; with different ids the score is in [0, 1.1] |
| RecommendationScore.EmptyListColumnsMatch | movie_app/recommendations/similarity_calculator.py:17-22 | two movies whose list columns are all empty score 0.9 plus endorsements, because `[""]` meets `[""]` |
| RecommendationScore.CastAfterEighthIgnored | movie_app/recommendations/similarity_calculator.py:20 | actors after the eighth never change the score, in either argument |
| RecommendationScore.RecommendedTitleAddsTenth | movie_app/recommendations/similarity_calculator.py:24-25 | making the seed's recommendations mention the title adds exactly 0.1 |
| RecommendationScore.SimilarTitleAddsTenth | movie_app/recommendations/movie_recs.py:27-28 | making the seed's similar-movies text mention the title adds exactly 0.1 |
| RecommendationScore.PairScoreAsymmetric | movie_app/recommendations/similarity_calculator.py:23-27 | there are two movies whose scores differ by argument order |
| RecommendationsByIds.Seeds | movie_app/recommendations/display.py:9 | the seed rows are exactly the frame's rows whose id is among `movie_ids` |
| RecommendationsByIds.SeedsIgnoreRepeats | movie_app/recommendations/display.py:9 | `isin(movie_ids)` depends only on which ids are listed, so a repeated id does not add seed rows |
| RecommendationsByIds.AggregateScore | movie_app/recommendations/display.py:11 | the summed score is at most 1.1 per seed and non-negative when no seed excludes the row; when one does, it is at most the sentinel plus 1.1 per other seed |
| RecommendationsByIds.ExcludedRowsRankLast | movie_app/recommendations/movie_recs.py:44-45 | with up to 900 000 seeds, a row some seed excludes scores strictly below any row no seed excludes |
| RecommendationsByIds.InRatingRange | movie_app/recommendations/display.py:13 | the rating lies between `min_rating` and `max_rating`, both included |
| RecommendationsByIds.SpeaksLanguage | movie_app/recommendations/display.py:14 | the language filter occurs in `spoken_languages`, ignoring case |
| RecommendationsByIds.WithinRuntime | movie_app/recommendations/display.py:15 | the runtime is at most `runtime_max` |
| RecommendationsByIds.InYearRange | movie_app/recommendations/display.py:16 | the release year lies in the range, both ends included |
| RecommendationsByIds.HasAllGenres | movie_app/recommendations/display.py:17-18 | every requested genre occurs as a substring of the `genres` text |
| RecommendationsByIds.Suspicious | movie_app/recommendations/display.py:19 | a rating above 6.5 on fewer than 500 votes |
| RecommendationsByIds.PassesFilters | movie_app/recommendations/display.py:13-18 | the conjunction of the five filters |
| RecommendationsByIds.Shortlist | movie_app/recommendations/display.py:13-21 | of a ranking: the admitted, not suspicious rows, the first seven of them, minus the seeds |
| RecommendationsByIds.EmptyLanguageAdmitsAll | movie_app/recommendations/display.py:14 | the empty language filter admits every row |
| RecommendationsByIds.GenreFilterIsSubstringAnd | movie_app/recommendations/display.py:17-18 | the genre filter is an AND of substring tests: an empty list admits everything; "Action, Drama" passes ["Drama", "Action"] but not ["Drama", "Comedy"] |
| RecommendationsByIds.SelectionProperties | movie_app/recommendations/display.py:12-21 | for any tie order: at most seven rows, non-increasing, each a row of the frame that passes the filters, is not suspicious and is not a seed |
| RecommendationsByIds.FrameSelectionProperties | movie_app/recommendations/movie_recs.py:44-49 | in addition, each result's score is its summed score against the seed rows |
| RecommendationsByIds.RankAndFilter | movie_app/recommendations/display.py:12-21 | the successive masks, `head(7)` and the seed drop give `Shortlist` of a ranking of the rows under all five filters |
| RecommendationsByIds.RankAndFilterByRating | movie_app/recommendations/movie_recs.py:45-49 | the same, with the rating filter only |
| RecommendationsByIds.RecommendByIds | movie_app/recommendations/display.py:7-24 | no seed row: empty result and the frame untouched; otherwise the `similarity` column holds each row's summed score, and the result is a selection with at most seven rows that pass every filter, are not seeds and are not suspicious |
| RecommendationsByIds.RecommendByIdsRatingOnly | movie_app/recommendations/movie_recs.py:40-52 | the same with only the rating filter |
| IndividualSimilarity.Chars | movie_app/individual_movies/similarity.py:32-33 | `set(raw string)`: the string's set of characters, as the genre, keyword and director terms use it |
| IndividualSimilarity.CharDirectorMatch | movie_app/individual_movies/similarity.py:10 | the director term is 0 or 1, and 1 exactly when the two director strings are made of the same characters |
| IndividualSimilarity.IndividualScore | movie_app/individual_movies/similarity.py:3-28 | the same present collection gives exactly 0; otherwise the score lies in [0, 1.2] |
| IndividualSimilarity.GenresCompareCharacters | movie_app/individual_movies/similarity.py:8-9 | genres compare characters: "Action" and "Animation" are 5/8 similar here, but 0 as the tab's split lists |
| IndividualSimilarity.EmptyGenresEarnNothing | movie_app/individual_movies/similarity.py:8 | two empty genre cells earn no genre credit, so outside the collection case the score is at most 0.8 (the recommendation tab gives them the whole 0.3) |
| IndividualSimilarity.OnlyLettersMatter | movie_app/individual_movies/similarity.py:8-9 | replacing the genre and keyword strings by strings with the same characters changes neither order's score |
| IndividualSimilarity.SameLettersFullGenreWeight | movie_app/individual_movies/similarity.py:8 | two non-empty genre strings with the same characters earn the whole 0.4 genre weight outside the collection case |
| IndividualSimilarity.SelfScoreIsPositive | movie_app/individual_movies/movie_data.py:178-203 | with no id check, a movie outside any collection scores at least 0.3 against itself |
| IndividualSimilarity.CastAfterEighthIgnored | movie_app/individual_movies/movie_data.py:187-189 | actors after the eighth never change the score, in either argument |
| SimilarityExplanation.Entries | movie_app/individual_movies/similarity.py:40-52 | a column's `split(', ')`, and for the cast its first eight names |
| SimilarityExplanation.Common | movie_app/individual_movies/similarity.py:40-52 | `set(...).intersection(set(...))` of a column's split lists (the cast's top eight) |
| SimilarityExplanation.CommonItems | movie_app/individual_movies/similarity.py:40-42 | the shared entries of two lists, each once, in increasing order |
| SimilarityExplanation.Render | movie_app/individual_movies/similarity.py:42-59 | every line is non-empty and does not start with the fallback's first letter |
| SimilarityExplanation.SharedReason | movie_app/individual_movies/similarity.py:40-54 | a column gives at most one line |
| SimilarityExplanation.SharedReasonApplies | movie_app/individual_movies/movie_data.py:142-156 | a column's line exists exactly when the column has shared entries, and it lists those entries sorted |
| SimilarityExplanation.EndorsementReasons | movie_app/individual_movies/similarity.py:56-59 | the title mentions give at most two lines |
| SimilarityExplanation.Reasons | movie_app/individual_movies/similarity.py:40-59 | the lines of the four columns, then the two endorsement lines, in that order; characterised by `ReasonsAreTheApplicableLines` and `ReasonsUnique` |
| SimilarityExplanation.EndorsementReasonsApply | movie_app/individual_movies/similarity.py:56-59 | the two endorsement lines appear exactly when the title is mentioned, in that order |
| SimilarityExplanation.ReasonsAreTheApplicableLines | movie_app/individual_movies/similarity.py:40-59 | the lines are exactly those that apply, in the fixed order Genres, Keywords, Directors, Cast, recommended, similar |
| SimilarityExplanation.ReasonsUnique | movie_app/individual_movies/movie_data.py:142-161 | any list of the applicable lines in that fixed order is the explanation's list |
| SimilarityExplanation.SharedLineIffCommon | movie_app/individual_movies/similarity.py:52-54 | a column, such as the top-eight cast, has a line exactly when the two movies share an entry of it |
| SimilarityExplanation.NoReasonsIffNothingInCommon | movie_app/individual_movies/movie_data.py:140-163 | there are no lines exactly when the four shared sets are empty and neither title is mentioned |
| SimilarityExplanation.AppendIfAny | movie_app/individual_movies/similarity.py:41-54 | `if common: explanations.append(line)`: the list grows by the line's text exactly when there is a line |
| SimilarityExplanation.Explain | movie_app/individual_movies/similarity.py:36-61 | the text is the fallback exactly when the movies have nothing in common; otherwise it is the lines joined by newlines |
| RecommendationsByName.TitleStem | movie_app/individual_movies/similarity.py:65 | the stem is a prefix of the name with no `" ("` in it that ends where the first `" ("` starts, and the whole name when it has none |
| RecommendationsByName.TitleMatches | movie_app/individual_movies/similarity.py:66 | the stem occurs in the title, ignoring case |
| RecommendationsByName.Matches | movie_app/individual_movies/similarity.py:66 | the matching rows are exactly the frame's rows whose title contains the stem, ignoring case |
| RecommendationsByName.EmptyNameMatchesEveryRow | movie_app/individual_movies/movie_data.py:167-168 | the empty name matches every title, so the seed is the frame's first row |
| RecommendationsByName.TopWithoutTitle | movie_app/individual_movies/similarity.py:70-71 | of a ranking: the first seven rows, minus those titled exactly the stem |
| RecommendationsByName.NameSelectionProperties | movie_app/individual_movies/similarity.py:70-71 | for any tie order: at most seven rows of the frame, non-increasing, none titled exactly the stem |
| RecommendationsByName.RankAndDropTitle | movie_app/individual_movies/movie_data.py:172-173 | sort, `head(7)` and the title drop give `TopWithoutTitle` of a ranking of the rows |
| RecommendationsByName.RecommendByName | movie_app/individual_movies/similarity.py:63-74 | no title contains the stem: empty result and the frame untouched; otherwise the column holds every row's score against the first match, and the result has at most seven rows, non-increasing, none titled the stem |

## Left out

- The two copies are modelled once: `movie_recs.py` has the recommendation tab's scorer, and `movie_data.py` has the details page's functions, both identical to the lines cited beside them.
- Streamlit rendering, navigation, query parameters and session state, and the wiring in `movie_streamlit.py`: these are user interface.
- `input_file.py`: it reads uploaded txt/csv/xlsx/docx files and calls `difflib`'s fuzzy match. This is file I/O plus a foreign library.
- Loading the movie and cast tables from parquet files: file I/O.
- TitleMatches and SpeaksLanguage: pandas `str.contains` reads its pattern as a regular expression, and that is not modelled. The model treats it as a case-insensitive substring test, and they agree for patterns with no regular-expression metacharacters.
- Text.Lower: lowercases ASCII letters only. Python's `lower()` and case-insensitive matching cover all of Unicode.
- IEEE floating point: every score is an exact `real`, and integer ids, years, runtimes and vote counts are unbounded `int`s.
- `NaN` text cells: a text column is always a string here. A `NaN` read from the parquet file makes the scorers raise an exception: AttributeError at `.split(', ')`, TypeError at `set(...)` or `in`, while `na=False` maps it to "no match" in `str.contains`.
- The order of rows with equal scores: pandas' default sort is not stable. Results are specified for some non-increasing permutation of the rows.
- Franchise de-duplication and fame-level tiers: none of the modelled files implements them, so they are not modelled. The floor on well-rated movies with few votes is modelled in both recommendation-tab copies.
- The empty `pd.DataFrame()` returned when nothing matches is modelled as an empty result list. The frame is otherwise a sequence of movie records plus the `similarity` column. The repository's other columns are not modelled.
- RecommendationsByIds.ExcludedRowsRankLast: stated for at most 900 000 seeds, because with more seeds the positive scores could outweigh one sentinel.
