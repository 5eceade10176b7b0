/** Profile drafting, career ranking and skill-gap suggestions
    (src/components/career-view.tsx). */
module CareerView {
  import opened Wrappers
  import opened Records
  import opened Text
  import opened CareerData
  import opened ProfileStore

  // ---------------------------------------------------------------------------
  // Drafting and saving a profile

  /** `isCreatingProfile`, `newProfileName` and `newProfileCompetencies`. */
  datatype Draft = Draft(creating: bool, name: string, ratings: Record<int>)

  const Closed: Draft := Draft(false, "", [])

  /** Every rating is a slider value. */
  predicate RatingsAreSliderValues(ratings: Record<int>) {
    forall i :: 0 <= i < |ratings| ==> 1 <= ratings[i].1 <= 5
  }

  /** `startCreatingProfile`: an open draft with no name in which every
      catalog competency, in catalog order, is rated 1. */
  function StartCreatingProfile(): (d: Draft)
    ensures d.creating && d.name == ""
    ensures Keys(d.ratings) == CompetencyNames()
    ensures forall i :: 0 <= i < |d.ratings| ==> d.ratings[i].1 == 1
  {
    var names := CompetencyNames();
    Draft(true, "", seq(|names|, i requires 0 <= i < |names| => (names[i], 1)))
  }

  /** `cancelCreatingProfile`. */
  function CancelCreatingProfile(d: Draft): (r: Draft)
    ensures !r.creating && r.name == "" && r.ratings == []
  {
    Closed
  }

  /** A slider move, `{ ...newProfileCompetencies, [name]: value }`. The
      slider's bounds 1..5 are its caller's guarantee. Only the moved
      competency changes: the keys, their order and every other rating stay. */
  function UpdateRating(d: Draft, competency: string, value: int): (r: Draft)
    requires UniqueKeys(d.ratings) && 1 <= value <= 5
    ensures UniqueKeys(r.ratings)
    ensures competency in Keys(d.ratings) ==> Keys(r.ratings) == Keys(d.ratings)
    ensures RatingsAreSliderValues(d.ratings) ==> RatingsAreSliderValues(r.ratings)
    ensures r.creating == d.creating && r.name == d.name
  {
    d.(ratings := Set(d.ratings, competency, value))
  }

  /** Moving one slider changes what the draft says for that competency only. */
  lemma UpdateRatingChangesOnlyOne(d: Draft, competency: string, value: int, other: string)
    requires UniqueKeys(d.ratings) && 1 <= value <= 5
    ensures Get(UpdateRating(d, competency, value).ratings, competency) == Some(value)
    ensures other != competency ==> Get(UpdateRating(d, competency, value).ratings, other) == Get(d.ratings, other)
  {
    SetThenGet(d.ratings, competency, value);
    if other != competency {
      SetOthersUnchanged(d.ratings, competency, value, other);
    }
  }

  /** A fresh draft is a genuine object of slider values over the catalog. */
  lemma FreshDraftWellFormed()
    ensures UniqueKeys(StartCreatingProfile().ratings)
    ensures RatingsAreSliderValues(StartCreatingProfile().ratings)
  {
    CompetencyCatalogWellFormed();
    var d := StartCreatingProfile();
    assert forall i :: 0 <= i < |d.ratings| ==> d.ratings[i].0 == CompetencyNames()[i];
  }

  /** `saveProfile`: a name that trims to nothing does nothing at all;
      otherwise the trimmed name and a copy of the ratings are appended, the
      new profile is selected, and the draft is closed. */
  function SaveProfile(d: Draft, s: Store): (r: (Draft, Store))
    ensures Trim(d.name) == "" ==> r == (d, s)
    ensures Trim(d.name) != "" ==>
              && r.0 == Closed
              && r.1.profiles == s.profiles + [Profile(Trim(d.name), d.ratings)]
              && r.1.selectedIndex == Some(|s.profiles|)
              && SelectedCareerProfile(r.1) == Some(Profile(Trim(d.name), d.ratings))
  {
    var name := Trim(d.name);
    if name == "" then (d, s)
    else
      var profile := Profile(name, d.ratings);
      (Closed, SelectCareerProfile(AddCareerProfile(s, profile), Some(|s.profiles|)))
  }

  // ---------------------------------------------------------------------------
  // Career ranking

  /** One `{ career, score }` result. */
  datatype Match = Match(career: Career, score: real)

  const DefaultLimit: nat := 3

  /** `defaultCareers.map(...)`: each career with its own score, in catalog order. */
  function ScoreAll(careers: seq<Career>, ratings: Record<int>): (ms: seq<Match>)
    ensures |ms| == |careers|
    ensures forall i :: 0 <= i < |ms| ==> ms[i] == Match(careers[i], CompatibilityScore(careers[i], ratings))
  {
    seq(|careers|, i requires 0 <= i < |careers| => Match(careers[i], CompatibilityScore(careers[i], ratings)))
  }

  ghost predicate NonIncreasing(ms: seq<Match>) {
    forall i, j :: 0 <= i < j < |ms| ==> ms[i].score >= ms[j].score
  }

  /** The results scoring exactly `v`, in the order given. Stability of a
      sort is the statement that this is the same before and after. */
  function WithScore(ms: seq<Match>, v: real): seq<Match> {
    if ms == [] then [] else (if ms[0].score == v then [ms[0]] else []) + WithScore(ms[1..], v)
  }

  lemma {:induction false} WithScoreConcat(a: seq<Match>, b: seq<Match>, v: real)
    ensures WithScore(a + b, v) == WithScore(a, v) + WithScore(b, v)
  {
    if a != [] {
      assert (a + b)[1..] == a[1..] + b;
      WithScoreConcat(a[1..], b, v);
    } else {
      assert a + b == b;
    }
  }

  /** A head at least as high as everything after it keeps a sorted tail sorted. */
  lemma HeadOnTop(h: Match, rest: seq<Match>)
    requires NonIncreasing(rest)
    requires forall x :: x in rest ==> x.score <= h.score
    ensures NonIncreasing([h] + rest)
  {
    forall i, j | 0 <= i < j < |[h] + rest| ensures ([h] + rest)[i].score >= ([h] + rest)[j].score {
      assert ([h] + rest)[j] == rest[j - 1];
      if i > 0 {
        assert ([h] + rest)[i] == rest[i - 1];
      }
    }
  }

  /** Inserts `m` after every entry scoring strictly more, so before the
      entries it ties with: these came later in the input. */
  function Insert(m: Match, sorted: seq<Match>): (r: seq<Match>)
    requires NonIncreasing(sorted)
    ensures forall x :: x in r <==> x == m || x in sorted
    ensures NonIncreasing(r)
    ensures multiset(r) == multiset(sorted) + multiset{m}
  {
    if sorted == [] || sorted[0].score <= m.score then
      HeadOnTop(m, sorted);
      [m] + sorted
    else
      var rest := Insert(m, sorted[1..]);
      assert sorted == [sorted[0]] + sorted[1..];
      HeadOnTop(sorted[0], rest);
      [sorted[0]] + rest
  }

  lemma {:induction false} InsertIsStable(m: Match, sorted: seq<Match>, v: real)
    requires NonIncreasing(sorted)
    ensures WithScore(Insert(m, sorted), v) == if m.score == v then [m] + WithScore(sorted, v) else WithScore(sorted, v)
  {
    if sorted == [] || sorted[0].score <= m.score {
      assert ([m] + sorted)[1..] == sorted;
    } else {
      var rest := Insert(m, sorted[1..]);
      assert ([sorted[0]] + rest)[1..] == rest;
      InsertIsStable(m, sorted[1..], v);
    }
  }

  /** `results.sort((a, b) => b.score - a.score)`: an insertion sort by
      descending score. The sort the source calls is stable (section
      23.1.3.30 of ECMA-262, stable since the 2019 edition), and so is this one. */
  function SortByScore(ms: seq<Match>): (r: seq<Match>)
    ensures NonIncreasing(r)
    ensures multiset(r) == multiset(ms)
  {
    if ms == [] then []
    else
      assert ms == [ms[0]] + ms[1..];
      Insert(ms[0], SortByScore(ms[1..]))
  }

  /** Ties keep their input order: for every score, the entries with that
      score come out in the order they went in. */
  lemma {:induction false} SortIsStable(ms: seq<Match>, v: real)
    ensures WithScore(SortByScore(ms), v) == WithScore(ms, v)
  {
    if ms != [] {
      SortIsStable(ms[1..], v);
      InsertIsStable(ms[0], SortByScore(ms[1..]), v);
    }
  }

  /** `getCareerRecommendations(profile, limit)` over a career catalog: the
      sorted results cut to `limit`. */
  function RankCareers(careers: seq<Career>, ratings: Record<int>, limit: nat): (r: seq<Match>)
    ensures |r| == if limit < |careers| then limit else |careers|
    ensures NonIncreasing(r)
  {
    var sorted := SortByScore(ScoreAll(careers, ratings));
    assert |sorted| == |multiset(sorted)| == |multiset(ScoreAll(careers, ratings))| == |careers|;
    sorted[..if limit < |sorted| then limit else |sorted|]
  }

  /** Each result is a catalog career paired with its own score. */
  lemma RankedAreScoredCareers(careers: seq<Career>, ratings: Record<int>, limit: nat)
    ensures forall m :: m in RankCareers(careers, ratings, limit) ==>
              m.career in careers && m.score == CompatibilityScore(m.career, ratings)
  {
    var all := ScoreAll(careers, ratings);
    var sorted := SortByScore(all);
    var r := RankCareers(careers, ratings, limit);
    forall m | m in r ensures m.career in careers && m.score == CompatibilityScore(m.career, ratings) {
      assert m in multiset(sorted);
      assert m in multiset(all);
      var i :| 0 <= i < |all| && all[i] == m;
    }
  }

  /** In a descending list every element of a prefix scores at least as
      much as every element after it. */
  lemma PrefixBeatsSuffix(s: seq<Match>, k: nat)
    requires NonIncreasing(s) && k <= |s|
    ensures forall x, y :: x in s[..k] && y in s[k..] ==> x.score >= y.score
  {
    forall x, y | x in s[..k] && y in s[k..] ensures x.score >= y.score {
      var i :| 0 <= i < k && s[..k][i] == x;
      var j :| 0 <= j < |s| - k && s[k..][j] == y;
      assert s[i] == x && s[k + j] == y;
    }
  }

  /** Every career returned scores at least as much as every career left out. */
  lemma RankedBeatTheRest(careers: seq<Career>, ratings: Record<int>, limit: nat)
    ensures var all := ScoreAll(careers, ratings);
            var r := RankCareers(careers, ratings, limit);
            && multiset(r) <= multiset(all)
            && forall x, y :: x in r && y in multiset(all) - multiset(r) ==> x.score >= y.score
  {
    var all := ScoreAll(careers, ratings);
    var sorted := SortByScore(all);
    var r := RankCareers(careers, ratings, limit);
    var k := |r|;
    var rest := sorted[k..];
    assert sorted == r + rest;
    assert r == sorted[..k];
    assert multiset(all) == multiset(r) + multiset(rest);
    assert multiset(all) - multiset(r) == multiset(rest);
    PrefixBeatsSuffix(sorted, k);
  }

  /** Ties are broken by catalog order: among the results with any one score,
      the careers are the first ones of the catalog with that score, in
      catalog order. */
  lemma RankedTiesInCatalogOrder(careers: seq<Career>, ratings: Record<int>, limit: nat, v: real)
    ensures var w := WithScore(ScoreAll(careers, ratings), v);
            var wr := WithScore(RankCareers(careers, ratings, limit), v);
            |wr| <= |w| && wr == w[..|wr|]
  {
    var all := ScoreAll(careers, ratings);
    var sorted := SortByScore(all);
    var r := RankCareers(careers, ratings, limit);
    assert sorted == r + sorted[|r|..];
    WithScoreConcat(r, sorted[|r|..], v);
    SortIsStable(all, v);
  }

  /** The view's call: the default catalog, the profile's ratings, limit 3. */
  function GetCareerRecommendations(profile: Profile, limit: nat := DefaultLimit): (r: seq<Match>)
    ensures |r| == if limit < |DefaultCareers| then limit else |DefaultCareers|
    ensures NonIncreasing(r)
  {
    RankCareers(DefaultCareers, profile.competencies, limit)
  }

  /** With the six default careers the default call returns three. */
  lemma DefaultRecommendationsAreThree(profile: Profile)
    ensures |GetCareerRecommendations(profile)| == 3
  {
    DefaultCareersWellFormed();
  }

  // ---------------------------------------------------------------------------
  // Skill-gap suggestions

  /** One `{ competency, paths }` suggestion. */
  datatype Suggestion = Suggestion(competency: string, paths: seq<string>)

  /** `competencyLearningPaths[name] || []`. */
  function PathsFor(table: Record<seq<string>>, competency: string): seq<string> {
    Get(table, competency).GetOr([])
  }

  /** A rating that asks for a suggestion: below 3, with catalog paths. */
  predicate IsGap(entry: (string, int), table: Record<seq<string>>) {
    entry.1 < 3 && PathsFor(table, entry.0) != []
  }

  /** The `i`-th rating is a gap and `s` is the suggestion it yields. */
  ghost predicate SuggestedAt(ratings: Record<int>, table: Record<seq<string>>, i: int, s: Suggestion) {
    0 <= i < |ratings| && IsGap(ratings[i], table) && s == Suggestion(ratings[i].0, PathsFor(table, ratings[i].0))
  }

  /** `getLearningPathRecommendations`, over the ratings in property order:
      one suggestion per gap, carrying the table's paths, and nothing else. */
  function LearningPathSuggestions(ratings: Record<int>, table: Record<seq<string>>): (r: seq<Suggestion>)
    ensures forall s :: s in r <==> exists i :: SuggestedAt(ratings, table, i, s)
    ensures |r| <= |ratings|
  {
    if ratings == [] then []
    else
      var rest := LearningPathSuggestions(ratings[1..], table);
      assert forall s, i :: SuggestedAt(ratings[1..], table, i, s) ==> SuggestedAt(ratings, table, i + 1, s);
      assert forall s, i :: SuggestedAt(ratings, table, i, s) && i > 0 ==> SuggestedAt(ratings[1..], table, i - 1, s);
      var head := if IsGap(ratings[0], table) then [Suggestion(ratings[0].0, PathsFor(table, ratings[0].0))] else [];
      assert forall s :: s in head <==> SuggestedAt(ratings, table, 0, s);
      head + rest
  }

  /** Suggestions follow the ratings' order: the suggestions for a
      concatenation are those of the first part, then those of the second. */
  lemma {:induction false} SuggestionsFollowRatingOrder(a: Record<int>, b: Record<int>, table: Record<seq<string>>)
    ensures LearningPathSuggestions(a + b, table) == LearningPathSuggestions(a, table) + LearningPathSuggestions(b, table)
  {
    if a != [] {
      assert (a + b)[0] == a[0];
      assert (a + b)[1..] == a[1..] + b;
      SuggestionsFollowRatingOrder(a[1..], b, table);
    } else {
      assert a + b == b;
    }
  }

  /** A single rating yields one suggestion if it is a gap and none
      otherwise; with `SuggestionsFollowRatingOrder` this pins the whole
      list, so every gap is suggested exactly once, in rating order. */
  lemma SuggestionsOfOneRating(entry: (string, int), table: Record<seq<string>>)
    ensures LearningPathSuggestions([entry], table) ==
            if IsGap(entry, table) then [Suggestion(entry.0, PathsFor(table, entry.0))] else []
  {
    assert [entry][1..] == [];
  }

  /** No suggestions exactly when no rating is a gap; in particular a
      profile rated 3 or more everywhere gets none. */
  lemma NoSuggestionsIffNoGap(ratings: Record<int>, table: Record<seq<string>>)
    ensures LearningPathSuggestions(ratings, table) == [] <==> forall i :: 0 <= i < |ratings| ==> !IsGap(ratings[i], table)
  {
    var r := LearningPathSuggestions(ratings, table);
    if r != [] {
      assert r[0] in r;
    }
    if exists i :: 0 <= i < |ratings| && IsGap(ratings[i], table) {
      var i :| 0 <= i < |ratings| && IsGap(ratings[i], table);
      assert SuggestedAt(ratings, table, i, Suggestion(ratings[i].0, PathsFor(table, ratings[i].0)));
    }
  }

  /** The view's call: the profile's ratings against the catalog table. */
  function GetLearningPathRecommendations(profile: Profile): (r: seq<Suggestion>)
    ensures forall s :: s in r ==> s.paths != [] && s.competency in Keys(profile.competencies)
  {
    var r := LearningPathSuggestions(profile.competencies, CompetencyLearningPaths);
    assert forall s :: s in r ==> s.paths != [] && s.competency in Keys(profile.competencies) by {
      forall s | s in r ensures s.paths != [] && s.competency in Keys(profile.competencies) {
        var i :| SuggestedAt(profile.competencies, CompetencyLearningPaths, i, s);
        assert Keys(profile.competencies)[i] == s.competency;
      }
    }
    r
  }

  /** Rated 2 on a competency with paths and 4 on another, only the first is
      suggested. */
  lemma GapExample()
    ensures LearningPathSuggestions([("Creativity", 2), ("Leadership", 4)], [("Creativity", ["Practice brainstorming"])])
            == [Suggestion("Creativity", ["Practice brainstorming"])]
  {
    var table: Record<seq<string>> := [("Creativity", ["Practice brainstorming"])];
    var ratings: Record<int> := [("Creativity", 2), ("Leadership", 4)];
    assert ratings[1..] == [("Leadership", 4)];
    assert ratings[1..][1..] == [];
  }
}
