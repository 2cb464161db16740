/** The welfare-recommendation engine: candidate gathering from the
    catalogue queries, the additive relevance score, ranking, the template
    reason, and the service that writes one recommendation row per ranked
    program. Only the live scoring regime is modelled: the personality
    regime is switched off in the service (`hasPersonality` is false). */
module WelfareRecommendation {
  import opened Wrappers
  import opened Text
  import opened Numbers
  import opened Domain
  import opened Catalogue
  import opened Sequences
  import EA = EmotionAnalysis
  import EmotionKeywords
  import WishActivities

  // ---------------------------------------------------------------------
  // Age and personality helpers

  /** `parseAge`: the trimmed text as a 32-bit integer; a missing, blank or
      malformed age is null, never an exception. */
  function ParseAge(age: Option<string>): (r: Option<int>)
    ensures r.Some? ==> age.Some? && !IsBlank(age.value) && IntMin <= r.value <= IntMax
  {
    if age.None? || IsBlank(age.value) then None
    else ParseInt(Trim(age.value))
  }

  /** The decimal rendering of an age reads back as that age. */
  lemma ParseAgeRoundTrip(n: int)
    requires IntMin <= n <= IntMax
    ensures ParseAge(Some(IntToString(n))) == Some(n)
  {
    var s := IntToString(n);
    ParseIntRoundTrip(n);
    assert !IsSpace(s[0]) && !IsSpace(s[|s| - 1]) by {
      if n < 0 {
        assert s[0] == '-';
        assert s[|s| - 1] == NatToString(-n)[|NatToString(-n)| - 1];
      }
    }
    TrimKeeps(s);
  }

  /** Text without outer spaces is its own trimmed form, and not blank. */
  lemma TrimKeeps(s: string)
    requires |s| > 0 && !IsSpace(s[0]) && !IsSpace(s[|s| - 1])
    ensures Trim(s) == s && !IsBlank(s)
  {
    TrimNoop(s);
  }

  /** Blank or missing text is never an age. */
  lemma ParseAgeBlank(age: Option<string>)
    requires age.None? || (forall i :: 0 <= i < |age.value| ==> IsSpace(age.value[i]))
    ensures ParseAge(age).None?
  {
    if age.Some? {
      IsBlankIff(age.value);
    }
  }

  /** `containsAny(text, words)`: some word occurs in the text. */
  predicate ContainsAny(text: string, words: seq<string>) {
    exists i :: 0 <= i < |words| && Contains(text, words[i])
  }

  /** The eight words `calculatePersonalityScore` looks for per type. */
  function TraitWords(t: PersonalityType): seq<string> {
    match t
    case LogicalBlue => ["교육", "과학", "분석", "학습", "연구", "탐구", "역사", "지식"]
    case EmotionalRed => ["가족", "소통", "만남", "공감", "상담", "함께", "이야기", "나눔"]
    case ControlGray => ["리더", "지도", "교육", "관리", "멘토", "가이드", "봉사", "도움"]
    case IndependentNavy => ["개인", "자율", "독립", "선택", "취미", "자유", "혼자", "창작"]
    case AffectionateYellow => ["표현", "활동", "즐거움", "놀이", "체험", "소통", "참여", "함께"]
    case IntrospectiveGreen => ["독서", "사색", "조용", "개인", "깊이", "성찰", "책", "글"]
  }

  /** Lower-cased title, description and tags, separated by blanks. */
  function SearchText(p: Program): string {
    ToLower(p.title) + " " + ToLower(p.description.GetOr("")) + " " + ToLower(p.emotionKeywords.GetOr(""))
  }

  /** `calculatePersonalityScore`: 0.15 when the program's text mentions
      one of the type's words, 0 otherwise or without a type. */
  function PersonalityScore(p: Program, t: Option<PersonalityType>): (r: real)
    ensures r == 0.0 || r == 0.15
    ensures r == 0.15 <==> t.Some? && ContainsAny(SearchText(p), TraitWords(t.value))
  {
    if t.None? then 0.0
    else if ContainsAny(SearchText(p), TraitWords(t.value)) then 0.15
    else 0.0
  }

  /** A program whose title is one of the type's words earns the bonus:
      the words have no ASCII capitals, so lower-casing keeps them. */
  lemma PersonalityScoreOfTitle(p: Program, t: PersonalityType, i: nat)
    requires i < |TraitWords(t)| && p.title == TraitWords(t)[i]
    ensures PersonalityScore(p, Some(t)) == 0.15
  {
    TraitWordsLower(t);
    TitleInSearchText(p);
  }

  /** The lower-cased title is part of the searched text. */
  lemma TitleInSearchText(p: Program)
    ensures Contains(SearchText(p), ToLower(p.title))
  {
    var t := ToLower(p.title);
    var d := ToLower(p.description.GetOr(""));
    ContainsSelf(t);
    ContainsConcat(t, " ", t);
    ContainsConcat(t + " ", d, t);
    ContainsConcat(t + " " + d, " ", t);
    ContainsConcat(t + " " + d + " ", ToLower(p.emotionKeywords.GetOr("")), t);
  }

  /** The trait words are already lower-case. */
  lemma TraitWordsLower(t: PersonalityType)
    ensures forall i :: 0 <= i < |TraitWords(t)| ==> ToLower(TraitWords(t)[i]) == TraitWords(t)[i]
  {
    var ws := TraitWords(t);
    forall i | 0 <= i < |ws|
      ensures ToLower(ws[i]) == ws[i]
    {
      NoAsciiCapitals(ws[i]);
    }
  }

  /** Text without ASCII capitals is kept by lower-casing. */
  lemma NoAsciiCapitals(s: string)
    requires forall k :: 0 <= k < |s| ==> !('A' <= s[k] <= 'Z')
    ensures ToLower(s) == s
  {
  }

  // ---------------------------------------------------------------------
  // Relevance score (the live regime)

  /** The number of profile keywords, repeats included, found in the tags. */
  function MatchCount(tags: string, keywords: seq<string>): (n: nat)
    ensures n <= |keywords|
  {
    if |keywords| == 0 then 0
    else MatchCount(tags, keywords[..|keywords| - 1])
         + (if Contains(tags, keywords[|keywords| - 1]) then 1 else 0)
  }

  predicate RegionMatch(p: Program, user: User) {
    p.targetCity.Some? && user.region == p.targetCity
  }

  predicate AgeMatch(p: Program, user: User) {
    ParseAge(user.age).Some? && AgeInRange(p, ParseAge(user.age).value)
  }

  function RegionFactor(p: Program, user: User): real {
    if RegionMatch(p, user) then 0.30 else 0.0
  }

  function AgeFactor(p: Program, user: User): real {
    if AgeMatch(p, user) then 0.20 else 0.0
  }

  function KeywordFactor(p: Program, keywords: seq<string>): real {
    if p.emotionKeywords.None? then 0.0
    else
      (MatchCount(p.emotionKeywords.value, keywords) as real * 0.30)
        / (if |keywords| > 1 then |keywords| else 1) as real
  }

  function CategoryFactor(p: Program, categories: seq<string>): real {
    if p.category in categories then 0.20 else 0.0
  }

  /** `calculateRelevanceScore` with `hasPersonality` false. */
  function RelevanceScore(p: Program, user: User, keywords: seq<string>, categories: seq<string>): (r: real)
    ensures 0.0 <= r <= 1.0
  {
    KeywordFactorBounds(p, keywords);
    var sum := RegionFactor(p, user) + AgeFactor(p, user) + KeywordFactor(p, keywords)
               + CategoryFactor(p, categories);
    if sum < 1.0 then sum else 1.0
  }

  /** The keyword factor lies in [0, 0.30] and is 0 for a program without tags. */
  lemma KeywordFactorBounds(p: Program, keywords: seq<string>)
    ensures 0.0 <= KeywordFactor(p, keywords) <= 0.30
    ensures p.emotionKeywords.None? ==> KeywordFactor(p, keywords) == 0.0
  {
    if p.emotionKeywords.Some? {
      var m := MatchCount(p.emotionKeywords.value, keywords) as real;
      var d := (if |keywords| > 1 then |keywords| else 1) as real;
      assert m <= d;
      assert m * 0.30 <= d * 0.30;
    }
  }

  /** The score is the plain sum of its four factors, each set exactly when
      its condition holds: the 1.0 clamp never binds with exact arithmetic. */
  lemma ScoreIsSum(p: Program, user: User, keywords: seq<string>, categories: seq<string>)
    ensures RelevanceScore(p, user, keywords, categories)
         == RegionFactor(p, user) + AgeFactor(p, user) + KeywordFactor(p, keywords)
            + CategoryFactor(p, categories)
    ensures RegionFactor(p, user) == (if p.targetCity.Some? && user.region == p.targetCity then 0.30 else 0.0)
    ensures AgeFactor(p, user) == 0.20 <==>
      ParseAge(user.age).Some? && AgeInRange(p, ParseAge(user.age).value)
    ensures CategoryFactor(p, categories) == 0.20 <==> p.category in categories
  {
    KeywordFactorBounds(p, keywords);
  }

  /** When every profile keyword occurs in the tags the keyword factor is
      the full 0.30. */
  lemma {:induction false} AllKeywordsMatch(p: Program, keywords: seq<string>)
    requires p.emotionKeywords.Some? && |keywords| > 0
    requires forall i :: 0 <= i < |keywords| ==> Contains(p.emotionKeywords.value, keywords[i])
    ensures KeywordFactor(p, keywords) == 0.30
  {
    MatchCountAll(p.emotionKeywords.value, keywords);
  }

  lemma {:induction false} MatchCountAll(tags: string, keywords: seq<string>)
    requires forall i :: 0 <= i < |keywords| ==> Contains(tags, keywords[i])
    ensures MatchCount(tags, keywords) == |keywords|
  {
    if |keywords| > 0 {
      MatchCountAll(tags, keywords[..|keywords| - 1]);
    }
  }

  /** `calculateRelevanceScore`, accumulating the score step by step. */
  method CalculateRelevanceScore(p: Program, user: User, keywords: seq<string>, categories: seq<string>)
    returns (score: real)
    ensures score == RelevanceScore(p, user, keywords, categories)
  {
    score := 0.0;
    if p.targetCity.Some? && p.targetCity == user.region {
      score := score + 0.30;
    }
    assert score == RegionFactor(p, user);
    var userAge := ParseAge(user.age);
    if userAge.Some? {
      if p.targetAgeMin.None? || p.targetAgeMin.value <= userAge.value {
        if p.targetAgeMax.None? || p.targetAgeMax.value >= userAge.value {
          score := score + 0.20;
        }
      }
    }
    assert score == RegionFactor(p, user) + AgeFactor(p, user);
    if p.emotionKeywords.Some? {
      var matching := CountMatches(p.emotionKeywords.value, keywords);
      score := score + (matching as real * 0.30) / (if |keywords| > 1 then |keywords| else 1) as real;
    }
    assert score == RegionFactor(p, user) + AgeFactor(p, user) + KeywordFactor(p, keywords);
    if p.category in categories {
      score := score + 0.20;
    }
    score := if score < 1.0 then score else 1.0;
  }

  /** The `mapToLong(..).sum()` stage: counts the keywords found in the tags. */
  method CountMatches(tags: string, keywords: seq<string>) returns (matching: nat)
    ensures matching == MatchCount(tags, keywords)
  {
    matching := 0;
    var i := 0;
    while i < |keywords|
      invariant 0 <= i <= |keywords|
      invariant matching == MatchCount(tags, keywords[..i])
    {
      assert keywords[..i + 1][..i] == keywords[..i];
      if Contains(tags, keywords[i]) {
        matching := matching + 1;
      }
      i := i + 1;
    }
    assert keywords[..|keywords|] == keywords;
  }

  // ---------------------------------------------------------------------
  // Candidates and ranking (`findRecommendedPrograms`)

  /** The keyword query run for each keyword in turn, results concatenated. */
  function KeywordHits(table: seq<Program>, keywords: seq<string>): seq<Program> {
    if |keywords| == 0 then []
    else KeywordHits(table, keywords[..|keywords| - 1])
         + FindByEmotionKeywordContaining(table, keywords[|keywords| - 1])
  }

  /** The category query run for each category in turn, results concatenated. */
  function CategoryHits(table: seq<Program>, categories: seq<string>): seq<Program> {
    if |categories| == 0 then []
    else CategoryHits(table, categories[..|categories| - 1])
         + FindByCategoryAndIsActiveTrue(table, categories[|categories| - 1])
  }

  /** The city-and-age query, run only when the user has a region and an age. */
  function RegionHits(table: seq<Program>, user: User): seq<Program> {
    var age := ParseAge(user.age);
    if user.region.Some? && age.Some? then FindByCityAndAgeRange(table, user.region.value, age.value)
    else []
  }

  function Candidates(table: seq<Program>, user: User, keywords: seq<string>, categories: seq<string>): seq<Program> {
    RegionHits(table, user) + KeywordHits(table, keywords) + CategoryHits(table, categories)
  }

  lemma {:induction false} KeywordHitsMember(table: seq<Program>, keywords: seq<string>, p: Program)
    ensures p in KeywordHits(table, keywords) <==>
      p in table && exists i :: 0 <= i < |keywords| && KeywordMatch(p, keywords[i])
  {
    if |keywords| > 0 {
      var init := keywords[..|keywords| - 1];
      KeywordHitsMember(table, init, p);
      if exists i :: 0 <= i < |keywords| && KeywordMatch(p, keywords[i]) {
        var i :| 0 <= i < |keywords| && KeywordMatch(p, keywords[i]);
        if i < |init| {
          assert KeywordMatch(p, init[i]);
        }
      }
      if exists i :: 0 <= i < |init| && KeywordMatch(p, init[i]) {
        var i :| 0 <= i < |init| && KeywordMatch(p, init[i]);
        assert keywords[i] == init[i];
      }
    }
  }

  lemma {:induction false} CategoryHitsMember(table: seq<Program>, categories: seq<string>, p: Program)
    ensures p in CategoryHits(table, categories) <==>
      p in table && p.isActive && p.category in categories
  {
    if |categories| > 0 {
      var init := categories[..|categories| - 1];
      CategoryHitsMember(table, init, p);
      assert categories == init + [categories[|categories| - 1]];
    }
  }

  /** A candidate is an active catalogue program that passes the city and
      age test, carries a profile keyword in its tags, or belongs to a
      recommended category; and every such program is a candidate. */
  lemma CandidatesMember(table: seq<Program>, user: User, keywords: seq<string>, categories: seq<string>, p: Program)
    ensures p in Candidates(table, user, keywords, categories) <==>
      p in table && p.isActive &&
      ((user.region.Some? && ParseAge(user.age).Some?
        && CityAndAgeMatch(p, user.region.value, ParseAge(user.age).value))
       || (exists i :: 0 <= i < |keywords| && TagsContain(p, keywords[i]))
       || p.category in categories)
  {
    KeywordHitsMember(table, keywords, p);
    CategoryHitsMember(table, categories, p);
    if p.isActive && exists i :: 0 <= i < |keywords| && TagsContain(p, keywords[i]) {
      var i :| 0 <= i < |keywords| && TagsContain(p, keywords[i]);
      assert KeywordMatch(p, keywords[i]);
    }
  }

  /** The candidate list, filled query by query as the service does. */
  method GatherCandidates(table: seq<Program>, user: User, keywords: seq<string>, categories: seq<string>)
    returns (all: seq<Program>)
    ensures all == Candidates(table, user, keywords, categories)
  {
    all := [];
    var userAge := ParseAge(user.age);
    if user.region.Some? && userAge.Some? {
      all := all + FindByCityAndAgeRange(table, user.region.value, userAge.value);
    }
    assert all == RegionHits(table, user);
    all := AddKeywordHits(table, keywords, all);
    all := AddCategoryHits(table, categories, all);
  }

  /** The `for (keyword : keywords) addAll(..)` loop. */
  method AddKeywordHits(table: seq<Program>, keywords: seq<string>, start: seq<Program>)
    returns (all: seq<Program>)
    ensures all == start + KeywordHits(table, keywords)
  {
    all := start;
    var i := 0;
    while i < |keywords|
      invariant 0 <= i <= |keywords|
      invariant all == start + KeywordHits(table, keywords[..i])
    {
      KeywordHitsStep(table, keywords, i);
      AppendAssoc(start, KeywordHits(table, keywords[..i]), FindByEmotionKeywordContaining(table, keywords[i]));
      all := all + FindByEmotionKeywordContaining(table, keywords[i]);
      i := i + 1;
    }
    assert keywords[..|keywords|] == keywords;
  }

  /** The `for (category : categories) addAll(..)` loop. */
  method AddCategoryHits(table: seq<Program>, categories: seq<string>, start: seq<Program>)
    returns (all: seq<Program>)
    ensures all == start + CategoryHits(table, categories)
  {
    all := start;
    var j := 0;
    while j < |categories|
      invariant 0 <= j <= |categories|
      invariant all == start + CategoryHits(table, categories[..j])
    {
      CategoryHitsStep(table, categories, j);
      AppendAssoc(start, CategoryHits(table, categories[..j]), FindByCategoryAndIsActiveTrue(table, categories[j]));
      all := all + FindByCategoryAndIsActiveTrue(table, categories[j]);
      j := j + 1;
    }
    assert categories[..|categories|] == categories;
  }

  lemma KeywordHitsStep(table: seq<Program>, keywords: seq<string>, i: nat)
    requires i < |keywords|
    ensures KeywordHits(table, keywords[..i + 1])
         == KeywordHits(table, keywords[..i]) + FindByEmotionKeywordContaining(table, keywords[i])
  {
    assert keywords[..i + 1][..i] == keywords[..i];
  }

  lemma CategoryHitsStep(table: seq<Program>, categories: seq<string>, j: nat)
    requires j < |categories|
    ensures CategoryHits(table, categories[..j + 1])
         == CategoryHits(table, categories[..j]) + FindByCategoryAndIsActiveTrue(table, categories[j])
  {
    assert categories[..j + 1][..j] == categories[..j];
  }

  const MaxRecommendations: nat := 5
  const Threshold: real := 0.3

  /** The stream stage: `distinct`, keep score > 0.3, sort by descending
      score (stable), `limit(5)`. */
  function Rank(candidates: seq<Program>, user: User, keywords: seq<string>, categories: seq<string>): (r: seq<Program>)
    ensures |r| <= MaxRecommendations
  {
    var key := p => RelevanceScore(p, user, keywords, categories);
    Take(SortDesc(Filter(Dedup(candidates), p => key(p) > Threshold), key), MaxRecommendations)
  }

  /** The ranked list holds candidates scoring above 0.3, each once, best
      first; and a candidate above 0.3 is left out only when five programs
      scoring at least as much were kept. */
  lemma RankProperties(candidates: seq<Program>, user: User, keywords: seq<string>, categories: seq<string>)
    ensures var r := Rank(candidates, user, keywords, categories);
      && (forall p :: p in r ==> p in candidates && RelevanceScore(p, user, keywords, categories) > Threshold)
      && Distinct(r)
      && SortedDesc(r, p => RelevanceScore(p, user, keywords, categories))
      && (forall p :: p in candidates && RelevanceScore(p, user, keywords, categories) > Threshold && p !in r ==>
            |r| == MaxRecommendations
            && (forall q :: q in r ==>
                  RelevanceScore(q, user, keywords, categories) >= RelevanceScore(p, user, keywords, categories)))
  {
    var key := p => RelevanceScore(p, user, keywords, categories);
    var good := p => key(p) > Threshold;
    var d := Dedup(candidates);
    var f := Filter(d, good);
    FilterDistinct(d, good);
    TopOfSorted(f, key, MaxRecommendations);
  }

  /** The first `n` of a stable descending sort: elements of the input, in
      order, without repeats when the input has none, and an input element
      is missing only when `n` elements at least as large were kept. */
  lemma TopOfSorted<T(!new)>(f: seq<T>, key: T -> real, n: nat)
    ensures var r := Take(SortDesc(f, key), n);
      && (forall p :: p in r ==> p in f)
      && (Distinct(f) ==> Distinct(r))
      && SortedDesc(r, key)
      && (forall p :: p in f && p !in r ==> |r| == n && (forall q :: q in r ==> key(q) >= key(p)))
  {
    var s := SortDesc(f, key);
    var r := Take(s, n);
    if Distinct(f) {
      DistinctPerm(f, s);
      PrefixDistinct(s, r);
    }
    PrefixFrom(f, s, r);
    PrefixSorted(s, r, key);
    TopMissing(f, s, key, n);
  }

  lemma PrefixFrom<T>(f: seq<T>, s: seq<T>, r: seq<T>)
    requires multiset(s) == multiset(f) && r <= s
    ensures forall p :: p in r ==> p in f
  {
    forall p | p in r
      ensures p in f
    {
      var j :| 0 <= j < |r| && r[j] == p;
      assert s[j] == p;
      assert p in multiset(s);
    }
  }

  lemma PrefixSorted<T>(s: seq<T>, r: seq<T>, key: T -> real)
    requires SortedDesc(s, key) && r <= s
    ensures SortedDesc(r, key)
  {
    forall i, j | 0 <= i < j < |r|
      ensures key(r[i]) >= key(r[j])
    {
      assert r[i] == s[i] && r[j] == s[j];
    }
  }

  lemma PrefixDistinct<T>(s: seq<T>, r: seq<T>)
    requires Distinct(s) && r <= s
    ensures Distinct(r)
  {
    forall i, j | 0 <= i < j < |r|
      ensures r[i] != r[j]
    {
      assert r[i] == s[i] && r[j] == s[j];
    }
  }

  /** An element of a sorted permutation missing from its first `n` comes
      after `n` elements at least as large. */
  lemma TopMissing<T>(f: seq<T>, s: seq<T>, key: T -> real, n: nat)
    requires multiset(s) == multiset(f) && SortedDesc(s, key)
    ensures var r := Take(s, n);
      forall p :: p in f && p !in r ==> |r| == n && (forall q :: q in r ==> key(q) >= key(p))
  {
    var r := Take(s, n);
    forall p | p in f && p !in r
      ensures |r| == n && (forall q :: q in r ==> key(q) >= key(p))
    {
      assert p in multiset(s);
      var i :| 0 <= i < |s| && s[i] == p;
      assert i >= n;
      forall q | q in r
        ensures key(q) >= key(p)
      {
        var j :| 0 <= j < |r| && r[j] == q;
        assert s[j] == q;
      }
    }
  }

  /** Filtering a list without repeats gives a list without repeats. */
  lemma {:induction false} FilterDistinct<T(!new)>(xs: seq<T>, f: T -> bool)
    requires Distinct(xs)
    ensures Distinct(Filter(xs, f))
  {
    if |xs| > 0 {
      FilterDistinct(xs[1..], f);
      var rest := Filter(xs[1..], f);
      assert xs[0] !in xs[1..];
      assert xs[0] !in rest;
    }
  }

  /** A rearrangement of a list without repeats has none either. */
  lemma DistinctPerm<T>(xs: seq<T>, ys: seq<T>)
    requires multiset(xs) == multiset(ys) && Distinct(xs)
    ensures Distinct(ys)
  {
    forall i, j | 0 <= i < j < |ys|
      ensures ys[i] != ys[j]
    {
      if ys[i] == ys[j] {
        TwiceCounted(ys, i, j);
        AtMostOnce(xs, ys[i]);
      }
    }
  }

  lemma TwiceCounted<T>(ys: seq<T>, i: nat, j: nat)
    requires i < j < |ys| && ys[i] == ys[j]
    ensures multiset(ys)[ys[i]] >= 2
  {
    assert ys == ys[..j] + [ys[j]] + ys[j + 1..];
    assert ys[..j][i] == ys[i];
    assert multiset(ys[..j])[ys[i]] >= 1;
  }

  lemma {:induction false} AtMostOnce<T>(xs: seq<T>, x: T)
    requires Distinct(xs)
    ensures multiset(xs)[x] <= 1
  {
    if |xs| > 0 {
      AtMostOnce(xs[1..], x);
      assert xs == [xs[0]] + xs[1..];
      if xs[0] == x {
        assert x !in xs[1..];
      }
    }
  }

  /** `findRecommendedPrograms(user, analysis)`. Iterating a null keyword or
      category list throws a NullPointerException. */
  method FindRecommendedPrograms(table: seq<Program>, user: User, a: EA.EmotionAnalysisResult)
    returns (r: Result<seq<Program>>)
    ensures r.Err? <==> a.keywords.None? || a.recommendedCategories.None?
    ensures r.Ok? ==> r.value == Recommended(table, user, a.keywords.value, a.recommendedCategories.value)
  {
    if a.keywords.None? || a.recommendedCategories.None? {
      return Err("NullPointerException");
    }
    var all := GatherCandidates(table, user, a.keywords.value, a.recommendedCategories.value);
    r := Ok(Rank(all, user, a.keywords.value, a.recommendedCategories.value));
  }

  function Recommended(table: seq<Program>, user: User, keywords: seq<string>, categories: seq<string>): (r: seq<Program>)
    ensures |r| <= MaxRecommendations
  {
    Rank(Candidates(table, user, keywords, categories), user, keywords, categories)
  }

  /** Every recommended program is an active catalogue program. */
  lemma RecommendedAreActive(table: seq<Program>, user: User, keywords: seq<string>, categories: seq<string>)
    ensures forall p :: p in Recommended(table, user, keywords, categories) ==> p in table && p.isActive
  {
    RankProperties(Candidates(table, user, keywords, categories), user, keywords, categories);
    forall p | p in Recommended(table, user, keywords, categories)
      ensures p in table && p.isActive
    {
      CandidatesMember(table, user, keywords, categories, p);
    }
  }

  // ---------------------------------------------------------------------
  // Template reason (`generatePersonalizedReason`)

  function EmotionOpener(emotion: string): string {
    if emotion == "우울함" || emotion == "슬픔" then "요즘 마음이 힘드시군요. "
    else if emotion == "불안함" || emotion == "초조함" then "마음이 불안하신 것 같아요. "
    else if emotion == "행복" || emotion == "여유로움" then "좋은 기분이시네요! "
    else if emotion == "화남" || emotion == "짜증" then "스트레스가 많으신 것 같아요. "
    else "오늘의 기분에 맞는 "
  }

  function ActivityClause(activity: string): string {
    if activity == "산책하기" then "산책을 좋아하시는 분에게 "
    else if activity == "요리하기" then "요리에 관심이 많으신 분에게 "
    else if activity == "그림그리기" then "창작 활동을 좋아하시는 분에게 "
    else if activity == "음악감상" then "음악을 사랑하시는 분에게 "
    else if activity == "독서하기" then "책 읽기를 좋아하시는 분에게 "
    else if activity == "운동하기" then "활동적인 삶을 좋아하시는 분에게 "
    else if activity == "영화감상" then "영화를 좋아하시는 분에게 "
    else "이런 활동을 좋아하시는 분에게 "
  }

  const CultureSentence: string := "다양한 문화 체험을 통해 새로운 즐거움을 찾을 수 있어요."

  /** The sentence for the first of 문화, 교육, 여가, 건강 the category contains. */
  function CategorySentence(category: string): string {
    if Contains(category, "문화") then CultureSentence
    else if Contains(category, "교육") then "새로운 지식과 기술을 배우며 성장할 수 있는 기회예요."
    else if Contains(category, "여가") then "일상에서 벗어나 편안한 시간을 보낼 수 있어요."
    else if Contains(category, "건강") then "머리와 마음의 건강을 동시에 챙길 수 있는 프로그램이에요."
    else "의미 있는 시간을 보내며 새로운 경험을 할 수 있어요."
  }

  const SupportClosing: string := " 좋은 사람들과 함께하며 마음의 안정을 찾으실 수 있을 거예요."
  const CheerClosing: string := " 즐거운 시간 보내세요!"

  function TemplateClosing(emotion: Option<string>): string {
    if emotion == Some("우울함") || emotion == Some("불안함") then SupportClosing else CheerClosing
  }

  function TitleLine(title: string): string {
    title + "을(를) 추천드려요! "
  }

  function Opener(emotion: Option<string>): string {
    if emotion.Some? then EmotionOpener(emotion.value) else ""
  }

  function Clause(activity: Option<string>): string {
    if activity.Some? then ActivityClause(activity.value) else ""
  }

  /** `generatePersonalizedReason(program, analysis, emotion, activity)`;
      `generateRecommendationReason` is the case with neither. */
  function TemplateReason(p: Program, emotion: Option<string>, activity: Option<string>): string {
    Opener(emotion) + Clause(activity) + TitleLine(p.title) + CategorySentence(p.category)
      + TemplateClosing(emotion)
  }

  /** The template reason is never empty, names the program, and ends on
      the comforting closing exactly for 우울함 and 불안함. */
  lemma TemplateReasonContents(p: Program, emotion: Option<string>, activity: Option<string>)
    ensures var r := TemplateReason(p, emotion, activity);
      && |r| > 0
      && Contains(r, p.title + "을(를) 추천드려요! ")
      && (EndsWith(r, SupportClosing) <==> emotion == Some("우울함") || emotion == Some("불안함"))
      && (Contains(p.category, "문화") ==> Contains(r, CultureSentence))
  {
    FiveParts(Opener(emotion), Clause(activity), TitleLine(p.title), CategorySentence(p.category),
              TemplateClosing(emotion));
    ClosingsDiffer(TemplateReason(p, emotion, activity));
  }

  /** Where the middle and last pieces of a five-piece text can be found. */
  lemma FiveParts(a: string, b: string, c: string, d: string, e: string)
    ensures var r := a + b + c + d + e;
      |r| >= |c| && Contains(r, c) && Contains(r, d) && EndsWith(r, e)
  {
    var r := a + b + c + d + e;
    assert r == (a + b) + c + (d + e);
    ContainsMiddle(a + b, c, d + e);
    assert r == (a + b + c) + d + e;
    ContainsMiddle(a + b + c, d, e);
    assert r[|r| - |e|..] == e;
  }

  /** A text cannot end with both closings: one ends in '!', the other in '.'. */
  lemma ClosingsDiffer(r: string)
    ensures !(EndsWith(r, SupportClosing) && EndsWith(r, CheerClosing))
  {
    if EndsWith(r, SupportClosing) {
      assert r[|r| - 1] == SupportClosing[|SupportClosing| - 1] == '.';
    }
  }

  /** Three template branches are never taken from the buttons: no wish
      activity is called 음악감상 or 영화감상 (the buttons say 음악듣기 and
      영화보기), and no emotion keyword is called 화남 or 짜증 (the button
      says 짜증남). */
  lemma UnreachableTemplateBranches(w: WishActivities.WishActivity, k: EmotionKeywords.EmotionKeyword)
    ensures w.KoreanName() != "음악감상" && w.KoreanName() != "영화감상"
    ensures k.KoreanName() != "화남" && k.KoreanName() != "짜증"
    ensures EmotionOpener(k.KoreanName()) != "스트레스가 많으신 것 같아요. "
  {
  }

  // ---------------------------------------------------------------------
  // Recommendation rows and the service

  /** A `WelfareRecommendation` row. */
  datatype Recommendation = Recommendation(
    userId: int,
    program: Program,
    recommendationScore: real,
    analysisKeywords: string,
    emotionAnalysis: Option<string>,
    reason: string,
    isClicked: bool,
    isApplied: bool)

  /** What a button-based call returns per program (`WelfareRecommendationResponse`). */
  datatype RecommendationResponse = RecommendationResponse(
    id: int,
    title: string,
    description: Option<string>,
    organization: Option<string>,
    category: string,
    targetCity: Option<string>,
    applicationUrl: Option<string>,
    contactNumber: Option<string>,
    target: Option<string>,
    location: Option<string>,
    schedule: Option<string>,
    reason: string)

  /** The reason a saved row ends with: the generator's answer when asked
      for (button path with both values), otherwise the template. */
  function RowReason(p: Program, gpt: bool, emotion: Option<string>, activity: Option<string>,
                     generate: EA.Prompt -> string): string
  {
    if gpt && emotion.Some? && activity.Some? then
      EA.GeneratePersonalizedRecommendationReason(emotion.value, activity.value, None, p, generate)
    else if emotion.Some? && activity.Some? then TemplateReason(p, emotion, activity)
    else TemplateReason(p, None, None)
  }

  function RowFor(user: User, p: Program, keywords: seq<string>, categories: seq<string>,
                  analysisText: Option<string>, gpt: bool, emotion: Option<string>,
                  activity: Option<string>, generate: EA.Prompt -> string): Recommendation
  {
    Recommendation(user.id, p, RelevanceScore(p, user, keywords, categories), Join(", ", keywords),
                   analysisText, RowReason(p, gpt, emotion, activity, generate), false, false)
  }

  /** The rows `saveRecommendations` writes, one per program, in order. */
  function RowsFor(user: User, programs: seq<Program>, keywords: seq<string>, categories: seq<string>,
                   analysisText: Option<string>, gpt: bool, emotion: Option<string>,
                   activity: Option<string>, generate: EA.Prompt -> string): (rows: seq<Recommendation>)
    ensures |rows| == |programs|
    ensures forall i :: 0 <= i < |programs| ==>
      rows[i] == RowFor(user, programs[i], keywords, categories, analysisText, gpt, emotion, activity, generate)
  {
    Map(programs, p => RowFor(user, p, keywords, categories, analysisText, gpt, emotion, activity, generate))
  }

  lemma RowsForStep(user: User, programs: seq<Program>, keywords: seq<string>, categories: seq<string>,
                    analysisText: Option<string>, gpt: bool, emotion: Option<string>,
                    activity: Option<string>, generate: EA.Prompt -> string, i: nat)
    requires i < |programs|
    ensures RowsFor(user, programs[..i + 1], keywords, categories, analysisText, gpt, emotion, activity, generate)
         == RowsFor(user, programs[..i], keywords, categories, analysisText, gpt, emotion, activity, generate)
            + [RowFor(user, programs[i], keywords, categories, analysisText, gpt, emotion, activity, generate)]
  {
    MapSnoc(programs, p => RowFor(user, p, keywords, categories, analysisText, gpt, emotion, activity, generate), i);
  }

  /** Each written row belongs to the user and its program, carries the
      program's relevance score, the profile keywords joined by ", " (which
      split back into the keywords when they are clean), the profile's
      analysis text, and is neither clicked nor applied. */
  lemma SavedRowContents(user: User, programs: seq<Program>, keywords: seq<string>, categories: seq<string>,
                         analysisText: Option<string>, gpt: bool, emotion: Option<string>,
                         activity: Option<string>, generate: EA.Prompt -> string, i: nat)
    requires i < |programs|
    ensures var row := RowsFor(user, programs, keywords, categories, analysisText, gpt, emotion, activity, generate)[i];
      && row.userId == user.id && row.program == programs[i]
      && row.recommendationScore == RelevanceScore(programs[i], user, keywords, categories)
      && 0.0 <= row.recommendationScore <= 1.0
      && row.emotionAnalysis == analysisText
      && ((forall k :: 0 <= k < |keywords| ==> IsCleanItem(keywords[k]) && ',' !in keywords[k])
            ==> EA.SplitList(row.analysisKeywords) == keywords)
      && !row.isClicked && !row.isApplied
  {
    if forall k :: 0 <= k < |keywords| ==> IsCleanItem(keywords[k]) && ',' !in keywords[k] {
      EA.SplitListJoin(keywords);
    }
  }

  /** The service: the catalogue it reads and the recommendation table it
      appends to. */
  class RecommendationService {
    var catalogue: seq<Program>
    var recommendations: seq<Recommendation>

    constructor(catalogue: seq<Program>)
      ensures this.catalogue == catalogue && recommendations == []
    {
      this.catalogue := catalogue;
      recommendations := [];
    }

    /** `saveRecommendations`: one row per program, appended in order; with
        the generator step the row's reason is overwritten after saving. */
    method SaveRecommendations(user: User, programs: seq<Program>, keywords: seq<string>,
                               categories: seq<string>, analysisText: Option<string>, gpt: bool,
                               emotion: Option<string>, activity: Option<string>,
                               generate: EA.Prompt -> string)
      modifies this
      ensures catalogue == old(catalogue)
      ensures recommendations == old(recommendations)
        + RowsFor(user, programs, keywords, categories, analysisText, gpt, emotion, activity, generate)
    {
      var i := 0;
      while i < |programs|
        invariant 0 <= i <= |programs|
        invariant catalogue == old(catalogue)
        invariant recommendations == old(recommendations)
          + RowsFor(user, programs[..i], keywords, categories, analysisText, gpt, emotion, activity, generate)
      {
        SaveOne(user, programs, keywords, categories, analysisText, gpt, emotion, activity, generate,
                i, old(recommendations));
        i := i + 1;
      }
      assert programs[..|programs|] == programs;
    }

    /** One turn of the save loop: the row of program `i` joins the rows of
        the programs before it. */
    method SaveOne(user: User, programs: seq<Program>, keywords: seq<string>,
                   categories: seq<string>, analysisText: Option<string>, gpt: bool,
                   emotion: Option<string>, activity: Option<string>,
                   generate: EA.Prompt -> string, i: nat, ghost base: seq<Recommendation>)
      requires i < |programs|
      requires recommendations == base
        + RowsFor(user, programs[..i], keywords, categories, analysisText, gpt, emotion, activity, generate)
      modifies this
      ensures catalogue == old(catalogue)
      ensures recommendations == base
        + RowsFor(user, programs[..i + 1], keywords, categories, analysisText, gpt, emotion, activity, generate)
    {
      AppendRow(user, programs[i], keywords, categories, analysisText, gpt, emotion, activity, generate);
      RowsForStep(user, programs, keywords, categories, analysisText, gpt, emotion, activity, generate, i);
    }

    /** The body of the save loop for one program: the row with its score and
        template reason is appended; with the generator step its reason is
        then replaced by the generator's answer. */
    method AppendRow(user: User, p: Program, keywords: seq<string>, categories: seq<string>,
                     analysisText: Option<string>, gpt: bool, emotion: Option<string>,
                     activity: Option<string>, generate: EA.Prompt -> string)
      modifies this
      ensures catalogue == old(catalogue)
      ensures recommendations == old(recommendations)
        + [RowFor(user, p, keywords, categories, analysisText, gpt, emotion, activity, generate)]
    {
      var score := CalculateRelevanceScore(p, user, keywords, categories);
      var reason := if emotion.Some? && activity.Some? then TemplateReason(p, emotion, activity)
                    else TemplateReason(p, None, None);
      var row := Recommendation(user.id, p, score, Join(", ", keywords), analysisText, reason, false, false);
      recommendations := recommendations + [row];
      if gpt && emotion.Some? && activity.Some? {
        var generated := EA.GeneratePersonalizedRecommendationReason(emotion.value, activity.value, None, p, generate);
        recommendations := recommendations[..|recommendations| - 1] + [row.(reason := generated)];
      }
    }

    /** `processEmotionAndRecommend(user, text)`: analyse the text; when a
        recommendation is called for, save the ranked programs. Any
        exception on the way ends the call with nothing written. */
    method ProcessEmotionAndRecommend(user: User, text: string, generate: EA.Prompt -> string)
      modifies this
      ensures catalogue == old(catalogue)
      ensures recommendations == old(recommendations) + TextRows(old(catalogue), user, text, generate)
    {
      var analysis := EA.AnalyzeEmotion(text, generate);
      var needs := EA.NeedsWelfareRecommendation(analysis);
      if needs != Ok(true) {
        return;
      }
      var found := FindRecommendedPrograms(catalogue, user, analysis);
      if found.Err? {
        return;
      }
      SaveRecommendations(user, found.value, analysis.keywords.value, analysis.recommendedCategories.value,
                          analysis.analysisText, false, None, None, generate);
    }

    /** `processButtonBasedRecommend(user, emotion, activity, gpt)`: the
        button profile (no personality), the ranked programs, and the rows
        for them; an exception ends the call with nothing written. */
    method ProcessButtonBasedRecommend(user: User, emotion: Option<string>, activity: Option<string>,
                                       gpt: bool, generate: EA.Prompt -> string)
      modifies this
      ensures catalogue == old(catalogue)
      ensures recommendations == old(recommendations) + ButtonRows(old(catalogue), user, emotion, activity, gpt, generate)
    {
      var analysis := EA.AnalyzeButtonBasedEmotion(emotion, activity, None);
      if analysis.Err? {
        return;
      }
      var a := analysis.value;
      var found := FindRecommendedPrograms(catalogue, user, a);
      if found.Err? || |found.value| == 0 {
        return;
      }
      SaveRecommendations(user, found.value, a.keywords.value, a.recommendedCategories.value,
                          a.analysisText, gpt, emotion, activity, generate);
    }

    /** `recommendByButtons(user, emotion, activity)`: saves the rows for
        every ranked program but answers with the first four only, each with
        its template reason; any exception gives an empty answer. */
    method RecommendByButtons(user: User, emotion: Option<string>, activity: Option<string>,
                              generate: EA.Prompt -> string)
      returns (responses: seq<RecommendationResponse>)
      modifies this
      ensures catalogue == old(catalogue)
      ensures recommendations == old(recommendations) + ButtonRows(old(catalogue), user, emotion, activity, false, generate)
      ensures responses == ButtonResponses(old(catalogue), user, emotion, activity)
    {
      var analysis := EA.AnalyzeButtonBasedEmotion(emotion, activity, None);
      if analysis.Err? {
        return [];
      }
      var a := analysis.value;
      var found := FindRecommendedPrograms(catalogue, user, a);
      if found.Err? || |found.value| == 0 {
        return [];
      }
      SaveRecommendations(user, found.value, a.keywords.value, a.recommendedCategories.value,
                          a.analysisText, false, emotion, activity, generate);
      responses := BuildResponses(Take(found.value, ButtonLimit), emotion, activity);
    }
  }

  lemma ResponsesForStep(programs: seq<Program>, emotion: Option<string>, activity: Option<string>, i: nat)
    requires i < |programs|
    ensures ResponsesFor(programs[..i + 1], emotion, activity)
         == ResponsesFor(programs[..i], emotion, activity) + [ResponseFor(programs[i], emotion, activity)]
  {
    MapSnoc(programs, p => ResponseFor(p, emotion, activity), i);
  }

  /** The answer list of `recommendByButtons`: one response per shown
      program, in order, each with its template reason. */
  method BuildResponses(shown: seq<Program>, emotion: Option<string>, activity: Option<string>)
    returns (responses: seq<RecommendationResponse>)
    ensures responses == ResponsesFor(shown, emotion, activity)
  {
    responses := [];
    var i := 0;
    while i < |shown|
      invariant 0 <= i <= |shown|
      invariant responses == ResponsesFor(shown[..i], emotion, activity)
    {
      ResponsesForStep(shown, emotion, activity, i);
      responses := responses + [ResponseFor(shown[i], emotion, activity)];
      i := i + 1;
    }
    assert shown[..|shown|] == shown;
  }

  /** The rows the text path writes. */
  function TextRows(table: seq<Program>, user: User, text: string, generate: EA.Prompt -> string): seq<Recommendation> {
    var a := EA.AnalyzeEmotion(text, generate);
    if EA.NeedsWelfareRecommendation(a) != Ok(true) || a.keywords.None? || a.recommendedCategories.None? then []
    else
      RowsFor(user, Recommended(table, user, a.keywords.value, a.recommendedCategories.value),
              a.keywords.value, a.recommendedCategories.value, a.analysisText, false, None, None, generate)
  }

  /** The ranked programs of the button path, empty when it fails. */
  function ButtonRanked(table: seq<Program>, user: User, emotion: Option<string>, activity: Option<string>): seq<Program> {
    if emotion.None? || activity.None? then []
    else
      var a := EA.ButtonProfile(emotion.value, activity.value, None);
      Recommended(table, user, a.keywords.value, a.recommendedCategories.value)
  }

  /** The rows the button path writes. */
  function ButtonRows(table: seq<Program>, user: User, emotion: Option<string>, activity: Option<string>,
                      gpt: bool, generate: EA.Prompt -> string): seq<Recommendation> {
    if emotion.None? || activity.None? then []
    else
      var a := EA.ButtonProfile(emotion.value, activity.value, None);
      RowsFor(user, ButtonRanked(table, user, emotion, activity), a.keywords.value,
              a.recommendedCategories.value, a.analysisText, gpt, emotion, activity, generate)
  }

  const ButtonLimit: nat := 4

  function ResponseFor(p: Program, emotion: Option<string>, activity: Option<string>): RecommendationResponse {
    RecommendationResponse(
      p.id, p.title, p.description, p.organization, p.category,
      if p.targetCity.Some? then Some(p.targetCity.value.DisplayName()) else None,
      p.applicationUrl, p.contactNumber, p.targetDescription, p.location, p.schedule,
      TemplateReason(p, emotion, activity))
  }

  function ResponsesFor(programs: seq<Program>, emotion: Option<string>, activity: Option<string>): (r: seq<RecommendationResponse>)
    ensures |r| == |programs|
    ensures forall i :: 0 <= i < |programs| ==> r[i] == ResponseFor(programs[i], emotion, activity)
  {
    Map(programs, p => ResponseFor(p, emotion, activity))
  }

  function ButtonResponses(table: seq<Program>, user: User, emotion: Option<string>, activity: Option<string>): seq<RecommendationResponse> {
    ResponsesFor(Take(ButtonRanked(table, user, emotion, activity), ButtonLimit), emotion, activity)
  }

  /** The text path writes nothing unless the profile calls for a
      recommendation, never more than five rows, and nothing at all when
      the generator's answer lacks a score line. */
  lemma TextRowsBounds(table: seq<Program>, user: User, text: string, generate: EA.Prompt -> string)
    ensures |TextRows(table, user, text, generate)| <= MaxRecommendations
    ensures EA.NeedsWelfareRecommendation(EA.AnalyzeEmotion(text, generate)) != Ok(true) ==>
      TextRows(table, user, text, generate) == []
    ensures EA.ExtractValue(generate(EA.EmotionPrompt(text)), "EMOTION_SCORE").None? ==>
      TextRows(table, user, text, generate) == []
  {
    if EA.ExtractValue(generate(EA.EmotionPrompt(text)), "EMOTION_SCORE").None? {
      EA.FallbackNeedsNoRecommendation();
    }
  }

  /** The button path answers with at most four responses, the first of
      the rows it writes and in the same order, each naming its program;
      a missing button value gives no rows and an empty answer. */
  lemma ButtonResponsesMatchRows(table: seq<Program>, user: User, emotion: Option<string>,
                                 activity: Option<string>, generate: EA.Prompt -> string)
    ensures var rows := ButtonRows(table, user, emotion, activity, false, generate);
      var resp := ButtonResponses(table, user, emotion, activity);
      && |rows| <= MaxRecommendations
      && |resp| <= ButtonLimit
      && |resp| == (if |rows| < ButtonLimit then |rows| else ButtonLimit)
      && (forall i :: 0 <= i < |resp| ==> resp[i].id == rows[i].program.id && resp[i].reason == rows[i].reason)
      && (emotion.None? || activity.None? ==> rows == [] && resp == [])
  {
    var rows := ButtonRows(table, user, emotion, activity, false, generate);
    var ranked := ButtonRanked(table, user, emotion, activity);
    var shown := Take(ranked, ButtonLimit);
    forall i | 0 <= i < |shown|
      ensures ButtonResponses(table, user, emotion, activity)[i].id == rows[i].program.id
      ensures ButtonResponses(table, user, emotion, activity)[i].reason == rows[i].reason
    {
      assert shown[i] == ranked[i];
    }
  }
}
