/** The welfare-program catalogue and the four queries the recommendation
    engine runs against it. Each JPQL query is a filter over the catalogue
    table; rows come back in table order. */
module Catalogue {
  import opened Wrappers
  import opened Domain
  import opened Text
  import opened Sequences

  /** A catalogue row. `category` and `title` are taken as always present;
      `isActive` is true exactly when the column holds `true`. */
  datatype Program = Program(
    id: int,
    title: string,
    description: Option<string>,
    organization: Option<string>,
    category: string,
    targetCity: Option<Region>,
    targetAgeMin: Option<int>,
    targetAgeMax: Option<int>,
    emotionKeywords: Option<string>,
    applicationUrl: Option<string>,
    contactNumber: Option<string>,
    targetDescription: Option<string>,
    location: Option<string>,
    schedule: Option<string>,
    isActive: bool)

  /** `(targetAgeMin IS NULL OR targetAgeMin <= age) AND
      (targetAgeMax IS NULL OR targetAgeMax >= age)`: an unset bound is no bound. */
  predicate AgeInRange(p: Program, age: int) {
    (p.targetAgeMin.None? || p.targetAgeMin.value <= age)
    && (p.targetAgeMax.None? || p.targetAgeMax.value >= age)
  }

  /** `emotionKeywords LIKE %keyword%`; a null tag string matches nothing. */
  predicate TagsContain(p: Program, keyword: string) {
    p.emotionKeywords.Some? && Contains(p.emotionKeywords.value, keyword)
  }

  predicate CityAndAgeMatch(p: Program, city: Region, age: int) {
    p.isActive && p.targetCity == Some(city) && AgeInRange(p, age)
  }

  predicate KeywordMatch(p: Program, keyword: string) {
    p.isActive && TagsContain(p, keyword)
  }

  predicate CategoryMatch(p: Program, category: string) {
    p.isActive && p.category == category
  }

  predicate ComplexMatch(p: Program, city: Region, age: int, keyword: string) {
    p.isActive && p.targetCity == Some(city) && AgeInRange(p, age) && TagsContain(p, keyword)
  }

  /** `findByCityAndAgeRange(city, age)` */
  function FindByCityAndAgeRange(table: seq<Program>, city: Region, age: int): (r: seq<Program>)
    ensures forall p :: p in r <==> p in table && CityAndAgeMatch(p, city, age)
    ensures IsSubsequence(r, table)
  {
    FilterIsSubsequence(table, p => CityAndAgeMatch(p, city, age));
    Filter(table, p => CityAndAgeMatch(p, city, age))
  }

  /** `findByEmotionKeywordContaining(keyword)` */
  function FindByEmotionKeywordContaining(table: seq<Program>, keyword: string): (r: seq<Program>)
    ensures forall p :: p in r <==> p in table && KeywordMatch(p, keyword)
    ensures IsSubsequence(r, table)
  {
    FilterIsSubsequence(table, p => KeywordMatch(p, keyword));
    Filter(table, p => KeywordMatch(p, keyword))
  }

  /** `findByCategoryAndIsActiveTrue(category)` */
  function FindByCategoryAndIsActiveTrue(table: seq<Program>, category: string): (r: seq<Program>)
    ensures forall p :: p in r <==> p in table && CategoryMatch(p, category)
    ensures IsSubsequence(r, table)
  {
    FilterIsSubsequence(table, p => CategoryMatch(p, category));
    Filter(table, p => CategoryMatch(p, category))
  }

  /** `findByComplexCriteria(city, age, keyword)` */
  function FindByComplexCriteria(table: seq<Program>, city: Region, age: int, keyword: string): (r: seq<Program>)
    ensures forall p :: p in r <==> p in table && ComplexMatch(p, city, age, keyword)
    ensures IsSubsequence(r, table)
  {
    FilterIsSubsequence(table, p => ComplexMatch(p, city, age, keyword));
    Filter(table, p => ComplexMatch(p, city, age, keyword))
  }

  /** The three queries the engine runs return active programs only. */
  lemma QueriesReturnActive(table: seq<Program>, city: Region, age: int, keyword: string, category: string)
    ensures forall p :: p in FindByCityAndAgeRange(table, city, age) ==> p.isActive
    ensures forall p :: p in FindByEmotionKeywordContaining(table, keyword) ==> p.isActive
    ensures forall p :: p in FindByCategoryAndIsActiveTrue(table, category) ==> p.isActive
  {
  }

  /** The combined query is the keyword query run on the result of the
      city-and-age query, and also the other way round: the same rows in the
      same order. */
  lemma ComplexIsBoth(table: seq<Program>, city: Region, age: int, keyword: string)
    ensures FindByComplexCriteria(table, city, age, keyword)
         == Filter(FindByCityAndAgeRange(table, city, age), p => KeywordMatch(p, keyword))
    ensures FindByComplexCriteria(table, city, age, keyword)
         == Filter(FindByEmotionKeywordContaining(table, keyword), p => CityAndAgeMatch(p, city, age))
  {
    FilterFilter(table, p => CityAndAgeMatch(p, city, age), p => KeywordMatch(p, keyword),
                 p => ComplexMatch(p, city, age, keyword));
    FilterFilter(table, p => KeywordMatch(p, keyword), p => CityAndAgeMatch(p, city, age),
                 p => ComplexMatch(p, city, age, keyword));
  }
}
