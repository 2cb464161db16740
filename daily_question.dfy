/** The family question of the day, kept in an in-memory cache: one question
    and the date it was chosen per family code. A family gets a new question
    on its first request, and on a new day from 09:00 on; before 09:00 the
    previous day's question stays. The choice is seeded by the family code's
    hash and the date, so it is the same for every request that day. */
module DailyQuestions {
  import opened Wrappers
  import opened Domain
  import Numbers

  /** `String.hashCode` of the family code's text, supplied by the caller.
      Its values are meant to be 32-bit ints; `Abs32` agrees with `Math.abs`
      only on that range. */
  type Hasher = int -> int

  /** `new Random(seed).nextInt(bound)`, supplied by the caller as a function
      of the seed; the model reduces its value into `0 .. bound - 1`. */
  type Picker = (int, nat) -> int

  /** `Math.abs` on a 32-bit int: the most negative value is its own
      absolute value. */
  function Abs32(h: int): (r: int)
    ensures h != Numbers.IntMin ==> r >= 0 && (r == h || r == -h)
    ensures h == Numbers.IntMin ==> r == h
  {
    if h == Numbers.IntMin then h else if h < 0 then -h else h
  }

  /** The seed of a family on a date. */
  function Seed(hash: Hasher, familyCode: int, today: Date): int {
    Abs32(hash(familyCode)) * 1000 + today
  }

  /** `selectNewQuestionForFamily`'s pick from the whole question table:
      nothing when the table is empty. */
  function Selected(questions: seq<Question>, familyCode: int, today: Date, hash: Hasher, pick: Picker): (r: Option<Question>)
    ensures r.None? <==> |questions| == 0
    ensures r.Some? ==> r.value in questions
  {
    if |questions| == 0 then None
    else Some(questions[pick(Seed(hash, familyCode, today), |questions|) % |questions|])
  }

  /** The copy handed out: the cached question's id, content and creation time,
      with the requesting family's code. */
  function ForFamily(q: Question, familyCode: int): (r: Question)
    ensures r.id == q.id && r.content == q.content && r.createdAt == q.createdAt
    ensures r.familyCode == Some(familyCode)
  {
    q.(familyCode := Some(familyCode))
  }

  /** The two cache maps, as one value. */
  datatype Cache = Cache(questions: map<int, Question>, dates: map<int, Date>) {
    /** Both maps are always written together. */
    predicate Valid() {
      questions.Keys == dates.Keys
    }
  }

  /** Whether a request at `now` must choose a new question: nothing is cached
      for the family, or the cached date is not today and it is 09:00 or
      later. */
  predicate NeedsNew(c: Cache, familyCode: int, now: DateTime) {
    familyCode !in c.questions || familyCode !in c.dates ||
    (c.dates[familyCode] != now.date && now.second >= NineAM)
  }

  /** The cache after a request at `now`. */
  function Refreshed(c: Cache, familyCode: int, now: DateTime, questions: seq<Question>, hash: Hasher, pick: Picker): (r: Cache)
    ensures c.Valid() ==> r.Valid()
    ensures NeedsNew(c, familyCode, now) && |questions| > 0 ==>
      r.questions == c.questions[familyCode := Selected(questions, familyCode, now.date, hash, pick).value] &&
      r.dates == c.dates[familyCode := now.date]
    ensures !NeedsNew(c, familyCode, now) || |questions| == 0 ==> r == c
  {
    var s := Selected(questions, familyCode, now.date, hash, pick);
    if NeedsNew(c, familyCode, now) && s.Some? then
      Cache(c.questions[familyCode := s.value], c.dates[familyCode := now.date])
    else c
  }

  /** What a request answers from the cache: the family's copy, or nothing. */
  function Answer(c: Cache, familyCode: int): (r: Option<Question>)
    ensures r.Some? <==> familyCode in c.questions
    ensures r.Some? ==> r.value == ForFamily(c.questions[familyCode], familyCode)
  {
    if familyCode in c.questions then Some(ForFamily(c.questions[familyCode], familyCode)) else None
  }

  /** A request touches the entries of its own family only. */
  lemma RefreshTouchesOwnFamily(c: Cache, familyCode: int, other: int, now: DateTime, questions: seq<Question>, hash: Hasher, pick: Picker)
    requires other != familyCode
    ensures var r := Refreshed(c, familyCode, now, questions, hash, pick);
      (other in r.questions <==> other in c.questions) && (other in r.dates <==> other in c.dates) &&
      (other in c.questions ==> r.questions[other] == c.questions[other]) &&
      (other in c.dates ==> r.dates[other] == c.dates[other])
  {
  }

  /** A family is answered after a request exactly when it was cached already
      or there is a question to choose from. */
  lemma AnsweredIff(c: Cache, familyCode: int, now: DateTime, questions: seq<Question>, hash: Hasher, pick: Picker)
    ensures Answer(Refreshed(c, familyCode, now, questions, hash, pick), familyCode).Some? <==>
      familyCode in c.questions || |questions| > 0
  {
  }

  /** Before 09:00 on a new day the cached question of an earlier day is
      still the answer, and the cache is unchanged. */
  lemma BeforeNineKeepsPrevious(c: Cache, familyCode: int, now: DateTime, questions: seq<Question>, hash: Hasher, pick: Picker)
    requires familyCode in c.questions && familyCode in c.dates
    requires now.second < NineAM
    ensures Refreshed(c, familyCode, now, questions, hash, pick) == c
    ensures Answer(c, familyCode) == Some(ForFamily(c.questions[familyCode], familyCode))
  {
  }

  /** From 09:00 on a new day, with questions to choose from, the family
      gets the question seeded by today's date. */
  lemma RolloverAtNine(c: Cache, familyCode: int, now: DateTime, questions: seq<Question>, hash: Hasher, pick: Picker)
    requires familyCode in c.dates && c.dates[familyCode] != now.date
    requires now.second >= NineAM && |questions| > 0
    ensures var r := Refreshed(c, familyCode, now, questions, hash, pick);
      r.dates[familyCode] == now.date &&
      Answer(r, familyCode) == Some(ForFamily(Selected(questions, familyCode, now.date, hash, pick).value, familyCode))
  {
  }

  /** A second request on the same day changes nothing and gets the same
      answer, unless the first came before 09:00 and the second at or after
      it (the rollover may fall between them). */
  lemma {:induction false} SameDayStable(c: Cache, familyCode: int, first: DateTime, second: DateTime,
                                        questions: seq<Question>, hash: Hasher, pick: Picker)
    requires first.date == second.date
    requires first.second >= NineAM || second.second < NineAM
    ensures var r := Refreshed(c, familyCode, first, questions, hash, pick);
      Refreshed(r, familyCode, second, questions, hash, pick) == r
  {
    var r := Refreshed(c, familyCode, first, questions, hash, pick);
    if NeedsNew(c, familyCode, first) && |questions| > 0 {
      assert r.dates[familyCode] == second.date;
      assert !NeedsNew(r, familyCode, second);
    } else {
      assert r == c;
      if |questions| > 0 {
        assert !NeedsNew(c, familyCode, second);
      }
    }
  }

  /** The service with its two cache maps. */
  class DailyQuestionService {
    var familyDailyQuestions: map<int, Question>
    var familyQuestionDates: map<int, Date>

    predicate Valid()
      reads this
    {
      Cache(familyDailyQuestions, familyQuestionDates).Valid()
    }

    constructor()
      ensures Valid() && familyDailyQuestions == map[] && familyQuestionDates == map[]
    {
      familyDailyQuestions := map[];
      familyQuestionDates := map[];
    }

    /** `selectNewQuestionForFamily`: records today's seeded pick for the
        family in both maps; with no question at all nothing changes. */
    method SelectNewQuestionForFamily(familyCode: int, today: Date, questions: seq<Question>, hash: Hasher, pick: Picker)
      requires Valid()
      modifies this
      ensures Valid()
      ensures |questions| == 0 ==>
        familyDailyQuestions == old(familyDailyQuestions) && familyQuestionDates == old(familyQuestionDates)
      ensures |questions| > 0 ==>
        familyDailyQuestions == old(familyDailyQuestions)[familyCode := Selected(questions, familyCode, today, hash, pick).value] &&
        familyQuestionDates == old(familyQuestionDates)[familyCode := today]
    {
      if |questions| > 0 {
        var seed := Abs32(hash(familyCode)) * 1000 + today;
        var selected := questions[pick(seed, |questions|) % |questions|];
        familyDailyQuestions := familyDailyQuestions[familyCode := selected];
        familyQuestionDates := familyQuestionDates[familyCode := today];
      }
    }

    /** `getTodayQuestionForFamily` at the instant `now`. */
    method GetTodayQuestionForFamily(familyCode: int, now: DateTime, questions: seq<Question>, hash: Hasher, pick: Picker)
      returns (r: Option<Question>)
      requires Valid()
      modifies this
      ensures Valid()
      ensures Cache(familyDailyQuestions, familyQuestionDates) ==
        Refreshed(old(Cache(familyDailyQuestions, familyQuestionDates)), familyCode, now, questions, hash, pick)
      ensures r == Answer(Cache(familyDailyQuestions, familyQuestionDates), familyCode)
    {
      var needNewQuestion := false;
      if familyCode !in familyDailyQuestions || familyCode !in familyQuestionDates {
        needNewQuestion := true;
      } else if now.date != familyQuestionDates[familyCode] {
        if now.second >= NineAM {
          needNewQuestion := true;
        }
      }
      if needNewQuestion {
        SelectNewQuestionForFamily(familyCode, now.date, questions, hash, pick);
      }
      if familyCode in familyDailyQuestions {
        r := Some(ForFamily(familyDailyQuestions[familyCode], familyCode));
      } else {
        r := None;
      }
    }

    /** `isQuestionForTodayAndFamily`: whether `question` has the id of the
        family's question of the day (which the call may first choose). */
    method IsQuestionForTodayAndFamily(question: Question, familyCode: int, now: DateTime, questions: seq<Question>,
                                       hash: Hasher, pick: Picker)
      returns (b: bool)
      requires Valid()
      modifies this
      ensures Valid()
      ensures Cache(familyDailyQuestions, familyQuestionDates) ==
        Refreshed(old(Cache(familyDailyQuestions, familyQuestionDates)), familyCode, now, questions, hash, pick)
      ensures b <==> familyCode in familyDailyQuestions && familyDailyQuestions[familyCode].id == question.id
    {
      var today := GetTodayQuestionForFamily(familyCode, now, questions, hash, pick);
      b := today.Some? && today.value.id == question.id;
    }
  }
}
