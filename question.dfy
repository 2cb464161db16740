/** The question catalogue as families see it: system questions (family code
    0) plus a family's own, the questions a family or a user has answered,
    and a random question nobody in the family has answered yet. */
module Questions {
  import opened Wrappers
  import opened Domain
  import Sequences
  import Answers

  /** `findAllByOrderByIdAsc`: the whole catalogue, lowest id first. */
  function AllQuestions(questions: seq<Question>): (r: seq<Question>)
    ensures multiset(r) == multiset(questions)
    ensures forall i, j :: 0 <= i < j < |r| ==> r[i].id <= r[j].id
  {
    Sequences.SortAsc(questions, (q: Question) => q.id as real)
  }

  /** `getQuestionById`: fails for an unknown id. */
  function GetQuestionById(questions: seq<Question>, id: int): (r: Result<Question>)
    ensures r.Err? <==> forall q :: q in questions ==> q.id != id
    ensures r.Ok? ==> r.value in questions && r.value.id == id
  {
    match FindQuestion(questions, id)
    case None => Err("question not found")
    case Some(q) => Ok(q)
  }

  /** A question of the family `familyCode` or a system question
      (`findByFamilyCodeOrFamilyCode(0, familyCode)`); an absent family code
      matches questions without one. */
  predicate OfFamily(q: Question, familyCode: Option<int>) {
    q.familyCode == Some(0) || q.familyCode == familyCode
  }

  /** `getQuestionsForFamily`. */
  function GetQuestionsForFamily(questions: seq<Question>, familyCode: int): (r: seq<Question>)
    ensures forall q :: q in r <==> q in questions && OfFamily(q, Some(familyCode))
  {
    Sequences.Filter(questions, (q: Question) => OfFamily(q, Some(familyCode)))
  }

  /** `getQuestionsForUser`: the questions of the user's family, and system
      questions, created at or after the user joined; fails for an unknown
      user. */
  function GetQuestionsForUser(users: seq<User>, questions: seq<Question>, userId: int): (r: Result<seq<Question>>)
    ensures r.Err? <==> FindUser(users, userId).None?
    ensures r.Ok? ==>
      var user := FindUser(users, userId).value;
      forall q :: q in r.value <==>
        q in questions && OfFamily(q, user.familyCode) && IsAtOrAfter(q.createdAt, user.createdAt)
  {
    match FindUser(users, userId)
    case None => Err("user not found")
    case Some(user) =>
      var own := Sequences.Filter(questions, (q: Question) => OfFamily(q, user.familyCode));
      Ok(Sequences.Filter(own, (q: Question) => IsAtOrAfter(q.createdAt, user.createdAt)))
  }

  /** Every question a user gets was already visible to the user's family. */
  lemma UserSeesFamilyQuestions(users: seq<User>, questions: seq<Question>, userId: int, familyCode: int)
    requires FindUser(users, userId).Some? && FindUser(users, userId).value.familyCode == Some(familyCode)
    ensures forall q :: q in GetQuestionsForUser(users, questions, userId).value ==>
      q in GetQuestionsForFamily(questions, familyCode)
  {
  }

  /** `convertQuestionForFamily`: the question with its family code
      overwritten and nothing else changed. */
  function ConvertForFamily(q: Question, familyCode: Option<int>): (r: Question)
    ensures r.id == q.id && r.content == q.content && r.createdAt == q.createdAt
    ensures r.familyCode == familyCode
  {
    q.(familyCode := familyCode)
  }

  /** Converting twice is converting once with the last code. */
  lemma ConvertTwice(q: Question, a: Option<int>, b: Option<int>)
    ensures ConvertForFamily(ConvertForFamily(q, a), b) == ConvertForFamily(q, b)
    ensures ConvertForFamily(ConvertForFamily(q, a), a) == ConvertForFamily(q, a)
  {
  }

  /** The catalogue questions whose id is in `ids`, highest id first (the
      `q.id IN (…) ORDER BY q.id DESC` queries), each converted to
      `familyCode`. */
  function AnsweredAmong(questions: seq<Question>, ids: set<int>, familyCode: Option<int>): (r: seq<Question>)
    ensures forall x :: x in r <==>
      exists q :: q in questions && q.id in ids && x == ConvertForFamily(q, familyCode)
    ensures forall i, j :: 0 <= i < j < |r| ==> r[i].id >= r[j].id
  {
    var key := (q: Question) => q.id as real;
    var rows := Sequences.SortDesc(Sequences.Filter(questions, (q: Question) => q.id in ids), key);
    assert forall i, j :: 0 <= i < j < |rows| ==> key(rows[i]) >= key(rows[j]);
    assert forall q :: q in rows <==> q in questions && q.id in ids by {
      assert forall q :: q in rows <==> q in multiset(rows);
    }
    Converted(rows, familyCode)
  }

  function Converted(rows: seq<Question>, familyCode: Option<int>): (r: seq<Question>)
    ensures |r| == |rows|
    ensures forall i :: 0 <= i < |rows| ==> r[i] == ConvertForFamily(rows[i], familyCode)
    ensures forall x :: x in r <==> exists q :: q in rows && x == ConvertForFamily(q, familyCode)
  {
    var r := seq(|rows|, i requires 0 <= i < |rows| => ConvertForFamily(rows[i], familyCode));
    assert forall q :: q in rows ==> ConvertForFamily(q, familyCode) in r by {
      forall q | q in rows ensures ConvertForFamily(q, familyCode) in r {
        var i :| 0 <= i < |rows| && rows[i] == q;
        assert r[i] == ConvertForFamily(q, familyCode);
      }
    }
    r
  }

  /** The ids of the questions some member of the family answered. */
  function FamilyAnsweredIds(answers: seq<Answers.Answer>, familyCode: int): (r: set<int>)
    ensures forall id :: id in r <==>
      exists a :: a in answers && a.questionId == id && a.author.familyCode == Some(familyCode)
  {
    set a | a in answers && a.author.familyCode == Some(familyCode) :: a.questionId
  }

  /** The ids of the questions the user answered. */
  function UserAnsweredIds(answers: seq<Answers.Answer>, userId: int): (r: set<int>)
    ensures forall id :: id in r <==> Answers.HasAnswered(answers, id, userId)
  {
    var r := set a | a in answers && a.author.id == userId :: a.questionId;
    assert forall id :: Answers.HasAnswered(answers, id, userId) ==> id in r by {
      forall id | Answers.HasAnswered(answers, id, userId) ensures id in r {
        var i :| 0 <= i < |answers| && answers[i].questionId == id && answers[i].author.id == userId;
        assert answers[i] in answers;
      }
    }
    r
  }

  /** `getAnsweredQuestionsByFamily`. */
  function GetAnsweredQuestionsByFamily(questions: seq<Question>, answers: seq<Answers.Answer>, familyCode: int)
    : (r: seq<Question>)
    ensures forall x :: x in r <==>
      exists q :: q in questions && q.id in FamilyAnsweredIds(answers, familyCode) &&
        x == ConvertForFamily(q, Some(familyCode))
    ensures forall x :: x in r ==> x.familyCode == Some(familyCode)
  {
    AnsweredAmong(questions, FamilyAnsweredIds(answers, familyCode), Some(familyCode))
  }

  /** `getAnsweredQuestionsByUser`: fails for an unknown user; otherwise the
      questions the user answered, carrying the user's family code. */
  function GetAnsweredQuestionsByUser(users: seq<User>, questions: seq<Question>, answers: seq<Answers.Answer>,
                                      userId: int): (r: Result<seq<Question>>)
    ensures r.Err? <==> FindUser(users, userId).None?
    ensures r.Ok? ==> forall x :: x in r.value <==>
      exists q :: q in questions && Answers.HasAnswered(answers, q.id, userId) &&
        x == ConvertForFamily(q, FindUser(users, userId).value.familyCode)
  {
    match FindUser(users, userId)
    case None => Err("user not found")
    case Some(user) => Ok(AnsweredAmong(questions, UserAnsweredIds(answers, userId), user.familyCode))
  }

  /** A user's answered questions are among the family's answered ones. */
  lemma UserAnsweredWithinFamily(users: seq<User>, questions: seq<Question>, answers: seq<Answers.Answer>,
                                 userId: int, familyCode: int)
    requires FindUser(users, userId).Some?
    requires forall a :: a in answers && a.author.id == userId ==> a.author.familyCode == Some(familyCode)
    requires FindUser(users, userId).value.familyCode == Some(familyCode)
    ensures forall x :: x in GetAnsweredQuestionsByUser(users, questions, answers, userId).value ==>
      x in GetAnsweredQuestionsByFamily(questions, answers, familyCode)
  {
    forall x | x in GetAnsweredQuestionsByUser(users, questions, answers, userId).value
      ensures x in GetAnsweredQuestionsByFamily(questions, answers, familyCode)
    {
      var q :| q in questions && Answers.HasAnswered(answers, q.id, userId) && x == ConvertForFamily(q, Some(familyCode));
      var i :| 0 <= i < |answers| && answers[i].questionId == q.id && answers[i].author.id == userId;
      assert answers[i] in answers;
    }
  }

  /** No member of the family answered the question. */
  predicate UnansweredBy(answers: seq<Answers.Answer>, members: seq<User>, q: Question) {
    forall m :: m in members ==> !Answers.HasAnswered(answers, q.id, m.id)
  }

  /** `findByFamilyCode`: the members of the family. */
  function Members(users: seq<User>, familyCode: int): (r: seq<User>)
    ensures forall u :: u in r <==> u in users && u.familyCode == Some(familyCode)
  {
    Sequences.Filter(users, (u: User) => u.familyCode == Some(familyCode))
  }

  /** The catalogue questions no member answered, in id order. */
  function Unanswered(questions: seq<Question>, answers: seq<Answers.Answer>, members: seq<User>): (r: seq<Question>)
    ensures forall q :: q in r <==> q in questions && UnansweredBy(answers, members, q)
  {
    var all := AllQuestions(questions);
    assert forall q :: q in all <==> q in multiset(all);
    Sequences.Filter(all, (q: Question) => UnansweredBy(answers, members, q))
  }

  /** `getRandomQuestionForFamily`, with `draw` the value of the unseeded
      `Random`: fails for a family without members, an empty catalogue, or a
      family that has answered everything; otherwise a catalogue question no
      member has answered. */
  function GetRandomQuestionForFamily(users: seq<User>, questions: seq<Question>, answers: seq<Answers.Answer>,
                                     familyCode: int, draw: int): (r: Result<Question>)
    ensures r.Ok? ==> r.value in questions && UnansweredBy(answers, Members(users, familyCode), r.value)
  {
    var members := Members(users, familyCode);
    if |members| == 0 then Err("no family members")
    else if |questions| == 0 then Err("no questions")
    else
      var open := Unanswered(questions, answers, members);
      if |open| == 0 then Err("every question has been answered")
      else Ok(open[draw % |open|])
  }

  /** The draw fails exactly when the family has no member, or when every
      catalogue question (possibly none) has been answered by some member. */
  lemma {:induction false} RandomQuestionFails(users: seq<User>, questions: seq<Question>, answers: seq<Answers.Answer>,
                                              familyCode: int, draw: int)
    ensures GetRandomQuestionForFamily(users, questions, answers, familyCode, draw).Err? <==>
      (forall u :: u in users ==> u.familyCode != Some(familyCode)) ||
      (forall q :: q in questions ==> !UnansweredBy(answers, Members(users, familyCode), q))
  {
    var members := Members(users, familyCode);
    if |members| > 0 && |questions| > 0 {
      var open := Unanswered(questions, answers, members);
      assert members[0] in users && members[0].familyCode == Some(familyCode);
      if |open| > 0 {
        assert open[0] in questions && UnansweredBy(answers, members, open[0]);
      }
    } else if |members| > 0 {
      assert members[0] in users && members[0].familyCode == Some(familyCode);
    }
  }

  /** Every draw of a family with members and an unanswered question
      succeeds, whatever the random value. */
  lemma DrawIrrelevantToSuccess(users: seq<User>, questions: seq<Question>, answers: seq<Answers.Answer>,
                                familyCode: int, d1: int, d2: int)
    ensures GetRandomQuestionForFamily(users, questions, answers, familyCode, d1).Ok? <==>
      GetRandomQuestionForFamily(users, questions, answers, familyCode, d2).Ok?
  {
  }
}
