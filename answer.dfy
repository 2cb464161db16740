/** Answers to the family question of the day: a member may answer only
    today's question of their family, and only once. */
module Answers {
  import opened Wrappers
  import opened Domain
  import Sequences
  import DailyQuestions

  datatype Answer = Answer(
    id: int,
    questionId: int,
    author: User,
    content: string,
    createdAt: DateTime)

  /** `AnswerResponse`: the answer with its author's id, name and username
      and the question's id. */
  datatype AnswerResponse = AnswerResponse(
    id: int,
    content: string,
    createdAt: DateTime,
    userId: int,
    userName: string,
    userUsername: string,
    questionId: int)

  function ToResponse(a: Answer): (r: AnswerResponse)
    ensures r.id == a.id && r.content == a.content && r.createdAt == a.createdAt
    ensures r.userId == a.author.id && r.userName == a.author.name && r.userUsername == a.author.username
    ensures r.questionId == a.questionId
  {
    AnswerResponse(a.id, a.content, a.createdAt, a.author.id, a.author.name, a.author.username, a.questionId)
  }

  /** `existsByQuestionAndUser`. */
  predicate HasAnswered(answers: seq<Answer>, questionId: int, userId: int) {
    exists i :: 0 <= i < |answers| && answers[i].questionId == questionId && answers[i].author.id == userId
  }

  /** The position of the answer with id `id`. */
  function IndexOf(answers: seq<Answer>, id: int): (r: Option<nat>)
    ensures r.Some? ==> r.value < |answers| && answers[r.value].id == id
    ensures r.None? ==> forall i :: 0 <= i < |answers| ==> answers[i].id != id
  {
    if |answers| == 0 then None
    else if answers[|answers| - 1].id == id then Some(|answers| - 1)
    else IndexOf(answers[..|answers| - 1], id)
  }

  /** Distinct ids below the next id, and one answer per question and user. */
  predicate TableValid(answers: seq<Answer>, nextId: int) {
    (forall i :: 0 <= i < |answers| ==> answers[i].id < nextId) &&
    (forall i, j :: 0 <= i < j < |answers| ==> answers[i].id != answers[j].id) &&
    (forall i, j :: 0 <= i < j < |answers| ==>
      !(answers[i].questionId == answers[j].questionId && answers[i].author.id == answers[j].author.id))
  }

  lemma TableValidAppend(answers: seq<Answer>, nextId: int, a: Answer)
    requires TableValid(answers, nextId)
    requires a.id == nextId && !HasAnswered(answers, a.questionId, a.author.id)
    ensures TableValid(answers + [a], nextId + 1)
  {
    var t := answers + [a];
    forall i, j | 0 <= i < j < |t|
      ensures !(t[i].questionId == t[j].questionId && t[i].author.id == t[j].author.id)
    {
      if j == |answers| {
        assert t[i] == answers[i];
      }
    }
  }

  lemma TableValidRemove(answers: seq<Answer>, nextId: int, k: nat)
    requires TableValid(answers, nextId) && k < |answers|
    ensures TableValid(answers[..k] + answers[k + 1..], nextId)
  {
    var t := answers[..k] + answers[k + 1..];
    assert forall i :: 0 <= i < |t| ==> t[i] == answers[if i < k then i else i + 1];
  }

  /** Removing the row at `k` removes exactly the answer with its id. */
  lemma RemoveMembers(answers: seq<Answer>, nextId: int, k: nat)
    requires TableValid(answers, nextId) && k < |answers|
    ensures forall a :: a in answers[..k] + answers[k + 1..] <==> a in answers && a.id != answers[k].id
  {
    var t := answers[..k] + answers[k + 1..];
    assert forall i :: 0 <= i < |t| ==> t[i] == answers[if i < k then i else i + 1];
    forall a | a in answers && a.id != answers[k].id ensures a in t {
      var i :| 0 <= i < |answers| && answers[i] == a;
      assert t[if i < k then i else i - 1] == a;
    }
  }

  /** `findByQuestionOrderByCreatedAtAsc`: the answers to a question, earliest
      first (rows created at the same instant keep their table order). */
  function AnswersTo(answers: seq<Answer>, questionId: int): (r: seq<Answer>)
    ensures forall a :: a in r <==> a in answers && a.questionId == questionId
    ensures forall i, j :: 0 <= i < j < |r| ==> Instant(r[i].createdAt) <= Instant(r[j].createdAt)
  {
    var rows := Sequences.Filter(answers, (a: Answer) => a.questionId == questionId);
    Sequences.SortAsc(rows, (a: Answer) => Instant(a.createdAt))
  }

  /** The family's answers among `rows`, in order, as responses. */
  function FamilyResponses(rows: seq<Answer>, familyCode: int): (r: seq<AnswerResponse>)
    ensures |r| <= |rows|
    ensures forall x :: x in r <==> exists a :: a in rows && a.author.familyCode == Some(familyCode) && x == ToResponse(a)
  {
    if |rows| == 0 then []
    else
      var rest := FamilyResponses(rows[1..], familyCode);
      assert forall a :: a in rows[1..] ==> a in rows;
      assert forall a :: a in rows && a != rows[0] ==> a in rows[1..];
      if rows[0].author.familyCode == Some(familyCode) then [ToResponse(rows[0])] + rest else rest
  }

  predicate RowsInOrder(rows: seq<Answer>) {
    forall i, j :: 0 <= i < j < |rows| ==> Instant(rows[i].createdAt) <= Instant(rows[j].createdAt)
  }

  predicate ResponsesInOrder(r: seq<AnswerResponse>) {
    forall i, j :: 0 <= i < j < |r| ==> Instant(r[i].createdAt) <= Instant(r[j].createdAt)
  }

  /** Rows in creation order give responses in creation order: the family
      filter keeps the order of its input. */
  lemma {:induction false} FamilyResponsesOrdered(rows: seq<Answer>, familyCode: int)
    requires RowsInOrder(rows)
    ensures ResponsesInOrder(FamilyResponses(rows, familyCode))
  {
    if |rows| > 0 {
      assert RowsInOrder(rows[1..]) by {
        forall i, j | 0 <= i < j < |rows[1..]|
          ensures Instant(rows[1..][i].createdAt) <= Instant(rows[1..][j].createdAt)
        {
          assert rows[1..][i] == rows[i + 1] && rows[1..][j] == rows[j + 1];
        }
      }
      FamilyResponsesOrdered(rows[1..], familyCode);
      if rows[0].author.familyCode == Some(familyCode) {
        NoneBeforeFirst(rows, familyCode);
        ConsInOrder(ToResponse(rows[0]), FamilyResponses(rows[1..], familyCode));
      }
    }
  }

  /** No response drawn from the tail of rows in creation order is earlier
      than the first row. */
  lemma NoneBeforeFirst(rows: seq<Answer>, familyCode: int)
    requires |rows| > 0 && RowsInOrder(rows)
    ensures forall x :: x in FamilyResponses(rows[1..], familyCode) ==>
      Instant(rows[0].createdAt) <= Instant(x.createdAt)
  {
    forall x | x in FamilyResponses(rows[1..], familyCode)
      ensures Instant(rows[0].createdAt) <= Instant(x.createdAt)
    {
      var a :| a in rows[1..] && a.author.familyCode == Some(familyCode) && x == ToResponse(a);
      var j :| 0 <= j < |rows[1..]| && rows[1..][j] == a;
      assert rows[j + 1] == a;
    }
  }

  lemma ConsInOrder(x: AnswerResponse, rest: seq<AnswerResponse>)
    requires ResponsesInOrder(rest)
    requires forall y :: y in rest ==> Instant(x.createdAt) <= Instant(y.createdAt)
    ensures ResponsesInOrder([x] + rest)
  {
    var r := [x] + rest;
    forall i, j | 0 <= i < j < |r| ensures Instant(r[i].createdAt) <= Instant(r[j].createdAt) {
      assert r[j] == rest[j - 1];
      if i > 0 {
        assert r[i] == rest[i - 1];
      }
    }
  }

  /** The answer table (`AnswerRepository`), beside the daily-question cache
      it consults. */
  class AnswerService {
    var answers: seq<Answer>
    var nextId: int
    const daily: DailyQuestions.DailyQuestionService

    predicate Valid()
      reads this, daily
    {
      TableValid(answers, nextId) && daily.Valid()
    }

    constructor(daily: DailyQuestions.DailyQuestionService)
      requires daily.Valid()
      ensures Valid() && answers == [] && this.daily == daily
    {
      answers := [];
      nextId := 1;
      this.daily := daily;
    }

    /** `createAnswer`: the question must be today's question of the user's
        family (asking may choose it, which updates the cache even when the
        answer is then refused), and the user must not have answered it. */
    method CreateAnswer(questionId: int, userId: int, content: string, questions: seq<Question>, users: seq<User>,
                        now: DateTime, hash: DailyQuestions.Hasher, pick: DailyQuestions.Picker)
      returns (r: Result<Answer>)
      requires Valid()
      modifies this, daily
      ensures Valid()
      ensures FindQuestion(questions, questionId).None? || FindUser(users, userId).None? ||
              FindUser(users, userId).value.familyCode.None? ==>
        r.Err? && answers == old(answers) &&
        daily.familyDailyQuestions == old(daily.familyDailyQuestions) && daily.familyQuestionDates == old(daily.familyQuestionDates)
      ensures r.Ok? ==>
        var familyCode := FindUser(users, userId).value.familyCode.value;
        familyCode in daily.familyDailyQuestions && daily.familyDailyQuestions[familyCode].id == questionId &&
        !HasAnswered(old(answers), questionId, userId) &&
        r.value == Answer(old(nextId), questionId, FindUser(users, userId).value, content, now) &&
        answers == old(answers) + [r.value]
      ensures r.Err? ==> answers == old(answers)
      ensures FindQuestion(questions, questionId).Some? && FindUser(users, userId).Some? &&
              FindUser(users, userId).value.familyCode.Some? ==>
        var familyCode := FindUser(users, userId).value.familyCode.value;
        DailyQuestions.Cache(daily.familyDailyQuestions, daily.familyQuestionDates) ==
          DailyQuestions.Refreshed(old(DailyQuestions.Cache(daily.familyDailyQuestions, daily.familyQuestionDates)),
                                   familyCode, now, questions, hash, pick) &&
        (r.Ok? <==> daily.familyDailyQuestions[familyCode].id == questionId && !HasAnswered(old(answers), questionId, userId))
    {
      var question := FindQuestion(questions, questionId);
      if question.None? {
        return Err("question not found");
      }
      var user := FindUser(users, userId);
      if user.None? {
        return Err("user not found");
      }
      if user.value.familyCode.None? {
        return Err("user has no family");
      }
      var isToday := daily.IsQuestionForTodayAndFamily(question.value, user.value.familyCode.value, now, questions, hash, pick);
      if !isToday {
        return Err("only today's question can be answered");
      }
      if HasAnswered(answers, questionId, userId) {
        return Err("already answered this question");
      }
      var answer := Answer(nextId, questionId, user.value, content, now);
      TableValidAppend(answers, nextId, answer);
      answers := answers + [answer];
      nextId := nextId + 1;
      r := Ok(answer);
    }

    /** `updateAnswer`: replaces the content of the answer, nothing else. */
    method UpdateAnswer(id: int, content: string) returns (r: Result<()>)
      requires Valid()
      modifies this
      ensures Valid() && nextId == old(nextId)
      ensures r.Ok? <==> IndexOf(old(answers), id).Some?
      ensures r.Err? ==> answers == old(answers)
      ensures r.Ok? ==>
        var k := IndexOf(old(answers), id).value;
        answers == old(answers)[k := old(answers)[k].(content := content)]
    {
      var k := IndexOf(answers, id);
      if k.None? {
        return Err("answer not found");
      }
      answers := answers[k.value := answers[k.value].(content := content)];
      r := Ok(());
    }

    /** `deleteAnswer`: removes exactly the answer with that id. */
    method DeleteAnswer(id: int) returns (r: Result<()>)
      requires Valid()
      modifies this
      ensures Valid() && nextId == old(nextId)
      ensures r.Ok? <==> IndexOf(old(answers), id).Some?
      ensures r.Err? ==> answers == old(answers)
      ensures r.Ok? ==>
        var k := IndexOf(old(answers), id).value;
        answers == old(answers)[..k] + old(answers)[k + 1..] &&
        forall a :: a in answers <==> a in old(answers) && a.id != id
    {
      var k := IndexOf(answers, id);
      if k.None? {
        return Err("answer not found");
      }
      TableValidRemove(answers, nextId, k.value);
      RemoveMembers(answers, nextId, k.value);
      answers := answers[..k.value] + answers[k.value + 1..];
      r := Ok(());
    }

    /** `getTodayAnswersForFamily`: the answers members of the family gave to
        the family's question of the day, earliest first; fails when the
        family has no question today. */
    method GetTodayAnswersForFamily(familyCode: int, now: DateTime, questions: seq<Question>,
                                    hash: DailyQuestions.Hasher, pick: DailyQuestions.Picker)
      returns (r: Result<seq<AnswerResponse>>)
      requires Valid()
      modifies daily
      ensures Valid()
      ensures DailyQuestions.Cache(daily.familyDailyQuestions, daily.familyQuestionDates) ==
        DailyQuestions.Refreshed(old(DailyQuestions.Cache(daily.familyDailyQuestions, daily.familyQuestionDates)),
                                 familyCode, now, questions, hash, pick)
      ensures r.Err? <==> familyCode !in daily.familyDailyQuestions
      ensures r.Ok? ==> r.value == FamilyResponses(AnswersTo(answers, daily.familyDailyQuestions[familyCode].id), familyCode)
      ensures r.Ok? ==> ResponsesInOrder(r.value)
    {
      var today := daily.GetTodayQuestionForFamily(familyCode, now, questions, hash, pick);
      if today.None? {
        return Err("no question for today");
      }
      FamilyResponsesOrdered(AnswersTo(answers, today.value.id), familyCode);
      r := Ok(FamilyResponses(AnswersTo(answers, today.value.id), familyCode));
    }
  }

  /** Every answer reported for a family's day comes from a member of that
      family and answers that day's question. */
  lemma FamilyResponsesSound(answers: seq<Answer>, questionId: int, familyCode: int, x: AnswerResponse)
    requires x in FamilyResponses(AnswersTo(answers, questionId), familyCode)
    ensures exists a :: a in answers && a.questionId == questionId && a.author.familyCode == Some(familyCode) && x == ToResponse(a)
  {
  }
}
