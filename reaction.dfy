/** Reactions to an answer or to a diary: a family member other than the
    author holds at most one reaction on each; reacting again replaces it. */
module Reactions {
  import opened Wrappers
  import opened Text
  import opened Domain
  import Sequences
  import Answers
  import Diaries

  /** What a reaction is attached to. */
  datatype Target = OnAnswer(answerId: int) | OnDiary(diaryId: int)

  datatype Reaction = Reaction(
    id: int,
    target: Target,
    user: User,
    reactionType: string,
    createdAt: DateTime)

  /** `ReactionResponse`: a diary reaction as the client sees it. */
  datatype ReactionResponse = ReactionResponse(
    id: int,
    userName: string,
    reactionType: string,
    createdAt: DateTime)

  /** `ReactionType.valueOf(s.toUpperCase())` succeeds. */
  predicate IsReactionType(s: string, types: set<string>) {
    ToUpper(s) in types
  }

  predicate HasPair(reactions: seq<Reaction>, target: Target, userId: int) {
    exists i :: 0 <= i < |reactions| && reactions[i].target == target && reactions[i].user.id == userId
  }

  /** `findByAnswerAndUser` / `findByDiaryAndUser`: the position of the user's
      reaction on the target. */
  function IndexOfPair(reactions: seq<Reaction>, target: Target, userId: int): (r: Option<nat>)
    ensures r.Some? ==> r.value < |reactions| && reactions[r.value].target == target && reactions[r.value].user.id == userId
    ensures r.None? <==> !HasPair(reactions, target, userId)
  {
    if |reactions| == 0 then None
    else
      var last := reactions[|reactions| - 1];
      if last.target == target && last.user.id == userId then Some(|reactions| - 1)
      else
        var r := IndexOfPair(reactions[..|reactions| - 1], target, userId);
        assert forall i :: 0 <= i < |reactions| - 1 ==> reactions[..|reactions| - 1][i] == reactions[i];
        r
  }

  /** The position of the reaction with id `id`. */
  function IndexOf(reactions: seq<Reaction>, id: int): (r: Option<nat>)
    ensures r.Some? ==> r.value < |reactions| && reactions[r.value].id == id
    ensures r.None? ==> forall i :: 0 <= i < |reactions| ==> reactions[i].id != id
  {
    if |reactions| == 0 then None
    else if reactions[|reactions| - 1].id == id then Some(|reactions| - 1)
    else IndexOf(reactions[..|reactions| - 1], id)
  }

  /** The table with the row at `k` deleted. */
  function RemoveAt(reactions: seq<Reaction>, k: nat): (r: seq<Reaction>)
    requires k < |reactions|
    ensures |r| == |reactions| - 1
    ensures forall i :: 0 <= i < |r| ==> r[i] == reactions[if i < k then i else i + 1]
  {
    reactions[..k] + reactions[k + 1..]
  }

  /** Replace semantics: the user's reaction on the target, if any, is
      deleted, then `x` is saved. */
  function Replaced(reactions: seq<Reaction>, x: Reaction): (r: seq<Reaction>)
    ensures !HasPair(reactions, x.target, x.user.id) ==> r == reactions + [x]
    ensures HasPair(reactions, x.target, x.user.id) ==> |r| == |reactions|
    ensures HasPair(reactions, x.target, x.user.id) ==>
      r == RemoveAt(reactions, IndexOfPair(reactions, x.target, x.user.id).value) + [x]
    ensures r[|r| - 1] == x
  {
    var k := IndexOfPair(reactions, x.target, x.user.id);
    if k.Some? then RemoveAt(reactions, k.value) + [x] else reactions + [x]
  }

  /** Distinct ids below the next id, and one reaction per target and user. */
  predicate TableValid(reactions: seq<Reaction>, nextId: int) {
    (forall i :: 0 <= i < |reactions| ==> reactions[i].id < nextId) &&
    (forall i, j :: 0 <= i < j < |reactions| ==> reactions[i].id != reactions[j].id) &&
    OneEach(reactions)
  }

  predicate OneEach(reactions: seq<Reaction>) {
    forall i, j :: 0 <= i < j < |reactions| ==>
      !(reactions[i].target == reactions[j].target && reactions[i].user.id == reactions[j].user.id)
  }

  /** With one reaction per target and user, a replace keeps exactly the
      rows of every other target-and-user pair, and then `x`. */
  lemma ReplacedRemovesPair(reactions: seq<Reaction>, x: Reaction)
    requires OneEach(reactions)
    ensures forall y :: y in Replaced(reactions, x) <==>
      y == x || (y in reactions && !(y.target == x.target && y.user.id == x.user.id))
  {
    var k := IndexOfPair(reactions, x.target, x.user.id);
    if k.Some? {
      forall y ensures y in RemoveAt(reactions, k.value) <==> y in reactions && !(y.target == x.target && y.user.id == x.user.id) {
        RemovedMember(reactions, k.value, y);
      }
    }
  }

  /** Removing row `k` of a table with one row per pair drops exactly the
      rows of row `k`'s pair. */
  lemma RemovedMember(reactions: seq<Reaction>, k: nat, y: Reaction)
    requires OneEach(reactions) && k < |reactions|
    ensures y in RemoveAt(reactions, k) <==>
      y in reactions && !(y.target == reactions[k].target && y.user.id == reactions[k].user.id)
  {
    if y in RemoveAt(reactions, k) {
      var j := RemovedRow(reactions, k, y);
      KeptRow(reactions, k, j);
    }
    if y in reactions && !(y.target == reactions[k].target && y.user.id == reactions[k].user.id) {
      RemovedKeeps(reactions, k, y);
    }
  }

  /** A row of the shortened table is a row of the table other than `k`. */
  lemma RemovedRow(reactions: seq<Reaction>, k: nat, y: Reaction) returns (j: nat)
    requires k < |reactions| && y in RemoveAt(reactions, k)
    ensures j < |reactions| && j != k && reactions[j] == y
  {
    var r := RemoveAt(reactions, k);
    var i :| 0 <= i < |r| && r[i] == y;
    j := if i < k then i else i + 1;
  }

  /** A row not of row `k`'s pair survives the removal. */
  lemma RemovedKeeps(reactions: seq<Reaction>, k: nat, y: Reaction)
    requires k < |reactions| && y in reactions
    requires !(y.target == reactions[k].target && y.user.id == reactions[k].user.id)
    ensures y in RemoveAt(reactions, k)
  {
    var j :| 0 <= j < |reactions| && reactions[j] == y;
    assert RemoveAt(reactions, k)[if j < k then j else j - 1] == y;
  }

  /** Any row other than `k` has a pair different from row `k`'s. */
  lemma KeptRow(reactions: seq<Reaction>, k: nat, j: nat)
    requires OneEach(reactions) && k < |reactions| && j < |reactions| && j != k
    ensures !(reactions[j].target == reactions[k].target && reactions[j].user.id == reactions[k].user.id)
  {
    if j < k {
      assert !(reactions[j].target == reactions[k].target && reactions[j].user.id == reactions[k].user.id);
    } else {
      assert !(reactions[k].target == reactions[j].target && reactions[k].user.id == reactions[j].user.id);
    }
  }

  lemma RemoveAtValid(reactions: seq<Reaction>, nextId: int, k: nat)
    requires TableValid(reactions, nextId) && k < |reactions|
    ensures TableValid(RemoveAt(reactions, k), nextId)
    ensures !HasPair(RemoveAt(reactions, k), reactions[k].target, reactions[k].user.id)
  {
  }

  /** Replacing keeps the table valid, and afterwards `x` is the user's one
      reaction on the target. */
  lemma ReplacedValid(reactions: seq<Reaction>, nextId: int, x: Reaction)
    requires TableValid(reactions, nextId) && x.id == nextId
    ensures TableValid(Replaced(reactions, x), nextId + 1)
    ensures IndexOfPair(Replaced(reactions, x), x.target, x.user.id) == Some(|Replaced(reactions, x)| - 1)
  {
    var k := IndexOfPair(reactions, x.target, x.user.id);
    var base := if k.Some? then RemoveAt(reactions, k.value) else reactions;
    if k.Some? {
      RemoveAtValid(reactions, nextId, k.value);
    }
    assert !HasPair(base, x.target, x.user.id);
    var r := base + [x];
    assert r == Replaced(reactions, x);
    forall i, j | 0 <= i < j < |r|
      ensures !(r[i].target == r[j].target && r[i].user.id == r[j].user.id)
    {
      if j == |base| {
        assert r[i] == base[i];
      }
    }
    assert r[..|base|] == base;
  }

  /** Reacting twice to the same target leaves only the second reaction. */
  lemma ReplaceTwice(reactions: seq<Reaction>, nextId: int, x: Reaction, y: Reaction)
    requires TableValid(reactions, nextId) && x.id == nextId
    requires y.target == x.target && y.user.id == x.user.id
    ensures Replaced(Replaced(reactions, x), y) == Replaced(reactions, y)
  {
    ReplacedValid(reactions, nextId, x);
    var once := Replaced(reactions, x);
    var k := IndexOfPair(reactions, x.target, x.user.id);
    var base := if k.Some? then RemoveAt(reactions, k.value) else reactions;
    assert once == base + [x];
    assert RemoveAt(once, |once| - 1) == base;
  }

  /** The error `createReaction` raises before saving, if any: unknown answer
      or user, the user's own answer, another family, an unknown type. */
  function AnswerReactionError(answers: seq<Answers.Answer>, users: seq<User>, answerId: int, userId: int,
                               reactionType: string, types: set<string>): (r: Option<string>)
    ensures r.None? <==>
      Answers.IndexOf(answers, answerId).Some? && FindUser(users, userId).Some? &&
      answers[Answers.IndexOf(answers, answerId).value].author.id != userId &&
      SameFamily(answers[Answers.IndexOf(answers, answerId).value].author, FindUser(users, userId).value) &&
      IsReactionType(reactionType, types)
  {
    var k := Answers.IndexOf(answers, answerId);
    if k.None? then Some("answer not found")
    else if FindUser(users, userId).None? then Some("user not found")
    else if answers[k.value].author.id == userId then Some("cannot react to one's own answer")
    else if !SameFamily(answers[k.value].author, FindUser(users, userId).value) then Some("only family members may react")
    else if !IsReactionType(reactionType, types) then Some("invalid reaction type")
    else None
  }

  /** The error `createDiaryReaction` raises, if any. */
  function DiaryReactionError(diaries: seq<Diaries.Diary>, diaryId: int, user: User): (r: Option<string>)
    ensures r.None? <==>
      Diaries.IndexOf(diaries, diaryId).Some? &&
      diaries[Diaries.IndexOf(diaries, diaryId).value].author.id != user.id &&
      SameFamily(diaries[Diaries.IndexOf(diaries, diaryId).value].author, user)
  {
    var k := Diaries.IndexOf(diaries, diaryId);
    if k.None? then Some("diary not found")
    else if diaries[k.value].author.id == user.id then Some("cannot react to one's own diary")
    else if !SameFamily(diaries[k.value].author, user) then Some("only family members may react")
    else None
  }

  /** `findByDiaryOrderByCreatedAtAsc`: the reactions on a diary, earliest
      first. */
  function DiaryReactions(reactions: seq<Reaction>, diaryId: int): (r: seq<Reaction>)
    ensures forall x :: x in r <==> x in reactions && x.target == OnDiary(diaryId)
    ensures forall i, j :: 0 <= i < j < |r| ==> Instant(r[i].createdAt) <= Instant(r[j].createdAt)
  {
    var rows := Sequences.Filter(reactions, (x: Reaction) => x.target == OnDiary(diaryId));
    Sequences.SortAsc(rows, (x: Reaction) => Instant(x.createdAt))
  }

  function ToResponse(x: Reaction): (r: ReactionResponse)
    ensures r.id == x.id && r.userName == x.user.name && r.reactionType == x.reactionType && r.createdAt == x.createdAt
  {
    ReactionResponse(x.id, x.user.name, x.reactionType, x.createdAt)
  }

  /** The reaction table (`ReactionRepository`). */
  class ReactionService {
    var reactions: seq<Reaction>
    var nextId: int

    predicate Valid()
      reads this
    {
      TableValid(reactions, nextId)
    }

    constructor()
      ensures Valid() && reactions == []
    {
      reactions := [];
      nextId := 1;
    }

    /** Saves `x` in place of the user's earlier reaction on the same
        target. */
    method Replace(x: Reaction)
      requires Valid() && x.id == nextId
      modifies this
      ensures Valid()
      ensures reactions == Replaced(old(reactions), x) && nextId == old(nextId) + 1
    {
      ReplacedValid(reactions, nextId, x);
      var existing := IndexOfPair(reactions, x.target, x.user.id);
      if existing.Some? {
        reactions := RemoveAt(reactions, existing.value);
      }
      reactions := reactions + [x];
      nextId := nextId + 1;
    }

    /** `createReaction` on an answer. The type is checked after the old
        reaction is deleted, but the failure rolls the deletion back: an
        unknown type leaves the table unchanged. */
    method CreateReaction(answerId: int, userId: int, reactionType: string, answers: seq<Answers.Answer>,
                          users: seq<User>, types: set<string>, now: DateTime)
      returns (r: Result<int>)
      requires Valid()
      modifies this
      ensures Valid()
      ensures r.Err? <==> AnswerReactionError(answers, users, answerId, userId, reactionType, types).Some?
      ensures r.Err? ==> reactions == old(reactions) && nextId == old(nextId)
      ensures r.Ok? ==>
        r.value == old(nextId) &&
        reactions == Replaced(old(reactions),
          Reaction(old(nextId), OnAnswer(answerId), FindUser(users, userId).value, ToUpper(reactionType), now))
    {
      var error := AnswerReactionError(answers, users, answerId, userId, reactionType, types);
      if error.Some? {
        return Err(error.value);
      }
      var x := Reaction(nextId, OnAnswer(answerId), FindUser(users, userId).value, ToUpper(reactionType), now);
      Replace(x);
      r := Ok(x.id);
    }

    /** `createDiaryReaction`: the type is already a reaction type. */
    method CreateDiaryReaction(diaryId: int, user: User, reactionType: string, diaries: seq<Diaries.Diary>, now: DateTime)
      returns (r: Result<Reaction>)
      requires Valid()
      modifies this
      ensures Valid()
      ensures r.Err? <==> DiaryReactionError(diaries, diaryId, user).Some?
      ensures r.Err? ==> reactions == old(reactions) && nextId == old(nextId)
      ensures r.Ok? ==>
        r.value == Reaction(old(nextId), OnDiary(diaryId), user, reactionType, now) &&
        reactions == Replaced(old(reactions), r.value)
    {
      var error := DiaryReactionError(diaries, diaryId, user);
      if error.Some? {
        return Err(error.value);
      }
      var x := Reaction(nextId, OnDiary(diaryId), user, reactionType, now);
      Replace(x);
      r := Ok(x);
    }

    /** `deleteReaction`: removes exactly the reaction with that id. */
    method DeleteReaction(id: int) returns (r: Result<()>)
      requires Valid()
      modifies this
      ensures Valid() && nextId == old(nextId)
      ensures r.Ok? <==> IndexOf(old(reactions), id).Some?
      ensures r.Err? ==> reactions == old(reactions)
      ensures r.Ok? ==> reactions == RemoveAt(old(reactions), IndexOf(old(reactions), id).value)
    {
      var k := IndexOf(reactions, id);
      if k.None? {
        return Err("reaction not found");
      }
      RemoveAtValid(reactions, nextId, k.value);
      reactions := RemoveAt(reactions, k.value);
      r := Ok(());
    }

    /** `deleteDiaryReaction`: only the reaction's author may delete it, and
        only a reaction on a diary. */
    method DeleteDiaryReaction(id: int, user: User) returns (r: Result<()>)
      requires Valid()
      modifies this
      ensures Valid() && nextId == old(nextId)
      ensures r.Ok? <==>
        IndexOf(old(reactions), id).Some? &&
        old(reactions)[IndexOf(old(reactions), id).value].user.id == user.id &&
        old(reactions)[IndexOf(old(reactions), id).value].target.OnDiary?
      ensures r.Err? ==> reactions == old(reactions)
      ensures r.Ok? ==> reactions == RemoveAt(old(reactions), IndexOf(old(reactions), id).value)
    {
      var k := IndexOf(reactions, id);
      if k.None? {
        return Err("reaction not found");
      }
      if reactions[k.value].user.id != user.id {
        return Err("only the author may delete a reaction");
      }
      if !reactions[k.value].target.OnDiary? {
        return Err("not a diary reaction");
      }
      RemoveAtValid(reactions, nextId, k.value);
      reactions := RemoveAt(reactions, k.value);
      r := Ok(());
    }

    /** `getReactionsByDiary`: one response per reaction on the diary, in
        creation order; fails for an unknown diary. */
    function GetReactionsByDiary(diaryId: int, diaries: seq<Diaries.Diary>): (r: Result<seq<ReactionResponse>>)
      reads this
      ensures r.Err? <==> Diaries.IndexOf(diaries, diaryId).None?
      ensures r.Ok? ==>
        var rows := DiaryReactions(reactions, diaryId);
        |r.value| == |rows| && forall i :: 0 <= i < |rows| ==> r.value[i] == ToResponse(rows[i])
    {
      if Diaries.IndexOf(diaries, diaryId).None? then Err("diary not found")
      else Ok(Responses(DiaryReactions(reactions, diaryId)))
    }
  }

  function Responses(rows: seq<Reaction>): (r: seq<ReactionResponse>)
    ensures |r| == |rows|
    ensures forall i :: 0 <= i < |rows| ==> r[i] == ToResponse(rows[i])
  {
    seq(|rows|, i requires 0 <= i < |rows| => ToResponse(rows[i]))
  }
}
