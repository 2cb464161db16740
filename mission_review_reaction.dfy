/** Reactions ("praise") to a mission review: a family member other than
    the author toggles their one reaction on a review on or off. */
module MissionReviewReactions {
  import opened Wrappers
  import opened Text
  import opened Domain
  import MissionReviews

  datatype MissionReviewReaction = MissionReviewReaction(
    id: int,
    reviewId: int,
    userId: int,
    reactionType: string)

  /** The `action` a toggle reports. */
  datatype Action = Added | Removed

  /** What a successful toggle answers: the action, and how many reactions
      the review has afterwards. */
  datatype ToggleOutcome = ToggleOutcome(action: Action, reactionCount: nat)

  /** `ReactionType.valueOf(s.toUpperCase())` succeeds: the upper-cased text
      names one of the reaction types. */
  predicate IsReactionType(s: string, types: set<string>) {
    ToUpper(s) in types
  }

  /** `findByMissionReviewAndUser`: the position of the user's reaction on
      the review. */
  function IndexOfPair(reactions: seq<MissionReviewReaction>, reviewId: int, userId: int): (r: Option<nat>)
    ensures r.Some? ==> r.value < |reactions| && reactions[r.value].reviewId == reviewId && reactions[r.value].userId == userId
    ensures r.None? <==> !HasPair(reactions, reviewId, userId)
  {
    if |reactions| == 0 then None
    else
      var last := reactions[|reactions| - 1];
      if last.reviewId == reviewId && last.userId == userId then Some(|reactions| - 1)
      else
        var r := IndexOfPair(reactions[..|reactions| - 1], reviewId, userId);
        assert forall i :: 0 <= i < |reactions| - 1 ==> reactions[..|reactions| - 1][i] == reactions[i];
        r
  }

  predicate HasPair(reactions: seq<MissionReviewReaction>, reviewId: int, userId: int) {
    exists i :: 0 <= i < |reactions| && reactions[i].reviewId == reviewId && reactions[i].userId == userId
  }

  /** `countByMissionReview`. */
  function CountFor(reactions: seq<MissionReviewReaction>, reviewId: int): (n: nat)
    ensures n <= |reactions|
  {
    if |reactions| == 0 then 0
    else CountFor(reactions[..|reactions| - 1], reviewId) + (if reactions[|reactions| - 1].reviewId == reviewId then 1 else 0)
  }

  lemma {:induction false} CountAppend(a: seq<MissionReviewReaction>, b: seq<MissionReviewReaction>, reviewId: int)
    ensures CountFor(a + b, reviewId) == CountFor(a, reviewId) + CountFor(b, reviewId)
  {
    if |b| == 0 {
      assert a + b == a;
    } else {
      assert (a + b)[..|a + b| - 1] == a + b[..|b| - 1];
      CountAppend(a, b[..|b| - 1], reviewId);
    }
  }

  /** Removing the row at `k` lowers the count of its review by one and leaves
      every other review's count alone. */
  lemma CountRemove(reactions: seq<MissionReviewReaction>, k: nat, reviewId: int)
    requires k < |reactions|
    ensures CountFor(reactions[..k] + reactions[k + 1..], reviewId) ==
      CountFor(reactions, reviewId) - (if reactions[k].reviewId == reviewId then 1 else 0)
  {
    assert reactions == reactions[..k] + [reactions[k]] + reactions[k + 1..];
    CountAppend(reactions[..k] + [reactions[k]], reactions[k + 1..], reviewId);
    CountAppend(reactions[..k], [reactions[k]], reviewId);
    CountAppend(reactions[..k], reactions[k + 1..], reviewId);
    assert [reactions[k]][..0] == [];
  }

  /** The reaction table after a toggle: the user's reaction on the review is
      removed if there is one, else a new one with id `id` is added. */
  function Toggled(reactions: seq<MissionReviewReaction>, reviewId: int, userId: int, reactionType: string, id: int)
    : (r: seq<MissionReviewReaction>)
    ensures HasPair(reactions, reviewId, userId) ==> |r| == |reactions| - 1
    ensures HasPair(reactions, reviewId, userId) ==>
      var k := IndexOfPair(reactions, reviewId, userId).value;
      r == reactions[..k] + reactions[k + 1..]
    ensures !HasPair(reactions, reviewId, userId) ==>
      r == reactions + [MissionReviewReaction(id, reviewId, userId, reactionType)]
  {
    var k := IndexOfPair(reactions, reviewId, userId);
    if k.Some? then reactions[..k.value] + reactions[k.value + 1..]
    else reactions + [MissionReviewReaction(id, reviewId, userId, reactionType)]
  }

  /** The review's count goes up by one when a reaction is added and down by
      one when it is removed. */
  lemma ToggledCount(reactions: seq<MissionReviewReaction>, reviewId: int, userId: int, reactionType: string, id: int)
    ensures CountFor(Toggled(reactions, reviewId, userId, reactionType, id), reviewId) ==
      if HasPair(reactions, reviewId, userId) then CountFor(reactions, reviewId) - 1 else CountFor(reactions, reviewId) + 1
  {
    var k := IndexOfPair(reactions, reviewId, userId);
    if k.Some? {
      CountRemove(reactions, k.value, reviewId);
    } else {
      CountAdd(reactions, MissionReviewReaction(id, reviewId, userId, reactionType));
    }
  }

  /** Appending a reaction raises its review's count by one. */
  lemma CountAdd(reactions: seq<MissionReviewReaction>, x: MissionReviewReaction)
    ensures CountFor(reactions + [x], x.reviewId) == CountFor(reactions, x.reviewId) + 1
  {
    CountAppend(reactions, [x], x.reviewId);
    assert [x][..0] == [];
  }

  /** Adding a reaction and toggling again restores the table exactly. */
  lemma ToggleTwiceRestores(reactions: seq<MissionReviewReaction>, reviewId: int, userId: int, t1: string, t2: string, id1: int, id2: int)
    requires !HasPair(reactions, reviewId, userId)
    ensures Toggled(Toggled(reactions, reviewId, userId, t1, id1), reviewId, userId, t2, id2) == reactions
  {
    var once := Toggled(reactions, reviewId, userId, t1, id1);
    var k := IndexOfPair(once, reviewId, userId);
    assert once[|reactions|].reviewId == reviewId && once[|reactions|].userId == userId;
    assert k == Some(|reactions|);
    assert once[..|reactions|] == reactions;
  }

  /** No user has two reactions on one review. */
  predicate OneEach(reactions: seq<MissionReviewReaction>) {
    forall i, j :: 0 <= i < j < |reactions| ==>
      !(reactions[i].reviewId == reactions[j].reviewId && reactions[i].userId == reactions[j].userId)
  }

  /** With one reaction per review and user, a toggle that removes keeps
      exactly the rows of every other review-and-user pair. */
  lemma ToggledRemovesPair(reactions: seq<MissionReviewReaction>, reviewId: int, userId: int, reactionType: string, id: int)
    requires OneEach(reactions) && HasPair(reactions, reviewId, userId)
    ensures forall y :: y in Toggled(reactions, reviewId, userId, reactionType, id) <==>
      y in reactions && !(y.reviewId == reviewId && y.userId == userId)
  {
    var k := IndexOfPair(reactions, reviewId, userId).value;
    forall y ensures y in reactions[..k] + reactions[k + 1..] <==> y in reactions && !(y.reviewId == reviewId && y.userId == userId) {
      RemovedMember(reactions, k, y);
    }
  }

  /** Removing row `k` of a table with one row per pair drops exactly the
      rows of row `k`'s pair. */
  lemma RemovedMember(reactions: seq<MissionReviewReaction>, k: nat, y: MissionReviewReaction)
    requires OneEach(reactions) && k < |reactions|
    ensures y in reactions[..k] + reactions[k + 1..] <==>
      y in reactions && !(y.reviewId == reactions[k].reviewId && y.userId == reactions[k].userId)
  {
    var r := reactions[..k] + reactions[k + 1..];
    if y in r {
      var i :| 0 <= i < |r| && r[i] == y;
      var j := if i < k then i else i + 1;
      assert reactions[j] == y;
    }
    if y in reactions && !(y.reviewId == reactions[k].reviewId && y.userId == reactions[k].userId) {
      var j :| 0 <= j < |reactions| && reactions[j] == y;
      assert r[if j < k then j else j - 1] == y;
    }
  }

  predicate TableValid(reactions: seq<MissionReviewReaction>, nextId: int) {
    (forall i :: 0 <= i < |reactions| ==> reactions[i].id < nextId) &&
    (forall i, j :: 0 <= i < j < |reactions| ==> reactions[i].id != reactions[j].id) &&
    OneEach(reactions)
  }

  /** A toggle with a fresh id keeps the table valid. */
  lemma ToggledValid(reactions: seq<MissionReviewReaction>, nextId: int, reviewId: int, userId: int, reactionType: string)
    requires TableValid(reactions, nextId)
    ensures TableValid(Toggled(reactions, reviewId, userId, reactionType, nextId), nextId + 1)
  {
    var k := IndexOfPair(reactions, reviewId, userId);
    var r := Toggled(reactions, reviewId, userId, reactionType, nextId);
    if k.Some? {
      assert forall i :: 0 <= i < |r| ==> r[i] == reactions[if i < k.value then i else i + 1];
    } else {
      forall i, j | 0 <= i < j < |r|
        ensures !(r[i].reviewId == r[j].reviewId && r[i].userId == r[j].userId)
      {
        if j == |reactions| {
          assert r[i] == reactions[i];
        }
      }
    }
  }

  /** The error `toggleReaction` raises, if any, in the order it checks. */
  function ToggleError(reviews: seq<MissionReviews.MissionReview>, users: seq<User>, reviewId: int, userId: int,
                       reactionType: string, types: set<string>): (r: Option<string>)
    ensures r.None? <==>
      MissionReviews.IndexOf(reviews, reviewId).Some? && FindUser(users, userId).Some? &&
      reviews[MissionReviews.IndexOf(reviews, reviewId).value].userId != userId &&
      FindUser(users, userId).value.familyCode == Some(reviews[MissionReviews.IndexOf(reviews, reviewId).value].missionFamilyCode) &&
      IsReactionType(reactionType, types)
  {
    var k := MissionReviews.IndexOf(reviews, reviewId);
    if k.None? then Some("review not found")
    else if FindUser(users, userId).None? then Some("user not found")
    else if reviews[k.value].userId == userId then Some("cannot react to one's own review")
    else if FindUser(users, userId).value.familyCode != Some(reviews[k.value].missionFamilyCode) then Some("only family members may react")
    else if !IsReactionType(reactionType, types) then Some("invalid reaction type")
    else None
  }

  /** The reaction table (`MissionReviewReactionRepository`). */
  class MissionReviewReactionService {
    var reactions: seq<MissionReviewReaction>
    var nextId: int

    predicate Valid()
      reads this
    {
      TableValid(reactions, nextId)
    }

    constructor()
      ensures Valid() && reactions == []
    {
      reactions := [];
      nextId := 1;
    }

    /** `toggleReaction` on the review table `reviews`, with `types` the
        reaction type names. Every check comes before any change, the type
        check included. */
    method ToggleReaction(reviewId: int, userId: int, reactionType: string, reviews: seq<MissionReviews.MissionReview>,
                          users: seq<User>, types: set<string>)
      returns (r: Result<ToggleOutcome>)
      requires Valid()
      modifies this
      ensures Valid()
      ensures r.Err? <==> ToggleError(reviews, users, reviewId, userId, reactionType, types).Some?
      ensures r.Err? ==> reactions == old(reactions) && nextId == old(nextId)
      ensures r.Ok? ==>
        reactions == Toggled(old(reactions), reviewId, userId, ToUpper(reactionType), old(nextId)) &&
        r.value.action == (if HasPair(old(reactions), reviewId, userId) then Removed else Added) &&
        r.value.reactionCount == CountFor(reactions, reviewId) &&
        r.value.reactionCount == (if r.value.action == Removed then CountFor(old(reactions), reviewId) - 1
                                  else CountFor(old(reactions), reviewId) + 1)
    {
      var error := ToggleError(reviews, users, reviewId, userId, reactionType, types);
      if error.Some? {
        return Err(error.value);
      }
      ToggledValid(reactions, nextId, reviewId, userId, ToUpper(reactionType));
      ToggledCount(reactions, reviewId, userId, ToUpper(reactionType), nextId);
      var action := Apply(reviewId, userId, ToUpper(reactionType));
      r := Ok(ToggleOutcome(action, CountFor(reactions, reviewId)));
    }

    /** The change a valid toggle makes: delete the user's reaction on the
        review if there is one, else save a new one under the next id. */
    method Apply(reviewId: int, userId: int, reactionType: string) returns (action: Action)
      modifies this
      ensures reactions == Toggled(old(reactions), reviewId, userId, reactionType, old(nextId))
      ensures nextId == old(nextId) + 1
      ensures action == if HasPair(old(reactions), reviewId, userId) then Removed else Added
    {
      var existing := IndexOfPair(reactions, reviewId, userId);
      if existing.Some? {
        reactions := reactions[..existing.value] + reactions[existing.value + 1..];
        action := Removed;
      } else {
        reactions := reactions + [MissionReviewReaction(nextId, reviewId, userId, reactionType)];
        action := Added;
      }
      // The counter also moves on a removal. This stands for nothing in the
      // source; it only keeps the ids handed out below `nextId`.
      nextId := nextId + 1;
    }
  }
}
