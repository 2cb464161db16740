/** Reviews of a weekly mission: each family member may write one, trimmed
    and non-blank; writing one may complete the mission, deleting one reopens
    it. */
module MissionReviews {
  import opened Wrappers
  import opened Text
  import opened Domain
  import Missions

  /** A review row. The mission's family code is kept with it (a mission
      never changes family). */
  datatype MissionReview = MissionReview(
    id: int,
    missionId: int,
    missionFamilyCode: int,
    userId: int,
    content: string)

  /** The position of the review with id `id`. */
  function IndexOf(reviews: seq<MissionReview>, id: int): (r: Option<nat>)
    ensures r.Some? ==> r.value < |reviews| && reviews[r.value].id == id
    ensures r.None? ==> forall i :: 0 <= i < |reviews| ==> reviews[i].id != id
  {
    if |reviews| == 0 then None
    else if reviews[|reviews| - 1].id == id then Some(|reviews| - 1)
    else IndexOf(reviews[..|reviews| - 1], id)
  }

  /** `existsByMissionAndUser`. */
  predicate HasReview(reviews: seq<MissionReview>, missionId: int, userId: int) {
    exists i :: 0 <= i < |reviews| && reviews[i].missionId == missionId && reviews[i].userId == userId
  }

  /** The users who reviewed a mission (`countDistinctUsersByMission` counts
      them). */
  function Reviewers(reviews: seq<MissionReview>, missionId: int): (r: set<int>)
    ensures forall u :: u in r <==> HasReview(reviews, missionId, u)
  {
    set i | 0 <= i < |reviews| && reviews[i].missionId == missionId :: reviews[i].userId
  }

  /** Stored review text: trimmed and not empty. */
  predicate CleanContent(s: string) {
    s != [] && Trim(s) == s
  }

  /** What is stored, `content.trim()` of text that is not blank, is clean:
      not empty, and trimming it again changes nothing. */
  lemma TrimmedIsClean(s: string)
    requires !IsBlank(s)
    ensures CleanContent(Trim(s))
  {
    TrimIdempotent(s);
  }

  /** Distinct ids below the next id, and one review per mission and user. */
  predicate TableValid(reviews: seq<MissionReview>, nextId: int) {
    (forall i :: 0 <= i < |reviews| ==> reviews[i].id < nextId) &&
    (forall i, j :: 0 <= i < j < |reviews| ==> reviews[i].id != reviews[j].id) &&
    OneReviewEach(reviews)
  }

  /** Whether `user` may review `mission`: the user belongs to a family, and
      it is the mission's. */
  predicate SameFamily(user: User, mission: Missions.Mission) {
    user.familyCode == Some(mission.familyCode)
  }

  /** The error `createReview` raises, if any, in the order it checks. */
  function CreateError(missions: seq<Missions.Mission>, reviews: seq<MissionReview>, users: seq<User>,
                       missionId: int, userId: int, content: Option<string>): (r: Option<string>)
    ensures r.None? <==>
      Missions.IndexOf(missions, missionId).Some? && FindUser(users, userId).Some? &&
      content.Some? && !IsBlank(content.value) &&
      SameFamily(FindUser(users, userId).value, missions[Missions.IndexOf(missions, missionId).value]) &&
      !HasReview(reviews, missionId, userId)
  {
    var k := Missions.IndexOf(missions, missionId);
    if k.None? then Some("mission not found")
    else if FindUser(users, userId).None? then Some("user not found")
    else if content.None? || IsBlank(content.value) then Some("review content is required")
    else if !SameFamily(FindUser(users, userId).value, missions[k.value]) then Some("not a member of the mission's family")
    else if HasReview(reviews, missionId, userId) then Some("already reviewed this mission")
    else None
  }

  /** Adding a review by a user who has none on that mission, with a fresh id,
      keeps the table valid. */
  lemma TableValidAppend(reviews: seq<MissionReview>, nextId: int, r: MissionReview)
    requires TableValid(reviews, nextId)
    requires r.id == nextId && !HasReview(reviews, r.missionId, r.userId)
    ensures TableValid(reviews + [r], nextId + 1)
  {
    var t := reviews + [r];
    forall i, j | 0 <= i < j < |t|
      ensures !(t[i].missionId == t[j].missionId && t[i].userId == t[j].userId)
    {
      if j == |reviews| {
        assert t[i] == reviews[i];
      }
    }
  }

  lemma TableValidRemove(reviews: seq<MissionReview>, nextId: int, k: nat)
    requires TableValid(reviews, nextId) && k < |reviews|
    ensures TableValid(reviews[..k] + reviews[k + 1..], nextId)
  {
    var t := reviews[..k] + reviews[k + 1..];
    assert forall i :: 0 <= i < |t| ==> t[i] == reviews[if i < k then i else i + 1];
  }

  /** The review table (`MissionReviewRepository`), beside the missions it
      reviews. */
  class MissionReviewService {
    var reviews: seq<MissionReview>
    var nextId: int
    const missionService: Missions.MissionService

    predicate Valid()
      reads this, missionService
    {
      TableValid(reviews, nextId) && missionService.Valid()
    }

    constructor(missionService: Missions.MissionService)
      requires missionService.Valid()
      ensures Valid() && reviews == [] && this.missionService == missionService
    {
      reviews := [];
      nextId := 1;
      this.missionService := missionService;
    }

    /** `createReview`: stores the trimmed review, then runs the mission's
        completion check with the reviewers as they now stand. Returns the new
        review's id. */
    method CreateReview(missionId: int, userId: int, content: Option<string>, users: seq<User>, now: DateTime)
      returns (r: Result<int>)
      requires Valid()
      modifies this, missionService
      ensures Valid()
      ensures r.Err? <==> CreateError(old(missionService.missions), old(reviews), users, missionId, userId, content).Some?
      ensures r.Err? ==> reviews == old(reviews) && missionService.missions == old(missionService.missions)
      ensures r.Ok? ==>
        var m := old(missionService.missions)[Missions.IndexOf(old(missionService.missions), missionId).value];
        r.value == old(nextId) &&
        reviews == old(reviews) + [MissionReview(old(nextId), missionId, m.familyCode, userId, Trim(content.value))] &&
        missionService.missions ==
          Missions.AfterCompletionCheck(old(missionService.missions), missionId, users, Reviewers(reviews, missionId), now)
    {
      var error := CreateError(missionService.missions, reviews, users, missionId, userId, content);
      if error.Some? {
        return Err(error.value);
      }
      var m := missionService.missions[Missions.IndexOf(missionService.missions, missionId).value];
      var review := AddReview(missionId, m.familyCode, userId, Trim(content.value));
      var checked := missionService.CheckAndUpdateMissionCompletion(missionId, users, Reviewers(reviews, missionId), now);
      r := Ok(review.id);
    }

    /** Saves a new review with the next id. */
    method AddReview(missionId: int, missionFamilyCode: int, userId: int, content: string) returns (review: MissionReview)
      requires Valid()
      requires !HasReview(reviews, missionId, userId)
      modifies this
      ensures Valid()
      ensures review == MissionReview(old(nextId), missionId, missionFamilyCode, userId, content)
      ensures reviews == old(reviews) + [review] && nextId == old(nextId) + 1
    {
      review := MissionReview(nextId, missionId, missionFamilyCode, userId, content);
      TableValidAppend(reviews, nextId, review);
      reviews := reviews + [review];
      nextId := nextId + 1;
    }

    /** `updateReview`: only the author may change a review, and only to
        text that is not blank; the text is stored trimmed. */
    method UpdateReview(reviewId: int, userId: int, content: Option<string>, users: seq<User>) returns (r: Result<()>)
      requires Valid()
      modifies this
      ensures Valid() && nextId == old(nextId)
      ensures r.Ok? <==>
        IndexOf(old(reviews), reviewId).Some? && FindUser(users, userId).Some? &&
        old(reviews)[IndexOf(old(reviews), reviewId).value].userId == userId &&
        content.Some? && !IsBlank(content.value)
      ensures r.Err? ==> reviews == old(reviews)
      ensures r.Ok? ==>
        var k := IndexOf(old(reviews), reviewId).value;
        reviews == old(reviews)[k := old(reviews)[k].(content := Trim(content.value))]
    {
      var k := IndexOf(reviews, reviewId);
      if k.None? {
        return Err("review not found");
      }
      if FindUser(users, userId).None? {
        return Err("user not found");
      }
      if reviews[k.value].userId != userId {
        return Err("only the author may edit a review");
      }
      if content.None? || IsBlank(content.value) {
        return Err("review content is required");
      }
      reviews := reviews[k.value := reviews[k.value].(content := Trim(content.value))];
      r := Ok(());
    }

    /** `deleteReview`: only the author may delete a review; the mission it
        reviewed is reopened if it was completed. */
    method DeleteReview(reviewId: int, userId: int, users: seq<User>) returns (r: Result<()>)
      requires Valid()
      modifies this, missionService
      ensures Valid() && nextId == old(nextId)
      ensures r.Ok? <==>
        IndexOf(old(reviews), reviewId).Some? && FindUser(users, userId).Some? &&
        old(reviews)[IndexOf(old(reviews), reviewId).value].userId == userId
      ensures r.Err? ==> reviews == old(reviews) && missionService.missions == old(missionService.missions)
      ensures r.Ok? ==>
        var k := IndexOf(old(reviews), reviewId).value;
        reviews == old(reviews)[..k] + old(reviews)[k + 1..] &&
        missionService.missions == Missions.AfterReopen(old(missionService.missions), old(reviews)[k].missionId)
    {
      var k := IndexOf(reviews, reviewId);
      if k.None? {
        return Err("review not found");
      }
      if FindUser(users, userId).None? {
        return Err("user not found");
      }
      if reviews[k.value].userId != userId {
        return Err("only the author may delete a review");
      }
      var missionId := reviews[k.value].missionId;
      TableValidRemove(reviews, nextId, k.value);
      reviews := reviews[..k.value] + reviews[k.value + 1..];
      missionService.ReopenMission(missionId);
      r := Ok(());
    }
  }

  /** `findByMissionOrderByCreatedAtDesc` without the order: the reviews of
      one mission, in table order. */
  function ReviewsOf(reviews: seq<MissionReview>, missionId: int): (r: seq<MissionReview>)
    ensures forall x :: x in r <==> x in reviews && x.missionId == missionId
  {
    if |reviews| == 0 then []
    else
      var last := reviews[|reviews| - 1];
      ReviewsOf(reviews[..|reviews| - 1], missionId) + (if last.missionId == missionId then [last] else [])
  }

  /** No user has two reviews of the same mission. */
  predicate OneReviewEach(reviews: seq<MissionReview>) {
    forall i, j :: 0 <= i < j < |reviews| ==>
      !(reviews[i].missionId == reviews[j].missionId && reviews[i].userId == reviews[j].userId)
  }

  /** The reviewers after one more row. */
  lemma ReviewersSnoc(init: seq<MissionReview>, last: MissionReview, missionId: int)
    ensures Reviewers(init + [last], missionId) ==
      Reviewers(init, missionId) + (if last.missionId == missionId then {last.userId} else {})
  {
    var all := init + [last];
    forall u ensures HasReview(all, missionId, u) <==>
      HasReview(init, missionId, u) || (last.missionId == missionId && u == last.userId)
    {
      if HasReview(all, missionId, u) {
        var i :| 0 <= i < |all| && all[i].missionId == missionId && all[i].userId == u;
        if i < |init| {
          assert init[i] == all[i];
        }
      }
      if HasReview(init, missionId, u) {
        var i :| 0 <= i < |init| && init[i].missionId == missionId && init[i].userId == u;
        assert all[i] == init[i];
      }
      if last.missionId == missionId && u == last.userId {
        assert all[|init|] == last;
      }
    }
  }

  /** With one review per user and mission, the distinct reviewers of a
      mission are exactly as many as its reviews: the completion check's
      distinct count is the number of reviews. */
  lemma {:induction false} ReviewerCount(reviews: seq<MissionReview>, missionId: int)
    requires OneReviewEach(reviews)
    ensures |Reviewers(reviews, missionId)| == |ReviewsOf(reviews, missionId)|
  {
    if |reviews| > 0 {
      var init := reviews[..|reviews| - 1];
      var last := reviews[|reviews| - 1];
      assert reviews == init + [last];
      assert forall i :: 0 <= i < |init| ==> init[i] == reviews[i];
      ReviewerCount(init, missionId);
      ReviewersSnoc(init, last, missionId);
      assert !HasReview(init, last.missionId, last.userId) by {
        assert forall i :: 0 <= i < |init| ==> !(init[i].missionId == last.missionId && init[i].userId == last.userId);
      }
    }
  }
}
