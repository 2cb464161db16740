/** Weekly family missions: at most one mission per family and week (weeks
    start on Monday at 00:00), drawn from eight fixed activities, completed
    once every member of the family has written a review. */
module Missions {
  import opened Wrappers
  import opened Domain
  import Sequences

  /** The eight mission texts; mission number `n` has text `n - 1`. */
  const MissionContents: seq<string> := [
    "가족과 근처 공원에서 자전거를 타며 신선한 공기를 마시고 함께 운동하며 즐거운 시간을 보내세요.",
    "가족과 함께 영화를 정하고 팝콘과 간식을 준비해 편안하게 감상한 뒤, 영화에 대한 감상평을 자유롭게 나누며 소통하는 시간을 가져보세요.",
    "서로 좋아하는 음식을 다같이 요리하고, 저녁 식사로 먹으면서 뿌듯한 시간을 보내세요.",
    "쉬는 날에 자식이 가고싶은 장소 또는 하고싶은 것을 하면서 자식들이 좋아하는 것을 배우며 함께 즐겨보세요.",
    "가족의 옛 사진이나 추억이 담긴 물건들을 함께 꺼내어 보며 그때의 기억을 되살리고, 각자가 가장 소중하게 생각하는 추억 하나씩을 자세히 들려주세요.",
    "가족과 함께 집 안팎을 정리정돈하거나 청소를 하면서 협력하고, 작업을 마친 후 깨끗해진 공간에서 함께 차나 음료를 마시며 성취감을 나눠보세요.",
    "가족 구성원 한 명씩 돌아가며 '칭찬 릴레이'를 해보며 평소 하지 못한 말을 꺼내 보세요.",
    "최근 나를 웃게 만든 일이 있다면 가족과 함께 나눠보며 당신의 기분을 전염 시켜 보세요."
  ]

  datatype Mission = Mission(
    id: int,
    familyCode: int,
    missionNumber: int,
    content: string,
    assignedAt: DateTime,
    weekStartDate: DateTime,
    isCompleted: bool,
    completedAt: Option<DateTime>)

  /** Day of the week of an epoch day, Monday = 0 (day 0 was a Thursday). */
  function DayOfWeek(d: Date): (r: nat)
    ensures r < 7
  {
    (d + 3) % 7
  }

  /** The Monday on or before `now`, at 00:00:00
      (`previousOrSame(MONDAY)` with the time cleared). */
  function WeekStart(now: DateTime): (r: DateTime)
    ensures r.second == 0 && DayOfWeek(r.date) == 0
    ensures r.date <= now.date < r.date + 7
  {
    DateTime(now.date - DayOfWeek(now.date), 0)
  }

  /** Every instant of a week has the same week start. */
  lemma SameWeekSameStart(a: DateTime, b: DateTime)
    requires WeekStart(a).date <= b.date < WeekStart(a).date + 7
    ensures WeekStart(b) == WeekStart(a)
  {
    var m := WeekStart(a).date;
    assert (m + 3) % 7 == 0;
    assert b.date - m < 7;
    assert (b.date + 3) % 7 == b.date - m by {
      assert b.date + 3 == (m + 3) + (b.date - m);
    }
  }

  /** `random.nextInt(8) + 1` for a caller-supplied draw. */
  function MissionNumber(draw: int): (n: int)
    ensures 1 <= n <= 8
  {
    draw % 8 + 1
  }

  /** The mission a family is issued at `now`, numbered from `draw`. */
  function NewMission(id: int, familyCode: int, now: DateTime, draw: int): (m: Mission)
    ensures 1 <= m.missionNumber <= 8 && m.content == MissionContents[m.missionNumber - 1]
    ensures m.weekStartDate == WeekStart(now) && m.assignedAt == now
    ensures !m.isCompleted && m.completedAt.None?
  {
    var n := MissionNumber(draw);
    Mission(id, familyCode, n, MissionContents[n - 1], now, WeekStart(now), false, None)
  }

  /** `findByFamilyCodeAndWeekStartDate(...).isPresent()`. */
  predicate HasMissionForWeek(missions: seq<Mission>, familyCode: int, weekStart: DateTime) {
    exists i :: 0 <= i < |missions| && missions[i].familyCode == familyCode && missions[i].weekStartDate == weekStart
  }

  /** The position of the mission with id `id`. */
  function IndexOf(missions: seq<Mission>, id: int): (r: Option<nat>)
    ensures r.Some? ==> r.value < |missions| && missions[r.value].id == id
    ensures r.None? ==> forall i :: 0 <= i < |missions| ==> missions[i].id != id
  {
    if |missions| == 0 then None
    else if missions[|missions| - 1].id == id then Some(|missions| - 1)
    else IndexOf(missions[..|missions| - 1], id)
  }

  /** What the table keeps true: distinct ids below the next id, one mission
      per family and week, a valid number and its text, and a completion time
      exactly on completed missions. */
  predicate TableValid(missions: seq<Mission>, nextId: int) {
    (forall i :: 0 <= i < |missions| ==> missions[i].id < nextId) &&
    (forall i, j :: 0 <= i < j < |missions| ==> missions[i].id != missions[j].id) &&
    (forall i, j :: 0 <= i < j < |missions| ==>
      !(missions[i].familyCode == missions[j].familyCode && missions[i].weekStartDate == missions[j].weekStartDate)) &&
    (forall i :: 0 <= i < |missions| ==> MissionValid(missions[i]))
  }

  predicate MissionValid(m: Mission) {
    1 <= m.missionNumber <= 8 && m.content == MissionContents[m.missionNumber - 1] &&
    (m.isCompleted <==> m.completedAt.Some?)
  }

  /** `userRepository.countByFamilyCode`. */
  function FamilyMemberCount(users: seq<User>, familyCode: int): (n: nat)
    ensures n <= |users|
    ensures n == 0 <==> forall u :: u in users ==> u.familyCode != Some(familyCode)
    ensures n == |users| <==> forall u :: u in users ==> u.familyCode == Some(familyCode)
  {
    var members := Sequences.Filter(users, (u: User) => u.familyCode == Some(familyCode));
    assert |members| > 0 ==> members[0] in members;
    Sequences.FilterFull(users, (u: User) => u.familyCode == Some(familyCode));
    |members|
  }

  /** One more user raises the count by one exactly when that user belongs
      to the family. */
  lemma FamilyMemberCountAppend(users: seq<User>, u: User, familyCode: int)
    ensures FamilyMemberCount(users + [u], familyCode) ==
      FamilyMemberCount(users, familyCode) + (if u.familyCode == Some(familyCode) then 1 else 0)
  {
    Sequences.FilterAppend(users, [u], (v: User) => v.familyCode == Some(familyCode));
  }

  /** Whether `checkAndUpdateMissionCompletion` completes a mission: it is
      open and every one of a non-zero number of members has reviewed it. */
  predicate CompletesNow(m: Mission, memberCount: nat, reviewers: set<int>) {
    !m.isCompleted && memberCount == |reviewers| && memberCount > 0
  }

  /** The table after `checkAndUpdateMissionCompletion(missionId)` at `now`:
      an open mission every member has reviewed becomes completed at `now`;
      an unknown mission, or any other case, leaves the table as it is. */
  function AfterCompletionCheck(missions: seq<Mission>, missionId: int, users: seq<User>, reviewers: set<int>, now: DateTime)
    : (r: seq<Mission>)
    ensures |r| == |missions|
    ensures forall i :: 0 <= i < |r| && r[i] != missions[i] ==>
      r[i] == missions[i].(isCompleted := true, completedAt := Some(now)) && missions[i].id == missionId
    ensures forall i :: 0 <= i < |r| && missions[i].isCompleted ==> r[i] == missions[i]
    ensures IndexOf(missions, missionId).Some? ==>
      var k := IndexOf(missions, missionId).value;
      (r[k].isCompleted <==>
        missions[k].isCompleted || CompletesNow(missions[k], FamilyMemberCount(users, missions[k].familyCode), reviewers))
  {
    var k := IndexOf(missions, missionId);
    if k.None? then missions
    else
      var m := missions[k.value];
      if CompletesNow(m, FamilyMemberCount(users, m.familyCode), reviewers)
      then missions[k.value := m.(isCompleted := true, completedAt := Some(now))]
      else missions
  }

  /** The table after a review of `missionId` is deleted: a completed mission
      is reopened, with no completion time. */
  function AfterReopen(missions: seq<Mission>, missionId: int): (r: seq<Mission>)
    ensures |r| == |missions|
    ensures forall i :: 0 <= i < |r| && r[i] != missions[i] ==>
      r[i] == missions[i].(isCompleted := false, completedAt := None) && missions[i].id == missionId
    ensures forall i :: 0 <= i < |r| && r[i].id == missionId && IndexOf(missions, missionId) == Some(i) ==> !r[i].isCompleted
  {
    var k := IndexOf(missions, missionId);
    if k.Some? && missions[k.value].isCompleted
    then missions[k.value := missions[k.value].(isCompleted := false, completedAt := None)]
    else missions
  }

  /** Both updates keep the table valid. */
  lemma AfterCompletionCheckValid(missions: seq<Mission>, nextId: int, missionId: int, users: seq<User>, reviewers: set<int>, now: DateTime)
    requires TableValid(missions, nextId)
    ensures TableValid(AfterCompletionCheck(missions, missionId, users, reviewers, now), nextId)
  {
    var k := IndexOf(missions, missionId);
    if k.Some? {
      var m := missions[k.value];
      TableValidReplace(missions, nextId, k.value, m.(isCompleted := true, completedAt := Some(now)));
    }
  }

  lemma AfterReopenValid(missions: seq<Mission>, nextId: int, missionId: int)
    requires TableValid(missions, nextId)
    ensures TableValid(AfterReopen(missions, missionId), nextId)
  {
    var k := IndexOf(missions, missionId);
    if k.Some? {
      TableValidReplace(missions, nextId, k.value, missions[k.value].(isCompleted := false, completedAt := None));
    }
  }

  /** The missions table (`MissionRepository`). */
  class MissionService {
    var missions: seq<Mission>
    var nextId: int

    predicate Valid()
      reads this
    {
      TableValid(missions, nextId)
    }

    constructor()
      ensures Valid() && missions == []
    {
      missions := [];
      nextId := 1;
    }

    /** `assignWeeklyMission`: issues this week's mission to the family, or
        fails when the family already has one for this week. */
    method AssignWeeklyMission(familyCode: int, now: DateTime, draw: int) returns (r: Result<Mission>)
      requires Valid()
      modifies this
      ensures Valid()
      ensures r.Err? <==> HasMissionForWeek(old(missions), familyCode, WeekStart(now))
      ensures r.Err? ==> missions == old(missions) && nextId == old(nextId)
      ensures r.Ok? ==>
        r.value == NewMission(old(nextId), familyCode, now, draw) &&
        missions == old(missions) + [r.value] && nextId == old(nextId) + 1
    {
      var weekStart := WeekStart(now);
      var i := 0;
      while i < |missions|
        invariant 0 <= i <= |missions|
        invariant forall j :: 0 <= j < i ==> !(missions[j].familyCode == familyCode && missions[j].weekStartDate == weekStart)
      {
        if missions[i].familyCode == familyCode && missions[i].weekStartDate == weekStart {
          return Err("this week's mission was already issued");
        }
        i := i + 1;
      }
      var m := NewMission(nextId, familyCode, now, draw);
      missions := missions + [m];
      nextId := nextId + 1;
      r := Ok(m);
    }

    /** `checkAndUpdateMissionCompletion`, given the users and the set of
        users who reviewed the mission; fails for an unknown mission. */
    method CheckAndUpdateMissionCompletion(missionId: int, users: seq<User>, reviewers: set<int>, now: DateTime)
      returns (r: Result<()>)
      requires Valid()
      modifies this
      ensures Valid() && nextId == old(nextId)
      ensures r.Err? <==> IndexOf(old(missions), missionId).None?
      ensures missions == AfterCompletionCheck(old(missions), missionId, users, reviewers, now)
    {
      var k := IndexOf(missions, missionId);
      if k.None? {
        return Err("mission not found");
      }
      var m := missions[k.value];
      r := Ok(());
      if m.isCompleted {
        return;
      }
      var memberCount := FamilyMemberCount(users, m.familyCode);
      if memberCount == |reviewers| && memberCount > 0 {
        AfterCompletionCheckValid(missions, nextId, missionId, users, reviewers, now);
        missions := missions[k.value := m.(isCompleted := true, completedAt := Some(now))];
      }
    }

    /** What `deleteReview` does to the review's mission: if it is found and
        completed, the completion flag and time are cleared. */
    method ReopenMission(missionId: int)
      requires Valid()
      modifies this
      ensures Valid() && nextId == old(nextId)
      ensures missions == AfterReopen(old(missions), missionId)
    {
      var k := IndexOf(missions, missionId);
      if k.Some? && missions[k.value].isCompleted {
        AfterReopenValid(missions, nextId, missionId);
        missions := missions[k.value := missions[k.value].(isCompleted := false, completedAt := None)];
      }
    }

    /** `getMissionById`. */
    function GetMissionById(missionId: int): (r: Result<Mission>)
      reads this
      ensures r.Ok? <==> exists i :: 0 <= i < |missions| && missions[i].id == missionId
      ensures r.Ok? ==> r.value in missions && r.value.id == missionId
    {
      var k := IndexOf(missions, missionId);
      if k.None? then Err("mission not found") else Ok(missions[k.value])
    }
  }

  /** Replacing a mission by one with the same id, family, week and a
      consistent completion state keeps the table valid. */
  lemma TableValidReplace(missions: seq<Mission>, nextId: int, k: nat, m: Mission)
    requires TableValid(missions, nextId) && k < |missions|
    requires m.id == missions[k].id && m.familyCode == missions[k].familyCode && m.weekStartDate == missions[k].weekStartDate
    requires MissionValid(m)
    ensures TableValid(missions[k := m], nextId)
  {
  }

  /** Once a family holds a mission issued at `now`, a request at any later
      instant of the same week finds it and is refused. */
  lemma SecondAssignmentRefused(missions: seq<Mission>, m: Mission, later: DateTime)
    requires m in missions
    requires WeekStart(m.assignedAt) == m.weekStartDate
    requires m.assignedAt.date <= later.date < WeekStart(m.assignedAt).date + 7
    ensures HasMissionForWeek(missions, m.familyCode, WeekStart(later))
  {
    SameWeekSameStart(m.assignedAt, later);
    var i :| 0 <= i < |missions| && missions[i] == m;
  }
}
