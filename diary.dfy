/** The diary service: one emotion diary per user and day, owner-only
    updates on the creation day, owner-only deletion, family visibility, the
    list <-> comma-string codec for the button selections, and the dispatch
    of a new or updated diary to the recommendation engine. */
module Diaries {
  import opened Wrappers
  import opened Text
  import opened Domain
  import Catalogue
  import EA = EmotionAnalysis
  import WR = WelfareRecommendation

  /** A diary row; `author` is the user it belongs to. */
  datatype Diary = Diary(
    id: int,
    author: User,
    content: Option<string>,
    emotionKeyword: Option<string>,
    wishActivity: Option<string>,
    createdAt: DateTime)

  /** The request body: free text and the selected buttons, each list and
      each item possibly null. */
  datatype DiaryRequest = DiaryRequest(
    content: Option<string>,
    emotionKeywords: Option<seq<Option<string>>>,
    wishActivities: Option<seq<Option<string>>>)

  // ---------------------------------------------------------------------
  // The list <-> string codec
  // ---------------------------------------------------------------------

  /** The items that survive `item != null && !item.trim().isEmpty()`. */
  function Kept(list: seq<Option<string>>): (r: seq<string>)
    ensures |r| <= |list|
    ensures forall k :: 0 <= k < |r| ==> !IsBlank(r[k])
    ensures forall k :: 0 <= k < |r| ==> Some(r[k]) in list
  {
    if |list| == 0 then []
    else
      var rest := Kept(list[1..]);
      if list[0].Some? && !IsBlank(list[0].value) then [list[0].value] + rest else rest
  }

  /** `convertListToString(list)`: null for a null or empty list, otherwise
      the kept items joined with ",". */
  function ListToString(list: Option<seq<Option<string>>>): (r: Option<string>)
    ensures r.None? <==> list.None? || |list.value| == 0
  {
    if list.None? || |list.value| == 0 then None else Some(Join(",", Kept(list.value)))
  }

  /** `convertStringToList(s)`: empty for null or blank, otherwise the
      pieces between commas, trimmed, empty ones dropped. */
  function StringToList(s: Option<string>): (r: seq<string>)
    ensures forall k :: 0 <= k < |r| ==> IsCleanItem(r[k])
  {
    if s.None? || IsBlank(s.value) then [] else TrimAndDropEmpty(Split(s.value, ','))
  }

  /** A list of blank or null items becomes the empty string, not null. */
  lemma AllBlankGivesEmpty(list: seq<Option<string>>)
    requires |list| > 0
    requires forall k :: 0 <= k < |list| ==> list[k].None? || IsBlank(list[k].value)
    ensures ListToString(Some(list)) == Some("")
  {
  }

  lemma BlankPrefix(a: string, b: string)
    requires !IsBlank(a)
    ensures !IsBlank(a + b)
  {
    IsBlankIff(a);
    var i :| 0 <= i < |a| && !IsSpace(a[i]);
    assert (a + b)[i] == a[i];
    IsBlankIff(a + b);
  }

  /** A joined list whose first item is not blank is not blank. */
  lemma JoinNotBlank(xs: seq<string>)
    requires |xs| > 0 && !IsBlank(xs[0])
    ensures !IsBlank(Join(",", xs))
  {
    if |xs| > 1 {
      BlankPrefix(xs[0], ",");
      BlankPrefix(xs[0] + ",", Join(",", xs[1..]));
    }
  }

  /** Decoding an encoded list gives its non-blank items, trimmed, when no
      item holds a comma. */
  lemma ListRoundTrip(list: seq<Option<string>>)
    requires |list| > 0
    requires forall k :: 0 <= k < |list| ==> list[k].None? || ',' !in list[k].value
    ensures StringToList(ListToString(Some(list))) == TrimAndDropEmpty(Kept(list))
  {
    var kept := Kept(list);
    var joined := Join(",", kept);
    assert ListToString(Some(list)) == Some(joined);
    if |kept| == 0 {
      assert joined == "";
      assert IsBlank(joined);
    } else {
      JoinNotBlank(kept);
      assert forall k :: 0 <= k < |kept| ==> ',' !in kept[k] by {
        forall k | 0 <= k < |kept| ensures ',' !in kept[k] {
          var j :| 0 <= j < |list| && list[j] == Some(kept[k]);
        }
      }
      SplitJoin(kept, ',');
      assert Split(joined, ',') == kept;
    }
  }

  /** In particular a list of clean, comma-free items comes back
      unchanged. */
  lemma ListRoundTripClean(list: seq<Option<string>>)
    requires |list| > 0
    requires forall k :: 0 <= k < |list| ==> list[k].Some? && IsCleanItem(list[k].value) && ',' !in list[k].value
    ensures StringToList(ListToString(Some(list))) == Values(list)
  {
    KeptAllClean(list);
    TrimAndDropEmptyNoop(Values(list));
    ListRoundTrip(list);
  }

  /** The values of a list without nulls. */
  function Values(list: seq<Option<string>>): (r: seq<string>)
    requires forall k :: 0 <= k < |list| ==> list[k].Some?
    ensures |r| == |list| && forall k :: 0 <= k < |list| ==> r[k] == list[k].value
  {
    if |list| == 0 then [] else [list[0].value] + Values(list[1..])
  }

  lemma {:induction false} KeptAllClean(list: seq<Option<string>>)
    requires forall k :: 0 <= k < |list| ==> list[k].Some? && IsCleanItem(list[k].value)
    ensures Kept(list) == Values(list)
  {
    if |list| > 0 {
      KeptAllClean(list[1..]);
      assert IsCleanItem(list[0].value);
      assert !IsBlank(list[0].value);
      assert Kept(list) == [list[0].value] + Kept(list[1..]);
      assert Values(list) == [list[0].value] + Values(list[1..]);
    }
  }

  // ---------------------------------------------------------------------
  // Dispatch to the recommendation engine
  // ---------------------------------------------------------------------

  /** Which engine entry point a saved diary triggers. */
  datatype Dispatch = ButtonPath(emotion: Option<string>, activity: Option<string>) | TextPath(text: string) | NoPath

  /** Both selection lists non-empty: the button path with the first item of
      each; otherwise non-blank content: the text path; otherwise nothing. */
  function DispatchOf(req: DiaryRequest): (d: Dispatch)
    ensures d.ButtonPath? <==> (req.emotionKeywords.Some? && |req.emotionKeywords.value| > 0
                                && req.wishActivities.Some? && |req.wishActivities.value| > 0)
    ensures d.ButtonPath? ==> d.emotion == req.emotionKeywords.value[0] && d.activity == req.wishActivities.value[0]
    ensures d.TextPath? ==> req.content == Some(d.text) && !IsBlank(d.text)
    ensures d.NoPath? ==> !d.ButtonPath? && (req.content.None? || IsBlank(req.content.value))
  {
    if req.emotionKeywords.Some? && |req.emotionKeywords.value| > 0
       && req.wishActivities.Some? && |req.wishActivities.value| > 0 then
      ButtonPath(req.emotionKeywords.value[0], req.wishActivities.value[0])
    else if req.content.Some? && !IsBlank(req.content.value) then TextPath(req.content.value)
    else NoPath
  }

  /** The recommendation rows a dispatch writes. */
  function DispatchRows(table: seq<Catalogue.Program>, user: User, d: Dispatch,
                        generate: EA.Prompt -> string): seq<WR.Recommendation> {
    match d
    case ButtonPath(e, a) => WR.ButtonRows(table, user, e, a, false, generate)
    case TextPath(t) => WR.TextRows(table, user, t, generate)
    case NoPath => []
  }

  // ---------------------------------------------------------------------
  // The service
  // ---------------------------------------------------------------------

  /** Whether the user has a diary dated `date` (`findTodayDiary`). */
  predicate HasDiaryOn(diaries: seq<Diary>, userId: int, date: Date) {
    exists k :: 0 <= k < |diaries| && diaries[k].author.id == userId && diaries[k].createdAt.date == date
  }

  /** The position of the diary with this id, if any. */
  function IndexOf(diaries: seq<Diary>, id: int): (r: Option<nat>)
    ensures r.Some? ==> r.value < |diaries| && diaries[r.value].id == id
    ensures r.None? ==> forall k :: 0 <= k < |diaries| ==> diaries[k].id != id
  {
    if |diaries| == 0 then None
    else if diaries[|diaries| - 1].id == id then Some(|diaries| - 1)
    else IndexOf(diaries[..|diaries| - 1], id)
  }

  /** The diary `createDiary` saves. */
  function NewDiary(id: int, user: User, req: DiaryRequest, now: DateTime): Diary {
    Diary(id, user, req.content, ListToString(req.emotionKeywords), ListToString(req.wishActivities), now)
  }

  /** The diary after `updateDiary`: a field whose request value is null
      keeps its old value. */
  function Updated(d: Diary, req: DiaryRequest): (r: Diary)
    ensures r.id == d.id && r.author == d.author && r.createdAt == d.createdAt
    ensures req.content.None? ==> r.content == d.content
    ensures req.emotionKeywords.None? ==> r.emotionKeyword == d.emotionKeyword
    ensures req.wishActivities.None? ==> r.wishActivity == d.wishActivity
  {
    d.(content := if req.content.Some? then req.content else d.content,
       emotionKeyword := if req.emotionKeywords.Some? then ListToString(req.emotionKeywords) else d.emotionKeyword,
       wishActivity := if req.wishActivities.Some? then ListToString(req.wishActivities) else d.wishActivity)
  }

  /** Whether `reader` may see a diary: its author, or a member of the
      author's family. An author without a family code makes the family
      comparison fail, which also ends in an error. */
  predicate MayRead(d: Diary, reader: User) {
    d.author.id == reader.id || SameFamily(d.author, reader)
  }

  /** Ids are distinct and below the next id, and no user has two diaries
      dated the same day. */
  predicate TableValid(diaries: seq<Diary>, nextId: int) {
    && (forall i, j :: 0 <= i < j < |diaries| ==> diaries[i].id != diaries[j].id)
    && (forall i :: 0 <= i < |diaries| ==> diaries[i].id < nextId)
    && (forall i, j :: 0 <= i < j < |diaries| ==>
          diaries[i].author.id != diaries[j].author.id || diaries[i].createdAt.date != diaries[j].createdAt.date)
  }

  /** Saving a diary with the next id, for a user with no diary that day,
      keeps the table valid. */
  lemma TableValidAppend(diaries: seq<Diary>, nextId: int, d: Diary)
    requires TableValid(diaries, nextId) && d.id == nextId
    requires !HasDiaryOn(diaries, d.author.id, d.createdAt.date)
    ensures TableValid(diaries + [d], nextId + 1)
  {
    var t := diaries + [d];
    forall i, j | 0 <= i < j < |t|
      ensures t[i].author.id != t[j].author.id || t[i].createdAt.date != t[j].createdAt.date
    {
      if j == |diaries| {
        assert t[i] == diaries[i];
      }
    }
  }

  class DiaryService {
    var diaries: seq<Diary>
    var nextId: int
    const engine: WR.RecommendationService

    predicate Valid()
      reads this
    {
      TableValid(diaries, nextId)
    }

    constructor(engine: WR.RecommendationService)
      ensures Valid() && diaries == [] && this.engine == engine
    {
      diaries := [];
      nextId := 1;
      this.engine := engine;
    }

    /** `createDiary(user, request)` at time `now`. */
    method CreateDiary(user: User, req: DiaryRequest, now: DateTime, generate: EA.Prompt -> string)
      returns (r: Result<Diary>)
      requires Valid()
      modifies this, engine
      ensures Valid()
      ensures r.Err? <==> HasDiaryOn(old(diaries), user.id, now.date)
      ensures r.Err? ==> diaries == old(diaries) && engine.recommendations == old(engine.recommendations)
      ensures r.Ok? ==> r.value == NewDiary(old(nextId), user, req, now) && diaries == old(diaries) + [r.value]
      ensures r.Ok? ==>
        engine.recommendations == old(engine.recommendations) + DispatchRows(old(engine.catalogue), user, DispatchOf(req), generate)
      ensures engine.catalogue == old(engine.catalogue)
    {
      if HasDiaryOn(diaries, user.id, now.date) {
        return Err("already written today");
      }
      var diary := NewDiary(nextId, user, req, now);
      TableValidAppend(diaries, nextId, diary);
      diaries := diaries + [diary];
      nextId := nextId + 1;
      Recommend(user, req, generate);
      r := Ok(diary);
    }

    /** The recommendation step shared by create and update. */
    method Recommend(user: User, req: DiaryRequest, generate: EA.Prompt -> string)
      modifies engine
      ensures engine.catalogue == old(engine.catalogue)
      ensures engine.recommendations == old(engine.recommendations)
        + DispatchRows(old(engine.catalogue), user, DispatchOf(req), generate)
    {
      var d := DispatchOf(req);
      match d {
        case ButtonPath(e, a) =>
          engine.ProcessButtonBasedRecommend(user, e, a, false, generate);
        case TextPath(t) =>
          engine.ProcessEmotionAndRecommend(user, t, generate);
        case NoPath =>
      }
    }

    /** `updateDiary(diaryId, user, request)` at time `now`. */
    method UpdateDiary(id: int, user: User, req: DiaryRequest, now: DateTime, generate: EA.Prompt -> string)
      returns (r: Result<Diary>)
      requires Valid()
      modifies this, engine
      ensures Valid()
      ensures nextId == old(nextId)
      ensures r.Ok? <==> IndexOf(old(diaries), id).Some?
                         && old(diaries)[IndexOf(old(diaries), id).value].author.id == user.id
                         && old(diaries)[IndexOf(old(diaries), id).value].createdAt.date == now.date
      ensures r.Err? ==> diaries == old(diaries) && engine.recommendations == old(engine.recommendations)
      ensures r.Ok? ==>
        var k := IndexOf(old(diaries), id).value;
        && r.value == Updated(old(diaries)[k], req)
        && diaries == old(diaries)[k := r.value]
        && engine.recommendations == old(engine.recommendations)
             + DispatchRows(old(engine.catalogue), user, DispatchOf(req), generate)
      ensures engine.catalogue == old(engine.catalogue)
    {
      var k := IndexOf(diaries, id);
      if k.None? {
        return Err("diary not found");
      }
      var diary := diaries[k.value];
      if diary.author.id != user.id {
        return Err("only the author may edit");
      }
      if diary.createdAt.date != now.date {
        return Err("only today's diary may be edited");
      }
      if req.content.Some? {
        diary := diary.(content := req.content);
      }
      if req.emotionKeywords.Some? {
        diary := diary.(emotionKeyword := ListToString(req.emotionKeywords));
      }
      if req.wishActivities.Some? {
        diary := diary.(wishActivity := ListToString(req.wishActivities));
      }
      TableValidReplace(diaries, nextId, k.value, diary);
      diaries := diaries[k.value := diary];
      Recommend(user, req, generate);
      r := Ok(diary);
    }

    /** `deleteDiary(diaryId, user)` */
    method DeleteDiary(id: int, user: User) returns (r: Result<()>)
      requires Valid()
      modifies this
      ensures Valid()
      ensures nextId == old(nextId)
      ensures r.Ok? <==> IndexOf(old(diaries), id).Some?
                         && old(diaries)[IndexOf(old(diaries), id).value].author.id == user.id
      ensures r.Err? ==> diaries == old(diaries)
      ensures r.Ok? ==>
        var k := IndexOf(old(diaries), id).value;
        diaries == old(diaries)[..k] + old(diaries)[k + 1..]
    {
      var k := IndexOf(diaries, id);
      if k.None? {
        return Err("diary not found");
      }
      if diaries[k.value].author.id != user.id {
        return Err("only the author may delete");
      }
      TableValidRemove(diaries, nextId, k.value);
      diaries := diaries[..k.value] + diaries[k.value + 1..];
      r := Ok(());
    }

    /** `getDiaryById(diaryId, requestUser)` */
    function GetDiaryById(id: int, reader: User): (r: Result<Diary>)
      reads this
      ensures r.Ok? <==> IndexOf(diaries, id).Some? && MayRead(diaries[IndexOf(diaries, id).value], reader)
      ensures r.Ok? ==> r.value in diaries && r.value.id == id
    {
      var k := IndexOf(diaries, id);
      if k.None? then Err("diary not found")
      else if !MayRead(diaries[k.value], reader) then Err("family members only")
      else Ok(diaries[k.value])
    }
  }

  /** Deleting removes exactly the diary with that id: every other diary
      stays, and the deleted id is gone. */
  lemma DeleteRemovesExactly(diaries: seq<Diary>, nextId: int, k: nat)
    requires TableValid(diaries, nextId) && k < |diaries|
    ensures var rest := diaries[..k] + diaries[k + 1..];
      && |rest| == |diaries| - 1
      && (forall d :: d in rest <==> d in diaries && d.id != diaries[k].id)
  {
    var rest := diaries[..k] + diaries[k + 1..];
    assert forall j :: 0 <= j < k ==> rest[j] == diaries[j];
    assert forall j :: k <= j < |rest| ==> rest[j] == diaries[j + 1];
    forall d | d in diaries && d.id != diaries[k].id ensures d in rest {
      var j :| 0 <= j < |diaries| && diaries[j] == d;
      if j < k {
        assert rest[j] == d;
      } else {
        assert rest[j - 1] == d;
      }
    }
    forall d | d in rest ensures d in diaries && d.id != diaries[k].id {
      var j :| 0 <= j < |rest| && rest[j] == d;
      if j < k {
        assert d == diaries[j];
      } else {
        assert d == diaries[j + 1];
      }
    }
  }

  lemma TableValidReplace(diaries: seq<Diary>, nextId: int, k: nat, d: Diary)
    requires TableValid(diaries, nextId) && k < |diaries|
    requires d.id == diaries[k].id && d.author.id == diaries[k].author.id && d.createdAt == diaries[k].createdAt
    ensures TableValid(diaries[k := d], nextId)
  {
  }

  lemma TableValidRemove(diaries: seq<Diary>, nextId: int, k: nat)
    requires TableValid(diaries, nextId) && k < |diaries|
    ensures TableValid(diaries[..k] + diaries[k + 1..], nextId)
  {
    var rest := diaries[..k] + diaries[k + 1..];
    assert forall j :: 0 <= j < |rest| ==> rest[j] == diaries[if j < k then j else j + 1];
  }

  /** After a successful create the author has exactly one diary dated that
      day: the one just created. */
  lemma OneDiaryPerDay(diaries: seq<Diary>, nextId: int, user: User, date: Date, k: nat)
    requires TableValid(diaries, nextId)
    requires k < |diaries| && diaries[k].author.id == user.id && diaries[k].createdAt.date == date
    ensures forall j :: 0 <= j < |diaries| && diaries[j].author.id == user.id && diaries[j].createdAt.date == date ==> j == k
  {
  }

  /** Whatever the request, a saved diary writes at most five recommendation
      rows, and none when it selects no buttons and has no text. */
  lemma DispatchRowsBound(table: seq<Catalogue.Program>, user: User, req: DiaryRequest,
                          generate: EA.Prompt -> string)
    ensures |DispatchRows(table, user, DispatchOf(req), generate)| <= WR.MaxRecommendations
    ensures DispatchOf(req).NoPath? ==> DispatchRows(table, user, DispatchOf(req), generate) == []
  {
    match DispatchOf(req) {
      case ButtonPath(e, a) => WR.ButtonResponsesMatchRows(table, user, e, a, generate);
      case TextPath(t) => WR.TextRowsBounds(table, user, t, generate);
      case NoPath =>
    }
  }
}
