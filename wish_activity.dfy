/** The closed vocabulary of "wish activity" buttons: seventeen constants, each
    with a Korean display name and exactly one of three categories. */
module WishActivities {
  import opened Wrappers
  import Sequences

  datatype ActivityCategory = Indoor | Outdoor | Creative {
    function KoreanName(): string {
      match this
      case Indoor => "실내활동"
      case Outdoor => "실외활동"
      case Creative => "창작활동"
    }
  }

  datatype WishActivity =
    | Walking | Cooking | Cleaning | Reading | Drawing | Singing | Cafe | WritingDiary
    | Exercising | TakingPhotos | FlowerViewing | Sleeping | WatchingMovie | Restaurant
    | Shopping | ListeningMusic | Gaming
  {
    function KoreanName(): string {
      match this
      case Walking => "산책하기"
      case Cooking => "요리하기"
      case Cleaning => "청소하기"
      case Reading => "독서하기"
      case Drawing => "그림그리기"
      case Singing => "노래부르기"
      case Cafe => "카페가기"
      case WritingDiary => "일기쓰기"
      case Exercising => "운동하기"
      case TakingPhotos => "사진찍기"
      case FlowerViewing => "꽃구경"
      case Sleeping => "잠자기"
      case WatchingMovie => "영화보기"
      case Restaurant => "맛집가기"
      case Shopping => "장보기"
      case ListeningMusic => "음악듣기"
      case Gaming => "게임하기"
    }

    function Category(): ActivityCategory {
      match this
      case Walking | Cafe | Exercising | FlowerViewing | Restaurant | Shopping => Outdoor
      case Drawing | Singing | TakingPhotos => Creative
      case _ => Indoor
    }

    predicate IsIndoor() { Category() == Indoor }

    predicate IsOutdoor() { Category() == Outdoor }

    predicate IsCreative() { Category() == Creative }
  }

  /** `values()`, in declaration order. */
  const Values: seq<WishActivity> :=
    [Walking, Cooking, Cleaning, Reading, Drawing, Singing, Cafe, WritingDiary,
     Exercising, TakingPhotos, FlowerViewing, Sleeping, WatchingMovie, Restaurant,
     Shopping, ListeningMusic, Gaming]

  /** `fromKoreanName`: the constant with that name, or null. */
  function FromKoreanName(name: string): Option<WishActivity> {
    Sequences.FindFirst(Values, (a: WishActivity) => a.KoreanName() == name)
  }

  /** The elements of `xs` in category `c`, in order. */
  function OfCategory(xs: seq<WishActivity>, c: ActivityCategory): (r: seq<WishActivity>)
    ensures |r| <= |xs|
    ensures forall a :: a in r <==> a in xs && a.Category() == c
  {
    if |xs| == 0 then []
    else if xs[0].Category() == c then [xs[0]] + OfCategory(xs[1..], c)
    else OfCategory(xs[1..], c)
  }

  /** `getActivitiesByCategory` */
  function ActivitiesByCategory(c: ActivityCategory): seq<WishActivity> {
    OfCategory(Values, c)
  }

  /** The `map(getKoreanName)` stage. */
  function NamesOf(xs: seq<WishActivity>): seq<string> {
    Sequences.Map(xs, (a: WishActivity) => a.KoreanName())
  }

  /** `getAllActivityNames` */
  function AllActivityNames(): seq<string> { NamesOf(Values) }

  /** `getActivityNamesByCategory` */
  function ActivityNamesByCategory(c: ActivityCategory): seq<string> {
    NamesOf(ActivitiesByCategory(c))
  }

  /** Every constant is listed by `values()`. */
  lemma ValuesComplete(a: WishActivity)
    ensures a in Values
  {
  }

  /** Korean names are distinct. */
  lemma NameInjective(a: WishActivity, b: WishActivity)
    ensures a.KoreanName() == b.KoreanName() <==> a == b
  {
  }

  /** `fromKoreanName` inverts `getKoreanName`. */
  lemma FromKoreanNameInverse(a: WishActivity)
    ensures FromKoreanName(a.KoreanName()) == Some(a)
  {
    ValuesComplete(a);
    var r := FromKoreanName(a.KoreanName());
    NameInjective(r.value, a);
  }

  /** `fromKoreanName` answers null exactly for strings that name no constant. */
  lemma FromKoreanNameUnknown(name: string)
    ensures FromKoreanName(name).None? <==> name !in AllActivityNames()
  {
    NamesOfMember(Values, name);
  }

  lemma NamesOfMember(xs: seq<WishActivity>, name: string)
    ensures name in NamesOf(xs) <==> exists a :: a in xs && a.KoreanName() == name
  {
    if name in NamesOf(xs) {
      var i :| 0 <= i < |xs| && NamesOf(xs)[i] == name;
      assert xs[i] in xs;
    }
  }

  /** Exactly one of `isIndoor` / `isOutdoor` / `isCreative` holds. */
  lemma ExactlyOneCategory(a: WishActivity)
    ensures (if a.IsIndoor() then 1 else 0) + (if a.IsOutdoor() then 1 else 0)
          + (if a.IsCreative() then 1 else 0) == 1
  {
  }

  /** `getAllActivityNames` lists seventeen distinct names in declaration order. */
  lemma AllActivityNamesDistinct()
    ensures |AllActivityNames()| == 17
    ensures forall i, j :: 0 <= i < j < 17 ==> AllActivityNames()[i] != AllActivityNames()[j]
  {
    OrdinalsInOrder();
    forall i, j | 0 <= i < j < 17
      ensures AllActivityNames()[i] != AllActivityNames()[j]
    {
      assert Ordinal(Values[i]) != Ordinal(Values[j]);
      NameInjective(Values[i], Values[j]);
    }
  }

  /** `ordinal()`: the position of a constant in `values()`. */
  function Ordinal(a: WishActivity): nat {
    match a
    case Walking => 0 case Cooking => 1 case Cleaning => 2 case Reading => 3
    case Drawing => 4 case Singing => 5 case Cafe => 6 case WritingDiary => 7
    case Exercising => 8 case TakingPhotos => 9 case FlowerViewing => 10
    case Sleeping => 11 case WatchingMovie => 12 case Restaurant => 13
    case Shopping => 14 case ListeningMusic => 15 case Gaming => 16
  }

  lemma OrdinalsInOrder()
    ensures |Values| == 17
    ensures forall i :: 0 <= i < 17 ==> Ordinal(Values[i]) == i
  {
  }

  /** Each category filter keeps the order of its input. */
  lemma {:induction false} OfCategoryIsSubsequence(xs: seq<WishActivity>, c: ActivityCategory)
    ensures Sequences.IsSubsequence(OfCategory(xs, c), xs)
  {
    if |xs| > 0 {
      OfCategoryIsSubsequence(xs[1..], c);
      if xs[0].Category() == c {
        assert ([xs[0]] + OfCategory(xs[1..], c))[1..] == OfCategory(xs[1..], c);
      }
    }
  }

  /** The three category filters together hold every element exactly once. */
  lemma {:induction false} OfCategoryLengths(xs: seq<WishActivity>)
    ensures |OfCategory(xs, Indoor)| + |OfCategory(xs, Outdoor)| + |OfCategory(xs, Creative)| == |xs|
  {
    if |xs| > 0 {
      OfCategoryLengths(xs[1..]);
    }
  }

  /** `getActivitiesByCategory` over the three categories partitions
      `values()`: every constant is in the list of its own category and in
      no other, the lengths add up to seventeen, and each list keeps
      declaration order. */
  lemma CategoryPartition(a: WishActivity, c: ActivityCategory)
    ensures a in ActivitiesByCategory(c) <==> a.Category() == c
    ensures |ActivitiesByCategory(Indoor)| + |ActivitiesByCategory(Outdoor)|
          + |ActivitiesByCategory(Creative)| == 17
    ensures Sequences.IsSubsequence(ActivitiesByCategory(c), Values)
  {
    ValuesComplete(a);
    OfCategoryLengths(Values);
    OfCategoryIsSubsequence(Values, c);
  }
}
