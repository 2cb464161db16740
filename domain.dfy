/** Entities shared by several services: the user, the question catalogue
    row, calendar values, and the fixed enumerations a user carries. */
module Domain {
  import opened Wrappers

  /** `LocalDate`, as its epoch day (1970-01-01 is day 0, a Thursday). */
  type Date = int

  /** `LocalDateTime`: a date and the second of that day (0 .. 86399). */
  datatype DateTime = DateTime(date: Date, second: nat)

  /** `a.isBefore(b)` on date-times. */
  predicate IsBefore(a: DateTime, b: DateTime) {
    a.date < b.date || (a.date == b.date && a.second < b.second)
  }

  /** `a.isAfter(b) || a.isEqual(b)` */
  predicate IsAtOrAfter(a: DateTime, b: DateTime) {
    !IsBefore(a, b)
  }

  /** 09:00 as a second of the day. */
  const NineAM: nat := 9 * 3600

  /** The `Region` enumeration (the user's city and a program's target city). */
  datatype Region =
    | Seoul | Busan | Daegu | Incheon | Gwangju | Daejeon | Ulsan | Sejong
    | Suwon | Seongnam | Yongin | Anyang | Ansan | Goyang | Hwaseong | Bucheon | Gimpo | Siheung
    | Chuncheon | Wonju | Gangneung
    | Cheongju | Cheonan | Asan
    | Jeonju | Iksan | Gunsan | Yeosu | Suncheon | Mokpo
    | Pohang | Gyeongju | Gimhae | Changwon | Jinju
    | Jeju | Seogwipo
  {
    function DisplayName(): string {
      match this
      case Seoul => "서울시"
      case Busan => "부산시"
      case Daegu => "대구시"
      case Incheon => "인천시"
      case Gwangju => "광주시"
      case Daejeon => "대전시"
      case Ulsan => "울산시"
      case Sejong => "세종시"
      case Suwon => "수원시"
      case Seongnam => "성남시"
      case Yongin => "용인시"
      case Anyang => "안양시"
      case Ansan => "안산시"
      case Goyang => "고양시"
      case Hwaseong => "화성시"
      case Bucheon => "부천시"
      case Gimpo => "김포시"
      case Siheung => "시흥시"
      case Chuncheon => "춘천시"
      case Wonju => "원주시"
      case Gangneung => "강릉시"
      case Cheongju => "청주시"
      case Cheonan => "천안시"
      case Asan => "아산시"
      case Jeonju => "전주시"
      case Iksan => "익산시"
      case Gunsan => "군산시"
      case Yeosu => "여수시"
      case Suncheon => "순천시"
      case Mokpo => "목포시"
      case Pohang => "포항시"
      case Gyeongju => "경주시"
      case Gimhae => "김해시"
      case Changwon => "창원시"
      case Jinju => "진주시"
      case Jeju => "제주시"
      case Seogwipo => "서귀포시"
    }
  }

  /** The six personality archetypes a user may carry. */
  datatype PersonalityType =
    | LogicalBlue | EmotionalRed | ControlGray
    | IndependentNavy | AffectionateYellow | IntrospectiveGreen

  /** A user as the services read it. `familyCode` is absent when the user has
      joined no family; `age` is the free-text age the recommendation engine
      parses. */
  datatype User = User(
    id: int,
    username: string,
    name: string,
    region: Option<Region>,
    age: Option<string>,
    personality: Option<PersonalityType>,
    familyCode: Option<int>,
    createdAt: DateTime)

  /** A question row. System questions carry family code 0. */
  datatype Question = Question(
    id: int,
    content: string,
    familyCode: Option<int>,
    createdAt: DateTime)

  /** Two users belong to the same family: both have a code and the codes agree
      (`a.getFamilyCode().equals(b.getFamilyCode())` without the null case). */
  predicate SameFamily(a: User, b: User) {
    a.familyCode.Some? && b.familyCode == a.familyCode
  }

  /** `userRepository.findById`: the first user with that id. */
  function FindUser(users: seq<User>, id: int): (r: Option<User>)
    ensures r.Some? <==> exists u :: u in users && u.id == id
    ensures r.Some? ==> r.value in users && r.value.id == id
  {
    if |users| == 0 then None
    else if users[0].id == id then Some(users[0])
    else FindUser(users[1..], id)
  }

  /** `questionRepository.findById`: the first question with that id. */
  function FindQuestion(questions: seq<Question>, id: int): (r: Option<Question>)
    ensures r.Some? <==> exists q :: q in questions && q.id == id
    ensures r.Some? ==> r.value in questions && r.value.id == id
  {
    if |questions| == 0 then None
    else if questions[0].id == id then Some(questions[0])
    else FindQuestion(questions[1..], id)
  }

  /** A date-time as seconds since the epoch, the key the repositories order
      rows by (the second of a day runs from 0 to 86399). */
  function Instant(t: DateTime): (r: real)
  {
    (t.date * 86400 + t.second) as real
  }
}
