/** The per-user daily question journal: every user holds one question for
    each day from the day they joined, chosen by a seed derived from their
    family code and the date so that a whole family shares each day's
    question. Missing days are filled in on demand; a family's history is the
    history of its longest-standing member. */
module UserDailyQuestions {
  import opened Wrappers
  import opened Domain
  import opened Sequences

  /** One journal row: which user, which question, for which date, and the
      day count from the user's join date (day 1 is the join date). */
  datatype UserDailyQuestion = UserDailyQuestion(
    userId: int,
    question: Question,
    questionDate: Date,
    dayNumber: int)

  /** `new Random(seed).nextInt(bound)`, supplied by the caller as a function of
      the seed; the model reduces its value into `0 .. bound - 1`. */
  type Picker = (int, nat) -> int

  /** `questionRepository.findByFamilyCode(0L)`: the system questions. */
  function SystemQuestions(questions: seq<Question>): (r: seq<Question>)
    ensures forall q :: q in r <==> q in questions && q.familyCode == Some(0)
  {
    Filter(questions, (q: Question) => q.familyCode == Some(0))
  }

  /** The seed shared by a family on a date: family code times 1000 plus the
      epoch day. */
  function Seed(familyCode: int, date: Date): int {
    familyCode * 1000 + date
  }

  /** `createDailyQuestionForUser`: the row for `user` on `date`, or the error
      raised when there is no system question or the user has no family
      code (the seed's unboxing fails). */
  function NewEntry(user: User, date: Date, questions: seq<Question>, pick: Picker): (r: Result<UserDailyQuestion>)
    ensures r.Err? <==> |SystemQuestions(questions)| == 0 || user.familyCode.None?
    ensures r.Ok? ==> r.value.userId == user.id && r.value.questionDate == date
    ensures r.Ok? ==> r.value.question in questions && r.value.question.familyCode == Some(0)
    ensures r.Ok? ==> r.value.dayNumber == date - user.createdAt.date + 1
  {
    var system := SystemQuestions(questions);
    if |system| == 0 then Err("system questions not found")
    else if user.familyCode.None? then Err("user has no family code")
    else
      var i := pick(Seed(user.familyCode.value, date), |system|) % |system|;
      Ok(UserDailyQuestion(user.id, system[i], date, date - user.createdAt.date + 1))
  }

  /** Members of one family see the same question on the same date. */
  lemma SameFamilySameQuestion(a: User, b: User, date: Date, questions: seq<Question>, pick: Picker)
    requires SameFamily(a, b)
    requires NewEntry(a, date, questions, pick).Ok?
    ensures NewEntry(b, date, questions, pick).Ok?
    ensures NewEntry(a, date, questions, pick).value.question == NewEntry(b, date, questions, pick).value.question
  {
  }

  /** A row created on or after the join date counts days from one. */
  lemma DayNumberPositive(user: User, date: Date, questions: seq<Question>, pick: Picker)
    requires user.createdAt.date <= date
    requires NewEntry(user, date, questions, pick).Ok?
    ensures NewEntry(user, date, questions, pick).value.dayNumber >= 1
  {
  }

  /** `findByUserAndQuestionDate`: the first row of `userId` on `date`. */
  function FindEntry(entries: seq<UserDailyQuestion>, userId: int, date: Date): (r: Option<UserDailyQuestion>)
    ensures r.Some? <==> HasEntry(entries, userId, date)
    ensures r.Some? ==> r.value in entries && r.value.userId == userId && r.value.questionDate == date
  {
    if |entries| == 0 then None
    else if entries[0].userId == userId && entries[0].questionDate == date then Some(entries[0])
    else
      assert forall k :: 1 <= k < |entries| ==> entries[k] == entries[1..][k - 1];
      FindEntry(entries[1..], userId, date)
  }

  predicate HasEntry(entries: seq<UserDailyQuestion>, userId: int, date: Date) {
    exists k :: 0 <= k < |entries| && entries[k].userId == userId && entries[k].questionDate == date
  }

  /** At most one row per user and date. */
  predicate Unique(entries: seq<UserDailyQuestion>) {
    forall i, j :: 0 <= i < j < |entries| ==>
      !(entries[i].userId == entries[j].userId && entries[i].questionDate == entries[j].questionDate)
  }

  /** The dates in `lo .. hi - 1` on which `userId` has no row, ascending. */
  function Missing(entries: seq<UserDailyQuestion>, userId: int, lo: Date, hi: Date): (r: seq<Date>)
    ensures forall d :: d in r <==> lo <= d < hi && !HasEntry(entries, userId, d)
    ensures forall i, j :: 0 <= i < j < |r| ==> r[i] < r[j]
    decreases hi - lo
  {
    if hi <= lo then []
    else
      var front := Missing(entries, userId, lo, hi - 1);
      assert forall i :: 0 <= i < |front| ==> front[i] in front;
      if HasEntry(entries, userId, hi - 1) then front else front + [hi - 1]
  }

  /** Whether every missing day could be filled: there is nothing to fill, or
      the user has a family code and there is a system question. */
  predicate CanFill(user: User, questions: seq<Question>, dates: seq<Date>) {
    |dates| == 0 || (|SystemQuestions(questions)| > 0 && user.familyCode.Some?)
  }

  /** The rows created for `dates`, in order. */
  function NewEntries(user: User, dates: seq<Date>, questions: seq<Question>, pick: Picker): (r: seq<UserDailyQuestion>)
    requires CanFill(user, questions, dates)
    ensures |r| == |dates|
    ensures forall i :: 0 <= i < |r| ==> r[i] == NewEntry(user, dates[i], questions, pick).value
  {
    if |dates| == 0 then []
    else NewEntries(user, dates[..|dates| - 1], questions, pick) + [NewEntry(user, dates[|dates| - 1], questions, pick).value]
  }

  /** What a successful fill adds to `entries` for `user` up to `today`. */
  function Filled(entries: seq<UserDailyQuestion>, user: User, today: Date, questions: seq<Question>, pick: Picker): (r: seq<UserDailyQuestion>)
    requires CanFill(user, questions, Missing(entries, user.id, user.createdAt.date, today + 1))
  {
    NewEntries(user, Missing(entries, user.id, user.createdAt.date, today + 1), questions, pick)
  }

  lemma {:induction false} MissingStep(entries: seq<UserDailyQuestion>, userId: int, lo: Date, hi: Date)
    requires lo <= hi
    ensures Missing(entries, userId, lo, hi + 1) ==
      Missing(entries, userId, lo, hi) + (if HasEntry(entries, userId, hi) then [] else [hi])
  {
  }

  lemma {:induction false} NewEntriesSnoc(user: User, dates: seq<Date>, d: Date, questions: seq<Question>, pick: Picker)
    requires CanFill(user, questions, dates + [d])
    ensures NewEntries(user, dates + [d], questions, pick) ==
      NewEntries(user, dates, questions, pick) + [NewEntry(user, d, questions, pick).value]
  {
    assert (dates + [d])[..|dates|] == dates;
  }

  /** The new rows lie in the filled range, so the rows for a later date are
      the same before and after. */
  lemma HasEntryAppended(entries: seq<UserDailyQuestion>, added: seq<UserDailyQuestion>, userId: int, d: Date)
    requires forall k :: 0 <= k < |added| ==> added[k].questionDate < d
    ensures HasEntry(entries + added, userId, d) <==> HasEntry(entries, userId, d)
  {
    if HasEntry(entries + added, userId, d) {
      var k :| 0 <= k < |entries + added| && (entries + added)[k].userId == userId && (entries + added)[k].questionDate == d;
      assert forall m :: |entries| <= m < |entries + added| ==> (entries + added)[m] == added[m - |entries|];
      assert k < |entries|;
      assert entries[k] == (entries + added)[k];
    }
    if HasEntry(entries, userId, d) {
      var k :| 0 <= k < |entries| && entries[k].userId == userId && entries[k].questionDate == d;
      assert (entries + added)[k] == entries[k];
    }
  }

  /** After a fill, every date from the join date to `today` has a row. */
  lemma {:induction false} FillCovers(entries: seq<UserDailyQuestion>, user: User, today: Date, questions: seq<Question>, pick: Picker, d: Date)
    requires CanFill(user, questions, Missing(entries, user.id, user.createdAt.date, today + 1))
    requires user.createdAt.date <= d <= today
    ensures HasEntry(entries + Filled(entries, user, today, questions, pick), user.id, d)
  {
    var dates := Missing(entries, user.id, user.createdAt.date, today + 1);
    var added := Filled(entries, user, today, questions, pick);
    if HasEntry(entries, user.id, d) {
      var k :| 0 <= k < |entries| && entries[k].userId == user.id && entries[k].questionDate == d;
      assert (entries + added)[k] == entries[k];
    } else {
      assert d in dates;
      var i :| 0 <= i < |dates| && dates[i] == d;
      assert (entries + added)[|entries| + i] == added[i];
    }
  }

  /** `FillCovers` for every date of the range at once. */
  lemma FillCoversAll(entries: seq<UserDailyQuestion>, user: User, today: Date, questions: seq<Question>, pick: Picker)
    requires CanFill(user, questions, Missing(entries, user.id, user.createdAt.date, today + 1))
    ensures forall d :: user.createdAt.date <= d <= today ==>
      HasEntry(entries + Filled(entries, user, today, questions, pick), user.id, d)
  {
    forall d | user.createdAt.date <= d <= today
      ensures HasEntry(entries + Filled(entries, user, today, questions, pick), user.id, d)
    {
      FillCovers(entries, user, today, questions, pick, d);
    }
  }

  /** A day that cannot be filled stops every later fill as well. */
  lemma CanFillPrefix(entries: seq<UserDailyQuestion>, user: User, questions: seq<Question>, hi: Date, hi2: Date)
    requires hi <= hi2
    requires !CanFill(user, questions, Missing(entries, user.id, user.createdAt.date, hi))
    ensures !CanFill(user, questions, Missing(entries, user.id, user.createdAt.date, hi2))
  {
    var m := Missing(entries, user.id, user.createdAt.date, hi);
    assert m[0] in m;
    assert m[0] in Missing(entries, user.id, user.createdAt.date, hi2);
  }

  /** A fill keeps one row per user and date. */
  lemma {:induction false} FillUnique(entries: seq<UserDailyQuestion>, user: User, today: Date, questions: seq<Question>, pick: Picker)
    requires Unique(entries)
    requires CanFill(user, questions, Missing(entries, user.id, user.createdAt.date, today + 1))
    ensures Unique(entries + Filled(entries, user, today, questions, pick))
  {
    var all := entries + Filled(entries, user, today, questions, pick);
    forall i, j | 0 <= i < j < |all|
      ensures !(all[i].userId == all[j].userId && all[i].questionDate == all[j].questionDate)
    {
      if j >= |entries| {
        FilledRowNew(entries, user, today, questions, pick, i, j);
      }
    }
  }

  /** A filled row shares its user and date with no earlier row. */
  lemma FilledRowNew(entries: seq<UserDailyQuestion>, user: User, today: Date, questions: seq<Question>, pick: Picker, i: nat, j: nat)
    requires CanFill(user, questions, Missing(entries, user.id, user.createdAt.date, today + 1))
    requires |entries| <= j && i < j < |entries + Filled(entries, user, today, questions, pick)|
    ensures var all := entries + Filled(entries, user, today, questions, pick);
      !(all[i].userId == all[j].userId && all[i].questionDate == all[j].questionDate)
  {
    var dates := Missing(entries, user.id, user.createdAt.date, today + 1);
    var added := Filled(entries, user, today, questions, pick);
    var all := entries + added;
    var b := j - |entries|;
    assert all[j] == added[b];
    assert added[b].userId == user.id && added[b].questionDate == dates[b];
    if i < |entries| {
      assert dates[b] in dates;
      assert all[i] == entries[i];
      assert !(entries[i].userId == user.id && entries[i].questionDate == dates[b]);
    } else {
      assert all[i] == added[i - |entries|];
      assert dates[i - |entries|] < dates[b];
    }
  }

  /** A second fill on the same day adds nothing. */
  lemma {:induction false} FillIdempotent(entries: seq<UserDailyQuestion>, user: User, today: Date, questions: seq<Question>, pick: Picker)
    requires CanFill(user, questions, Missing(entries, user.id, user.createdAt.date, today + 1))
    ensures Missing(entries + Filled(entries, user, today, questions, pick), user.id, user.createdAt.date, today + 1) == []
  {
    var after := entries + Filled(entries, user, today, questions, pick);
    var m := Missing(after, user.id, user.createdAt.date, today + 1);
    if |m| > 0 {
      assert m[0] in m;
      FillCovers(entries, user, today, questions, pick, m[0]);
      assert false;
    }
  }

  /** The first member with the earliest join instant (`stream().min` over
      join times keeps the first of equal minima). */
  function OldestMember(members: seq<User>): (r: User)
    requires |members| > 0
    ensures r in members
    ensures forall m :: m in members ==> !IsBefore(m.createdAt, r.createdAt)
    ensures exists i :: (0 <= i < |members| && members[i] == r &&
      forall k :: 0 <= k < i ==> IsBefore(r.createdAt, members[k].createdAt))
  {
    if |members| == 1 then members[0]
    else
      var rest := OldestMember(members[1..]);
      if !IsBefore(rest.createdAt, members[0].createdAt) then members[0]
      else
        var i :| 0 <= i < |members[1..]| && members[1..][i] == rest &&
          (forall k :: 0 <= k < i ==> IsBefore(rest.createdAt, members[1..][k].createdAt));
        assert members[i + 1] == rest;
        assert forall k :: 1 <= k < i + 1 ==> members[k] == members[1..][k - 1];
        rest
  }

  /** `userRepository.findByFamilyCode`: the members of a family, in order. */
  function Members(users: seq<User>, familyCode: int): (r: seq<User>)
    ensures forall u :: u in r <==> u in users && u.familyCode == Some(familyCode)
  {
    Filter(users, (u: User) => u.familyCode == Some(familyCode))
  }

  /** Rows in ascending date order (a stable sort, so rows of one date keep
      their table order). */
  function Ascending(rows: seq<UserDailyQuestion>): (r: seq<UserDailyQuestion>)
    ensures multiset(r) == multiset(rows)
    ensures forall i, j :: 0 <= i < j < |r| ==> r[i].questionDate <= r[j].questionDate
  {
    SortAsc(rows, (e: UserDailyQuestion) => e.questionDate as real)
  }

  /** `findByUserOrderByQuestionDateAsc`: a user's rows, earliest date first. */
  function History(entries: seq<UserDailyQuestion>, userId: int): (r: seq<UserDailyQuestion>)
    ensures forall e :: e in r <==> e in entries && e.userId == userId
    ensures forall i, j :: 0 <= i < j < |r| ==> r[i].questionDate <= r[j].questionDate
  {
    var rows := Filter(entries, (e: UserDailyQuestion) => e.userId == userId);
    var r := Ascending(rows);
    assert forall e :: e in r <==> e in multiset(rows);
    r
  }

  /** `findByUserAndDateRange`: a user's rows dated `start .. end` inclusive,
      earliest first. */
  function HistoryBetween(entries: seq<UserDailyQuestion>, userId: int, start: Date, end: Date): (r: seq<UserDailyQuestion>)
    ensures forall e :: e in r <==> e in entries && e.userId == userId && start <= e.questionDate <= end
    ensures forall i, j :: 0 <= i < j < |r| ==> r[i].questionDate <= r[j].questionDate
  {
    var rows := Filter(entries, (e: UserDailyQuestion) => e.userId == userId && start <= e.questionDate <= end);
    var r := Ascending(rows);
    assert forall e :: e in r <==> e in multiset(rows);
    r
  }

  /** Some row of `rows` is dated `d`. */
  predicate HasDate(rows: seq<UserDailyQuestion>, d: Date) {
    exists e :: e in rows && e.questionDate == d
  }

  /** Every date on which the user has a row shows up in the history. */
  lemma HistoryCovers(entries: seq<UserDailyQuestion>, userId: int, lo: Date, hi: Date)
    requires forall d :: lo <= d <= hi ==> HasEntry(entries, userId, d)
    ensures forall d :: lo <= d <= hi ==> HasDate(History(entries, userId), d)
  {
    forall d | lo <= d <= hi ensures HasDate(History(entries, userId), d) {
      assert HasEntry(entries, userId, d);
      var k :| 0 <= k < |entries| && entries[k].userId == userId && entries[k].questionDate == d;
      assert entries[k] in History(entries, userId);
    }
  }

  /** The journal table (`UserDailyQuestionRepository`). */
  class UserDailyQuestionService {
    var entries: seq<UserDailyQuestion>

    predicate Valid()
      reads this
    {
      Unique(entries)
    }

    constructor()
      ensures Valid() && entries == []
    {
      entries := [];
    }

    /** `getTodayQuestionForUser`: today's row of the user, created when
        absent. Fails when the user is unknown, or when the row must be
        created and cannot be. */
    method GetTodayQuestionForUser(users: seq<User>, userId: int, today: Date, questions: seq<Question>, pick: Picker)
      returns (r: Result<UserDailyQuestion>)
      requires Valid()
      modifies this
      ensures Valid()
      ensures FindUser(users, userId).None? ==> r.Err? && entries == old(entries)
      ensures FindUser(users, userId).Some? && HasEntry(old(entries), userId, today) ==>
        entries == old(entries) && r == Ok(FindEntry(old(entries), userId, today).value)
      ensures FindUser(users, userId).Some? && !HasEntry(old(entries), userId, today) ==>
        r == NewEntry(FindUser(users, userId).value, today, questions, pick) &&
        entries == old(entries) + (if r.Ok? then [r.value] else [])
    {
      var user := FindUser(users, userId);
      if user.None? {
        return Err("user not found");
      }
      var existing := FindEntry(entries, user.value.id, today);
      if existing.Some? {
        return Ok(existing.value);
      }
      r := NewEntry(user.value, today, questions, pick);
      if r.Ok? {
        assert Unique(entries + [r.value]) by {
          forall i | 0 <= i < |entries| ensures (entries + [r.value])[i] == entries[i] { }
        }
        entries := entries + [r.value];
      }
    }

    /** `generateMissingQuestionsForUser` for a known user: one row for each
        date from the join date to `today` that has none. The service is
        transactional, so a failure part-way leaves the table as it was. */
    method FillMissing(user: User, today: Date, questions: seq<Question>, pick: Picker) returns (r: Result<()>)
      requires Valid()
      modifies this
      ensures Valid()
      ensures r.Ok? <==> CanFill(user, questions, Missing(old(entries), user.id, user.createdAt.date, today + 1))
      ensures r.Ok? ==> entries == old(entries) + Filled(old(entries), user, today, questions, pick)
      ensures r.Err? ==> entries == old(entries)
      ensures r.Ok? ==> forall d :: user.createdAt.date <= d <= today ==> HasEntry(entries, user.id, d)
    {
      var join := user.createdAt.date;
      var table := entries;
      var current := join;
      while current <= today
        invariant entries == old(entries) && Valid()
        invariant current == join || join <= current <= today + 1
        invariant CanFill(user, questions, Missing(entries, user.id, join, current))
        invariant table == entries + NewEntries(user, Missing(entries, user.id, join, current), questions, pick)
        decreases today - current
      {
        var step := FillStep(entries, table, user, current, questions, pick);
        if step.Err? {
          CanFillPrefix(entries, user, questions, current + 1, today + 1);
          return Err(step.msg);
        }
        table := step.value;
        current := current + 1;
      }
      FillUnique(entries, user, today, questions, pick);
      FillCoversAll(entries, user, today, questions, pick);
      entries := table;
      r := Ok(());
    }

    /** `generateMissingQuestionsForUser`: fails for an unknown user. */
    method GenerateMissingQuestionsForUser(users: seq<User>, userId: int, today: Date, questions: seq<Question>, pick: Picker)
      returns (r: Result<()>)
      requires Valid()
      modifies this
      ensures Valid()
      ensures FindUser(users, userId).None? ==> r.Err? && entries == old(entries)
      ensures FindUser(users, userId).Some? ==>
        var user := FindUser(users, userId).value;
        (r.Ok? <==> CanFill(user, questions, Missing(old(entries), userId, user.createdAt.date, today + 1))) &&
        (r.Ok? ==> entries == old(entries) + Filled(old(entries), user, today, questions, pick)) &&
        (r.Err? ==> entries == old(entries))
      ensures r.Ok? ==> forall d :: FindUser(users, userId).value.createdAt.date <= d <= today ==> HasEntry(entries, userId, d)
    {
      var user := FindUser(users, userId);
      if user.None? {
        return Err("user not found");
      }
      r := FillMissing(user.value, today, questions, pick);
    }

    /** `generateMissingQuestionsForFamily`: fills the days of the family's
        earliest-joined member; fails for a family with no member. */
    method GenerateMissingQuestionsForFamily(users: seq<User>, familyCode: int, today: Date, questions: seq<Question>, pick: Picker)
      returns (r: Result<()>)
      requires Valid()
      modifies this
      ensures Valid()
      ensures |Members(users, familyCode)| == 0 ==> r.Err? && entries == old(entries)
      ensures |Members(users, familyCode)| > 0 ==>
        var oldest := OldestMember(Members(users, familyCode));
        FindUser(users, oldest.id).Some? &&
        (r.Ok? <==> CanFill(FindUser(users, oldest.id).value, questions,
                            Missing(old(entries), oldest.id, FindUser(users, oldest.id).value.createdAt.date, today + 1))) &&
        (r.Ok? ==> entries == old(entries) + Filled(old(entries), FindUser(users, oldest.id).value, today, questions, pick)) &&
        (r.Err? ==> entries == old(entries))
    {
      var members := Members(users, familyCode);
      if |members| == 0 {
        return Err("family not found");
      }
      var oldest := OldestMember(members);
      r := GenerateMissingQuestionsForUser(users, oldest.id, today, questions, pick);
    }

    /** `getQuestionHistoryForFamily`: fills the missing days of the
        earliest-joined member, then returns that member's whole history. The
        method is transactional: a failed fill leaves the table as it was. */
    method GetQuestionHistoryForFamily(users: seq<User>, familyCode: int, today: Date, questions: seq<Question>, pick: Picker)
      returns (r: Result<seq<UserDailyQuestion>>)
      requires Valid()
      modifies this
      ensures Valid()
      ensures |Members(users, familyCode)| == 0 ==> r.Err? && entries == old(entries)
      ensures r.Err? ==> entries == old(entries)
      ensures |Members(users, familyCode)| > 0 ==>
        var oldest := OldestMember(Members(users, familyCode));
        FindUser(users, oldest.id).Some? &&
        (r.Ok? <==> CanFill(FindUser(users, oldest.id).value, questions,
                            Missing(old(entries), oldest.id, FindUser(users, oldest.id).value.createdAt.date, today + 1))) &&
        (r.Ok? ==> entries == old(entries) + Filled(old(entries), FindUser(users, oldest.id).value, today, questions, pick))
      ensures r.Ok? ==>
        var oldest := OldestMember(Members(users, familyCode));
        var join := FindUser(users, oldest.id).value.createdAt.date;
        r.value == History(entries, oldest.id) && forall d :: join <= d <= today ==> HasDate(r.value, d)
    {
      var members := Members(users, familyCode);
      if |members| == 0 {
        return Err("family not found");
      }
      var oldest := OldestMember(members);
      var filled := GenerateMissingQuestionsForUser(users, oldest.id, today, questions, pick);
      if filled.Err? {
        return Err(filled.msg);
      }
      HistoryCovers(entries, oldest.id, FindUser(users, oldest.id).value.createdAt.date, today);
      r := Ok(History(entries, oldest.id));
    }

    /** `getQuestionHistoryForUser`: fails for an unknown user. */
    function GetQuestionHistoryForUser(users: seq<User>, userId: int): (r: Result<seq<UserDailyQuestion>>)
      reads this
      ensures r.Err? <==> FindUser(users, userId).None?
      ensures r.Ok? ==> forall e :: e in r.value <==> e in entries && e.userId == userId
    {
      if FindUser(users, userId).None? then Err("user not found")
      else Ok(History(entries, userId))
    }

    /** `getQuestionHistoryForUserByDateRange`: fails for an unknown user. */
    function GetQuestionHistoryForUserByDateRange(users: seq<User>, userId: int, start: Date, end: Date): (r: Result<seq<UserDailyQuestion>>)
      reads this
      ensures r.Err? <==> FindUser(users, userId).None?
      ensures r.Ok? ==> forall e :: e in r.value <==> e in entries && e.userId == userId && start <= e.questionDate <= end
    {
      if FindUser(users, userId).None? then Err("user not found")
      else Ok(HistoryBetween(entries, userId, start, end))
    }

    /** `getQuestionHistoryForFamilyByDateRange`: the dated history of the
        family's earliest-joined member; fails for a family with no member. */
    function GetQuestionHistoryForFamilyByDateRange(users: seq<User>, familyCode: int, start: Date, end: Date): (r: Result<seq<UserDailyQuestion>>)
      reads this
      ensures r.Err? <==> |Members(users, familyCode)| == 0
      ensures r.Ok? ==> forall e :: e in r.value <==>
        e in entries && e.userId == OldestMember(Members(users, familyCode)).id && start <= e.questionDate <= end
    {
      var members := Members(users, familyCode);
      if |members| == 0 then Err("family not found")
      else Ok(HistoryBetween(entries, OldestMember(members).id, start, end))
    }
  }

  /** One iteration of the fill loop: `table` is the original table `base`
      plus the rows for the dates before `current` that had none; the row for
      `current` is added when the user has none on that date. */
  method FillStep(base: seq<UserDailyQuestion>, table: seq<UserDailyQuestion>, user: User, current: Date,
                  questions: seq<Question>, pick: Picker)
    returns (r: Result<seq<UserDailyQuestion>>)
    requires user.createdAt.date <= current
    requires CanFill(user, questions, Missing(base, user.id, user.createdAt.date, current))
    requires table == base + NewEntries(user, Missing(base, user.id, user.createdAt.date, current), questions, pick)
    ensures r.Err? <==> !CanFill(user, questions, Missing(base, user.id, user.createdAt.date, current + 1))
    ensures r.Ok? ==> r.value == base + NewEntries(user, Missing(base, user.id, user.createdAt.date, current + 1), questions, pick)
  {
    var join := user.createdAt.date;
    var dates := Missing(base, user.id, join, current);
    MissingStep(base, user.id, join, current);
    FilledHasEntry(base, user, current, questions, pick);
    if HasEntry(table, user.id, current) {
      return Ok(table);
    }
    var e := NewEntry(user, current, questions, pick);
    if e.Err? {
      return Err(e.msg);
    }
    NewEntriesSnoc(user, dates, current, questions, pick);
    AppendAssoc(base, NewEntries(user, dates, questions, pick), [e.value]);
    r := Ok(table + [e.value]);
  }

  /** The rows filled for the dates before `d` leave the rows on `d` as they
      were. */
  lemma FilledHasEntry(base: seq<UserDailyQuestion>, user: User, d: Date, questions: seq<Question>, pick: Picker)
    requires CanFill(user, questions, Missing(base, user.id, user.createdAt.date, d))
    ensures HasEntry(base + NewEntries(user, Missing(base, user.id, user.createdAt.date, d), questions, pick), user.id, d)
      <==> HasEntry(base, user.id, d)
  {
    var dates := Missing(base, user.id, user.createdAt.date, d);
    var added := NewEntries(user, dates, questions, pick);
    forall k | 0 <= k < |added| ensures added[k].questionDate < d {
      assert dates[k] in dates;
    }
    HasEntryAppended(base, added, user.id, d);
  }
}
