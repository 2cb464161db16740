/** The Dongjak library course loader: a quote-aware CSV record splitter,
    the mapping of a record to a catalogue row (target age range, tag
    string, description) and the line loop that skips the header and drops
    rejected records. Reading the file is left to the caller, who hands in
    its lines. */
module CsvLoader {
  import opened Wrappers
  import opened Text
  import opened Domain
  import opened Catalogue

  // ---------------------------------------------------------------------
  // Record splitting (`parseCsvFields`)
  // ---------------------------------------------------------------------

  /** The splitter's state after a prefix of the line: the pieces closed so
      far (untrimmed), the piece being built and the quote flag. */
  datatype ScanState = ScanState(pieces: seq<string>, current: string, inQuotes: bool)

  const Start := ScanState([], "", false)

  /** One character: a quote flips the flag and is dropped, a comma outside
      quotes closes the piece, anything else is kept. */
  function Step(st: ScanState, c: char): ScanState {
    if c == '"' then st.(inQuotes := !st.inQuotes)
    else if c == ',' && !st.inQuotes then ScanState(st.pieces + [st.current], "", st.inQuotes)
    else st.(current := st.current + [c])
  }

  function ScanFrom(st: ScanState, s: string): ScanState
    decreases |s|
  {
    if |s| == 0 then st else Step(ScanFrom(st, s[..|s| - 1]), s[|s| - 1])
  }

  /** The untrimmed pieces of a line: the closed ones and the last one. */
  function Pieces(line: string): seq<string> {
    var st := ScanFrom(Start, line);
    st.pieces + [st.current]
  }

  function TrimAll(xs: seq<string>): (r: seq<string>)
    ensures |r| == |xs|
    ensures forall k :: 0 <= k < |xs| ==> r[k] == Trim(xs[k])
  {
    if |xs| == 0 then [] else TrimAll(xs[..|xs| - 1]) + [Trim(xs[|xs| - 1])]
  }

  /** The fields `parseCsvFields` returns: each piece trimmed. */
  function CsvFields(line: string): seq<string> {
    TrimAll(Pieces(line))
  }

  /** `parseCsvFields(line)` */
  method ParseCsvFields(line: string) returns (fields: seq<string>)
    ensures fields == CsvFields(line)
  {
    fields := [];
    var inQuotes := false;
    var current := "";
    var i := 0;
    while i < |line|
      invariant 0 <= i <= |line|
      invariant fields == TrimAll(ScanFrom(Start, line[..i]).pieces)
      invariant current == ScanFrom(Start, line[..i]).current
      invariant inQuotes == ScanFrom(Start, line[..i]).inQuotes
    {
      assert line[..i + 1][..i] == line[..i];
      var c := line[i];
      if c == '"' {
        inQuotes := !inQuotes;
      } else if c == ',' && !inQuotes {
        fields := fields + [Trim(current)];
        current := "";
      } else {
        current := current + [c];
      }
      i := i + 1;
    }
    assert line[..|line|] == line;
    fields := fields + [Trim(current)];
  }

  /** Number of quote characters. */
  function Quotes(s: string): nat
    decreases |s|
  {
    if |s| == 0 then 0 else Quotes(s[..|s| - 1]) + (if s[|s| - 1] == '"' then 1 else 0)
  }

  /** Commas read while an even number of quotes has been seen. */
  function CommasOutside(s: string): nat
    decreases |s|
  {
    if |s| == 0 then 0
    else
      var prefix := s[..|s| - 1];
      CommasOutside(prefix) + (if s[|s| - 1] == ',' && Quotes(prefix) % 2 == 0 then 1 else 0)
  }

  /** The line with every quote character removed. */
  function WithoutQuotes(s: string): (r: string)
    decreases |s|
  {
    if |s| == 0 then ""
    else WithoutQuotes(s[..|s| - 1]) + (if s[|s| - 1] == '"' then "" else [s[|s| - 1]])
  }

  /** The flag is the parity of the quotes seen, and one piece is closed per
      comma read at even parity. */
  lemma {:induction false} ScanCounts(s: string)
    ensures ScanFrom(Start, s).inQuotes <==> Quotes(s) % 2 == 1
    ensures |ScanFrom(Start, s).pieces| == CommasOutside(s)
    decreases |s|
  {
    if |s| > 0 {
      ScanCounts(s[..|s| - 1]);
    }
  }

  /** The number of fields is one more than the commas outside quotes. */
  lemma FieldCount(line: string)
    ensures |CsvFields(line)| == 1 + CommasOutside(line)
  {
    ScanCounts(line);
  }

  /** Joining the pieces with "," gives back the line without its quotes:
      the splitter loses nothing but the quote characters. */
  lemma {:induction false} PiecesJoin(s: string)
    ensures Join(",", Pieces(s)) == WithoutQuotes(s)
    decreases |s|
  {
    if |s| > 0 {
      var prefix := s[..|s| - 1];
      var c := s[|s| - 1];
      var st := ScanFrom(Start, prefix);
      PiecesJoin(prefix);
      if c == '"' {
      } else if c == ',' && !st.inQuotes {
        if |st.pieces| == 0 {
          assert Pieces(s) == [st.current] + [""];
        } else {
          JoinConcat(",", st.pieces, [st.current]);
          JoinConcat(",", st.pieces + [st.current], [""]);
          assert Pieces(s) == st.pieces + [st.current] + [""];
        }
      } else {
        if |st.pieces| == 0 {
          assert Pieces(s) == [st.current + [c]];
        } else {
          JoinConcat(",", st.pieces, [st.current]);
          JoinConcat(",", st.pieces, [st.current + [c]]);
        }
      }
    }
  }

  /** Scanning a concatenation is scanning the second part from where the
      first left off. */
  lemma {:induction false} ScanFromConcat(st: ScanState, x: string, y: string)
    ensures ScanFrom(st, x + y) == ScanFrom(ScanFrom(st, x), y)
    decreases |y|
  {
    if |y| == 0 {
      assert x + y == x;
    } else {
      assert (x + y)[..|x + y| - 1] == x + y[..|y| - 1];
      ScanFromConcat(st, x, y[..|y| - 1]);
    }
  }

  lemma ScanSnoc(st: ScanState, x: string, c: char)
    ensures ScanFrom(st, x + [c]) == Step(ScanFrom(st, x), c)
  {
    assert (x + [c])[..|x|] == x;
  }

  /** A doubled quote flips the flag twice and leaves no trace: the fields
      are those of the line without it. Section 2, rule 7 of RFC 4180 would
      read it, inside a quoted field, as one literal quote. */
  lemma DoubledQuoteVanishes(a: string, b: string)
    ensures CsvFields(a + "\"\"" + b) == CsvFields(a + b)
  {
    ScanFromConcat(Start, a + "\"\"", b);
    ScanFromConcat(Start, a, "\"\"");
    ScanFromConcat(Start, a, b);
    assert "\"\""[..1] == "\"";
  }

  lemma ScanQuotedAb()
    ensures ScanFrom(Start, "\"ab\"") == ScanState([], "ab", false)
  {
    var s := "\"ab\"";
    assert "\"" == "" + ['"'] && "\"a" == "\"" + ['a'] && "\"ab" == "\"a" + ['b'] && s == "\"ab" + ['"'];
    ScanSnoc(Start, "", '"');
    assert ScanFrom(Start, "\"") == ScanState([], "", true);
    ScanSnoc(Start, "\"", 'a');
    assert ScanFrom(Start, "\"a") == ScanState([], "a", true);
    ScanSnoc(Start, "\"a", 'b');
    assert ScanFrom(Start, "\"ab") == ScanState([], "ab", true);
    ScanSnoc(Start, "\"ab", '"');
    assert ScanFrom(Start, s) == ScanState([], "ab", false);
  }

  lemma QuotedAbFields()
    ensures CsvFields("\"ab\"") == ["ab"]
  {
    ScanQuotedAb();
    assert Pieces("\"ab\"") == ["ab"];
    TrimNoop("ab");
  }

  /** The RFC 4180 field `"a""b"` (the text a"b) comes out as `ab`. */
  lemma EscapedQuoteExample()
    ensures CsvFields("\"a\"\"b\"") == ["ab"]
  {
    DoubledQuoteVanishes("\"a", "b\"");
    assert "\"a" + "\"\"" + "b\"" == "\"a\"\"b\"";
    assert "\"a" + "b\"" == "\"ab\"";
    QuotedAbFields();
  }

  // ---------------------------------------------------------------------
  // Target age (`setTargetAge`)
  // ---------------------------------------------------------------------

  /** `\s` in a Java regular expression. */
  predicate IsRegexSpace(c: char) {
    c == ' ' || c == '\t' || c == '\n' || c == '\r' || c == '\U{000B}' || c == '\U{000C}'
  }

  /** `[1-6]` */
  predicate IsGrade(c: char) {
    '1' <= c <= '6'
  }

  /** The first index at or after i that is not a `\s`. */
  function SkipSpaces(t: string, i: nat): (j: nat)
    requires i <= |t|
    ensures i <= j <= |t|
    ensures forall k :: i <= k < j ==> IsRegexSpace(t[k])
    ensures j == |t| || !IsRegexSpace(t[j])
    decreases |t| - i
  {
    if i < |t| && IsRegexSpace(t[i]) then SkipSpaces(t, i + 1) else i
  }

  /** `([1-6])\s*~\s*([1-6])\s*학년` matched at i: both grades. (Greedy `\s*`
      followed by a non-space character never needs to backtrack.) */
  function RangeAt(t: string, i: nat): Option<(int, int)> {
    if i < |t| && IsGrade(t[i]) then
      var j := SkipSpaces(t, i + 1);
      if j < |t| && t[j] == '~' then
        var k := SkipSpaces(t, j + 1);
        if k < |t| && IsGrade(t[k]) then
          var m := SkipSpaces(t, k + 1);
          if StartsWith(t[m..], "학년") then Some((t[i] as int - '0' as int, t[k] as int - '0' as int)) else None
        else None
      else None
    else None
  }

  /** `([1-6])\s*학년` matched at i: the grade. */
  function SingleAt(t: string, i: nat): Option<int> {
    if i < |t| && IsGrade(t[i]) then
      var j := SkipSpaces(t, i + 1);
      if StartsWith(t[j..], "학년") then Some(t[i] as int - '0' as int) else None
    else None
  }

  /** `matcher.find()`: the match at the leftmost position in [i, n). */
  function FirstAt<T>(f: nat -> Option<T>, i: nat, n: nat): (r: Option<T>)
    ensures r.Some? ==> exists k :: i <= k < n && f(k) == r && forall j :: i <= j < k ==> f(j).None?
    ensures r.None? ==> forall k :: i <= k < n ==> f(k).None?
    decreases n - i
  {
    if i >= n then None
    else if f(i).Some? then f(i)
    else FirstAt(f, i + 1, n)
  }

  function FirstRange(t: string): Option<(int, int)> {
    FirstAt(k => RangeAt(t, k), 0, |t|)
  }

  function FirstSingle(t: string): Option<int> {
    FirstAt(k => SingleAt(t, k), 0, |t|)
  }

  /** The bounds `setTargetAge` writes: `None` when no rule applies and the
      program keeps its bounds; otherwise the new minimum and maximum, where
      `None` is the null that means "no bound". */
  datatype AgeBounds = AgeBounds(min: Option<int>, max: Option<int>)

  /** What `setTargetAge` looks for in the target text: the words of each
      rule and the first grade range and single grade. */
  datatype AgeCues = AgeCues(infant: bool, primary: bool, range: Option<(int, int)>, single: Option<int>,
                             teen: bool, adult: bool, family: bool)

  function CuesOf(target: string): AgeCues {
    AgeCues(Contains(target, "유아") || Contains(target, "영유아"),
            Contains(target, "초등"),
            FirstRange(target),
            FirstSingle(target),
            Contains(target, "청소년") || Contains(target, "중"),
            Contains(target, "성인") || Contains(target, "어른"),
            Contains(target, "가족") || Contains(target, "부모"))
  }

  /** The first rule that applies. Inside the primary-school rule a grade
      range refines [7,13], or else a single grade; with neither the bounds
      stay [7,13]. */
  function BoundsFor(c: AgeCues): Option<AgeBounds> {
    if c.infant then Some(AgeBounds(Some(3), Some(7)))
    else if c.primary then
      if c.range.Some? then Some(AgeBounds(Some(6 + c.range.value.0), Some(6 + c.range.value.1)))
      else if c.single.Some? then Some(AgeBounds(Some(6 + c.single.value), Some(6 + c.single.value)))
      else Some(AgeBounds(Some(7), Some(13)))
    else if c.teen then Some(AgeBounds(Some(13), Some(18)))
    else if c.adult then Some(AgeBounds(Some(19), None))
    else if c.family then Some(AgeBounds(None, None))
    else None
  }

  function AgeRule(target: string): Option<AgeBounds> {
    BoundsFor(CuesOf(target))
  }

  /** `setTargetAge(program, target)`: the rules tried in order, the fields
      set by the first that applies. */
  method SetTargetAge(p: Program, target: string) returns (q: Program)
    ensures AgeRule(target).None? ==> q == p
    ensures AgeRule(target).Some? ==>
      q == p.(targetAgeMin := AgeRule(target).value.min, targetAgeMax := AgeRule(target).value.max)
  {
    var cues := CuesOf(target);
    q := ApplyCues(p, cues);
  }

  /** The rule chain of `setTargetAge` once the cues of the target text are
      known. */
  method ApplyCues(p: Program, cues: AgeCues) returns (q: Program)
    ensures BoundsFor(cues).None? ==> q == p
    ensures BoundsFor(cues).Some? ==>
      q == p.(targetAgeMin := BoundsFor(cues).value.min, targetAgeMax := BoundsFor(cues).value.max)
  {
    q := p;
    if cues.infant {
      q := q.(targetAgeMin := Some(3));
      q := q.(targetAgeMax := Some(7));
    } else if cues.primary {
      q := q.(targetAgeMin := Some(7));
      q := q.(targetAgeMax := Some(13));
      if cues.range.Some? {
        q := q.(targetAgeMin := Some(6 + cues.range.value.0));
        q := q.(targetAgeMax := Some(6 + cues.range.value.1));
      } else if cues.single.Some? {
        q := q.(targetAgeMin := Some(6 + cues.single.value));
        q := q.(targetAgeMax := Some(6 + cues.single.value));
      }
    } else if cues.teen {
      q := q.(targetAgeMin := Some(13));
      q := q.(targetAgeMax := Some(18));
    } else if cues.adult {
      q := q.(targetAgeMin := Some(19));
      q := q.(targetAgeMax := None);
    } else if cues.family {
      q := q.(targetAgeMin := None);
      q := q.(targetAgeMax := None);
    }
  }

  /** A grade match holds digits 1 to 6, so a refined primary-school bound
      lies between ages 7 and 12. */
  lemma GradeMatchBounds(t: string)
    ensures FirstRange(t).Some? ==>
      1 <= FirstRange(t).value.0 <= 6 && 1 <= FirstRange(t).value.1 <= 6
    ensures FirstSingle(t).Some? ==> 1 <= FirstSingle(t).value <= 6
  {
    if FirstRange(t).Some? {
      var k :| 0 <= k < |t| && RangeAt(t, k) == FirstRange(t);
    }
    if FirstSingle(t).Some? {
      var k :| 0 <= k < |t| && SingleAt(t, k) == FirstSingle(t);
    }
  }

  /** Every bound the rules write lies between 3 and 19; a maximum comes
      with a minimum; and apart from a reversed grade range ("5~3학년") the
      minimum never exceeds the maximum. */
  lemma AgeRuleBounds(target: string)
    ensures AgeRule(target).Some? ==>
      var b := AgeRule(target).value;
      && (b.min.Some? ==> 3 <= b.min.value <= 19)
      && (b.max.Some? ==> b.min.Some? && 7 <= b.max.value <= 18)
      && (b.min.Some? && b.max.Some? && FirstRange(target).None? ==> b.min.value <= b.max.value)
  {
    GradeMatchBounds(target);
    BoundsForBounds(CuesOf(target));
  }

  lemma BoundsForBounds(c: AgeCues)
    requires c.range.Some? ==> 1 <= c.range.value.0 <= 6 && 1 <= c.range.value.1 <= 6
    requires c.single.Some? ==> 1 <= c.single.value <= 6
    ensures BoundsFor(c).Some? ==>
      var b := BoundsFor(c).value;
      && (b.min.Some? ==> 3 <= b.min.value <= 19)
      && (b.max.Some? ==> b.min.Some? && 7 <= b.max.value <= 18)
      && (b.min.Some? && b.max.Some? && c.range.None? ==> b.min.value <= b.max.value)
  {
  }

  // ---------------------------------------------------------------------
  // Tag string (`generateEmotionKeywords`)
  // ---------------------------------------------------------------------

  /** The tag vocabulary `generateEmotionKeywords` draws from. */
  datatype Tag =
    | Reading | Education | English | Study | Science | Curiosity | Cooking | Creation
    | Joy | Play | Family | Communication | Meeting | Culture | Art | History
    | Growth | Career | Hobby | LifelongLearning
  {
    function Name(): (r: string)
      ensures r != "" && ',' !in r
    {
      match this
      case Reading => "독서"
      case Education => "교육"
      case English => "영어"
      case Study => "학습"
      case Science => "과학"
      case Curiosity => "호기심"
      case Cooking => "요리"
      case Creation => "창작"
      case Joy => "즐거움"
      case Play => "놀이"
      case Family => "가족"
      case Communication => "소통"
      case Meeting => "만남"
      case Culture => "문화"
      case Art => "예술"
      case History => "역사"
      case Growth => "성장"
      case Career => "진로"
      case Hobby => "취미"
      case LifelongLearning => "평생학습"
    }
  }

  function Names(ts: seq<Tag>): (r: seq<string>)
    ensures |r| == |ts|
    ensures forall k :: 0 <= k < |ts| ==> r[k] == ts[k].Name()
  {
    if |ts| == 0 then [] else Names(ts[..|ts| - 1]) + [ts[|ts| - 1].Name()]
  }

  lemma {:induction false} NamesConcat(xs: seq<Tag>, ys: seq<Tag>)
    ensures Names(xs + ys) == Names(xs) + Names(ys)
    decreases |ys|
  {
    if |ys| == 0 {
      assert xs + ys == xs;
    } else {
      assert (xs + ys)[..|xs + ys| - 1] == xs + ys[..|ys| - 1];
      NamesConcat(xs, ys[..|ys| - 1]);
    }
  }

  function When(b: bool, ts: seq<Tag>): seq<Tag> {
    if b then ts else []
  }

  /** Which of the name rules apply to a course name. */
  datatype NameCues = NameCues(reading: bool, english: bool, science: bool, cooking: bool, play: bool,
                               family: bool, author: bool, art: bool, history: bool)

  function NameCuesOf(name: string): NameCues {
    NameCues(Contains(name, "독서") || Contains(name, "책"),
             Contains(name, "영어"),
             Contains(name, "과학"),
             Contains(name, "요리"),
             Contains(name, "놀이") || Contains(name, "게임"),
             Contains(name, "가족") || Contains(name, "부모"),
             Contains(name, "작가") || Contains(name, "만남"),
             Contains(name, "예술") || Contains(name, "문화"),
             Contains(name, "역사"))
  }

  /** Tags for the name rules that apply, rule by rule in order. */
  function NameTagsFor(c: NameCues): seq<Tag> {
    When(c.reading, [Reading, Education])
    + When(c.english, [English, Study])
    + When(c.science, [Science, Curiosity])
    + When(c.cooking, [Cooking, Creation])
    + When(c.play, [Joy, Play])
    + When(c.family, [Family, Communication])
    + When(c.author, [Meeting, Culture])
    + When(c.art, [Art, Culture])
    + When(c.history, [History, Study])
  }

  /** Which target rule applies first: 청소년, 성인, or 아동/어린이. */
  datatype TargetCue = Youth | Adult | Child | NoTargetCue

  function TargetCueOf(target: string): TargetCue {
    if Contains(target, "청소년") then Youth
    else if Contains(target, "성인") then Adult
    else if Contains(target, "아동") || Contains(target, "어린이") then Child
    else NoTargetCue
  }

  function TargetTagsFor(c: TargetCue): seq<Tag> {
    match c
    case Youth => [Growth, Career]
    case Adult => [Hobby, LifelongLearning]
    case Child => [Education, Growth]
    case NoTargetCue => []
  }

  const DefaultTags: seq<Tag> := [Culture, Study]

  /** The tag list before joining. */
  function TagList(name: string, target: string): seq<Tag> {
    NameTagsFor(NameCuesOf(name)) + TargetTagsFor(TargetCueOf(target)) + DefaultTags
  }

  /** The stored tag string. */
  function TagString(name: string, target: string): string {
    Join(",", Names(TagList(name, target)))
  }

  /** One name rule: when it applies, its two tags are added in order. */
  method AddTags(keywords: seq<Tag>, applies: bool, first: Tag, second: Tag) returns (r: seq<Tag>)
    ensures r == keywords + When(applies, [first, second])
  {
    r := keywords;
    if applies {
      r := r + [first];
      r := r + [second];
    }
  }

  /** The name rules of `generateEmotionKeywords`, applied one after the
      other to an empty list. */
  method NameKeywords(c: NameCues) returns (keywords: seq<Tag>)
    ensures keywords == NameTagsFor(c)
  {
    keywords := AddTags([], c.reading, Reading, Education);
    assert keywords == When(c.reading, [Reading, Education]) by {
      assert [] + When(c.reading, [Reading, Education]) == When(c.reading, [Reading, Education]);
    }
    keywords := AddTags(keywords, c.english, English, Study);
    keywords := AddTags(keywords, c.science, Science, Curiosity);
    keywords := AddTags(keywords, c.cooking, Cooking, Creation);
    keywords := AddTags(keywords, c.play, Joy, Play);
    keywords := AddTags(keywords, c.family, Family, Communication);
    keywords := AddTags(keywords, c.author, Meeting, Culture);
    keywords := AddTags(keywords, c.art, Art, Culture);
    keywords := AddTags(keywords, c.history, History, Study);
  }

  /** `generateEmotionKeywords(courseName, target)` */
  method GenerateEmotionKeywords(name: string, target: string) returns (r: string)
    ensures r == TagString(name, target)
  {
    var keywords := NameKeywords(NameCuesOf(name));
    var t := TargetCueOf(target);
    if t == Youth {
      keywords := keywords + [Growth];
      keywords := keywords + [Career];
    } else if t == Adult {
      keywords := keywords + [Hobby];
      keywords := keywords + [LifelongLearning];
    } else if t == Child {
      keywords := keywords + [Education];
      keywords := keywords + [Growth];
    }
    assert keywords == NameTagsFor(NameCuesOf(name)) + TargetTagsFor(t);
    keywords := keywords + [Culture];
    keywords := keywords + [Study];
    assert keywords == TagList(name, target);
    r := Join(",", Names(keywords));
  }

  /** The tag string always ends with "문화,학습" (so it is never empty, and
      every loaded course matches the keywords 문화 and 학습), and splitting
      it on "," gives the tag names back. */
  lemma TagStringShape(name: string, target: string)
    ensures var tags := TagString(name, target);
      && EndsWith(tags, "문화,학습")
      && Contains(tags, "문화") && Contains(tags, "학습")
      && Split(tags, ',') == Names(TagList(name, target))
  {
    TagStringEnds(name, target);
    SuffixWords(TagString(name, target));
    SplitJoin(Names(TagList(name, target)), ',');
  }

  lemma TagStringEnds(name: string, target: string)
    ensures EndsWith(TagString(name, target), "문화,학습")
  {
    var front := NameTagsFor(NameCuesOf(name)) + TargetTagsFor(TargetCueOf(target));
    assert TagList(name, target) == front + DefaultTags;
    DefaultLast(front);
  }

  /** Whatever tags come first, the joined list ends with the two default
      tags. */
  lemma DefaultLast(front: seq<Tag>)
    ensures EndsWith(Join(",", Names(front + DefaultTags)), "문화,학습")
  {
    NamesConcat(front, DefaultTags);
    assert Names(DefaultTags) == ["문화", "학습"];
    assert Join(",", Names(DefaultTags)) == "문화,학습";
    if |front| == 0 {
      assert front + DefaultTags == DefaultTags;
    } else {
      JoinConcat(",", Names(front), Names(DefaultTags));
    }
  }

  lemma SuffixWords(tags: string)
    requires EndsWith(tags, "문화,학습")
    ensures Contains(tags, "문화") && Contains(tags, "학습")
  {
    EndsWithContains(tags, "문화,학습");
    ContainsMiddle([], "문화", ",학습");
    ContainsMiddle("문화,", "학습", []);
    assert "문화,학습" == [] + "문화" + ",학습";
    assert "문화,학습" == "문화," + "학습" + [];
    ContainsTransitive(tags, "문화,학습", "문화");
    ContainsTransitive(tags, "문화,학습", "학습");
  }

  // ---------------------------------------------------------------------
  // Records (`parseCsvLine`) and the loader loop
  // ---------------------------------------------------------------------

  const Organization := "동작구립도서관"
  const Category := "문화"
  const ContactNumber := "02-820-1666"

  /** `generateDescription(target, location, schedule)` */
  function Description(target: string, location: string, schedule: string): string {
    "동작구립도서관에서 진행하는 문화 프로그램입니다.\n\n"
    + "\U{1F4CD} 대상: " + target + "\n"
    + "\U{1F4CD} 장소: " + location + "\n"
    + "\U{1F4CD} 일정: " + schedule + "\n\n"
    + "다양한 연령대가 함께 참여할 수 있는 의미있는 문화 활동으로, "
    + "학습과 즐거움을 동시에 얻을 수 있는 프로그램입니다."
  }

  /** A new program as the setters leave it before `setTargetAge`; its id
      is assigned when it is saved. */
  function BaseProgram(f: seq<string>): Program
    requires |f| >= 9
  {
    Program(0, f[0], Some(Description(f[6], f[7], f[8])), Some(Organization), Category, Some(Seoul),
            None, None, Some(TagString(f[0], f[6])), Some(f[2]), Some(ContactNumber),
            Some(f[6]), Some(f[7]), Some(f[8]), true)
  }

  /** The program a record yields, or `None` when it has fewer than nine
      fields. */
  function LineProgram(line: string): Option<Program> {
    var f := CsvFields(line);
    if |f| < 9 then None
    else
      var p := BaseProgram(f);
      var rule := AgeRule(f[6]);
      if rule.None? then Some(p)
      else Some(p.(targetAgeMin := rule.value.min, targetAgeMax := rule.value.max))
  }

  /** `parseCsvLine(line)` */
  method ParseCsvLine(line: string) returns (r: Option<Program>)
    ensures r == LineProgram(line)
    ensures r.None? <==> |CsvFields(line)| < 9
    ensures r.Some? ==>
      var f := CsvFields(line);
      && r.value.title == f[0] && r.value.applicationUrl == Some(f[2])
      && r.value.targetDescription == Some(f[6]) && r.value.location == Some(f[7])
      && r.value.schedule == Some(f[8])
      && r.value.category == Category && r.value.organization == Some(Organization)
      && r.value.targetCity == Some(Seoul) && r.value.isActive
  {
    var fields := ParseCsvFields(line);
    if |fields| < 9 {
      return None;
    }
    var courseName := fields[0];
    var actualLink := fields[2];
    var target := fields[6];
    var location := fields[7];
    var schedule := fields[8];
    var tags := GenerateEmotionKeywords(courseName, target);
    var program := Program(0, courseName, Some(Description(target, location, schedule)), Some(Organization),
                           Category, Some(Seoul), None, None, None, None, None, None, None, None, false);
    program := SetTargetAge(program, target);
    program := program.(emotionKeywords := Some(tags));
    program := program.(applicationUrl := Some(actualLink), contactNumber := Some(ContactNumber));
    program := program.(targetDescription := Some(target), location := Some(location), schedule := Some(schedule));
    program := program.(isActive := true);
    return Some(program);
  }

  /** A loaded course is an active Seoul culture programme whose tags
      contain 문화 and 학습, so the category query for 문화 and the keyword
      queries for 문화 and 학습 all return it. */
  lemma LoadedProgramIsCultural(line: string)
    requires LineProgram(line).Some?
    ensures var p := LineProgram(line).value;
      && CategoryMatch(p, "문화") && KeywordMatch(p, "문화") && KeywordMatch(p, "학습")
      && p.targetCity == Some(Seoul)
  {
    var f := CsvFields(line);
    var p := LineProgram(line).value;
    assert p.emotionKeywords == Some(TagString(f[0], f[6])) && p.isActive && p.category == Category && p.targetCity == Some(Seoul);
    TagStringShape(f[0], f[6]);
  }

  /** The programs the record lines yield, in order, rejected ones dropped. */
  function ParsedPrograms(lines: seq<string>): (r: seq<Program>)
    ensures |r| <= |lines|
  {
    Parsed(lines, LineProgram)
  }

  /** The accepted results of `parse` over `lines`, in order. */
  function Parsed(lines: seq<string>, parse: string -> Option<Program>): (r: seq<Program>)
    ensures |r| <= |lines|
    decreases |lines|
  {
    if |lines| == 0 then []
    else
      var last := parse(lines[|lines| - 1]);
      Parsed(lines[..|lines| - 1], parse) + (if last.Some? then [last.value] else [])
  }

  /** What the loader saves: the first line is the header. */
  function LoadedPrograms(lines: seq<string>): seq<Program> {
    if |lines| == 0 then [] else ParsedPrograms(lines[1..])
  }

  lemma ParsedProgramsStep(lines: seq<string>, i: nat)
    requires i < |lines|
    ensures ParsedPrograms(lines[..i + 1]) == ParsedPrograms(lines[..i])
      + (if LineProgram(lines[i]).Some? then [LineProgram(lines[i]).value] else [])
  {
    assert lines[..i + 1][..i] == lines[..i];
  }

  /** The line loop of `loadDongjakLibraryCourses`, the file's lines handed
      in: skip the first, parse the others and keep the accepted ones. */
  method LoadLines(lines: seq<string>) returns (programs: seq<Program>)
    ensures programs == LoadedPrograms(lines)
  {
    programs := [];
    if |lines| == 0 {
      return;
    }
    var rest := lines[1..];
    var i := 0;
    while i < |rest|
      invariant 0 <= i <= |rest|
      invariant programs == ParsedPrograms(rest[..i])
    {
      ParsedProgramsStep(rest, i);
      programs := AddLine(programs, rest[i]);
      i := i + 1;
    }
    assert rest[..|rest|] == rest;
  }

  /** One pass of the line loop: parse the line and keep the program, if
      any. */
  method AddLine(programs: seq<Program>, line: string) returns (r: seq<Program>)
    ensures r == programs + (if LineProgram(line).Some? then [LineProgram(line).value] else [])
  {
    var program := ParseCsvLine(line);
    r := programs;
    if program.Some? {
      r := r + [program.value];
    }
  }

  /** `loadDongjakLibraryCourses()`: the loaded programs are appended to the
      catalogue in one `saveAll`. */
  method LoadDongjakLibraryCourses(table: seq<Program>, lines: seq<string>) returns (newTable: seq<Program>)
    ensures newTable == table + LoadedPrograms(lines)
  {
    var programs := LoadLines(lines);
    newTable := table + programs;
  }

  /** Exactly the accepted record lines after the header contribute, each
      once, in order: a program is loaded iff some record line after the
      first yields it; no more programs than record lines. */
  lemma ParsedProgramsMembers(lines: seq<string>, p: Program)
    ensures p in ParsedPrograms(lines) <==> exists j :: 0 <= j < |lines| && LineProgram(lines[j]) == Some(p)
  {
    ParsedMembers(lines, LineProgram, p);
  }

  lemma {:induction false} ParsedMembers(lines: seq<string>, parse: string -> Option<Program>, p: Program)
    ensures p in Parsed(lines, parse) <==> exists j :: 0 <= j < |lines| && parse(lines[j]) == Some(p)
    decreases |lines|
  {
    if |lines| > 0 {
      var init := lines[..|lines| - 1];
      ParsedMembers(init, parse, p);
      if exists j :: 0 <= j < |lines| && parse(lines[j]) == Some(p) {
        var j :| 0 <= j < |lines| && parse(lines[j]) == Some(p);
        if j < |lines| - 1 {
          assert init[j] == lines[j];
        }
      }
      if p in Parsed(init, parse) {
        var j :| 0 <= j < |init| && parse(init[j]) == Some(p);
        assert lines[j] == init[j];
      }
    }
  }

  lemma LoadedProgramsMembers(lines: seq<string>, p: Program)
    ensures p in LoadedPrograms(lines) <==> exists j :: 1 <= j < |lines| && LineProgram(lines[j]) == Some(p)
    ensures |LoadedPrograms(lines)| < |lines| || |lines| == 0
  {
    if |lines| > 0 {
      ParsedAfterHeader(lines, LineProgram, p);
    }
  }

  lemma ParsedAfterHeader(lines: seq<string>, parse: string -> Option<Program>, p: Program)
    requires |lines| > 0
    ensures p in Parsed(lines[1..], parse) <==> exists j :: 1 <= j < |lines| && parse(lines[j]) == Some(p)
  {
    ParsedMembers(lines[1..], parse, p);
    assert forall j :: 1 <= j < |lines| ==> lines[1..][j - 1] == lines[j];
    if exists j :: 0 <= j < |lines[1..]| && parse(lines[1..][j]) == Some(p) {
      var j :| 0 <= j < |lines[1..]| && parse(lines[1..][j]) == Some(p);
      assert lines[j + 1] == lines[1..][j];
    }
  }

  /** Appending record lines appends their programs: the loader keeps the
      file's order. */
  lemma ParsedProgramsConcat(xs: seq<string>, ys: seq<string>)
    ensures ParsedPrograms(xs + ys) == ParsedPrograms(xs) + ParsedPrograms(ys)
  {
    ParsedConcat(xs, ys, LineProgram);
  }

  lemma {:induction false} ParsedConcat(xs: seq<string>, ys: seq<string>, parse: string -> Option<Program>)
    ensures Parsed(xs + ys, parse) == Parsed(xs, parse) + Parsed(ys, parse)
    decreases |ys|
  {
    if |ys| == 0 {
      assert xs + ys == xs;
    } else {
      assert (xs + ys)[..|xs + ys| - 1] == xs + ys[..|ys| - 1];
      ParsedConcat(xs, ys[..|ys| - 1], parse);
    }
  }
}
