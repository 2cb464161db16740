/** The emotion profile behind every recommendation: built deterministically
    from an emotion button and a wish-activity button, or parsed from the
    six labelled lines the text generator is asked to return for a free-text
    diary, with a fixed fallback profile. */
module EmotionAnalysis {
  import opened Wrappers
  import opened Text
  import opened Numbers
  import opened Domain
  import opened Catalogue
  import EmotionKeywords
  import WishActivities

  /** `EmotionAnalysisResult`. Every field of the parsed form may be null;
      `emotionScore` is always set by both producers. */
  datatype EmotionAnalysisResult = EmotionAnalysisResult(
    primaryEmotion: Option<string>,
    emotionScore: real,
    keywords: Option<seq<string>>,
    emotionCategory: Option<string>,
    analysisText: Option<string>,
    recommendedCategories: Option<seq<string>>)

  /** What the text generator is asked. The wording of the prompts is not
      modelled: a request carries the values the prompt is built from. */
  datatype Prompt =
    | EmotionPrompt(text: string)
    | ReasonPrompt(emotion: string, activity: string,
                   personality: Option<PersonalityType>, program: Program)

  // ---------------------------------------------------------------------
  // Fallback profile

  const Fallback: EmotionAnalysisResult := EmotionAnalysisResult(
    Some("중립"), 0.5, Some(["일상", "생활"]), Some("평온"),
    Some("감정 분석을 수행할 수 없습니다."), Some(["문화", "여가"]))

  /** `createFallbackAnalysis(text)`: the fixed profile, whatever the text. */
  function CreateFallbackAnalysis(text: string): (r: EmotionAnalysisResult)
    ensures r == Fallback
  {
    Fallback
  }

  // ---------------------------------------------------------------------
  // Trigger predicate

  const NegativeCategories: seq<string> := ["우울", "스트레스", "불안", "분노", "슬픔"]

  const TriggerKeywords: seq<string> := [
    "도움", "지원", "상담", "취업", "교육", "문화", "힘들어", "어려워",
    "독서", "책", "영어", "과학", "요리", "놀이", "가족", "예술", "역사",
    "배우고", "학습", "성장", "호기심", "창작", "소통", "만남", "체험",
    "즐거움", "재미", "흥미", "취미", "활동", "참여"]

  /** `isNegativeEmotion`. The category test is `List.of(..).contains`, which
      throws on a null category; it is reached only when the primary emotion
      is not "부정". */
  function IsNegativeEmotion(a: EmotionAnalysisResult): (r: Result<bool>)
    ensures r.Err? <==> a.primaryEmotion != Some("부정") && a.emotionCategory.None?
    ensures r.Ok? ==>
      (r.value <==> (a.primaryEmotion == Some("부정") || a.emotionCategory.value in NegativeCategories))
  {
    if a.primaryEmotion == Some("부정") then Ok(true)
    else if a.emotionCategory.None? then Err("NullPointerException")
    else Ok(a.emotionCategory.value in NegativeCategories)
  }

  /** Some trigger word occurs inside `keyword`
      (`welfareKeywords.stream().anyMatch(keyword::contains)`). */
  predicate HasTrigger(keyword: string) {
    exists j :: 0 <= j < |TriggerKeywords| && Contains(keyword, TriggerKeywords[j])
  }

  /** `keywords.stream().anyMatch(...)` over the profile's keywords. */
  predicate AnyKeywordTriggers(keywords: seq<string>) {
    exists i :: 0 <= i < |keywords| && HasTrigger(keywords[i])
  }

  /** `needsWelfareRecommendation`: a negative profile, or a keyword containing
      a trigger word. A null keyword list is a NullPointerException when the
      profile is not negative. */
  function NeedsWelfareRecommendation(a: EmotionAnalysisResult): (r: Result<bool>)
    ensures r == Ok(true) <==>
      IsNegativeEmotion(a) == Ok(true)
      || (IsNegativeEmotion(a) == Ok(false) && a.keywords.Some?
          && exists i, j :: 0 <= i < |a.keywords.value| && 0 <= j < |TriggerKeywords|
                            && Contains(a.keywords.value[i], TriggerKeywords[j]))
    ensures r.Err? <==>
      IsNegativeEmotion(a).Err? || (IsNegativeEmotion(a) == Ok(false) && a.keywords.None?)
  {
    match IsNegativeEmotion(a)
    case Err(m) => Err(m)
    case Ok(neg) =>
      if neg then Ok(true)
      else if a.keywords.None? then Err("NullPointerException")
      else Ok(AnyKeywordTriggers(a.keywords.value))
  }

  /** The fallback profile is neutral and none of its keywords holds a
      trigger word, so a response that falls back never leads to a
      recommendation. */
  lemma FallbackNeedsNoRecommendation()
    ensures NeedsWelfareRecommendation(Fallback) == Ok(false)
  {
    NoTriggerIn("일상");
    NoTriggerIn("생활");
    var ks := Fallback.keywords.value;
    assert forall i :: 0 <= i < |ks| ==> ks[i] == "일상" || ks[i] == "생활";
  }

  /** Neither fallback keyword holds a trigger word: every trigger word but
      "책" has two characters or more and differs from both. */
  lemma NoTriggerIn(s: string)
    requires s == "일상" || s == "생활"
    ensures !HasTrigger(s)
  {
    assert forall j :: 0 <= j < |TriggerKeywords| ==>
      TriggerKeywords[j] != s
      && (|TriggerKeywords[j]| >= 2 || (|TriggerKeywords[j]| == 1 && TriggerKeywords[j][0] !in s));
    forall j | 0 <= j < |TriggerKeywords|
      ensures !Contains(s, TriggerKeywords[j])
    {
      ContainsShort(s, TriggerKeywords[j]);
    }
  }

  /** A word found in a string is no longer than it, equals it when as long,
      and a one-character word is one of its characters. */
  lemma ContainsShort(s: string, needle: string)
    ensures Contains(s, needle) ==>
      |needle| <= |s| && (|needle| == |s| ==> needle == s) && (|needle| == 1 ==> needle[0] in s)
  {
    ContainsIff(s, needle);
    if Contains(s, needle) {
      var i :| 0 <= i <= |s| && StartsWith(s[i..], needle);
      if |needle| == 1 {
        assert s[i..][0] == s[i];
      }
    }
  }

  // ---------------------------------------------------------------------
  // Field extraction: `KEY:\s*(.+?)(?=\n[A-Z_]+:|$)` with DOTALL, first match

  /** `\s`: space, tab, line feed, vertical tab, form feed, carriage return. */
  predicate IsRegexSpace(c: char) {
    c == ' ' || c == '\t' || c == '\n' || c == '\U{000B}' || c == '\U{000C}' || c == '\r'
  }

  /** The line terminators `$` recognises. */
  predicate IsLineTerminator(c: char) {
    c == '\n' || c == '\r' || c == '\U{0085}' || c == '\U{2028}' || c == '\U{2029}'
  }

  /** `[A-Z_]` */
  predicate IsLabelChar(c: char) {
    ('A' <= c <= 'Z') || c == '_'
  }

  /** `$` without MULTILINE holds at the end of the input, before a final
      line terminator (but not between the two characters of a final
      "\r\n"), and before a final "\r\n". */
  predicate DollarAt(text: string, e: nat)
    requires e <= |text|
  {
    e == |text|
    || (e == |text| - 1 && IsLineTerminator(text[e]) && !(text[e] == '\n' && e > 0 && text[e - 1] == '\r'))
    || (e + 2 == |text| && text[e] == '\r' && text[e + 1] == '\n')
  }

  /** The end of the run of label characters starting at `k`. */
  function LabelEnd(text: string, k: nat): (m: nat)
    requires k <= |text|
    ensures k <= m <= |text|
    ensures forall i :: k <= i < m ==> IsLabelChar(text[i])
    ensures m == |text| || !IsLabelChar(text[m])
    decreases |text| - k
  {
    if k < |text| && IsLabelChar(text[k]) then LabelEnd(text, k + 1) else k
  }

  /** `\n[A-Z_]+:` matches at `e`. */
  predicate LabelAt(text: string, e: nat) {
    e + 1 < |text| && text[e] == '\n' && IsLabelChar(text[e + 1])
    && LabelEnd(text, e + 1) < |text| && text[LabelEnd(text, e + 1)] == ':'
  }

  /** The lookahead `(?=\n[A-Z_]+:|$)` holds at `e`. */
  predicate LookaheadAt(text: string, e: nat)
    requires e <= |text|
  {
    LabelAt(text, e) || DollarAt(text, e)
  }

  /** Where the lazy group stops when it may stop at `e` at the earliest:
      the first position from `e` on where the lookahead holds. */
  function GroupEnd(text: string, e: nat): (r: nat)
    requires e <= |text|
    ensures e <= r <= |text| && LookaheadAt(text, r)
    ensures forall k :: e <= k < r ==> !LookaheadAt(text, k)
    decreases |text| - e
  {
    if LookaheadAt(text, e) then e else GroupEnd(text, e + 1)
  }

  /** The end of the run of `\s` characters starting at `j` (greedy `\s*`). */
  function SkipSpaces(text: string, j: nat): (k: nat)
    requires j <= |text|
    ensures j <= k <= |text|
    ensures forall i :: j <= i < k ==> SpaceAt(text, i)
    ensures !SpaceAt(text, k)
    decreases |text| - j
  {
    if SpaceAt(text, j) then SkipSpaces(text, j + 1) else j
  }

  /** Position `i` holds a `\s` character. */
  predicate SpaceAt(text: string, i: int) {
    0 <= i < |text| && IsRegexSpace(text[i])
  }

  /** `pat` occurs at position `k`. */
  predicate MatchAt(text: string, k: int, pat: string) {
    0 <= k <= |text| && StartsWith(text[k..], pat)
  }

  /** The first position at or after `i` where `pat` occurs. */
  function FirstFrom(text: string, pat: string, i: nat): (r: Option<int>)
    requires i <= |text|
    ensures r.Some? ==> i <= r.value <= |text| && MatchAt(text, r.value, pat)
                        && forall k :: i <= k < r.value ==> !MatchAt(text, k, pat)
    ensures r.None? ==> forall k :: i <= k <= |text| ==> !MatchAt(text, k, pat)
    decreases |text| - i
  {
    if MatchAt(text, i, pat) then Some(i)
    else if i == |text| then None
    else FirstFrom(text, pat, i + 1)
  }

  /** The group `(.+?)` when it starts at `g`. */
  function Group(text: string, g: nat): string
    requires g < |text|
  {
    text[g..GroupEnd(text, g + 1)]
  }

  /** What the pattern captures once "KEY:" has matched and `j` is the
      position after the colon: the greedy `\s*` then the lazy group; when
      nothing but blanks follows, `\s*` gives one blank back to the group;
      when nothing follows at all, there is no match here. */
  function ValueFrom(text: string, j: nat): (r: Option<string>)
    requires j <= |text|
    ensures r.Some? ==> Trim(r.value) == r.value
  {
    var g := SkipSpaces(text, j);
    if g < |text| then
      var v := Trim(Group(text, g));
      TrimNoop(v);
      Some(v)
    else if j < g then
      TrimNoop("");
      Some("")
    else None
  }

  /** `extractValue(text, key)`: the trimmed group of the first match, or
      null. The pattern is tried at every occurrence of "KEY:" in turn, and
      only an occurrence that ends the text fails to match; no later
      occurrence can follow that one. */
  function ExtractValue(text: string, key: string): (r: Option<string>)
    ensures r.Some? ==> Trim(r.value) == r.value
  {
    ReadAfter(text, key + ":", ValueReader)
  }

  /** What `read` gives just after the first occurrence of `pat`, or null. */
  function ReadAfter(text: string, pat: string, read: (string, int) -> Option<string>): Option<string> {
    match FirstFrom(text, pat, 0)
    case None => None
    case Some(i) => read(text, i + |pat|)
  }

  lemma ReadAfterFirst(text: string, pat: string, read: (string, int) -> Option<string>, i: int, j: int, v: string)
    requires FirstFrom(text, pat, 0) == Some(i) && j == i + |pat|
    requires read(text, j) == Some(v)
    ensures ReadAfter(text, pat, read) == Some(v)
  {
  }

  /** `ValueFrom` wherever the position is inside the text. */
  function ValueReader(text: string, j: int): (r: Option<string>)
    ensures r.Some? ==> Trim(r.value) == r.value
  {
    if 0 <= j <= |text| then ValueFrom(text, j) else None
  }

  /** The value is null exactly when every occurrence of "KEY:" ends the text
      (in particular when there is none). */
  lemma ExtractValueNone(text: string, key: string)
    ensures ExtractValue(text, key).None? <==>
      forall i :: 0 <= i <= |text| && StartsWith(text[i..], key + ":") ==> i + |key| + 1 == |text|
  {
    var pat := key + ":";
    match FirstFrom(text, pat, 0)
    case Some(i) =>
      var j := i + |key| + 1;
      if j == |text| {
        forall i' | 0 <= i' <= |text| && StartsWith(text[i'..], pat)
          ensures i' + |key| + 1 == |text|
        {
          assert MatchAt(text, i', pat);
          assert !(i' < i);
        }
      } else {
        assert MatchAt(text, i, pat);
      }
    case None =>
      forall i' | 0 <= i' <= |text| && StartsWith(text[i'..], pat)
        ensures false
      {
        assert MatchAt(text, i', pat);
      }
  }

  /** A label found in the text: the end of its run of label characters
      does not move when text is put in front. */
  lemma {:induction false} LabelEndShift(a: string, b: string, k: nat)
    requires k <= |b|
    ensures LabelEnd(a + b, |a| + k) == |a| + LabelEnd(b, k)
    decreases |b| - k
  {
    if k < |b| && IsLabelChar(b[k]) {
      LabelEndShift(a, b, k + 1);
    }
  }

  lemma LabelAtShift(a: string, b: string)
    requires LabelAt(b, 0)
    ensures LabelAt(a + b, |a|)
  {
    LabelEndShift(a, b, 1);
  }

  /** An occurrence that is the first in a prefix stays the first when text
      is appended. */
  lemma FirstFromExtend(a: string, b: string, pat: string, i: nat)
    requires FirstFrom(a, pat, 0) == Some(i) && i + |pat| <= |a|
    ensures FirstFrom(a + b, pat, 0) == Some(i)
  {
    var t := a + b;
    StartsWithAppend(a, b, pat, i);
    assert MatchAt(a, i, pat);
    assert MatchAt(t, i, pat);
    forall k | 0 <= k < i
      ensures !MatchAt(t, k, pat)
    {
      assert !MatchAt(a, k, pat);
      StartsWithAppend(a, b, pat, k);
    }
    var r := FirstFrom(t, pat, 0);
    assert r.Some? && r.value <= i;
    assert !(r.value < i);
  }

  /** The line a well-formed response writes for a key: when "KEY:" first
      occurs where it is written, is followed by one blank and a value with
      no outer spaces and no line break, and the value is followed by the
      next label line or the end of the response, the value comes back. */
  lemma ExtractValueLine(pre: string, key: string, v: string, rest: string)
    requires FirstFrom(pre + key + ":", key + ":", 0) == Some(|pre|)
    requires IsCleanItem(v)
    requires forall c :: c in v ==> !IsLineTerminator(c)
    requires rest == "" || LabelAt(rest, 0)
    ensures ExtractValue(pre + key + ": " + v + rest, key) == Some(v)
  {
    var text := pre + key + ": " + v + rest;
    var g := |pre| + |key| + 2;
    LineStart(pre, key, v, rest);
    MatchFits(text, key, |pre|);
    LineGroup(pre + key + ": ", v, rest);
    ExtractChain(text, key, |pre|, g, v);
  }

  /** The steps of `ExtractValue` once the match, the end of the blanks and
      the group are known. */
  lemma ExtractChain(text: string, key: string, i: nat, g: nat, v: string)
    requires FirstFrom(text, key + ":", 0) == Some(i) && i + |key| + 1 <= |text|
    requires SkipSpaces(text, i + |key| + 1) == g && g < |text|
    requires Group(text, g) == v && Trim(v) == v
    ensures ExtractValue(text, key) == Some(v)
  {
    var j := i + |key| + 1;
    ValueFromAt(text, j, g);
    assert ValueReader(text, j) == Some(v);
    ReadAfterFirst(text, key + ":", ValueReader, i, j, v);
  }

  lemma MatchFits(text: string, key: string, i: nat)
    requires FirstFrom(text, key + ":", 0) == Some(i)
    ensures i + |key| + 1 <= |text|
  {
    var pat := key + ":";
    assert |pat| == |key| + 1;
    assert MatchAt(text, i, pat);
  }

  /** When text remains after the blanks, the value is its first line,
      trimmed. */
  lemma ValueFromAt(text: string, j: nat, g: nat)
    requires j <= |text| && SkipSpaces(text, j) == g && g < |text|
    ensures ValueFrom(text, j) == Some(Trim(Group(text, g)))
  {
  }

  /** The group that starts at a value is the value. */
  lemma LineGroup(head: string, v: string, rest: string)
    requires v != []
    requires forall c :: c in v ==> !IsLineTerminator(c)
    requires rest == "" || LabelAt(rest, 0)
    ensures |head| < |head + v + rest| && Group(head + v + rest, |head|) == v
  {
    var text := head + v + rest;
    LineBody(head, v, rest);
    GroupEndIs(text, |head| + 1, |head| + |v|);
  }

  /** "KEY: " opens the line: the first "KEY:" is where it is written and
      the blanks after it end where the value starts. */
  lemma LineStart(pre: string, key: string, v: string, rest: string)
    requires FirstFrom(pre + key + ":", key + ":", 0) == Some(|pre|)
    requires IsCleanItem(v)
    ensures FirstFrom(pre + key + ": " + v + rest, key + ":", 0) == Some(|pre|)
    ensures |pre| + |key| + 2 < |pre + key + ": " + v + rest|
    ensures SkipSpaces(pre + key + ": " + v + rest, |pre| + |key| + 1) == |pre| + |key| + 2
  {
    var a := pre + key + ":";
    var text := pre + key + ": " + v + rest;
    assert text == a + (" " + v + rest);
    FirstFromExtend(a, " " + v + rest, key + ":", |pre|);
    var g := |a| + 1;
    assert text[g - 1] == ' ' && text[g] == v[0];
  }

  /** A value and what follows it: the lookahead first holds where the value
      ends. */
  lemma LineBody(head: string, v: string, rest: string)
    requires forall c :: c in v ==> !IsLineTerminator(c)
    requires rest == "" || LabelAt(rest, 0)
    ensures (head + v + rest)[|head|..|head| + |v|] == v
    ensures LookaheadAt(head + v + rest, |head| + |v|)
    ensures forall k :: |head| <= k < |head| + |v| ==> !LookaheadAt(head + v + rest, k)
  {
    var text := head + v + rest;
    assert text[|head|..|head| + |v|] == v;
    ValueHasNoLookahead(text, |head|, v);
    LineEnds(head + v, rest);
  }

  /** Inside a value without line terminators the lookahead never holds. */
  lemma ValueHasNoLookahead(text: string, g: nat, v: string)
    requires g + |v| <= |text| && text[g..g + |v|] == v
    requires forall c :: c in v ==> !IsLineTerminator(c)
    ensures forall k :: g <= k < g + |v| ==> !LookaheadAt(text, k)
  {
    forall k | g <= k < g + |v|
      ensures !LookaheadAt(text, k)
    {
      assert text[k] == v[k - g];
      assert !IsLineTerminator(text[k]);
    }
  }

  /** After a line comes the end of the response or the next label line. */
  lemma LineEnds(line: string, rest: string)
    requires rest == "" || LabelAt(rest, 0)
    ensures LookaheadAt(line + rest, |line|)
  {
    if rest != "" {
      LabelAtShift(line, rest);
    }
  }

  lemma GroupEndIs(text: string, e: nat, r: nat)
    requires e <= r <= |text| && LookaheadAt(text, r)
    requires forall k :: e <= k < r ==> !LookaheadAt(text, k)
    ensures GroupEnd(text, e) == r
  {
  }

  // ---------------------------------------------------------------------
  // Parsing a response (`parseEmotionAnalysis`, `analyzeEmotion`)

  /** A list field: split on ",", items trimmed, empty items dropped. */
  function SplitList(s: string): (r: seq<string>)
    ensures forall k :: 0 <= k < |r| ==> IsCleanItem(r[k])
  {
    TrimAndDropEmpty(Split(s, ','))
  }

  function SplitField(f: Option<string>): (r: Option<seq<string>>)
    ensures r.Some? <==> f.Some?
  {
    if f.None? then None else Some(SplitList(f.value))
  }

  /** `parseEmotionAnalysis(response)`. Without an EMOTION_SCORE line,
      `Double.parseDouble(null)` throws a NullPointerException, which the
      outer handler turns into the fallback profile; a score that is not a
      number becomes 0.5. */
  function ParseEmotionAnalysis(response: string): (r: EmotionAnalysisResult)
    ensures ExtractValue(response, "EMOTION_SCORE").None? ==> r == Fallback
    ensures r.keywords.Some? ==> forall k :: 0 <= k < |r.keywords.value| ==> IsCleanItem(r.keywords.value[k])
    ensures r.recommendedCategories.Some? ==>
      forall k :: 0 <= k < |r.recommendedCategories.value| ==> IsCleanItem(r.recommendedCategories.value[k])
  {
    var score := ExtractValue(response, "EMOTION_SCORE");
    if score.None? then CreateFallbackAnalysis("")
    else
      EmotionAnalysisResult(
        ExtractValue(response, "PRIMARY_EMOTION"),
        ParseDouble(score.value).GetOr(0.5),
        SplitField(ExtractValue(response, "KEYWORDS")),
        ExtractValue(response, "EMOTION_CATEGORY"),
        ExtractValue(response, "ANALYSIS"),
        SplitField(ExtractValue(response, "RECOMMENDED_CATEGORIES")))
  }

  /** With a score line present every other field is what its own line
      holds, whatever the score says; an unreadable score is 0.5. */
  lemma ParseKeepsFields(response: string)
    requires ExtractValue(response, "EMOTION_SCORE").Some?
    ensures var r := ParseEmotionAnalysis(response);
      && r.primaryEmotion == ExtractValue(response, "PRIMARY_EMOTION")
      && r.emotionCategory == ExtractValue(response, "EMOTION_CATEGORY")
      && r.analysisText == ExtractValue(response, "ANALYSIS")
      && (r.keywords.Some? <==> ExtractValue(response, "KEYWORDS").Some?)
      && (r.recommendedCategories.Some? <==> ExtractValue(response, "RECOMMENDED_CATEGORIES").Some?)
      && (ParseDouble(ExtractValue(response, "EMOTION_SCORE").value).None? ==> r.emotionScore == 0.5)
  {
  }

  /** `analyzeEmotion(text)`: ask the generator, parse what it answers. */
  function AnalyzeEmotion(text: string, generate: Prompt -> string): (r: EmotionAnalysisResult)
    ensures r == ParseEmotionAnalysis(generate(EmotionPrompt(text)))
  {
    ParseEmotionAnalysis(generate(EmotionPrompt(text)))
  }

  /** A list written as items separated by ", " splits back into the items,
      when they have no outer spaces, are not empty and hold no comma. */
  lemma SplitListJoin(xs: seq<string>)
    requires forall k :: 0 <= k < |xs| ==> IsCleanItem(xs[k]) && ',' !in xs[k]
    ensures SplitList(Join(", ", xs)) == xs
  {
    SplitPadded("", xs);
    assert "" + Join(", ", xs) == Join(", ", xs);
  }

  lemma {:induction false} SplitPadded(p: string, xs: seq<string>)
    requires p == "" || p == " "
    requires forall k :: 0 <= k < |xs| ==> IsCleanItem(xs[k]) && ',' !in xs[k]
    ensures TrimAndDropEmpty(Split(p + Join(", ", xs), ',')) == xs
    decreases |xs|
  {
    if |xs| == 0 {
      SplitPaddedEmpty(p);
    } else if |xs| == 1 {
      assert Join(", ", xs) == xs[0];
      SplitPaddedLast(p, xs[0]);
      assert [xs[0]] == xs;
    } else {
      var x, rest := xs[0], xs[1..];
      assert xs == [x] + rest;
      assert forall k :: 0 <= k < |rest| ==> rest[k] == xs[k + 1];
      SplitPadded(" ", rest);
      SplitPaddedStep(p, x, rest);
    }
  }

  lemma SplitPaddedEmpty(p: string)
    requires p == "" || p == " "
    ensures TrimAndDropEmpty(Split(p + Join(", ", []), ',')) == []
  {
    assert p + Join(", ", []) == p;
    SplitNoSep(p, ',');
    IsBlankIff(p);
    assert [p][1..] == [];
  }

  lemma SplitPaddedLast(p: string, x: string)
    requires p == "" || p == " "
    requires IsCleanItem(x) && ',' !in x
    ensures TrimAndDropEmpty(Split(p + x, ',')) == [x]
  {
    var s := p + x;
    NoCommaPadded(p, x);
    SplitNoSep(s, ',');
    TrimPad(p, x);
    DropCons(s, []);
    assert [s] + [] == [s];
  }

  lemma NoCommaPadded(p: string, x: string)
    requires p == "" || p == " "
    requires ',' !in x
    ensures ',' !in p + x
  {
    if p == "" {
      assert p + x == x;
    } else {
      assert p + x == [' '] + x;
    }
  }

  lemma SplitPaddedStep(p: string, x: string, xs: seq<string>)
    requires p == "" || p == " "
    requires IsCleanItem(x) && ',' !in x
    requires |xs| >= 1
    ensures TrimAndDropEmpty(Split(p + Join(", ", [x] + xs), ','))
         == [x] + TrimAndDropEmpty(Split(" " + Join(", ", xs), ','))
  {
    var j := Join(", ", xs);
    assert ([x] + xs)[1..] == xs;
    assert p + Join(", ", [x] + xs) == (p + x) + [','] + (" " + j);
    NoCommaPadded(p, x);
    SplitPrefix(p + x, " " + j, ',');
    TrimPad(p, x);
    DropCons(p + x, Split(" " + j, ','));
  }

  /** A head whose trimmed form is not empty is kept, trimmed. */
  lemma DropCons(a: string, rest: seq<string>)
    requires Trim(a) != ""
    ensures TrimAndDropEmpty([a] + rest) == [Trim(a)] + TrimAndDropEmpty(rest)
  {
    assert ([a] + rest)[0] == a;
    assert ([a] + rest)[1..] == rest;
  }

  /** A clean item keeps its value when a blank is put before it. */
  lemma TrimPad(p: string, x: string)
    requires p == "" || p == " "
    requires IsCleanItem(x)
    ensures Trim(p + x) == x
  {
    if p == " " {
      var s := p + x;
      assert s[1..] == x;
      assert !BlankAt(s, 1) && LeadEnd(s, 0) == 1;
      assert !BlankAt(s, |s| - 1) && TailStart(s, |s|) == |s|;
    } else {
      assert p + x == x;
    }
  }

  // ---------------------------------------------------------------------
  // Button-based profile (`analyzeButtonBasedEmotion`)

  /** The emotion words the button path reads as positive and as negative. */
  const PositiveWords: seq<string> :=
    ["행복", "뿌듯함", "즐거움", "설렘", "여유로움", "활기참", "안도감", "차분함", "기특함"]

  const NegativeWords: seq<string> :=
    ["서운함", "불안함", "짜증남", "초조함", "실망", "후회", "우울함", "슬픔", "지침", "답답함"]

  /** Emotions for which "상담" (counselling) is recommended first. */
  const CounsellingEmotions: seq<string> := ["우울함", "슬픔", "스트레스", "불안함"]

  /** The primary emotion, score and category set from the emotion button. */
  datatype Polarity = Polarity(primary: string, score: real, category: string)

  function ButtonPolarity(emotion: string): Polarity {
    if emotion in PositiveWords then Polarity("긍정", 0.8, "행복")
    else if emotion in NegativeWords then Polarity("부정", 0.3, "스트레스")
    else Polarity("중립", 0.5, "평온")
  }

  const DefaultActivityKeywords: seq<string> := ["활동", "여가", "문화"]

  /** `addWishActivityKeywords`: the words added for a wish activity. */
  function ActivityKeywords(activity: string): seq<string> {
    if activity == "독서하기" then ["독서", "교육", "학습", "문화"]
    else if activity == "요리하기" then ["요리", "창작", "가족", "활동"]
    else if activity == "그림그리기" then ["예술", "창작", "문화", "표현"]
    else if activity == "노래부르기" then ["음악", "예술", "문화", "표현"]
    else if activity == "운동하기" then ["운동", "건강", "활력", "활동"]
    else if activity == "영화보기" then ["문화", "여가", "감상", "체험"]
    else if activity == "카페가기" || activity == "맛집가기" then ["여가", "문화", "소통", "활동"]
    else if activity == "산책하기" || activity == "꽃구경" then ["자연", "여가", "힐링", "활동"]
    else if activity == "사진찍기" then ["예술", "창작", "문화", "기록"]
    else if activity == "게임하기" then ["놀이", "즐거움", "활동", "여가"]
    else if activity == "음악듣기" then ["음악", "문화", "여가", "감상"]
    else DefaultActivityKeywords
  }

  /** `addPersonalityKeywords`: six words per personality type. */
  function PersonalityKeywords(t: PersonalityType): seq<string> {
    match t
    case LogicalBlue => ["분석", "논리", "교육", "과학", "문제해결", "학습"]
    case EmotionalRed => ["공감", "소통", "가족", "상담", "감정표현", "만남"]
    case ControlGray => ["지도", "교육", "리더십", "보호", "관리", "책임"]
    case IndependentNavy => ["자율", "독립", "개별", "자유", "선택", "취미"]
    case AffectionateYellow => ["표현", "애정", "소통", "가족", "활동", "즐거움"]
    case IntrospectiveGreen => ["내면", "독서", "사색", "개인", "깊이", "조용"]
  }

  /** The activity part of `generateRecommendedCategories`. */
  function ActivityCategories(activity: string): seq<string> {
    if activity == "독서하기" then ["문화", "교육", "독서"]
    else if activity == "요리하기" then ["문화", "창작", "가족"]
    else if activity == "그림그리기" || activity == "사진찍기" then ["문화", "예술", "창작"]
    else if activity == "노래부르기" || activity == "음악듣기" then ["문화", "예술", "음악"]
    else if activity == "운동하기" then ["운동", "건강", "활동"]
    else if activity == "영화보기" || activity == "게임하기" then ["문화", "여가", "활동"]
    else if activity == "산책하기" || activity == "꽃구경" then ["여가", "자연", "힐링"]
    else ["문화", "여가", "활동"]
  }

  /** `addPersonalityCategories`: three categories per personality type. */
  function PersonalityCategories(t: PersonalityType): seq<string> {
    match t
    case LogicalBlue => ["교육", "과학", "역사"]
    case EmotionalRed => ["상담", "가족", "소통"]
    case ControlGray => ["교육", "리더십", "관리"]
    case IndependentNavy => ["취미", "개인활동", "자율학습"]
    case AffectionateYellow => ["가족", "소통", "표현"]
    case IntrospectiveGreen => ["독서", "사색", "개인성장"]
  }

  function OptionalKeywords(t: Option<PersonalityType>): seq<string> {
    if t.Some? then PersonalityKeywords(t.value) else []
  }

  function OptionalCategories(t: Option<PersonalityType>): seq<string> {
    if t.Some? then PersonalityCategories(t.value) else []
  }

  /** The keyword list: emotion, activity, the activity's words, then the
      personality's words. */
  function ButtonKeywords(emotion: string, activity: string, t: Option<PersonalityType>): seq<string> {
    [emotion, activity] + ActivityKeywords(activity) + OptionalKeywords(t)
  }

  /** `generateRecommendedCategories(emotion, activity, t)` */
  function ButtonCategories(emotion: string, activity: string, t: Option<PersonalityType>): seq<string> {
    (if emotion in CounsellingEmotions then ["상담"] else [])
      + ActivityCategories(activity) + OptionalCategories(t)
  }

  function MoodSentence(emotion: string): string {
    if emotion in PositiveWords then "긍정적인 감정 상태로 보입니다. "
    else if emotion in NegativeWords then "부정적인 감정 상태로 보입니다. "
    else ""
  }

  function ActivityAdvice(activity: string): string {
    if activity == "독서하기" then "지식과 문화를 향상시킬 수 있는 프로그램을 추천합니다."
    else if activity == "요리하기" then "창의적이고 실용적인 활동 프로그램을 추천합니다."
    else if activity == "그림그리기" || activity == "사진찍기" then "예술적 표현과 창작 활동 프로그램을 추천합니다."
    else if activity == "운동하기" then "건강 증진과 활력 회복 프로그램을 추천합니다."
    else if activity == "영화보기" || activity == "게임하기" then "여가와 문화 활동 프로그램을 추천합니다."
    else "다양한 문화 활동 프로그램을 추천합니다."
  }

  /** `generateButtonBasedAnalysis(emotion, activity)` */
  function ButtonAnalysisText(emotion: string, activity: string): string {
    MoodSentence(emotion) + "희망 활동 '" + activity + "'을 통해 " + ActivityAdvice(activity)
  }

  /** The profile the button path builds from non-null buttons. */
  function ButtonProfile(emotion: string, activity: string, t: Option<PersonalityType>): EmotionAnalysisResult {
    var p := ButtonPolarity(emotion);
    EmotionAnalysisResult(
      Some(p.primary), p.score, Some(ButtonKeywords(emotion, activity, t)), Some(p.category),
      Some(ButtonAnalysisText(emotion, activity)), Some(ButtonCategories(emotion, activity, t)))
  }

  /** `analyzeButtonBasedEmotion(emotion, activity, personality)`, building
      its two lists step by step. A null emotion makes `List.of(..).contains`
      throw, a null activity makes the `switch` on it throw. */
  method AnalyzeButtonBasedEmotion(emotion: Option<string>, activity: Option<string>,
                                   personality: Option<PersonalityType>)
    returns (r: Result<EmotionAnalysisResult>)
    ensures r.Err? <==> emotion.None? || activity.None?
    ensures r.Ok? ==> r.value == ButtonProfile(emotion.value, activity.value, personality)
  {
    if emotion.None? || activity.None? {
      return Err("NullPointerException");
    }
    var e := emotion.value;
    var a := activity.value;
    var polarity := ButtonPolarity(e);
    var keywords := BuildButtonKeywords(e, a, personality);
    var categories := BuildButtonCategories(e, a, personality);
    r := Ok(EmotionAnalysisResult(Some(polarity.primary), polarity.score, Some(keywords),
                                  Some(polarity.category), Some(ButtonAnalysisText(e, a)), Some(categories)));
  }

  /** The keyword list of the button path, appended piece by piece. */
  method BuildButtonKeywords(e: string, a: string, personality: Option<PersonalityType>) returns (keywords: seq<string>)
    ensures keywords == ButtonKeywords(e, a, personality)
  {
    keywords := [e];
    keywords := keywords + [a];
    keywords := keywords + ActivityKeywords(a);
    if personality.Some? {
      keywords := keywords + PersonalityKeywords(personality.value);
    }
  }

  /** The category list of the button path, appended piece by piece. */
  method BuildButtonCategories(e: string, a: string, personality: Option<PersonalityType>) returns (categories: seq<string>)
    ensures categories == ButtonCategories(e, a, personality)
  {
    categories := [];
    if e in CounsellingEmotions {
      categories := categories + ["상담"];
    }
    categories := categories + ActivityCategories(a);
    if personality.Some? {
      categories := categories + PersonalityCategories(personality.value);
    }
  }

  /** The button path's word lists are the Korean names of the positive and
      of the negative emotion keywords, in declaration order. */
  lemma WordListsAgree()
    ensures PositiveWords == EmotionKeywords.PositiveEmotionNames()
    ensures NegativeWords == EmotionKeywords.NegativeEmotionNames()
  {
    EmotionKeywords.PolarityPartition();
    WordsByIndex();
    NamesAre(PositiveWords, EmotionKeywords.PositiveConstants);
    NamesAre(NegativeWords, EmotionKeywords.NegativeConstants);
  }

  lemma WordsByIndex()
    ensures |PositiveWords| == |EmotionKeywords.PositiveConstants|
    ensures forall i :: 0 <= i < |PositiveWords| ==>
      PositiveWords[i] == EmotionKeywords.PositiveConstants[i].KoreanName()
    ensures |NegativeWords| == |EmotionKeywords.NegativeConstants|
    ensures forall i :: 0 <= i < |NegativeWords| ==>
      NegativeWords[i] == EmotionKeywords.NegativeConstants[i].KoreanName()
  {
  }

  lemma NamesAre(ws: seq<string>, ks: seq<EmotionKeywords.EmotionKeyword>)
    requires |ws| == |ks| && forall i :: 0 <= i < |ws| ==> ws[i] == ks[i].KoreanName()
    ensures ws == EmotionKeywords.NamesOf(ks)
  {
  }

  /** The position of a positive constant among the positive constants. */
  function PositiveIndex(k: EmotionKeywords.EmotionKeyword): (i: nat)
    requires k.IsPositive()
    ensures i < |EmotionKeywords.PositiveConstants| && EmotionKeywords.PositiveConstants[i] == k
  {
    match k
    case Happy => 0 case Proud => 1 case Joyful => 2 case Excited => 3 case Relaxed => 4
    case Energetic => 5 case Relieved => 6 case Calm => 7 case Pleased => 8
  }

  /** The position of a negative constant among the negative constants. */
  function NegativeIndex(k: EmotionKeywords.EmotionKeyword): (i: nat)
    requires k.IsNegative()
    ensures i < |EmotionKeywords.NegativeConstants| && EmotionKeywords.NegativeConstants[i] == k
  {
    match k
    case Disappointed => 0 case Anxious => 1 case Annoyed => 2 case Impatient => 3
    case Regretful => 4 case Remorseful => 5 case Depressed => 6 case Sad => 7
    case Tired => 8 case Frustrated => 9
  }

  /** An emotion keyword's name is in the positive list exactly when the
      keyword is positive, and in the negative list exactly when negative. */
  lemma KeywordInWords(k: EmotionKeywords.EmotionKeyword)
    ensures k.IsPositive() <==> k.KoreanName() in PositiveWords
    ensures k.IsNegative() <==> k.KoreanName() in NegativeWords
  {
    WordsByIndex();
    EmotionKeywords.ExactlyOnePolarity(k);
    EmotionKeywords.PositiveConstantsArePositive();
    EmotionKeywords.NegativeConstantsAreNegative();
    if k.IsPositive() {
      assert PositiveWords[PositiveIndex(k)] == k.KoreanName();
    } else {
      assert NegativeWords[NegativeIndex(k)] == k.KoreanName();
    }
    if k.KoreanName() in PositiveWords {
      var i :| 0 <= i < |PositiveWords| && PositiveWords[i] == k.KoreanName();
      EmotionKeywords.NameInjective(EmotionKeywords.PositiveConstants[i], k);
    }
    if k.KoreanName() in NegativeWords {
      var i :| 0 <= i < |NegativeWords| && NegativeWords[i] == k.KoreanName();
      EmotionKeywords.NameInjective(EmotionKeywords.NegativeConstants[i], k);
    }
  }

  /** Every emotion button gets the polarity of its keyword: positive ones
      score 0.8 under "행복", negative ones 0.3 under "스트레스". */
  lemma ButtonPolarityOfKeyword(k: EmotionKeywords.EmotionKeyword)
    ensures k.IsPositive() ==> ButtonPolarity(k.KoreanName()) == Polarity("긍정", 0.8, "행복")
    ensures k.IsNegative() ==> ButtonPolarity(k.KoreanName()) == Polarity("부정", 0.3, "스트레스")
  {
    KeywordInWords(k);
    EmotionKeywords.ExactlyOnePolarity(k);
  }

  /** A word that names no emotion keyword is neutral: 0.5 under "평온". */
  lemma ButtonPolarityUnknown(emotion: string)
    requires EmotionKeywords.FromKoreanName(emotion).None?
    ensures ButtonPolarity(emotion) == Polarity("중립", 0.5, "평온")
  {
    assert forall k :: k in EmotionKeywords.Values ==> k.KoreanName() != emotion;
    assert forall i :: 0 <= i < 9 ==> EmotionKeywords.Values[i] == EmotionKeywords.PositiveConstants[i];
    assert forall i :: 0 <= i < 10 ==> EmotionKeywords.Values[9 + i] == EmotionKeywords.NegativeConstants[i];
    WordsByIndex();
  }

  /** The keyword list starts with the two button values, adds three or four
      activity words and, with a personality, six more. */
  lemma ButtonKeywordsShape(emotion: string, activity: string, t: Option<PersonalityType>)
    ensures var ks := ButtonKeywords(emotion, activity, t);
      && ks[0] == emotion && ks[1] == activity
      && 3 <= |ActivityKeywords(activity)| <= 4
      && |ks| == 2 + |ActivityKeywords(activity)| + (if t.Some? then 6 else 0)
      && ks[2..2 + |ActivityKeywords(activity)|] == ActivityKeywords(activity)
  {
  }

  /** Four wish activities have no words of their own and fall to the
      default list: 청소하기, 일기쓰기, 잠자기 and 장보기. */
  lemma DefaultActivityCluster(w: WishActivities.WishActivity)
    ensures ActivityKeywords(w.KoreanName()) == DefaultActivityKeywords
      <==> w.Cleaning? || w.WritingDiary? || w.Sleeping? || w.Shopping?
  {
    if w.Cleaning? || w.WritingDiary? || w.Sleeping? || w.Shopping? {
      DefaultActivities(w);
    } else {
      NamedActivities(w);
    }
  }

  lemma DefaultActivities(w: WishActivities.WishActivity)
    requires w.Cleaning? || w.WritingDiary? || w.Sleeping? || w.Shopping?
    ensures ActivityKeywords(w.KoreanName()) == DefaultActivityKeywords
  {
  }

  lemma NamedActivities(w: WishActivities.WishActivity)
    requires !(w.Cleaning? || w.WritingDiary? || w.Sleeping? || w.Shopping?)
    ensures |ActivityKeywords(w.KoreanName())| == 4
  {
    match w
    case Walking =>
    case Cooking =>
    case Reading =>
    case Drawing =>
    case Singing =>
    case Cafe =>
    case Exercising =>
    case TakingPhotos =>
    case FlowerViewing =>
    case WatchingMovie =>
    case Restaurant =>
    case ListeningMusic =>
    case Gaming =>
  }

  /** "상담" leads the categories exactly for the four distressed emotions,
      and appears at all only for them or for an EMOTIONAL_RED personality. */
  lemma ButtonCategoriesCounselling(emotion: string, activity: string, t: Option<PersonalityType>)
    ensures var cs := ButtonCategories(emotion, activity, t);
      && |cs| == (if emotion in CounsellingEmotions then 1 else 0) + 3 + (if t.Some? then 3 else 0)
      && (cs[0] == "상담" <==> emotion in CounsellingEmotions)
      && ("상담" in cs <==> emotion in CounsellingEmotions || t == Some(EmotionalRed))
  {
    var cs := ButtonCategories(emotion, activity, t);
    var pre: seq<string> := if emotion in CounsellingEmotions then ["상담"] else [];
    assert "상담" !in ActivityCategories(activity);
    assert "상담" in OptionalCategories(t) <==> t == Some(EmotionalRed);
    assert cs == pre + ActivityCategories(activity) + OptionalCategories(t);
    if emotion !in CounsellingEmotions {
      assert cs[0] == ActivityCategories(activity)[0];
    }
  }

  /** Every activity word list holds a trigger word itself. */
  lemma ActivityKeywordsTrigger(activity: string)
    ensures exists i :: 0 <= i < |ActivityKeywords(activity)| && HasTrigger(ActivityKeywords(activity)[i])
  {
    var ks := ActivityKeywords(activity);
    var i: nat, j: nat;
    if activity == "독서하기" { i, j := 0, 8; }
    else if activity == "요리하기" { i, j := 0, 12; }
    else if activity == "그림그리기" { i, j := 0, 15; }
    else if activity == "노래부르기" { i, j := 1, 15; }
    else if activity == "운동하기" { i, j := 3, 29; }
    else if activity == "영화보기" { i, j := 0, 5; }
    else if activity == "카페가기" || activity == "맛집가기" { i, j := 1, 5; }
    else if activity == "산책하기" || activity == "꽃구경" { i, j := 3, 29; }
    else if activity == "사진찍기" { i, j := 0, 15; }
    else if activity == "게임하기" { i, j := 0, 13; }
    else if activity == "음악듣기" { i, j := 1, 5; }
    else { i, j := 0, 29; }
    assert ks[i] == TriggerKeywords[j];
    ContainsSelf(ks[i]);
  }

  /** A button profile always calls for a recommendation, whatever the
      emotion: every activity contributes a trigger word. */
  lemma ButtonProfileNeedsRecommendation(emotion: string, activity: string, t: Option<PersonalityType>)
    ensures NeedsWelfareRecommendation(ButtonProfile(emotion, activity, t)) == Ok(true)
  {
    ActivityKeywordsTrigger(activity);
    var aks := ActivityKeywords(activity);
    var i :| 0 <= i < |aks| && HasTrigger(aks[i]);
    var ks := ButtonKeywords(emotion, activity, t);
    assert ks[2 + i] == aks[i];
    assert AnyKeywordTriggers(ks);
  }

  // ---------------------------------------------------------------------
  // Recommendation reasons

  /** `generatePersonalizedRecommendationReason`: the generator's answer.
      The generator never fails, so the fallback below is not reached. */
  function GeneratePersonalizedRecommendationReason(
    emotion: string, activity: string, t: Option<PersonalityType>, program: Program,
    generate: Prompt -> string): (r: string)
    ensures r == generate(ReasonPrompt(emotion, activity, t, program))
  {
    generate(ReasonPrompt(emotion, activity, t, program))
  }

  function ReasonOpening(emotion: string): string {
    if emotion in PositiveWords then "현재 긍정적인 감정 상태에서 " else "현재 " + emotion + " 상태에서 "
  }

  function TraitPhrase(t: Option<PersonalityType>): string {
    match t
    case None => "당신에게 도움이 될 수 있는 "
    case Some(LogicalBlue) => "분석적이고 논리적인 성향에 맞는 "
    case Some(EmotionalRed) => "감정적 소통을 중시하는 성향에 맞는 "
    case Some(ControlGray) => "리더십과 보호욕이 강한 성향에 맞는 "
    case Some(IndependentNavy) => "자율성과 독립성을 중시하는 성향에 맞는 "
    case Some(AffectionateYellow) => "표현적이고 활동적인 성향에 맞는 "
    case Some(IntrospectiveGreen) => "내향적이고 사색적인 성향에 맞는 "
  }

  const PersonalClosing: string := "이 프로그램을 통해 새로운 경험과 성장의 기회를 얻으실 수 있을 것입니다."
  const GeneralClosing: string := "이 프로그램을 통해 원하시는 활동을 즐기며 긍정적인 변화를 경험하실 수 있을 것입니다."

  function Quoted(activity: string): string {
    "'" + activity + "'"
  }

  function TitleSentence(title: string): string {
    title + "을(를) 추천드립니다. "
  }

  function ReasonClosing(t: Option<PersonalityType>): string {
    if t.Some? then PersonalClosing else GeneralClosing
  }

  /** `generateFallbackRecommendationReason` */
  function GenerateFallbackRecommendationReason(
    emotion: string, activity: string, t: Option<PersonalityType>, program: Program): string
  {
    ReasonOpening(emotion) + Quoted(activity) + "에 대한 관심을 고려하여, " + TraitPhrase(t)
      + TitleSentence(program.title) + ReasonClosing(t)
  }

  /** The fallback reason opens on the emotion (a positive one is named only
      as "긍정적인 감정"), quotes the activity, names the program, and closes
      on the personal sentence when a personality is known and on the
      general one otherwise. */
  lemma FallbackReasonContents(emotion: string, activity: string, t: Option<PersonalityType>, program: Program)
    ensures var r := GenerateFallbackRecommendationReason(emotion, activity, t, program);
      && (emotion in PositiveWords ==> StartsWith(r, "현재 긍정적인 감정 상태에서 "))
      && (emotion !in PositiveWords ==> StartsWith(r, "현재 " + emotion + " 상태에서 "))
      && Contains(r, "'" + activity + "'")
      && Contains(r, program.title + "을(를) 추천드립니다. ")
      && Contains(r, TraitPhrase(t))
      && (t.Some? ==> EndsWith(r, PersonalClosing))
      && (t.None? ==> EndsWith(r, GeneralClosing))
  {
    SixParts(ReasonOpening(emotion), Quoted(activity), "에 대한 관심을 고려하여, ", TraitPhrase(t),
             TitleSentence(program.title), ReasonClosing(t));
  }

  /** Where the pieces of a six-piece text can be found in it. */
  lemma SixParts(a: string, b: string, c: string, d: string, e: string, f: string)
    ensures var r := a + b + c + d + e + f;
      StartsWith(r, a) && Contains(r, b) && Contains(r, d) && Contains(r, e) && EndsWith(r, f)
  {
    var r := a + b + c + d + e + f;
    SecondOfSix(a, b, c, d, e, f);
    FourthOfSix(a, b, c, d, e, f);
    ContainsMiddle(a + b + c + d, e, f);
    assert r[..|a|] == a;
    assert r[|r| - |f|..] == f;
  }

  lemma SecondOfSix(a: string, b: string, c: string, d: string, e: string, f: string)
    ensures Contains(a + b + c + d + e + f, b)
  {
    assert a + b + c + d + e + f == a + b + (c + d + e + f);
    ContainsMiddle(a, b, c + d + e + f);
  }

  lemma FourthOfSix(a: string, b: string, c: string, d: string, e: string, f: string)
    ensures Contains(a + b + c + d + e + f, d)
  {
    assert a + b + c + d + e + f == (a + b + c) + d + (e + f);
    ContainsMiddle(a + b + c, d, e + f);
  }
}
