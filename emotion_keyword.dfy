/** The closed vocabulary of emotion buttons a diary entry may carry: nineteen
    constants, each with a Korean display name and a polarity. */
module EmotionKeywords {
  import opened Wrappers
  import Sequences

  datatype EmotionType = Positive | Negative

  datatype EmotionKeyword =
    | Happy | Proud | Joyful | Excited | Relaxed | Energetic | Relieved | Calm | Pleased
    | Disappointed | Anxious | Annoyed | Impatient | Regretful | Remorseful
    | Depressed | Sad | Tired | Frustrated
  {
    function KoreanName(): string {
      match this
      case Happy => "행복"
      case Proud => "뿌듯함"
      case Joyful => "즐거움"
      case Excited => "설렘"
      case Relaxed => "여유로움"
      case Energetic => "활기참"
      case Relieved => "안도감"
      case Calm => "차분함"
      case Pleased => "기특함"
      case Disappointed => "서운함"
      case Anxious => "불안함"
      case Annoyed => "짜증남"
      case Impatient => "초조함"
      case Regretful => "실망"
      case Remorseful => "후회"
      case Depressed => "우울함"
      case Sad => "슬픔"
      case Tired => "지침"
      case Frustrated => "답답함"
    }

    function Type(): EmotionType {
      match this
      case Happy | Proud | Joyful | Excited | Relaxed | Energetic | Relieved | Calm | Pleased
        => Positive
      case _ => Negative
    }

    predicate IsPositive() { Type() == Positive }

    predicate IsNegative() { Type() == Negative }
  }

  /** The positive constants and the negative constants, each in declaration order. */
  const PositiveConstants: seq<EmotionKeyword> :=
    [Happy, Proud, Joyful, Excited, Relaxed, Energetic, Relieved, Calm, Pleased]

  const NegativeConstants: seq<EmotionKeyword> :=
    [Disappointed, Anxious, Annoyed, Impatient, Regretful, Remorseful,
     Depressed, Sad, Tired, Frustrated]

  /** `values()`, in declaration order. */
  const Values: seq<EmotionKeyword> := PositiveConstants + NegativeConstants

  /** `fromKoreanName`: the constant with that name, or null. */
  function FromKoreanName(name: string): Option<EmotionKeyword> {
    Sequences.FindFirst(Values, (k: EmotionKeyword) => k.KoreanName() == name)
  }

  /** The elements of `xs` with polarity `t`, in order. */
  function OfType(xs: seq<EmotionKeyword>, t: EmotionType): (r: seq<EmotionKeyword>)
    ensures |r| <= |xs|
    ensures forall k :: k in r <==> k in xs && k.Type() == t
  {
    if |xs| == 0 then []
    else if xs[0].Type() == t then [xs[0]] + OfType(xs[1..], t)
    else OfType(xs[1..], t)
  }

  function PositiveEmotions(): seq<EmotionKeyword> { OfType(Values, Positive) }

  function NegativeEmotions(): seq<EmotionKeyword> { OfType(Values, Negative) }

  /** The `map(getKoreanName)` stage. */
  function NamesOf(xs: seq<EmotionKeyword>): seq<string> {
    Sequences.Map(xs, (k: EmotionKeyword) => k.KoreanName())
  }

  function PositiveEmotionNames(): seq<string> { NamesOf(PositiveEmotions()) }

  function NegativeEmotionNames(): seq<string> { NamesOf(NegativeEmotions()) }

  function AllEmotionNames(): seq<string> { NamesOf(Values) }

  /** Every constant is listed by `values()`. */
  lemma ValuesComplete(k: EmotionKeyword)
    ensures k in Values
  {
  }

  /** Korean names are distinct. */
  lemma NameInjective(a: EmotionKeyword, b: EmotionKeyword)
    ensures a.KoreanName() == b.KoreanName() <==> a == b
  {
  }

  /** `fromKoreanName` inverts `getKoreanName`, and answers null exactly for
      strings that name no constant. */
  lemma FromKoreanNameInverse(k: EmotionKeyword)
    ensures FromKoreanName(k.KoreanName()) == Some(k)
  {
    ValuesComplete(k);
    var r := FromKoreanName(k.KoreanName());
    NameInjective(r.value, k);
  }

  lemma FromKoreanNameUnknown(name: string)
    ensures FromKoreanName(name).None? <==> name !in AllEmotionNames()
  {
    NamesOfMember(Values, name);
  }

  lemma NamesOfMember(xs: seq<EmotionKeyword>, name: string)
    ensures name in NamesOf(xs) <==> exists k :: k in xs && k.KoreanName() == name
  {
    if name in NamesOf(xs) {
      var i :| 0 <= i < |xs| && NamesOf(xs)[i] == name;
      assert xs[i] in xs;
    }
  }

  /** Exactly one of `isPositive` / `isNegative` holds. */
  lemma ExactlyOnePolarity(k: EmotionKeyword)
    ensures k.IsPositive() != k.IsNegative()
  {
  }

  /** Nine positive and ten negative constants, which together are `values()`:
      the two filters split the declaration order at the ninth constant. */
  lemma PolarityPartition()
    ensures PositiveEmotions() == PositiveConstants && |PositiveConstants| == 9
    ensures NegativeEmotions() == NegativeConstants && |NegativeConstants| == 10
    ensures Values == PositiveEmotions() + NegativeEmotions() && |Values| == 19
  {
    PositiveConstantsArePositive();
    NegativeConstantsAreNegative();
    OfTypeAll(PositiveConstants, Positive);
    OfTypeNone(NegativeConstants, Positive);
    OfTypeNone(PositiveConstants, Negative);
    OfTypeAll(NegativeConstants, Negative);
    OfTypeAppend(PositiveConstants, NegativeConstants, Positive);
    OfTypeAppend(PositiveConstants, NegativeConstants, Negative);
  }

  lemma PositiveConstantsArePositive()
    ensures forall i :: 0 <= i < |PositiveConstants| ==> PositiveConstants[i].Type() == Positive
  {
  }

  lemma NegativeConstantsAreNegative()
    ensures forall i :: 0 <= i < |NegativeConstants| ==> NegativeConstants[i].Type() == Negative
  {
  }

  lemma {:induction false} OfTypeAll(xs: seq<EmotionKeyword>, t: EmotionType)
    requires forall i :: 0 <= i < |xs| ==> xs[i].Type() == t
    ensures OfType(xs, t) == xs
  {
    if |xs| > 0 {
      OfTypeAll(xs[1..], t);
    }
  }

  lemma {:induction false} OfTypeNone(xs: seq<EmotionKeyword>, t: EmotionType)
    requires forall i :: 0 <= i < |xs| ==> xs[i].Type() != t
    ensures OfType(xs, t) == []
  {
    if |xs| > 0 {
      OfTypeNone(xs[1..], t);
    }
  }

  lemma {:induction false} OfTypeAppend(a: seq<EmotionKeyword>, b: seq<EmotionKeyword>, t: EmotionType)
    ensures OfType(a + b, t) == OfType(a, t) + OfType(b, t)
  {
    if |a| > 0 {
      assert (a + b)[1..] == a[1..] + b;
      OfTypeAppend(a[1..], b, t);
    } else {
      assert a + b == b;
    }
  }
}
