/** The investment-personality quiz: seven questions scored 1 to 5, the
    answer list, navigation between questions, and the three-band
    classification of the total score (`calculatePersonality`). */
module PersonalityQuiz {
  import opened Wrappers
  import opened InvestmentPersonality

  /** The scores offered by each question, in display order. */
  const OptionScores: seq<seq<int>> := [
    [5, 4, 3, 2, 1], [5, 4, 3, 2, 1], [5, 4, 3, 2, 1], [5, 4, 3, 2, 1],
    [5, 4, 3, 2, 1], [5, 4, 3, 2, 1], [5, 4, 3, 2, 1]]

  const QuestionCount: nat := |OptionScores|

  /** Every offered score lies between 1 and 5. */
  lemma OptionScoresInRange()
    ensures QuestionCount == 7
    ensures forall q, o | 0 <= q < QuestionCount && 0 <= o < |OptionScores[q]| ::
      1 <= OptionScores[q][o] <= 5
  {
  }

  /** The initial answer list: one `null` per question. */
  function InitialAnswers(): (r: seq<Option<int>>)
    ensures |r| == QuestionCount && forall i | 0 <= i < |r| :: r[i].None?
  {
    seq(QuestionCount, _ => None)
  }

  /** An answer's contribution to the total: `val || 0`. */
  function ScoreOf(a: Option<int>): int {
    a.GetOr(0)
  }

  /** The total score: the sum of the answers, unanswered counting 0. */
  function TotalScore(answers: seq<Option<int>>): int {
    if |answers| == 0 then 0 else ScoreOf(answers[0]) + TotalScore(answers[1..])
  }

  /** The tier for a total: up to 10 conservative, up to 24 moderate,
      above that aggressive. */
  function Classify(total: int): Personality {
    if total <= 10 then Conservative
    else if total <= 24 then Moderate
    else Aggressive
  }

  /** The bands, as the three ranges of the total. */
  lemma ClassifyBands(total: int)
    ensures Classify(total) == Conservative <==> total <= 10
    ensures Classify(total) == Moderate <==> 11 <= total <= 24
    ensures Classify(total) == Aggressive <==> total >= 25
  {
  }

  /** A higher total never yields a more conservative tier. */
  lemma ClassifyMonotone(a: int, b: int)
    requires a <= b
    ensures Rank(Classify(a)) <= Rank(Classify(b))
  {
  }

  /** An answer is one of the scores its question offers. */
  predicate AnsweredValidly(answers: seq<Option<int>>)
    requires |answers| <= QuestionCount
  {
    forall i | 0 <= i < |answers| :: answers[i].Some? && answers[i].value in OptionScores[i]
  }

  /** Sum bounds for answers that are all present and between 1 and 5. */
  lemma {:induction false} TotalScoreBounds(answers: seq<Option<int>>)
    requires forall i | 0 <= i < |answers| :: answers[i].Some? && 1 <= answers[i].value <= 5
    ensures |answers| <= TotalScore(answers) <= 5 * |answers|
  {
    if |answers| > 0 {
      TotalScoreBounds(answers[1..]);
    }
  }

  /** A fully and validly answered quiz totals between 7 and 35. */
  lemma FullQuizScoreRange(answers: seq<Option<int>>)
    requires |answers| == QuestionCount && AnsweredValidly(answers)
    ensures 7 <= TotalScore(answers) <= 35
  {
    OptionScoresInRange();
    forall i | 0 <= i < |answers|
      ensures answers[i].Some? && 1 <= answers[i].value <= 5
    {
      var o :| 0 <= o < |OptionScores[i]| && OptionScores[i][o] == answers[i].value;
    }
    TotalScoreBounds(answers);
  }

  /** `handleAnswer`: the answer at `index` becomes `score`; the list keeps
      its length and every other answer. */
  function HandleAnswer(answers: seq<Option<int>>, index: nat, score: int): (r: seq<Option<int>>)
    requires index < |answers|
    ensures |r| == |answers| && r[index] == Some(score)
    ensures forall i | 0 <= i < |answers| && i != index :: r[i] == answers[i]
  {
    answers[index := Some(score)]
  }

  /** Answering a question moves the total by the new score minus whatever
      that question contributed before. */
  lemma {:induction false} HandleAnswerTotal(answers: seq<Option<int>>, index: nat, score: int)
    requires index < |answers|
    ensures TotalScore(HandleAnswer(answers, index, score)) == TotalScore(answers) - ScoreOf(answers[index]) + score
  {
    var r := HandleAnswer(answers, index, score);
    if index > 0 {
      assert r[1..] == HandleAnswer(answers[1..], index - 1, score);
      HandleAnswerTotal(answers[1..], index - 1, score);
    } else {
      assert r[1..] == answers[1..];
    }
  }

  /** `handleNext`: advance unless on the last question. */
  function HandleNext(index: int): (r: int)
    ensures 0 <= index < QuestionCount ==> 0 <= r < QuestionCount
    ensures r == index || r == index + 1
    ensures r == index + 1 <==> index < QuestionCount - 1
  {
    if index < QuestionCount - 1 then index + 1 else index
  }

  /** `handlePrev`: go back unless on the first question. */
  function HandlePrev(index: int): (r: int)
    ensures 0 <= index < QuestionCount ==> 0 <= r < QuestionCount
    ensures r == index || r == index - 1
    ensures r == index - 1 <==> index > 0
  {
    if index > 0 then index - 1 else index
  }

  /** Going forward then back returns to the same question, except from the
      last question, where forward does nothing. */
  lemma NextThenPrev(index: int)
    requires 0 <= index < QuestionCount - 1
    ensures HandlePrev(HandleNext(index)) == index
  {
  }

  /** Going back then forward returns to the same question, except from the
      first question, where back does nothing. */
  lemma PrevThenNext(index: int)
    requires 0 < index < QuestionCount
    ensures HandleNext(HandlePrev(index)) == index
  {
  }

  /** `isAllAnswered`: no answer is `null`. */
  predicate IsAllAnswered(answers: seq<Option<int>>) {
    forall i | 0 <= i < |answers| :: answers[i].Some?
  }

  /** Which button the footer offers and whether it is enabled: "next"
      needs the current question answered, "finish" needs all of them. */
  datatype FooterButton = NextButton(enabled: bool) | FinishButton(enabled: bool)

  function Footer(index: nat, answers: seq<Option<int>>): (b: FooterButton)
    requires index < |answers| && |answers| == QuestionCount
    ensures b.FinishButton? <==> index == QuestionCount - 1
    ensures b.FinishButton? ==> (b.enabled <==> IsAllAnswered(answers))
    ensures b.NextButton? ==> (b.enabled <==> answers[index].Some?)
  {
    if index < QuestionCount - 1 then NextButton(answers[index].Some?)
    else FinishButton(IsAllAnswered(answers))
  }

  /** The `initialAnswers` effect: adopted only when it has one entry per
      question. */
  function AdoptInitialAnswers(current: seq<Option<int>>, initial: Option<seq<Option<int>>>): (r: seq<Option<int>>)
    ensures initial.Some? && |initial.value| == QuestionCount ==> r == initial.value
    ensures !(initial.Some? && |initial.value| == QuestionCount) ==> r == current
  {
    if initial.Some? && |initial.value| == QuestionCount then initial.value else current
  }

  /** `calculatePersonality`: the tier of the total, handed to the
      personality context together with the answers. */
  function CalculatePersonality(st: PersonalityState, answers: seq<Option<int>>, storageOk: bool): (r: PersonalityState)
    ensures storageOk ==> r.answers == answers
    ensures storageOk ==> r.personality.Some?
    ensures storageOk && TotalScore(answers) <= 10 ==> r.personality == Some(Conservative)
    ensures storageOk && TotalScore(answers) >= 25 ==> r.personality == Some(Aggressive)
    ensures storageOk && 11 <= TotalScore(answers) <= 24 ==> r.personality == Some(Moderate)
  {
    SetPersonalityData(st, answers, Classify(TotalScore(answers)), storageOk)
  }
}
