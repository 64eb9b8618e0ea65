/**
 The five-question assessment page. Its state is the index of the question on
 screen and a map from question index to the value of the chosen option;
 answering the last question totals the answers, stores the total for the
 dashboard, and either recommends professional support (total >= 10) or
 reports that the user is doing well and returns to the dashboard.
 */
module Questionnaire {
  import opened Wrappers
  import Storage

  datatype AnswerOption = AnswerOption(value: int, text: string)

  /** A question: its number and the options offered; its wording is kept apart in `QuestionTexts`. */
  datatype Question = Question(id: nat, options: seq<AnswerOption>)

  /** The four options every question offers. */
  const Frequencies: seq<AnswerOption> := [
    AnswerOption(0, "Not at all"),
    AnswerOption(1, "Several days"),
    AnswerOption(2, "More than half the days"),
    AnswerOption(3, "Nearly every day")
  ]

  const Questions: seq<Question> := [
    Question(1, Frequencies),
    Question(2, Frequencies),
    Question(3, Frequencies),
    Question(4, Frequencies),
    Question(5, Frequencies)
  ]

  /** The wording shown for each question, in the order of `Questions`. */
  const QuestionTexts: seq<string> := [
    "How often have you felt little interest or pleasure in doing things?",
    "How often have you felt down, depressed, or hopeless?",
    "How often have you had trouble falling or staying asleep, or sleeping too much?",
    "How often have you felt tired or had little energy?",
    "How often have you had poor appetite or overeaten?"
  ]

  const QuestionCount: nat := |Questions|

  /** The largest value any option carries. */
  const MaxOptionValue: int := 3

  /** The largest total the assessment can produce. */
  const MaxScore: int := MaxOptionValue * QuestionCount

  /** A total at or above this recommends professional support. */
  const SupportThreshold: int := 10

  /** `v` is the value of one of the options of question `q` (the only values an option button passes). */
  predicate IsOptionValue(q: Question, v: int) {
    exists o :: o in q.options && o.value == v
  }

  /** There are five questions and every option value lies in 0..3, so totals lie in 0..15. */
  lemma OptionValuesInRange(i: int, v: int)
    requires 0 <= i < |Questions| && IsOptionValue(Questions[i], v)
    ensures 0 <= v <= MaxOptionValue
    ensures QuestionCount == 5 && MaxScore == 15
  {
    var o :| o in Questions[i].options && o.value == v;
    assert Questions[i].options == Frequencies;
  }

  /** Every answer recorded so far is the value of some option. */
  ghost predicate ValuesInRange(answers: map<int, int>) {
    forall k :: k in answers ==> 0 <= answers[k] <= MaxOptionValue
  }

  /** Every question has an answer. */
  ghost predicate Complete(answers: map<int, int>) {
    forall k :: 0 <= k < QuestionCount ==> k in answers
  }

  /** The answers recorded for questions 0 .. n-1, added up; a missing answer adds nothing. */
  function SumBelow(answers: map<int, int>, n: nat): (total: int)
    ensures ValuesInRange(answers) ==> 0 <= total <= MaxOptionValue * n
  {
    if n == 0 then 0
    else SumBelow(answers, n - 1) + (if n - 1 in answers then answers[n - 1] else 0)
  }

  /**
   The assessment total. The page adds up all values of the answer map; since
   only the indices 0 .. QuestionCount-1 are ever recorded, that is the sum
   over those indices.
   */
  function Total(answers: map<int, int>): int {
    SumBelow(answers, QuestionCount)
  }

  /**
   Overwriting the answer at index k < n changes the sum over 0 .. n-1 by the
   difference between the new and the old value; an index at or above n does
   not change it.
   */
  lemma {:induction false} SumBelowOverwrite(answers: map<int, int>, n: nat, k: int, v: int)
    ensures SumBelow(answers[k := v], n) ==
            if 0 <= k < n then SumBelow(answers, n) - (if k in answers then answers[k] else 0) + v
            else SumBelow(answers, n)
  {
    if n > 0 {
      SumBelowOverwrite(answers, n - 1, k, v);
    }
  }

  /** Two answer maps that agree on every index below n have the same sum below n. */
  lemma {:induction false} SumBelowAgree(a: map<int, int>, b: map<int, int>, n: nat)
    requires forall k :: 0 <= k < n ==> (k in a <==> k in b) && (k in a ==> a[k] == b[k])
    ensures SumBelow(a, n) == SumBelow(b, n)
  {
    if n > 0 {
      SumBelowAgree(a, b, n - 1);
    }
  }

  /**
   Recording `value` for the question at index `cur` keeps the answer map to
   question indices and option values, and every question up to `cur` is then
   answered.
   */
  // `next` names the updated map so that the quantifiers below have a term to match on;
  // callers pass `answers[cur := value]` for it.
  lemma RecordAnswer(answers: map<int, int>, cur: int, value: int, next: map<int, int>)
    requires next == answers[cur := value]
    requires 0 <= cur < QuestionCount && 0 <= value <= MaxOptionValue
    requires forall k :: k in answers ==> 0 <= k < QuestionCount
    requires ValuesInRange(answers)
    requires forall k :: 0 <= k < cur ==> k in answers
    ensures forall k :: k in next ==> 0 <= k < QuestionCount
    ensures ValuesInRange(next)
    ensures forall k :: 0 <= k <= cur ==> k in next
    ensures cur == QuestionCount - 1 ==> Complete(next)
  {
  }

  /** What the page does outside its own state after an answer. */
  datatype Effect =
    | NoEffect
      /** The "Professional Support Recommended" dialog is offered. */
    | SupportRecommended
      /** The toast "Your score is <score>. You are doing well!" and a move to the dashboard. */
    | DoingWellToast(score: int)

  class Assessment {
    var currentQuestion: int
    var answers: map<int, int>
    var showModal: bool
    var score: int
    var effect: Effect

    /**
     The index stays on a question, only question indices are recorded, with
     option values, and every question before the current one is answered.
     */
    ghost predicate Valid()
      reads this
    {
      && 0 <= currentQuestion < QuestionCount
      && (forall k :: k in answers ==> 0 <= k < QuestionCount)
      && ValuesInRange(answers)
      && (forall k :: 0 <= k < currentQuestion ==> k in answers)
    }

    constructor ()
      ensures Valid()
      ensures currentQuestion == 0 && answers == map[] && !showModal && score == 0 && effect == NoEffect
    {
      currentQuestion := 0;
      answers := map[];
      showModal := false;
      score := 0;
      effect := NoEffect;
    }

    /** The "Previous" button is disabled on the first question. */
    predicate PreviousDisabled()
      reads this
    {
      currentQuestion == 0
    }

    /**
     An option button with value `value` was pressed on the current question.
     The answer is recorded (replacing an earlier one for this question). Before
     the last question the page moves on and computes nothing; on the last it
     stays, totals all five answers, stores the total, and takes exactly one of
     the two branches on the threshold.
     */
    method HandleAnswer(value: int, storage: Storage.LocalStorage)
      requires Valid()
      requires IsOptionValue(Questions[currentQuestion], value)
      modifies this, storage
      ensures Valid()
      ensures answers == old(answers)[old(currentQuestion) := value]
      ensures old(currentQuestion) < QuestionCount - 1 ==>
                && currentQuestion == old(currentQuestion) + 1
                && score == old(score) && showModal == old(showModal) && effect == old(effect)
                && storage.latestAssessmentScore == old(storage.latestAssessmentScore)
      ensures old(currentQuestion) == QuestionCount - 1 ==>
                && currentQuestion == old(currentQuestion)
                && Complete(answers)
                && score == Total(answers) && 0 <= score <= MaxScore
                && storage.latestAssessmentScore == Some(score)
                && (score >= SupportThreshold ==> showModal && effect == SupportRecommended)
                && (score < SupportThreshold ==> showModal == old(showModal) && effect == DoingWellToast(score))
    {
      OptionValuesInRange(currentQuestion, value);
      RecordAnswer(answers, currentQuestion, value, answers[currentQuestion := value]);
      answers := answers[currentQuestion := value];
      if currentQuestion < QuestionCount - 1 {
        currentQuestion := currentQuestion + 1;
      } else {
        var totalScore := Total(answers);
        score := totalScore;
        storage.SetItem(totalScore);
        if totalScore >= SupportThreshold {
          showModal := true;
          effect := SupportRecommended;
        } else {
          effect := DoingWellToast(totalScore);
        }
      }
    }

    /**
     The "Previous" button: one question back, keeping every answer. A click on
     the disabled button (first question) does nothing.
     */
    method Previous()
      requires Valid()
      modifies this
      ensures Valid()
      ensures currentQuestion == if old(currentQuestion) == 0 then 0 else old(currentQuestion) - 1
      ensures answers == old(answers) && score == old(score) && showModal == old(showModal) && effect == old(effect)
    {
      if !PreviousDisabled() {
        currentQuestion := currentQuestion - 1;
      }
    }
  }
}
