/** The multiple-choice quiz of the flashcard tool as a state machine
    (components/FlashcardModule.tsx: handleStartQuiz, handleAnswerQuiz, nextQuestion, result banner). */
module Quiz {
  import opened Types

  const CorrectAnswerXP := 5
  const CompletionXPPerPoint := 5

  /** The quiz slots of the flashcard tool. `selected` None is the source's `null`. */
  datatype QuizState = QuizState(
    questions: seq<QuizQuestion>,
    index: int,
    score: int,
    selected: Option<string>,
    completed: bool)

  /** A transition together with the experience it awards. */
  datatype Step = Step(next: QuizState, xp: int)

  /** The quiz as a successful start leaves it. */
  function Start(questions: seq<QuizQuestion>): QuizState {
    QuizState(questions, 0, 0, None, false)
  }

  /** The question screen is shown: there is a current question and the quiz is not over. */
  predicate OnQuestion(q: QuizState) {
    0 <= q.index < |q.questions| && !q.completed
  }

  /** The current question has been answered. */
  predicate Answered(q: QuizState) {
    q.selected.Some?
  }

  function CorrectAnswer(q: QuizState): string
    requires 0 <= q.index < |q.questions|
  {
    q.questions[q.index].correctAnswer
  }

  /** What the quiz keeps true from a start onwards: the index stays on a question, and no more
      points have been scored than questions answered so far. */
  predicate Inv(q: QuizState) {
    0 <= q.score && 0 <= q.index
    && (|q.questions| > 0 ==> q.index < |q.questions|)
    && q.score <= q.index + (if Answered(q) || q.completed then 1 else 0)
    && (q.completed && |q.questions| > 0 ==> q.index == |q.questions| - 1 && !Answered(q))
  }

  /** Picking `option`, locked by "an option has been selected". A first answer records the
      option, and scores a point and 5 XP exactly when it equals the correct answer. */
  function Answer(q: QuizState, option: string): (r: Step)
    requires OnQuestion(q)
    ensures r.next.questions == q.questions && r.next.index == q.index && r.next.completed == q.completed
    ensures Answered(q) ==> r == Step(q, 0)
    ensures !Answered(q) ==> r.next.selected == Some(option)
    ensures !Answered(q) && option == CorrectAnswer(q) ==> r.next.score == q.score + 1 && r.xp == CorrectAnswerXP
    ensures !Answered(q) && option != CorrectAnswer(q) ==> r.next.score == q.score && r.xp == 0
  {
    if Answered(q) then Step(q, 0)
    else if option == CorrectAnswer(q) then Step(q.(selected := Some(option), score := q.score + 1), CorrectAnswerXP)
    else Step(q.(selected := Some(option)), 0)
  }

  /** `handleAnswerQuiz` as written: the lock is JavaScript truthiness, so an empty-string
      selection does not lock the question; the pick is then scored as if nothing were selected. */
  function AnswerAsWritten(q: QuizState, option: string): (r: Step)
    requires OnQuestion(q)
    ensures q.selected != Some("") ==> r == Answer(q, option)
    ensures q.selected == Some("") ==> r == Answer(q.(selected := None), option)
  {
    if q.selected.Some? && q.selected.value != "" then Step(q, 0)
    else if option == CorrectAnswer(q) then Step(q.(selected := Some(option), score := q.score + 1), CorrectAnswerXP)
    else Step(q.(selected := Some(option)), 0)
  }

  /** `nextQuestion`: clears the selection; moves on when a question follows, otherwise ends the
      quiz and awards 5 XP per point. */
  function Advance(q: QuizState): (r: Step)
    requires OnQuestion(q) && Answered(q)
    ensures r.next.selected == None && r.next.questions == q.questions && r.next.score == q.score
    ensures q.index < |q.questions| - 1 ==> r.next.index == q.index + 1 && !r.next.completed && r.xp == 0
    ensures q.index == |q.questions| - 1 ==>
      r.next.index == q.index && r.next.completed && r.xp == q.score * CompletionXPPerPoint
  {
    if q.index < |q.questions| - 1 then Step(q.(selected := None, index := q.index + 1), 0)
    else Step(q.(selected := None, completed := true), q.score * CompletionXPPerPoint)
  }

  /** Answering twice is answering once: the second pick changes nothing and awards nothing. */
  lemma AnswerLocks(q: QuizState, first: string, second: string)
    requires OnQuestion(q)
    ensures Answer(Answer(q, first).next, second) == Step(Answer(q, first).next, 0)
  {
  }

  /** With the truthiness lock, a question whose correct answer is the empty string can be
      scored again and again: two clicks on a one-question quiz give 2 points out of 1. */
  lemma EmptyOptionDoesNotLockAsWritten()
    ensures var question := QuizQuestion("q1", "?", ["", "a", "b", "c"], "", "", Meaning, Easy);
            var q := Start([question]);
            var once := AnswerAsWritten(q, "");
            var twice := AnswerAsWritten(once.next, "");
            twice.next.score == 2 && twice.next.score > |twice.next.questions| && once.xp + twice.xp == 10
  {
  }

  lemma StartEstablishesInv(questions: seq<QuizQuestion>)
    ensures Inv(Start(questions))
  {
  }

  lemma AnswerPreservesInv(q: QuizState, option: string)
    requires Inv(q) && OnQuestion(q)
    ensures Inv(Answer(q, option).next)
  {
  }

  lemma AdvancePreservesInv(q: QuizState)
    requires Inv(q) && OnQuestion(q) && Answered(q)
    ensures Inv(Advance(q).next)
  {
  }

  /** The score never exceeds the number of questions. */
  lemma ScoreBounded(q: QuizState)
    requires Inv(q) && |q.questions| > 0
    ensures q.score <= |q.questions|
  {
  }

  /** The quiz is over only after advancing from the last question. */
  lemma CompletionOnlyFromLast(q: QuizState)
    requires OnQuestion(q) && Answered(q)
    ensures Advance(q).next.completed <==> q.index == |q.questions| - 1
  {
  }

  /** One round on the question screen: pick an option, then press next. */
  function Round(q: QuizState, option: string): (r: Step)
    requires OnQuestion(q)
  {
    var a := Answer(q, option);
    var b := Advance(a.next);
    Step(b.next, a.xp + b.xp)
  }

  /** Rounds with the given picks, one per question, until the quiz is over. */
  function Play(q: QuizState, picks: seq<string>): Step
    decreases |picks|
  {
    if picks == [] || !OnQuestion(q) then Step(q, 0)
    else
      var r := Round(q, picks[0]);
      var rest := Play(r.next, picks[1..]);
      Step(rest.next, r.xp + rest.xp)
  }

  /** The correct answer of each question from `k` on. */
  function CorrectPicks(questions: seq<QuizQuestion>, k: nat): (picks: seq<string>)
    requires k <= |questions|
    ensures |picks| == |questions| - k
    ensures forall i :: 0 <= i < |picks| ==> picks[i] == questions[k + i].correctAnswer
  {
    seq(|questions| - k, i requires 0 <= i < |questions| - k => questions[k + i].correctAnswer)
  }

  /** Playing on correctly from question `k` with `k` points: every remaining question scores,
      the quiz ends on the last question, and the experience is 5 per correct pick plus the
      completion bonus of 5 per point. */
  lemma {:induction false} PerfectRunFrom(questions: seq<QuizQuestion>, k: nat)
    requires k < |questions|
    ensures var n := |questions|;
      Play(QuizState(questions, k, k, None, false), CorrectPicks(questions, k))
        == Step(QuizState(questions, n - 1, n, None, true), CorrectAnswerXP * (n - k) + CompletionXPPerPoint * n)
    decreases |questions| - k
  {
    var n := |questions|;
    var q := QuizState(questions, k, k, None, false);
    var picks := CorrectPicks(questions, k);
    var r := Round(q, picks[0]);
    if k == n - 1 {
      assert r == Step(QuizState(questions, n - 1, n, None, true), CorrectAnswerXP + CompletionXPPerPoint * n);
      assert picks[1..] == [];
    } else {
      assert r == Step(QuizState(questions, k + 1, k + 1, None, false), CorrectAnswerXP);
      assert picks[1..] == CorrectPicks(questions, k + 1);
      PerfectRunFrom(questions, k + 1);
    }
  }

  /** A quiz answered entirely correctly ends with full marks, after one press of next per
      question, and awards 10 XP per question (5 per answer and 5 per point at the end). */
  lemma PerfectRun(questions: seq<QuizQuestion>)
    requires |questions| > 0
    ensures var n := |questions|;
      Play(Start(questions), CorrectPicks(questions, 0))
        == Step(QuizState(questions, n - 1, n, None, true), 10 * n)
  {
    PerfectRunFrom(questions, 0);
  }

  /** The banner on the result screen. */
  datatype Banner = Excellent | WellDone | NeedsReview

  /** `score === n` is excellent, otherwise `score >= n / 2` (a real division) is well done. */
  function ResultBanner(score: int, n: int): (r: Banner)
    ensures r == Excellent <==> score == n
    ensures r == WellDone <==> score != n && score as real >= n as real / 2.0
  {
    if score == n then Excellent else if 2 * score >= n then WellDone else NeedsReview
  }

  function BannerRank(b: Banner): nat {
    match b
    case NeedsReview => 0
    case WellDone => 1
    case Excellent => 2
  }

  /** Within a quiz, a higher score never earns a lower banner, and only full marks are excellent. */
  lemma BannerMonotone(s1: int, s2: int, n: int)
    requires 0 <= s1 <= s2 <= n
    ensures BannerRank(ResultBanner(s1, n)) <= BannerRank(ResultBanner(s2, n))
    ensures ResultBanner(s2, n) == Excellent <==> s2 == n
  {
  }
}
