/** The flashcard tool (components/FlashcardModule.tsx): deck generation, single-card preview,
    the learning walk through the deck and the quiz screen. */
module Flashcards {
  import opened Types
  import Text
  import Quiz
  import Service

  const SaveCardXP := 10
  const MasteredXP := 5

  datatype InputMode = TopicInput | ListInput | SingleInput
  datatype ViewMode = Learn | QuizView

  /** The state slots of the flashcard tool. */
  class FlashcardSession {
    var inputMode: InputMode
    var inputValue: string
    var singleWord: string
    var singleTopic: string
    var singleLevel: FlashcardLevel
    var singleStyle: FlashcardStyle
    var previewCard: Option<Flashcard>
    var cards: seq<Flashcard>
    var loading: bool
    var viewMode: ViewMode
    var currentIndex: int
    var isFlipped: bool
    var quizQuestions: seq<QuizQuestion>
    var currentQuizIndex: int
    var quizScore: int
    var selectedOption: Option<string>
    var quizCompleted: bool

    /** The quiz slots seen as one value of the quiz state machine. */
    ghost function QuizSlots(): Quiz.QuizState
      reads this
    {
      Quiz.QuizState(quizQuestions, currentQuizIndex, quizScore, selectedOption, quizCompleted)
    }

    /** The card index stays on the deck (on 0 while the deck is empty), and the quiz keeps its
        own invariant. */
    ghost predicate Valid()
      reads this
    {
      0 <= currentIndex && (currentIndex == 0 || currentIndex < |cards|) && Quiz.Inv(QuizSlots())
    }

    /** The question screen is on show (line 352 with the unfinished branch of line 354). */
    ghost predicate OnQuestionScreen()
      reads this
    {
      !loading && viewMode == QuizView && |quizQuestions| > 0 && !quizCompleted
    }

    constructor ()
      ensures inputMode == TopicInput && inputValue == "" && singleWord == ""
      ensures singleTopic == "Daily Life" && singleLevel == Medium && singleStyle == HandDrawn
      ensures previewCard == None && cards == [] && !loading
      ensures viewMode == Learn && currentIndex == 0 && !isFlipped
      ensures QuizSlots() == Quiz.Start([])
      ensures Valid()
    {
      inputMode, inputValue := TopicInput, "";
      singleWord, singleTopic, singleLevel, singleStyle := "", "Daily Life", Medium, HandDrawn;
      previewCard, cards, loading := None, [], false;
      viewMode, currentIndex, isFlipped := Learn, 0, false;
      quizQuestions, currentQuizIndex, quizScore, selectedOption, quizCompleted := [], 0, 0, None, false;
    }

    /** The three mode buttons: topic and list clear the shared input box, single clears the word. */
    method SelectInputMode(mode: InputMode)
      modifies this`inputMode, this`inputValue, this`singleWord
      ensures inputMode == mode
      ensures mode != SingleInput ==> inputValue == "" && singleWord == old(singleWord)
      ensures mode == SingleInput ==> singleWord == "" && inputValue == old(inputValue)
    {
      inputMode := mode;
      if mode == SingleInput {
        singleWord := "";
      } else {
        inputValue := "";
      }
    }

    /** The input form with the generate button is on show (line 191): learn view, no pending
        preview and an empty deck; the button itself is disabled while loading (line 288). */
    ghost predicate FormShown()
      reads this
    {
      viewMode == Learn && previewCard == None && cards == []
    }

    /** `handleGenerate`. In single mode `cardReply` is what the generator answered for the word
        and `id` the clock-based identifier; otherwise `deckReply` is the generated batch and
        `clock(i)` the time stamp read for card `i`. A blank word or input issues no request. */
    method Generate(cardReply: Outcome<Service.RawSingleCard>, id: string,
                    deckReply: Outcome<seq<Service.RawCardItem>>, clock: nat -> string)
      requires Valid() && FormShown() && !loading
      modifies this`previewCard, this`cards, this`quizQuestions, this`viewMode, this`currentIndex,
        this`isFlipped, this`loading
      ensures Valid() && !loading && viewMode == Learn
      ensures inputMode == SingleInput ==> cards == [] && quizQuestions == old(quizQuestions)
      ensures inputMode == SingleInput && !Text.IsBlank(singleWord) && cardReply.Success? ==>
        previewCard == Some(Service.SingleCard(cardReply.value, id, singleTopic, singleLevel, Service.StyleName(singleStyle)))
      ensures inputMode == SingleInput && (Text.IsBlank(singleWord) || cardReply.Failure?) ==>
        previewCard == None
      ensures inputMode != SingleInput ==> previewCard == None
      ensures inputMode != SingleInput && Text.IsBlank(inputValue) ==> cards == [] && quizQuestions == old(quizQuestions)
      ensures inputMode != SingleInput && !Text.IsBlank(inputValue) ==> quizQuestions == []
      ensures inputMode != SingleInput && !Text.IsBlank(inputValue) && deckReply.Success? ==>
        cards == Service.BatchCards(deckReply.value, clock) && currentIndex == 0 && !isFlipped
      ensures inputMode != SingleInput && !Text.IsBlank(inputValue) && deckReply.Failure? ==> cards == []
      ensures inputMode == SingleInput || Text.IsBlank(inputValue) || deckReply.Failure? ==>
        currentIndex == old(currentIndex) && isFlipped == old(isFlipped)
    {
      if inputMode == SingleInput {
        GenerateSingle(cardReply, id);
      } else {
        GenerateDeck(deckReply, clock);
      }
    }

    /** The single-card branch: the blank check `!singleWord.trim()` (which `Text.TrimEmptyIffBlank`
        shows is `Text.IsBlank`), then a preview that is a new
        card of the chosen topic, level and style, built from the generator's fields. */
    method GenerateSingle(reply: Outcome<Service.RawSingleCard>, id: string)
      modifies this`previewCard, this`loading
      ensures Text.IsBlank(singleWord) ==> loading == old(loading)
      ensures !Text.IsBlank(singleWord) ==> !loading
      ensures !Text.IsBlank(singleWord) && reply.Success? ==>
        previewCard == Some(Service.SingleCard(reply.value, id, singleTopic, singleLevel, Service.StyleName(singleStyle)))
        && previewCard.value.status == New && previewCard.value.topic == Some(singleTopic)
        && previewCard.value.level == Some(singleLevel) && previewCard.value.word == reply.value.word
      ensures Text.IsBlank(singleWord) || reply.Failure? ==> previewCard == old(previewCard)
    {
      if Text.IsBlank(singleWord) {
        return;
      }
      loading := true;
      match reply {
        case Success(data) =>
          var card := Service.SingleCard(data, id, singleTopic, singleLevel, Service.StyleName(singleStyle));
          previewCard := Some(card);
        case Failure(_) =>
      }
      loading := false;
    }

    /** The topic and list branch: the blank check `!inputValue.trim()` (`Text.IsBlank`, by
        `Text.TrimEmptyIffBlank`), then the deck clears, the view returns to
        learning and the generated batch replaces it from its first card, face down: new cards,
        one per item in order, with pairwise distinct identifiers. */
    method GenerateDeck(reply: Outcome<seq<Service.RawCardItem>>, clock: nat -> string)
      requires Valid()
      modifies this`cards, this`quizQuestions, this`viewMode, this`currentIndex, this`isFlipped, this`loading
      ensures Text.IsBlank(inputValue) ==> loading == old(loading)
      ensures !Text.IsBlank(inputValue) ==> !loading
      ensures Text.IsBlank(inputValue) ==>
        cards == old(cards) && quizQuestions == old(quizQuestions) && viewMode == old(viewMode)
      ensures Text.IsBlank(inputValue) || reply.Failure? ==>
        currentIndex == old(currentIndex) && isFlipped == old(isFlipped)
      ensures !Text.IsBlank(inputValue) ==> viewMode == Learn && quizQuestions == []
      ensures !Text.IsBlank(inputValue) && reply.Success? ==>
        cards == Service.BatchCards(reply.value, clock) && currentIndex == 0 && !isFlipped
        && |cards| == |reply.value| && (forall i :: 0 <= i < |cards| ==> cards[i].status == New)
        && (forall i, j :: 0 <= i < j < |cards| ==> cards[i].id != cards[j].id)
      ensures !Text.IsBlank(inputValue) && reply.Failure? ==> cards == []
    {
      if Text.IsBlank(inputValue) {
        return;
      }
      loading := true;
      cards := [];
      quizQuestions := [];
      viewMode := Learn;
      match reply {
        case Success(items) =>
          cards := Service.BatchCards(items, clock);
          currentIndex := 0;
          isFlipped := false;
        case Failure(_) =>
      }
      loading := false;
    }

    /** `handleSaveSingleCard`: the preview joins the end of the deck for 10 XP; without a
        preview nothing happens. */
    method SaveSingleCard() returns (xp: int)
      requires Valid()
      modifies this`cards, this`previewCard, this`singleWord
      ensures Valid()
      ensures old(previewCard).None? ==>
        cards == old(cards) && previewCard == None && singleWord == old(singleWord) && xp == 0
      ensures old(previewCard).Some? ==>
        cards == old(cards) + [old(previewCard).value] && previewCard == None && singleWord == ""
        && xp == SaveCardXP
    {
      match previewCard {
        case None =>
          xp := 0;
        case Some(card) =>
          cards := cards + [card];
          previewCard := None;
          singleWord := "";
          xp := SaveCardXP;
      }
    }

    /** The discard button under the preview (line 301). */
    method DiscardPreview()
      modifies this`previewCard
      ensures previewCard == None
    {
      previewCard := None;
    }

    /** A click on the card turns it over. */
    method Flip()
      modifies this`isFlipped
      ensures isFlipped == !old(isFlipped)
    {
      isFlipped := !isFlipped;
    }

    /** `handleStartQuiz`: with an empty deck nothing happens; otherwise `reply` is the generated
        quiz, which restarts the quiz slots and opens the quiz view. A failure changes nothing. */
    method StartQuiz(reply: Outcome<seq<QuizQuestion>>)
      requires Valid()
      modifies this`quizQuestions, this`currentQuizIndex, this`quizScore, this`selectedOption,
        this`quizCompleted, this`viewMode, this`loading
      ensures Valid()
      ensures old(cards) == [] || reply.Failure? ==>
        QuizSlots() == old(QuizSlots()) && viewMode == old(viewMode)
      ensures old(cards) != [] ==> !loading
      ensures old(cards) != [] && reply.Success? ==> QuizSlots() == Quiz.Start(reply.value) && viewMode == QuizView
    {
      if |cards| == 0 {
        return;
      }
      loading := true;
      match reply {
        case Success(questions) =>
          quizQuestions, currentQuizIndex, quizScore, selectedOption, quizCompleted := questions, 0, 0, None, false;
          viewMode := QuizView;
          Quiz.StartEstablishesInv(questions);
        case Failure(_) =>
      }
      loading := false;
    }

    /** `handleNextCard`: 5 XP when the card was mastered; the card turns face down, and the walk
        moves on, or after the last card either starts the quiz (when the learner agrees to the
        prompt, `takeQuiz`) or returns to the first card. */
    method NextCard(mastered: bool, takeQuiz: bool, quizReply: Outcome<seq<QuizQuestion>>) returns (xp: int)
      requires Valid()
      modifies this`isFlipped, this`currentIndex, this`quizQuestions, this`currentQuizIndex, this`quizScore,
        this`selectedOption, this`quizCompleted, this`viewMode, this`loading
      ensures Valid()
      ensures xp == (if mastered then MasteredXP else 0)
      ensures !isFlipped && cards == old(cards)
      ensures old(currentIndex) < |cards| - 1 ==>
        currentIndex == old(currentIndex) + 1 && QuizSlots() == old(QuizSlots()) && viewMode == old(viewMode)
      ensures old(currentIndex) < |cards| - 1 || !takeQuiz ==> currentIndex == NextIndex(old(currentIndex), |cards|)
      ensures old(currentIndex) >= |cards| - 1 && !takeQuiz ==>
        currentIndex == 0 && QuizSlots() == old(QuizSlots()) && viewMode == old(viewMode)
      ensures old(currentIndex) >= |cards| - 1 && takeQuiz ==>
        currentIndex == old(currentIndex)
        && (cards != [] && quizReply.Success? ==> QuizSlots() == Quiz.Start(quizReply.value) && viewMode == QuizView)
        && (cards == [] || quizReply.Failure? ==> QuizSlots() == old(QuizSlots()) && viewMode == old(viewMode))
    {
      xp := if mastered then MasteredXP else 0;
      isFlipped := false;
      if currentIndex < |cards| - 1 {
        currentIndex := currentIndex + 1;
      } else if takeQuiz {
        StartQuiz(quizReply);
      } else {
        currentIndex := 0;
      }
    }

    /** `handleAnswerQuiz` on the question screen, with the lock on "an option is selected". */
    method AnswerQuiz(option: string) returns (xp: int)
      requires Valid() && OnQuestionScreen()
      modifies this`selectedOption, this`quizScore
      ensures Valid()
      ensures QuizSlots() == Quiz.Answer(old(QuizSlots()), option).next
      ensures xp == Quiz.Answer(old(QuizSlots()), option).xp
    {
      ghost var before := QuizSlots();
      Quiz.AnswerPreservesInv(before, option);
      if selectedOption.Some? {
        return 0;
      }
      selectedOption := Some(option);
      if option == quizQuestions[currentQuizIndex].correctAnswer {
        quizScore := quizScore + 1;
        xp := Quiz.CorrectAnswerXP;
      } else {
        xp := 0;
      }
    }

    /** `nextQuestion`, offered once an option is selected (line 403). */
    method NextQuestion() returns (xp: int)
      requires Valid() && OnQuestionScreen() && selectedOption.Some?
      modifies this`selectedOption, this`currentQuizIndex, this`quizCompleted
      ensures Valid()
      ensures QuizSlots() == Quiz.Advance(old(QuizSlots())).next
      ensures xp == Quiz.Advance(old(QuizSlots())).xp
    {
      Quiz.AdvancePreservesInv(QuizSlots());
      selectedOption := None;
      if currentQuizIndex < |quizQuestions| - 1 {
        currentQuizIndex := currentQuizIndex + 1;
        xp := 0;
      } else {
        quizCompleted := true;
        xp := quizScore * Quiz.CompletionXPPerPoint;
      }
    }

    /** The button on the result screen that goes back to the cards (line 429). */
    method BackToCards()
      modifies this`viewMode
      ensures viewMode == Learn
    {
      viewMode := Learn;
    }
  }

  /** What the deck walk does to the index, as a value: one step of `handleNextCard` when the
      learner declines the quiz. */
  function NextIndex(index: int, deckSize: int): (r: int)
    ensures 0 <= index < deckSize ==> 0 <= r < deckSize
    ensures index < deckSize - 1 ==> r == index + 1
    ensures index >= deckSize - 1 ==> r == 0
  {
    if index < deckSize - 1 then index + 1 else 0
  }

  /** Walking the deck without taking the quiz, the index comes back to where it started after
      exactly one step per card. */
  function Walk(index: int, deckSize: int, steps: nat): int
    decreases steps
  {
    if steps == 0 then index else Walk(NextIndex(index, deckSize), deckSize, steps - 1)
  }

  lemma {:induction false} WalkFromStart(deckSize: int, k: nat)
    requires k < deckSize
    ensures Walk(0, deckSize, k) == k
    decreases k
  {
    if k > 0 {
      WalkFromStart(deckSize, k - 1);
      WalkSnoc(0, deckSize, k - 1);
    }
  }

  lemma {:induction false} WalkSnoc(index: int, deckSize: int, steps: nat)
    ensures Walk(index, deckSize, steps + 1) == NextIndex(Walk(index, deckSize, steps), deckSize)
    decreases steps
  {
    if steps > 0 {
      WalkSnoc(NextIndex(index, deckSize), deckSize, steps - 1);
    }
  }

  /** Declining the quiz loops the deck: from the first card, one pass of `deckSize` steps
      comes back to the first card. */
  lemma DeckLoops(deckSize: int)
    requires deckSize > 0
    ensures Walk(0, deckSize, deckSize) == 0
  {
    WalkFromStart(deckSize, deckSize - 1);
    WalkSnoc(0, deckSize, deckSize - 1);
  }
}
