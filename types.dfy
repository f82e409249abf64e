/** The records and enumerations shared by every study tool (types.ts). */
module Types {

  datatype Option<+T> = None | Some(value: T)

  /** Why a call to the content generator failed. */
  datatype GenError =
    | MissingCredential   // no API key configured: fails before any request is built
    | TransportFailure    // the network call or the provider failed
    | MalformedResponse   // the reply text is not JSON

  /** What an awaited generator call produced: the parsed reply, or the error it threw. */
  datatype Outcome<+T> = Success(value: T) | Failure(error: GenError)

  datatype SpeakingMode = Free | Topic | Chat

  datatype FlashcardLevel = Easy | Medium | Hard

  /** The illustration styles the single-card form offers. */
  datatype FlashcardStyle = HandDrawn | Realistic | Cartoon | Minimal

  datatype CardStatus = New | Learning | Mastered

  /** The request an illustration is looked up with; the provider's URL format is not modelled. */
  datatype ImageRef = ImageRef(prompt: string)

  datatype Flashcard = Flashcard(
    id: string,
    word: string,
    pronunciation: string,
    meaning: string,
    example: string,
    image: Option<ImageRef>,
    status: CardStatus,
    topic: Option<string>,
    level: Option<FlashcardLevel>)

  datatype QuestionType = Meaning | FillBlank | Synonym | Antonym

  /** A multiple-choice question as the generator returns it. Nothing checks that
      `correctAnswer` is one of `options`; a question where no option matches is allowed. */
  datatype QuizQuestion = QuizQuestion(
    id: string,
    question: string,
    options: seq<string>,
    correctAnswer: string,
    explanation: string,
    kind: QuestionType,
    difficulty: FlashcardLevel)

  datatype WritingMistake = WritingMistake(original: string, correction: string, explanation: string)

  datatype WritingAnalysis = WritingAnalysis(
    score: int,
    vocabScore: int,
    grammarScore: int,
    coherenceScore: int,
    feedback: string,
    correctedText: string,
    mistakes: seq<WritingMistake>)

  /** An assessment of one recording; `score` is documented as 0 to 10 but never checked. */
  datatype SpeakingFeedback = SpeakingFeedback(
    transcript: string,
    score: int,
    comment: string,
    mistakes: seq<string>,
    correction: string,
    encouragement: string)

  datatype Speaker = Student | AI

  /** A scripted dialogue line; `feedback` is present only once the line has been practised. */
  datatype DialogueLine = DialogueLine(id: string, speaker: Speaker, text: string, feedback: Option<SpeakingFeedback>)

  datatype Sender = User | Ai

  datatype Correction = Correction(original: string, fixed: string, explanation: string)

  datatype ChatMessage = ChatMessage(id: string, sender: Sender, text: string, correction: Option<Correction>)

  /** The generator's answer to one spoken chat turn. An absent transcript is the empty string. */
  datatype ChatReply = ChatReply(userTranscript: string, reply: string, correction: Option<Correction>)

  /** The optional `children` list of a node: absent altogether, which is not the same as empty. */
  datatype Children = NoChildren | ChildList(nodes: seq<MindMapNode>)

  /** A mind-map node. */
  datatype MindMapNode = MindMapNode(
    id: string,
    caption: string,         // `label` in the source (a reserved word here)
    children: Children,
    color: Option<string>,
    note: Option<string>)

  datatype SummaryLength = Short | MediumLength | Long

  datatype AnalysisMode = Both | SummaryOnly | MindMapOnly

  datatype AnalysisOptions = AnalysisOptions(summaryLength: SummaryLength, mode: AnalysisMode)

  /** `rootNode` is None when only a summary was asked for. */
  datatype ContentAnalysisResult = ContentAnalysisResult(summary: string, keywords: seq<string>, rootNode: Option<MindMapNode>)

  datatype UserStats = UserStats(xp: int, streak: int, level: int, badges: seq<string>)

  /** Where a tool takes its content from: the typed text, or an uploaded image (a data URL). */
  datatype InputKind = TextInput | ImageInput
}
