# StudyHub handler core in Dafny

StudyHub is a React study companion with four AI-assisted tools and a dashboard that adds up
experience points (XP):

- a flashcard tool: deck generation, a single-card preview, a learning walk through the deck and
  a multiple-choice quiz;
- a writing-correction tool;
- a speaking tool with free-speech, topic-dialogue and chat modes;
- a content-analysis tool: summary, keywords, a mind map, and read-aloud.

Under the JSX, each tool is a small sequential state machine driven by event handlers. The
handlers call a remote content generator through a service layer, which builds the requests and
reshapes the parsed answers.

This project models those handlers, the dashboard's XP/level aggregator and the service layer's
own computations:

- Each component whose handlers update state slots becomes a `class`. Its fields are the slots;
  its methods are the handlers, with `modifies` clauses naming the slots each handler writes.
- The pure parts are functions with lemmas about them. These are the quiz transitions, input
  extraction and validation, voice choice, panel visibility, rendering, the level formula, and
  the service's mappings, serialisers and schema.

The generator is not modelled. Every handler receives what the call returned as an
`Outcome<T>` parameter: `Success(value)` or `Failure(error)`. A handler that rejects its input
before calling ignores that parameter. XP a handler awards through the dashboard's `addXP`
callback is that method's `xp` result instead. The `Progress.Tracker.AddXP` method models the
callback itself.

Files, one module each:

| file | module | models |
|---|---|---|
| types.dfy | `Types` | the records and enumerations of types.ts, plus `Option` and `Outcome` |
| text.dfy | `Text` | JavaScript `trim`, `join`, `split` on one character, `includes`, and the decimal rendering of an index |
| inputs.dfy | `Inputs` | the content a tool sends: the text, or the payload after the first comma of an image data URL |
| progress.dfy | `Progress` | `addXP`, the level formula, the initial stats, the progress bar and the API-key gate (App.tsx) |
| service.dfy | `Service` | services/geminiService.ts without the network: key check, style and length mappings, card and dialogue mappings, history and word-list serialisers, request part layout, the mind-map node schema |
| quiz.dfy | `Quiz` | the quiz of the flashcard tool as a pure state machine |
| flashcards.dfy | `Flashcards` | components/FlashcardModule.tsx |
| writing.dfy | `Writing` | components/WritingModule.tsx |
| speaking.dfy | `Speaking` | components/SpeakingModule.tsx |
| analysis.dfy | `Analysis` | components/MindmapModule.tsx |

Naming notes:

- The mind-map node field `label` is `caption`, because `label` is a Dafny keyword.
- Optional children are the datatype `Children` (`NoChildren` or `ChildList(nodes)`).
- The summary length `medium` is `MediumLength`, so that it does not clash with the flashcard
  level `Medium`.

The flashcard class keeps the quiz slots as separate fields, as the component does. Its ghost
function `QuizSlots()` views those slots as one `Quiz.QuizState`. `AnswerQuiz` and
`NextQuestion` are proved to perform exactly `Quiz.Answer` and `Quiz.Advance`. The quiz lemmas
(invariant, score bound, perfect run) therefore hold of the component's state.

## Model

| member | source | states |
|---|---|---|
| Progress.LevelFor | App.tsx:25 | the level is the hundred-band containing the xp: (level−1)·100 ≤ xp < level·100 |
| Progress.ProgressFill | App.tsx:99 | the bar fill is `xp % 100` with JavaScript's remainder: in [0,100) and equal to xp minus the start of its level band for xp ≥ 0; in (−100,0] for negative xp |
| Progress.KeyGate | App.tsx:48-57 | where the dashboard shows no tool (empty key) every service call fails on the missing key; where tools show, calls return the generator's outcome |
| Progress.InitialStatsConsistent | App.tsx:13-18 | the initial stats (120 xp, level 2) satisfy the level formula |
| Progress.LevelMonotone | App.tsx:25 | the level never decreases as xp grows |
| Progress.LevelUpIffBarOverflows | App.tsx:22-31 | from consistent stats and a non-negative award, the level-up notice fires exactly when bar fill plus award reaches 100 |
| Progress.AwardAllTotal | App.tsx:22-31 | a run of awards adds exactly their sum to xp, keeps streak and badges, and keeps level consistent with xp |
| Progress.AwardAllNeverDecreases | App.tsx:22-31 | with non-negative awards, xp and level never decrease |
| Progress.Tracker.constructor | App.tsx:13-18 | the stats start as 120 xp, streak 3, level 2, the two starter badges, and are consistent |
| Progress.Tracker.AddXP | App.tsx:22-31 | xp rises by exactly the amount, the level is recomputed, streak and badges are kept, and the notice fires iff the level rose |
| Service.Call | services/geminiService.ts:5-11 | an empty key fails before any request with `MissingCredential`; otherwise the generator's outcome passes through |
| Service.StylePromptDefaultIff | services/geminiService.ts:65-72 | the style switch is total and yields the default template exactly for names outside the four styles |
| Service.StylePromptsDistinct | services/geminiService.ts:65-72 | every offered style gets its own non-default template, and different styles get different templates |
| Service.FullImagePrompt | services/geminiService.ts:74 | the image prompt is the description, ", ", the style template, then ", no text, no letters", each at its position |
| Service.SingleCard | services/geminiService.ts:77-87 | a single card is new, copies topic and level from the request, takes its pronunciation from `phonetic`, and its image from the full prompt |
| Text.AfterLastSeparator | services/geminiService.ts:140 | a string ending in a separator and then a part free of it has that part after its last separator, whatever precedes it |
| Service.BatchCardIdIndex | services/geminiService.ts:140 | what follows the last `-` of a `fc-<stamp>-<index>` identifier is the index, whatever the clock read |
| Service.BatchCardIdsDistinct | services/geminiService.ts:139-140 | the identifiers of one batch are pairwise distinct even when each card reads the clock anew |
| Service.BatchCards | services/geminiService.ts:137-148 | one card per item in order, fields copied, status new; with one clock reading per card, the part of each id after its last `-` is the card's index, and ids are pairwise distinct |
| Service.DialogueFromItems | services/geminiService.ts:313-318 | one line per item in order, id `dlg-<index>`, speaker and text copied, no feedback, ids pairwise distinct |
| Service.HistoryText | services/geminiService.ts:381 | the replayed history is empty exactly when the chat is, and a one-message chat replays as that message's line |
| Service.HistoryLines | services/geminiService.ts:381 | one line per message; what the joined text keeps of them is stated by HistoryTextSplitsBack and HistoryTextAfterTurn |
| Service.HistoryTextSplitsBack | services/geminiService.ts:381 | when no message holds a newline, splitting the replayed history on newlines gives back exactly one line per message |
| Service.HistoryTextAfterTurn | services/geminiService.ts:381 | a chat turn appends its two lines to the replayed history, newline-separated, with a separating newline exactly when the chat was not empty |
| Service.WordEntries | services/geminiService.ts:153 | one entry per card; how the joined list grows is stated by WordListAfterCard |
| Service.WordList | services/geminiService.ts:153 | the quiz word list is empty exactly when the deck is, and a one-card deck lists just that card's entry |
| Service.WordListAfterCard | services/geminiService.ts:153 | one more card appends its entry to the quiz word list, after ", " exactly when the deck was not empty |
| Service.LengthBand | services/geminiService.ts:461-463 | every summary band is a proper range (min < max) |
| Service.LengthBandsOrdered | services/geminiService.ts:461-463 | short (30-50), medium (80-120) and long (180-250) bands are disjoint and increasing |
| Service.TaskFor | services/geminiService.ts:461-470 | the instruction carries the band of the chosen length, and asks for a tree exactly when the mode is not summary-only |
| Service.ContentParts | services/geminiService.ts:472-477 | a request ends with the instruction's text part, every earlier part is inline data, and it starts with inline data exactly for image input |
| Service.ContentPartsShape | services/geminiService.ts:472-477 | the content travels exactly once, the instruction is the last part, and an image is the first part |
| Service.ChatPartsShape | services/geminiService.ts:381-388 | a chat turn carries the recording exactly once, inline and first, and ends with the whole history replayed as text |
| Service.MindMapNodeSchema | services/geminiService.ts:416-448 | the node schema describes three levels, requires children at the root, and gives the deepest level no children property |
| Service.ConformingDepth | services/geminiService.ts:416-448 | a tree that answers a node schema is no deeper than the levels the schema describes |
| Service.RequestedTreeDepthAtMostThree | services/geminiService.ts:416-448 | the node schema describes three levels, so no conforming mind map is deeper than three |
| Inputs.DataUrlPayload | components/WritingModule.tsx:27 | `split(',')[1]` exists iff the URL holds a comma; it is comma-free and is the text right after the first comma, up to the next comma or the end |
| Inputs.Content | components/MindmapModule.tsx:37-39 | text mode sends the text; image mode sends a payload iff an image with a comma is chosen, and that payload is the image URL's `split(',')[1]`: the comma-free text right after its first comma |
| Inputs.PayloadAfterUnique | components/WritingModule.tsx:27 | the text after a URL's first comma, up to the next comma or the end, is unique, so the payload the content carries is determined by the URL |
| Text.TrimIsStretch | components/FlashcardModule.tsx:36 | the trimmed text is a stretch of the original that neither starts nor ends with white space |
| Text.TrimEmptyIffBlank | components/FlashcardModule.tsx:48 | the trimmed text is empty exactly when every character is white space, which is how the blank checks are stated |
| Writing.Validate | components/WritingModule.tsx:26-36 | in text mode content is accepted iff it has at least 10 characters; in image mode it is never too short and is accepted iff the payload is non-empty; accepted content is the extracted content |
| Writing.WritingSession.constructor | components/WritingModule.tsx:8-12 | text mode, empty text, no image, no result, not loading |
| Writing.WritingSession.Check | components/WritingModule.tsx:26-50 | rejected input changes nothing and awards nothing; accepted input ends with the result set and 20 XP on success, or no result and no XP on failure |
| Writing.WritingSession.RemoveImage | components/WritingModule.tsx:102 | the chosen image is dropped |
| Quiz.Answer | components/FlashcardModule.tsx:113-122 | an answered question ignores further picks; a first pick is recorded, and scores one point and 5 XP iff it equals the correct answer |
| Quiz.AnswerLocks | components/FlashcardModule.tsx:114 | a second pick after a first changes nothing and awards nothing |
| Quiz.AnswerAsWritten | components/FlashcardModule.tsx:113-122 | with the truthiness lock, every state but an empty-string selection behaves as the corrected `Answer`; after an empty-string selection the pick is answered as if nothing were selected: recorded, and scored with 5 XP only when correct |
| Quiz.EmptyOptionDoesNotLockAsWritten | components/FlashcardModule.tsx:114 | with the truthiness lock, a one-question quiz answered "" twice scores 2 out of 1 (see Findings) |
| Quiz.Advance | components/FlashcardModule.tsx:124-132 | next clears the selection; it advances by one before the last question, and on the last keeps the index, completes and awards score×5 XP |
| Quiz.CompletionOnlyFromLast | components/FlashcardModule.tsx:126-130 | the quiz completes iff next is pressed on the last question |
| Quiz.StartEstablishesInv | components/FlashcardModule.tsx:83-87 | a freshly started quiz satisfies the quiz invariant |
| Quiz.AnswerPreservesInv | components/FlashcardModule.tsx:113-122 | answering keeps the score at most the number of questions answered |
| Quiz.AdvancePreservesInv | components/FlashcardModule.tsx:124-132 | moving on keeps the invariant, and completion happens on the last question |
| Quiz.ScoreBounded | components/FlashcardModule.tsx:113-132 | under the invariant the score never exceeds the number of questions |
| Quiz.PerfectRunFrom | components/FlashcardModule.tsx:113-132 | answering correctly from question k with k points ends completed on the last question with full marks and 5 XP per pick plus 5 per point |
| Quiz.PerfectRun | components/FlashcardModule.tsx:113-132 | a quiz of n questions answered correctly ends completed with n points and 10n XP |
| Quiz.ResultBanner | components/FlashcardModule.tsx:420-424 | the banner is "excellent" iff the score is full marks, and "well done" iff it is not full marks but at least half the questions, in real division |
| Quiz.BannerMonotone | components/FlashcardModule.tsx:420-424 | a higher score never gets a lower banner, and the top banner is exactly full marks |
| Flashcards.FlashcardSession.constructor | components/FlashcardModule.tsx:9-32 | the initial slots: topic mode, "Daily Life", medium, hand-drawn, empty deck, learn view, a reset quiz |
| Flashcards.FlashcardSession.SelectInputMode | components/FlashcardModule.tsx:195-207 | topic and list clear the shared input; single clears the word |
| Flashcards.FlashcardSession.Generate | components/FlashcardModule.tsx:34-65 | a blank word or input changes nothing; single mode shows as the preview the card `createSingleFlashcard` builds from the generator's fields with the chosen topic, level and style; batch mode clears deck and quiz, so a failure leaves an empty deck, and success shows the cards `generateFlashcards` maps from the batch, from the first card, face down; index and face stay unless a batch arrives |
| Flashcards.FlashcardSession.GenerateSingle | components/FlashcardModule.tsx:35-46 | the single-card branch: a blank word is refused; success previews a new card of the chosen topic and level, with the generated word, built by `Service.SingleCard` |
| Flashcards.FlashcardSession.GenerateDeck | components/FlashcardModule.tsx:47-63 | the batch branch: blank input is refused; otherwise deck and quiz clear and success installs `Service.BatchCards` of the batch at index 0, unflipped: new cards, one per item, with distinct ids; refusal or failure keeps index and face |
| Flashcards.FlashcardSession.SaveSingleCard | components/FlashcardModule.tsx:67-75 | the preview is appended as the last card, earlier cards unchanged, preview and word cleared, 10 XP; without a preview nothing changes |
| Flashcards.FlashcardSession.DiscardPreview | components/FlashcardModule.tsx:301 | the preview is dropped and the deck left alone |
| Flashcards.FlashcardSession.Flip | components/FlashcardModule.tsx:144 | a click turns the card over |
| Flashcards.FlashcardSession.StartQuiz | components/FlashcardModule.tsx:77-94 | an empty deck or a failed call leaves the quiz and view unchanged; success restarts the quiz on the new questions and opens the quiz view |
| Flashcards.FlashcardSession.NextCard | components/FlashcardModule.tsx:96-111 | 5 XP iff mastered, card face down; advances by one before the last card; after it either starts the quiz or returns to the first card; without the quiz the index moves exactly as `NextIndex`; the index stays on the deck |
| Flashcards.FlashcardSession.AnswerQuiz | components/FlashcardModule.tsx:113-122 | the quiz slots change exactly as `Quiz.Answer` says and the XP is its XP |
| Flashcards.FlashcardSession.NextQuestion | components/FlashcardModule.tsx:124-132 | the quiz slots change exactly as `Quiz.Advance` says and the XP is its XP |
| Flashcards.FlashcardSession.BackToCards | components/FlashcardModule.tsx:429 | the result screen returns to the learn view |
| Flashcards.NextIndex | components/FlashcardModule.tsx:101-109 | declining the quiz, the index moves to the next card or wraps to 0, and stays on the deck |
| Flashcards.WalkFromStart | components/FlashcardModule.tsx:101-109 | from the first card, k < deck-size steps reach card k |
| Flashcards.DeckLoops | components/FlashcardModule.tsx:101-109 | a full pass of deck-size steps from the first card comes back to the first card |
| Speaking.UpdateLine | components/SpeakingModule.tsx:80 | the length is kept; what the update means is stated by UpdateLineKeepsScript, UpdateLineOverwrites and UpdateLineTouchesOne |
| Speaking.UpdateLineKeepsScript | components/SpeakingModule.tsx:80 | assessment never changes a line's id, speaker or text |
| Speaking.UpdateLineOverwrites | components/SpeakingModule.tsx:80 | a later assessment of the same line replaces the earlier one |
| Speaking.UpdateLineTouchesOne | components/SpeakingModule.tsx:77-80 | with distinct ids, as generated dialogues have, exactly the found line changes |
| Speaking.ShownTranscript | components/SpeakingModule.tsx:93 | the shown transcript is never empty, and equals the transcript when that is non-empty |
| Speaking.ChatTurn | components/SpeakingModule.tsx:90-102 | a turn is the user message (transcript or "...", with the correction) then the AI reply without correction |
| Speaking.ChatTurnKeepsAlternation | components/SpeakingModule.tsx:102 | appending a turn keeps the history alternating user/AI with even length, corrections only on user messages |
| Speaking.SpeakingSession.constructor | components/SpeakingModule.tsx:8-21 | free mode, nothing recorded, empty dialogue and chat |
| Speaking.SpeakingSession.SetMode | components/SpeakingModule.tsx:138-150 | the mode buttons only set the mode |
| Speaking.SpeakingSession.StartRecording | components/SpeakingModule.tsx:33-60 | with the microphone granted recording starts and a truthy line id becomes active; a refusal changes nothing |
| Speaking.SpeakingSession.StopRecording | components/SpeakingModule.tsx:62-67 | stopping only acts on a running recorder and leaves recording off |
| Speaking.SpeakingSession.ProcessAudio | components/SpeakingModule.tsx:69-111 | free mode replaces the single feedback slot for 20 XP; topic mode writes the feedback onto the found line, and onto that line alone, for 10 XP and clears the active line, or just clears it for an unknown line; chat mode appends one turn for 15 XP; failures change nothing and award nothing; dialogue ids stay distinct; loading ends off |
| Speaking.SpeakingSession.GenerateTopicDialogue | components/SpeakingModule.tsx:113-125 | an empty topic changes nothing; otherwise the dialogue is cleared, then replaced on success by `Service.DialogueFromItems` of the generated lines (one unassessed line per item, texts copied, distinct ids), so it stays empty on failure |
| Analysis.FirstFrom | components/MindmapModule.tsx:86-89 | `find` returns the first index satisfying the test, or none when no voice does |
| Analysis.PickVoice | components/MindmapModule.tsx:85-93 | the first preferred voice of the language if any; otherwise the first voice of the language; none iff no voice speaks it |
| Analysis.ShowSummaryPanel | components/MindmapModule.tsx:255-259 | the summary panel shows exactly for a result in any mode but mind-map-only |
| Analysis.ShowMindMapPanel | components/MindmapModule.tsx:255-305 | the mind-map panel shows exactly for a result with a root node in any mode but summary-only |
| Analysis.TreeRequestedIffPanelMode | components/MindmapModule.tsx:305 | a tree is requested iff the mode has a mind-map panel; summary-only never shows one; a result with a root always shows some panel |
| Analysis.Rendered | components/MindmapModule.tsx:104-135 | a node's drawing starts with its own caption |
| Analysis.RenderedCoversTree | components/MindmapModule.tsx:104-135 | a node's drawing has exactly one entry per node of its tree, the root's caption first |
| Analysis.RenderedAllCoversForest | components/MindmapModule.tsx:125-130 | a child list's drawing has exactly one entry per node of its trees |
| Analysis.RenderedAllAppend | components/MindmapModule.tsx:125-130 | drawing two child lists one after the other is drawing their concatenation |
| Analysis.RenderedAllSlices | components/MindmapModule.tsx:125-130 | the i-th child's whole drawing sits in the list's drawing right after the drawings of the children before it |
| Analysis.ChildDrawn | components/MindmapModule.tsx:104-135 | every child of a node is drawn, whole, right after the node's caption and its earlier siblings' drawings |
| Analysis.AnalysisSession.constructor | components/MindmapModule.tsx:9-23 | image tab, no result, medium length, both panels, idle, Vietnamese voice |
| Analysis.AnalysisSession.Generate | components/MindmapModule.tsx:36-70 | missing or empty content changes nothing; otherwise the old result goes and playback stops, and success installs the result for 30 XP |
| Analysis.AnalysisSession.PlayAudio | components/MindmapModule.tsx:72-102 | without a summary nothing happens; playing stops to idle; idle starts playing with the voice `PickVoice` chooses |
| Analysis.AnalysisSession.PlaybackFinished | components/MindmapModule.tsx:97-98 | the end or error of the reading returns the toggle to idle |

## Left out

- The generator calls and the parsing of their JSON are not modelled. Each handler takes the
  outcome as a parameter, so the model allows any answer: for example, quiz questions whose
  correct answer is not among the options, or a score outside the documented 0-10.
- The text of the prompts is not modelled, only their structure: which content goes where, the
  length band, and the tree directive.
- The quiz request's "5 questions, 4 options" instruction and the speaking graders' rubric are
  prompt wording, so they are not modelled either.
- Image URLs are not modelled. A card holds the prompt its image is drawn from. `encodeURIComponent`,
  the Pollinations URL format and its random seed are foreign or random.
- `Date.now()` readings are parameters: the chat message ids, the single-card id, and the batch
  cards' readings. The batch readings are a function `clock` from card index to reading, because
  `Date.now()` is read once per card inside the mapping callback.
- Browser I/O is not modelled: `MediaRecorder`, `getUserMedia`, `FileReader` and `speechSynthesis`.
  Microphone permission is a boolean parameter. The voice list is a parameter. `speak` is not
  modelled.
- Reading the recorded audio into a data URL is not modelled. The audio payload never enters a
  state slot.
- `alert` is not modelled. `confirm` after the last card is the boolean parameter `takeQuiz`.
- Flashcards.FlashcardSession.NextCard: the 200 ms `setTimeout` before advancing is treated as
  immediate. A second click inside that window, which would read a stale index, is not modelled.
- Speaking.SpeakingSession.ProcessAudio: it reads `mode`, `dialogue` and `chatHistory` when it
  runs. In the source, the recorder's stop callback was created when recording started, so it
  sees the values from that render. The two agree unless the mode or the dialogue is changed
  while recording.
- Concurrency is not modelled: overlapping handlers and the `loading` flag as a re-entrancy
  guard.
- Flashcards.FlashcardSession.Generate requires the render condition of its button: the learn
  view, no preview, an empty deck, and not loading (lines 191 and 288). The other handlers
  assume nothing about the screen, except that the quiz answer and next-question methods
  require the question screen.
- Flashcards.FlashcardSession.AnswerQuiz and Flashcards.FlashcardSession.NextQuestion use the
  corrected lock, where any selection locks the question. See Findings for the truthiness
  version.
- Writing.Validate: the 10-character minimum counts Dafny characters (code points). JavaScript's
  `length` counts UTF-16 code units, so text with characters outside the Basic Multilingual Plane
  is longer in the source.
- Progress.Tracker.AddXP: xp is an unbounded integer. The source's numbers are doubles, and the
  progress-bar width is a CSS percentage.
- These are plain setters and are not modelled: dashboard navigation (`currentModule`, the
  mobile menu), the text inputs, the summary-length and output-mode buttons, the options panel
  toggle, the language selector and image upload.
- Presentational components (components/ui.tsx) and all JSX/Tailwind rendering are not
  modelled. The exception is the mind-map recursion and the render conditions named above.

## Findings

| source | as written | input that shows it | evidently intended | confidence | as-written member | corrected member |
|---|---|---|---|---|---|---|
| components/FlashcardModule.tsx:114 | `if (selectedOption) return;` locks the question only on a truthy selection | a question whose correct answer and one option are the empty string; picking that option twice scores 2 points on a one-question quiz (5 XP each time) | any recorded selection, including "", locks the question until next is pressed | not executed; needs the generator to return an empty option | Quiz.AnswerAsWritten, with Quiz.EmptyOptionDoesNotLockAsWritten | Quiz.Answer, with Quiz.AnswerLocks and Quiz.ScoreBounded |
