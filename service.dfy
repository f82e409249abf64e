/** The request and response shaping around the content generator (services/geminiService.ts).
    The network call and the parsing of its JSON text are not modelled: every handler receives
    the call's outcome as a parameter. What is modelled is everything the service computes itself. */
module Service {
  import opened Types
  import Text

  /** `getAI` runs first in every service function: without an API key the call fails before
      any request is built, whatever the provider would have answered. */
  function Call<T>(apiKey: string, reply: Outcome<T>): (r: Outcome<T>)
    ensures apiKey == "" ==> r == Failure(MissingCredential)
    ensures apiKey != "" ==> r == reply
  {
    if apiKey == "" then Failure(MissingCredential) else reply
  }

  // ---- single card: style template and image prompt ----

  const DefaultStylePrompt := "educational illustration"
  const NoTextSuffix := ", no text, no letters"

  /** The style names the single-card form offers. */
  function StyleName(style: FlashcardStyle): string {
    match style
    case HandDrawn => "hand_drawn"
    case Cartoon => "cartoon"
    case Realistic => "realistic"
    case Minimal => "minimal"
  }

  const HandDrawnTemplate := "hand drawn sketch" + ", pencil style, doodle, educational, white background"
  const CartoonTemplate := "cute cartoon" + ", flat design, colorful, vector art, simple"
  const RealisticTemplate := "realistic photography, high quality, 4k"
  const MinimalTemplate := "minimalist icon, line art, simple, clean"

  /** The `switch` on the style name; any other name falls to the default. */
  function StylePrompt(style: string): string {
    match style
    case "hand_drawn" => HandDrawnTemplate
    case "cartoon" => CartoonTemplate
    case "realistic" => RealisticTemplate
    case "minimal" => MinimalTemplate
    case _ => DefaultStylePrompt
  }

  /** The switch is total, and yields the default template exactly for the names outside the four
      styles. */
  lemma StylePromptDefaultIff(style: string)
    ensures StylePrompt(style) == DefaultStylePrompt <==> style !in {"hand_drawn", "cartoon", "realistic", "minimal"}
  {
    // the templates differ from the default in their first letter
    assert DefaultStylePrompt[0] == 'e';
    assert HandDrawnTemplate[0] == 'h' && CartoonTemplate[0] == 'c';
    assert RealisticTemplate[0] == 'r' && MinimalTemplate[0] == 'm';
  }

  /** The first letter of each offered style's template. */
  function Initial(style: FlashcardStyle): char {
    match style
    case HandDrawn => 'h'
    case Cartoon => 'c'
    case Realistic => 'r'
    case Minimal => 'm'
  }

  lemma TemplateInitial(style: FlashcardStyle)
    ensures |StylePrompt(StyleName(style))| > 0 && StylePrompt(StyleName(style))[0] == Initial(style)
  {
    match style
    case HandDrawn =>
      assert HandDrawnTemplate[0] == 'h';
    case Cartoon =>
      assert CartoonTemplate[0] == 'c';
    case Realistic =>
      assert RealisticTemplate[0] == 'r';
    case Minimal =>
      assert MinimalTemplate[0] == 'm';
  }

  /** Each style the form offers gets its own template, never the default. */
  lemma StylePromptsDistinct(a: FlashcardStyle, b: FlashcardStyle)
    ensures StylePrompt(StyleName(a)) != DefaultStylePrompt
    ensures a != b ==> StylePrompt(StyleName(a)) != StylePrompt(StyleName(b))
  {
    // the five templates already differ in their first letter
    TemplateInitial(a);
    TemplateInitial(b);
    assert DefaultStylePrompt[0] == 'e';
  }

  /** The illustration prompt: the generated description, the style template, then the no-text suffix. */
  function FullImagePrompt(imagePrompt: string, style: string): (r: string)
    ensures |r| == |imagePrompt| + 2 + |StylePrompt(style)| + |NoTextSuffix|
    ensures r[..|imagePrompt|] == imagePrompt
    ensures r[|imagePrompt|..|imagePrompt| + 2] == ", "
    ensures r[|imagePrompt| + 2..|r| - |NoTextSuffix|] == StylePrompt(style)
    ensures r[|r| - |NoTextSuffix|..] == NoTextSuffix
  {
    Compose(imagePrompt, StylePrompt(style), NoTextSuffix)
  }

  /** `a + ", " + b + c`, piece by piece. */
  function Compose(a: string, b: string, c: string): (r: string)
    ensures |r| == |a| + 2 + |b| + |c|
    ensures r[..|a|] == a && r[|a|..|a| + 2] == ", " && r[|a| + 2..|r| - |c|] == b && r[|r| - |c|..] == c
  {
    var head := a + ", ";
    var r := head + b + c;
    assert r[..|a|] == head[..|a|];
    assert r[|a|..|head|] == head[|a|..];
    assert r[|head|..|r| - |c|] == b;
    r
  }

  /** The fields the single-card request asks for. */
  datatype RawSingleCard = RawSingleCard(word: string, phonetic: string, meaning: string, example: string, imagePrompt: string)

  /** The card `createSingleFlashcard` returns; `id` stands for the time-stamped identifier. */
  function SingleCard(data: RawSingleCard, id: string, topic: string, level: FlashcardLevel, style: string): (c: Flashcard)
    ensures c.status == New && c.topic == Some(topic) && c.level == Some(level)
    ensures c.pronunciation == data.phonetic
    ensures c.word == data.word && c.meaning == data.meaning && c.example == data.example
    ensures c.image == Some(ImageRef(FullImagePrompt(data.imagePrompt, style)))
  {
    Flashcard(id, data.word, data.phonetic, data.meaning, data.example,
              Some(ImageRef(FullImagePrompt(data.imagePrompt, style))), New, Some(topic), Some(level))
  }

  // ---- batch cards and dialogue lines: index-based identifiers ----

  /** The fields the batch request asks for, per card. */
  datatype RawCardItem = RawCardItem(word: string, pronunciation: string, meaning: string, example: string, imageKeyword: string)

  /** `fc-<stamp>-<index>`, where `stamp` is the clock reading taken for that card. */
  function BatchCardId(stamp: string, index: nat): string {
    "fc-" + stamp + "-" + Text.NatToString(index)
  }

  /** The index is what follows the last `-` of a batch identifier, whatever the clock read. */
  lemma BatchCardIdIndex(stamp: string, index: nat)
    ensures Text.AfterLast(BatchCardId(stamp, index), '-') == Text.NatToString(index)
  {
    assert BatchCardId(stamp, index) == "fc-" + stamp + ['-'] + Text.NatToString(index);
    Text.AfterLastSeparator("fc-" + stamp, Text.NatToString(index), '-');
  }

  /** The identifiers of one batch are pairwise distinct even when the clock moves on between
      cards: the index after the last `-` tells them apart. */
  lemma BatchCardIdsDistinct(clock: nat -> string, n: nat)
    ensures forall i, j :: 0 <= i < j < n ==> BatchCardId(clock(i), i) != BatchCardId(clock(j), j)
  {
    forall i, j | 0 <= i < j < n
      ensures BatchCardId(clock(i), i) != BatchCardId(clock(j), j)
    {
      BatchCardIdIndex(clock(i), i);
      BatchCardIdIndex(clock(j), j);
      if Text.NatToString(i) == Text.NatToString(j) {
        Text.NatToStringInjective(i, j);
      }
    }
  }

  function CardFromItem(item: RawCardItem, stamp: string, index: nat): Flashcard {
    Flashcard(BatchCardId(stamp, index), item.word, item.pronunciation, item.meaning, item.example,
              Some(ImageRef(item.imageKeyword)), New, None, None)
  }

  /** The mapping at the end of `generateFlashcards`: one card per item, in order, all new.
      `clock(i)` is the `Date.now()` reading taken while item `i` is mapped; each card is
      identified by that reading and its index, so no two cards of a batch share an identifier. */
  function BatchCards(items: seq<RawCardItem>, clock: nat -> string): (cards: seq<Flashcard>)
    ensures |cards| == |items|
    ensures forall i :: 0 <= i < |items| ==>
      cards[i].word == items[i].word && cards[i].pronunciation == items[i].pronunciation
      && cards[i].meaning == items[i].meaning && cards[i].example == items[i].example
      && cards[i].image == Some(ImageRef(items[i].imageKeyword))
      && cards[i].status == New && cards[i].topic == None && cards[i].level == None
    ensures forall i :: 0 <= i < |items| ==> Text.AfterLast(cards[i].id, '-') == Text.NatToString(i)
    ensures forall i, j :: 0 <= i < j < |cards| ==> cards[i].id != cards[j].id
  {
    BatchCardIdsDistinct(clock, |items|);
    forall i | 0 <= i < |items| ensures Text.AfterLast(BatchCardId(clock(i), i), '-') == Text.NatToString(i) {
      BatchCardIdIndex(clock(i), i);
    }
    seq(|items|, i requires 0 <= i < |items| => CardFromItem(items[i], clock(i), i))
  }

  /** The fields the dialogue request asks for, per line. */
  datatype RawLine = RawLine(speaker: Speaker, text: string)

  function DialogueLineId(index: nat): string {
    "dlg-" + Text.NatToString(index)
  }

  /** The mapping at the end of `generateDialogue`: one line per item, in order, speaker and text
      copied, no feedback yet, and identifiers `dlg-<index>` that are pairwise distinct. */
  function DialogueFromItems(items: seq<RawLine>): (lines: seq<DialogueLine>)
    ensures |lines| == |items|
    ensures forall i :: 0 <= i < |items| ==>
      lines[i].id == DialogueLineId(i) && lines[i].speaker == items[i].speaker
      && lines[i].text == items[i].text && lines[i].feedback == None
    ensures forall i, j :: 0 <= i < j < |lines| ==> lines[i].id != lines[j].id
  {
    forall i, j | 0 <= i < j < |items|
      ensures DialogueLineId(i) != DialogueLineId(j)
    {
      if DialogueLineId(i) == DialogueLineId(j) {
        Text.PrefixCancel("dlg-", Text.NatToString(i), Text.NatToString(j));
        Text.NatToStringInjective(i, j);
      }
    }
    seq(|items|, i requires 0 <= i < |items| =>
      DialogueLine(DialogueLineId(i), items[i].speaker, items[i].text, None))
  }

  // ---- serialisers ----

  function SenderName(s: Sender): string {
    match s
    case User => "user"
    case Ai => "ai"
  }

  /** `${sender}: ${text}`. */
  function HistoryLine(m: ChatMessage): string {
    SenderName(m.sender) + ": " + m.text
  }

  /** One line per message; `HistoryTextSplitsBack` and `HistoryTextAfterTurn` state what the
      joined text keeps of them. */
  function HistoryLines(history: seq<ChatMessage>): (lines: seq<string>)
    ensures |lines| == |history|
  {
    seq(|history|, i requires 0 <= i < |history| => HistoryLine(history[i]))
  }

  /** The chat history replayed with every turn: one line per message, joined by newlines. */
  function HistoryText(history: seq<ChatMessage>): (r: string)
    ensures r == "" <==> history == []
    ensures |history| == 1 ==> r == HistoryLine(history[0])
  {
    Text.Join(HistoryLines(history), "\n")
  }

  /** When no message text holds a newline, the replayed text can be split back into
      exactly one line per message, in order. */
  lemma HistoryTextSplitsBack(history: seq<ChatMessage>)
    requires |history| > 0
    requires forall i :: 0 <= i < |history| ==> '\n' !in history[i].text
    ensures Text.Split(HistoryText(history), '\n') == HistoryLines(history)
  {
    var lines := HistoryLines(history);
    forall i | 0 <= i < |lines| ensures '\n' !in lines[i] {
      assert lines[i] == SenderName(history[i].sender) + ": " + history[i].text;
      assert '\n' !in SenderName(history[i].sender);
    }
    Text.SplitJoin(lines, '\n');
  }

  /** A chat turn adds its two lines at the end of the replayed text, after a newline unless the
      chat was empty. */
  lemma HistoryTextAfterTurn(history: seq<ChatMessage>, user: ChatMessage, ai: ChatMessage)
    ensures HistoryText(history + [user, ai])
      == (if history == [] then "" else HistoryText(history) + "\n") + HistoryLine(user) + "\n" + HistoryLine(ai)
  {
    var lines := HistoryLines(history);
    assert HistoryLines(history + [user, ai]) == lines + [HistoryLine(user)] + [HistoryLine(ai)];
    if history == [] {
      var both := [HistoryLine(user), HistoryLine(ai)];
      assert lines + [HistoryLine(user)] + [HistoryLine(ai)] == both;
      assert both[1..] == [HistoryLine(ai)];
      assert Text.Join(both, "\n") == HistoryLine(user) + "\n" + HistoryLine(ai);
      assert "" + HistoryLine(user) == HistoryLine(user);
    } else {
      Text.JoinSnoc(lines, HistoryLine(user), "\n");
      Text.JoinSnoc(lines + [HistoryLine(user)], HistoryLine(ai), "\n");
    }
  }

  /** `${word} (${meaning})`. */
  function WordEntry(c: Flashcard): string {
    c.word + " (" + c.meaning + ")"
  }

  /** One entry per card; `WordListAfterCard` states how the joined list grows. */
  function WordEntries(cards: seq<Flashcard>): (entries: seq<string>)
    ensures |entries| == |cards|
  {
    seq(|cards|, i requires 0 <= i < |cards| => WordEntry(cards[i]))
  }

  /** The deck as the quiz request lists it: entries joined by ", ". */
  function WordList(cards: seq<Flashcard>): (r: string)
    ensures r == "" <==> cards == []
    ensures |cards| == 1 ==> r == WordEntry(cards[0])
  {
    Text.Join(WordEntries(cards), ", ")
  }

  /** One more card adds its entry at the end of the list, after ", " unless the deck was empty. */
  lemma WordListAfterCard(cards: seq<Flashcard>, c: Flashcard)
    ensures WordList(cards + [c]) == (if cards == [] then "" else WordList(cards) + ", ") + WordEntry(c)
  {
    assert WordEntries(cards + [c]) == WordEntries(cards) + [WordEntry(c)];
    if cards != [] {
      Text.JoinSnoc(WordEntries(cards), WordEntry(c), ", ");
    }
  }

  // ---- content analysis request ----

  /** A target word count for the summary. */
  datatype Band = Band(minWords: nat, maxWords: nat)

  /** The length ternary: short and medium have their own bands, anything else the long one. */
  function LengthBand(len: SummaryLength): (b: Band)
    ensures b.minWords < b.maxWords
  {
    if len == Short then Band(30, 50)
    else if len == MediumLength then Band(80, 120)
    else Band(180, 250)
  }

  /** Longer settings ask for strictly more words, with no overlap between bands. */
  lemma LengthBandsOrdered()
    ensures LengthBand(Short).maxWords < LengthBand(MediumLength).minWords
    ensures LengthBand(MediumLength).maxWords < LengthBand(Long).minWords
  {
  }

  /** The third point of the analysis instruction: build a tree, or set it to null. */
  datatype MindMapDirective = BuildTree | SetNull

  datatype AnalysisTask = AnalysisTask(band: Band, mindMap: MindMapDirective)

  /** The instruction built from the options: the band of the chosen length, and the tree
      directive exactly when the mode is not summary-only. */
  function TaskFor(options: AnalysisOptions): (t: AnalysisTask)
    ensures t.band == LengthBand(options.summaryLength)
    ensures t.mindMap == BuildTree <==> options.mode != SummaryOnly
  {
    AnalysisTask(LengthBand(options.summaryLength), if options.mode != SummaryOnly then BuildTree else SetNull)
  }

  /** What a text part instructs the generator to do; the wording itself is not modelled. */
  datatype Instruction =
    | Analyse(task: AnalysisTask)
    | GradeWriting
    | AssessFreeSpeech
    | AssessLine(target: string)
    | ChatTurn(historyText: string)

  /** A request part: inline binary data, or a text part that may quote the user's content. */
  datatype Part = Inline(mimeType: string, data: string) | Prompt(quoted: Option<string>, instruction: Instruction)

  /** The parts of an analysis or grading request: an image goes inline before the instruction;
      text is quoted inside the single text part. */
  function ContentParts(kind: InputKind, content: string, instruction: Instruction): (r: seq<Part>)
    ensures |r| >= 1 && r[|r| - 1].Prompt? && r[|r| - 1].instruction == instruction
    ensures forall i :: 0 <= i < |r| - 1 ==> r[i].Inline?
    ensures r[0].Inline? <==> kind == ImageInput
  {
    match kind
    case ImageInput => [Inline("image/jpeg", content), Prompt(None, instruction)]
    case TextInput => [Prompt(Some(content), instruction)]
  }

  /** The user content a request carries, part by part. */
  function Carried(parts: seq<Part>): seq<string> {
    if parts == [] then []
    else
      var here := match parts[0]
        case Inline(_, data) => [data]
        case Prompt(quoted, _) => if quoted.Some? then [quoted.value] else [];
      here + Carried(parts[1..])
  }

  /** Either way the content travels exactly once, the instruction comes last, and an image
      comes first (geminiService.ts, analysis and grading requests). */
  lemma ContentPartsShape(kind: InputKind, content: string, instruction: Instruction)
    ensures Carried(ContentParts(kind, content, instruction)) == [content]
    ensures var parts := ContentParts(kind, content, instruction);
      parts[|parts| - 1].Prompt? && parts[|parts| - 1].instruction == instruction
    ensures kind == ImageInput ==> ContentParts(kind, content, instruction)[0] == Inline("image/jpeg", content)
  {
    var parts := ContentParts(kind, content, instruction);
    var last := [Prompt(None, instruction)];
    assert Carried(last) == [] by {
      assert last[1..] == [];
    }
    if kind == ImageInput {
      assert parts[1..] == last;
    } else {
      assert parts[1..] == [];
    }
  }

  /** The parts of a chat-turn request: the recording, then the replayed history. */
  function ChatParts(audio: string, history: seq<ChatMessage>): seq<Part> {
    [Inline("audio/wav", audio), Prompt(None, ChatTurn(HistoryText(history)))]
  }

  /** A chat turn carries the recording once, inline and first, and ends with the whole
      history replayed as text. */
  lemma ChatPartsShape(audio: string, history: seq<ChatMessage>)
    ensures Carried(ChatParts(audio, history)) == [audio]
    ensures ChatParts(audio, history)[0] == Inline("audio/wav", audio)
    ensures var parts := ChatParts(audio, history);
      parts[|parts| - 1] == Prompt(None, ChatTurn(HistoryText(history)))
  {
    var parts := ChatParts(audio, history);
    var last := [Prompt(None, ChatTurn(HistoryText(history)))];
    assert parts[1..] == last;
    assert Carried(last) == [] by {
      assert last[1..] == [];
    }
  }

  // ---- the mind-map node schema ----

  /** A node schema: its property names, its required names, and the schema of its children, if any. */
  datatype NodeSchema = NodeSchema(properties: seq<string>, required: seq<string>, children: Option<NodeSchema>)

  /** `nodeSchema` as written: children are described two levels below the root, and the
      deepest level has no `children` (nor `note`) property. */
  function MindMapNodeSchema(): (r: NodeSchema)
    ensures Levels(r) == 3
    ensures "children" in r.required && r.children.Some?
    ensures r.children.value.children.Some? && "children" !in r.children.value.children.value.properties
  {
    NodeSchema(["id", "label", "note", "color", "children"], ["id", "label", "children", "color"],
      Some(NodeSchema(["id", "label", "note", "color", "children"], [],
        Some(NodeSchema(["id", "label", "color"], [], None)))))
  }

  /** How many node levels a schema describes. */
  function Levels(s: NodeSchema): nat {
    1 + if s.children.None? then 0 else Levels(s.children.value)
  }

  /** A node answers the schema: its required fields are there, it has no field the schema
      does not describe, and its children answer the children's schema. */
  predicate Conforms(n: MindMapNode, s: NodeSchema)
    decreases n
  {
    ("children" in s.required ==> n.children.ChildList?)
    && ("color" in s.required ==> n.color.Some?)
    && (n.note.Some? ==> "note" in s.properties)
    && (n.color.Some? ==> "color" in s.properties)
    && (n.children.ChildList? ==>
          ("children" in s.properties && s.children.Some?
           && forall i :: 0 <= i < |n.children.nodes| ==> Conforms(n.children.nodes[i], s.children.value)))
  }

  /** The number of levels of a tree. */
  function Depth(n: MindMapNode): nat
    decreases n, 1
  {
    1 + if n.children.NoChildren? then 0 else MaxDepth(n.children.nodes)
  }

  function MaxDepth(ns: seq<MindMapNode>): nat
    decreases ns, 0
  {
    if ns == [] then 0
    else
      var d := Depth(ns[0]);
      var rest := MaxDepth(ns[1..]);
      if d >= rest then d else rest
  }

  /** A tree that answers a schema is no deeper than the schema. */
  lemma {:induction false} ConformingDepth(n: MindMapNode, s: NodeSchema)
    requires Conforms(n, s)
    ensures Depth(n) <= Levels(s)
    decreases n, 1
  {
    if n.children.ChildList? {
      ConformingMaxDepth(n.children.nodes, s.children.value);
    }
  }

  lemma {:induction false} ConformingMaxDepth(ns: seq<MindMapNode>, s: NodeSchema)
    requires forall i :: 0 <= i < |ns| ==> Conforms(ns[i], s)
    ensures MaxDepth(ns) <= Levels(s)
    decreases ns, 0
  {
    if ns != [] {
      ConformingDepth(ns[0], s);
      ConformingMaxDepth(ns[1..], s);
    }
  }

  /** The schema describes three levels, so no conforming mind map is deeper than three. */
  lemma RequestedTreeDepthAtMostThree(n: MindMapNode)
    requires Conforms(n, MindMapNodeSchema())
    ensures Depth(n) <= 3
  {
    ConformingDepth(n, MindMapNodeSchema());
  }
}
