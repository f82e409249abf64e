/** The content-analysis tool (components/MindmapModule.tsx): the generate handler, the summary
    read-aloud toggle and its voice choice, which panels show, and the mind-map rendering. */
module Analysis {
  import opened Types
  import Text
  import Inputs
  import Service

  const AnalysisXP := 30

  /** A speech-synthesis voice, by name and language tag. */
  datatype Voice = Voice(name: string, lang: string)

  /** A voice of the language whose name marks it as a natural-sounding one. */
  predicate Preferred(v: Voice, lang: string) {
    v.lang == lang
    && (Text.Contains(v.name, "Google") || Text.Contains(v.name, "Premium") || Text.Contains(v.name, "Natural"))
  }

  predicate SpeaksLang(v: Voice, lang: string) {
    v.lang == lang
  }

  /** `voices.find(p)` from position `i` on, as an index. */
  function FirstFrom(voices: seq<Voice>, p: Voice -> bool, i: nat): (r: Option<nat>)
    requires i <= |voices|
    ensures r.Some? ==> i <= r.value < |voices| && p(voices[r.value])
    ensures r.Some? ==> forall j :: i <= j < r.value ==> !p(voices[j])
    ensures r.None? ==> forall j :: i <= j < |voices| ==> !p(voices[j])
    decreases |voices| - i
  {
    if i == |voices| then None
    else if p(voices[i]) then Some(i)
    else FirstFrom(voices, p, i + 1)
  }

  /** The voice `handlePlayAudio` sets: the first preferred voice of the language, failing that the
      first voice of the language, failing that none. */
  function PickVoice(voices: seq<Voice>, lang: string): (r: Option<Voice>)
    ensures r.None? <==> forall j :: 0 <= j < |voices| ==> !SpeaksLang(voices[j], lang)
    ensures r.Some? ==> exists k :: 0 <= k < |voices| && voices[k] == r.value && SpeaksLang(voices[k], lang)
    ensures (exists j :: 0 <= j < |voices| && Preferred(voices[j], lang)) ==>
      exists k :: 0 <= k < |voices| && r == Some(voices[k]) && Preferred(voices[k], lang)
        && forall j :: 0 <= j < k ==> !Preferred(voices[j], lang)
    ensures (forall j :: 0 <= j < |voices| ==> !Preferred(voices[j], lang)) && r.Some? ==>
      exists k :: 0 <= k < |voices| && r == Some(voices[k])
        && forall j :: 0 <= j < k ==> !SpeaksLang(voices[j], lang)
  {
    var preferred := FirstFrom(voices, v => Preferred(v, lang), 0);
    if preferred.Some? then Some(voices[preferred.value])
    else
      var plain := FirstFrom(voices, v => SpeaksLang(v, lang), 0);
      if plain.Some? then Some(voices[plain.value]) else None
  }

  /** The summary panel shows for a result in summary or both mode (line 259): every mode but
      mind-map-only. */
  function ShowSummaryPanel(result: Option<ContentAnalysisResult>, mode: AnalysisMode): (shown: bool)
    ensures shown <==> result.Some? && mode != MindMapOnly
  {
    result.Some? && (mode == SummaryOnly || mode == Both)
  }

  /** The mind-map panel shows for a result with a root node, in mind-map or both mode (line 305):
      every mode but summary-only. */
  function ShowMindMapPanel(result: Option<ContentAnalysisResult>, mode: AnalysisMode): (shown: bool)
    ensures shown <==> result.Some? && result.value.rootNode.Some? && mode != SummaryOnly
  {
    result.Some? && (mode == MindMapOnly || mode == Both) && result.value.rootNode.Some?
  }

  /** The request asks for a tree exactly in the modes whose screen has a mind-map panel, and a
      result in summary-only mode never shows one, whatever it holds. */
  lemma TreeRequestedIffPanelMode(result: Option<ContentAnalysisResult>, options: AnalysisOptions)
    ensures Service.TaskFor(options).mindMap == Service.BuildTree <==> options.mode != SummaryOnly
    ensures options.mode == SummaryOnly ==> !ShowMindMapPanel(result, options.mode)
    ensures result.Some? && result.value.rootNode.Some? ==>
      ShowSummaryPanel(result, options.mode) || ShowMindMapPanel(result, options.mode)
  {
  }

  /** The captions `renderNode` draws, in order: the node, then each child's drawing, descending
      only into a present, non-empty child list. */
  function Rendered(n: MindMapNode): (r: seq<string>)
    ensures |r| >= 1 && r[0] == n.caption
    decreases n, 1
  {
    [n.caption] + (if n.children.ChildList? && |n.children.nodes| > 0 then RenderedAll(n.children.nodes) else [])
  }

  function RenderedAll(ns: seq<MindMapNode>): (r: seq<string>)
    ensures |r| >= |ns|
    decreases ns, 0
  {
    if ns == [] then [] else Rendered(ns[0]) + RenderedAll(ns[1..])
  }

  /** The number of nodes of a tree. */
  function Size(n: MindMapNode): nat
    decreases n, 1
  {
    1 + (if n.children.ChildList? then SizeAll(n.children.nodes) else 0)
  }

  function SizeAll(ns: seq<MindMapNode>): nat
    decreases ns, 0
  {
    if ns == [] then 0 else Size(ns[0]) + SizeAll(ns[1..])
  }

  /** Rendering draws every node of the tree exactly once, starting with the root. */
  lemma {:induction false} RenderedCoversTree(n: MindMapNode)
    ensures |Rendered(n)| == Size(n) && Rendered(n)[0] == n.caption
    decreases n, 1
  {
    if n.children.ChildList? {
      RenderedAllCoversForest(n.children.nodes);
    }
  }

  lemma {:induction false} RenderedAllCoversForest(ns: seq<MindMapNode>)
    ensures |RenderedAll(ns)| == SizeAll(ns)
    decreases ns, 0
  {
    if ns != [] {
      RenderedCoversTree(ns[0]);
      RenderedAllCoversForest(ns[1..]);
    }
  }

  /** Drawing a forest draws its trees one after the other. */
  lemma {:induction false} RenderedAllAppend(a: seq<MindMapNode>, b: seq<MindMapNode>)
    ensures RenderedAll(a + b) == RenderedAll(a) + RenderedAll(b)
    ensures SizeAll(a + b) == SizeAll(a) + SizeAll(b)
  {
    if a == [] {
      assert a + b == b;
    } else {
      assert (a + b)[1..] == a[1..] + b;
      RenderedAllAppend(a[1..], b);
    }
  }

  /** The `i`-th tree of a forest is drawn, whole and in order, right after the trees before it. */
  lemma RenderedAllSlices(ns: seq<MindMapNode>, i: int)
    requires 0 <= i < |ns|
    ensures var start := SizeAll(ns[..i]);
      start + Size(ns[i]) <= |RenderedAll(ns)|
      && RenderedAll(ns)[start..start + Size(ns[i])] == Rendered(ns[i])
  {
    assert ns == ns[..i] + ns[i..];
    RenderedAllAppend(ns[..i], ns[i..]);
    RenderedAllCoversForest(ns[..i]);
    RenderedCoversTree(ns[i]);
    assert ns[i..][0] == ns[i];
  }

  /** Each child of a node is drawn, whole, at its place below the node's own caption. */
  lemma ChildDrawn(n: MindMapNode, i: int)
    requires n.children.ChildList? && 0 <= i < |n.children.nodes|
    ensures var nodes := n.children.nodes;
      var start := 1 + SizeAll(nodes[..i]);
      start + Size(nodes[i]) <= |Rendered(n)|
      && Rendered(n)[start..start + Size(nodes[i])] == Rendered(nodes[i])
  {
    var nodes := n.children.nodes;
    RenderedAllSlices(nodes, i);
    RenderedWithChildren(n);
    SliceAfterHead(Rendered(n), n.caption, RenderedAll(nodes), SizeAll(nodes[..i]), Size(nodes[i]), Rendered(nodes[i]));
  }

  lemma RenderedWithChildren(n: MindMapNode)
    requires n.children.ChildList? && |n.children.nodes| > 0
    ensures Rendered(n) == [n.caption] + RenderedAll(n.children.nodes)
  {
  }

  /** A stretch of what follows a one-element head is found one place further in the whole. */
  lemma SliceAfterHead<T>(whole: seq<T>, x: T, rest: seq<T>, a: nat, k: nat, part: seq<T>)
    requires whole == [x] + rest
    requires a + k <= |rest| && rest[a..a + k] == part
    ensures 1 + a + k <= |whole| && whole[1 + a..1 + a + k] == part
  {
  }

  datatype Playback = Idle | Playing

  /** The state slots of the content-analysis tool. */
  class AnalysisSession {
    var activeTab: InputKind
    var inputText: string
    var selectedImage: Option<string>   // the chosen image as a data URL
    var result: Option<ContentAnalysisResult>
    var loading: bool
    var summaryLength: SummaryLength
    var outputMode: AnalysisMode
    var playback: Playback
    var audioLang: string

    constructor ()
      ensures activeTab == ImageInput && inputText == "" && selectedImage == None
      ensures result == None && !loading && playback == Idle
      ensures summaryLength == MediumLength && outputMode == Both && audioLang == "vi-VN"
    {
      activeTab, inputText, selectedImage := ImageInput, "", None;
      result, loading, playback := None, false, Idle;
      summaryLength, outputMode, audioLang := MediumLength, Both, "vi-VN";
    }

    /** `handleGenerate`: content missing or empty issues no request and changes nothing;
        otherwise the old result goes, playback stops, and `reply`, the analysis of the content,
        becomes the result for 30 XP. */
    method Generate(reply: Outcome<ContentAnalysisResult>) returns (xp: int)
      modifies this`result, this`loading, this`playback
      ensures !Inputs.Present(Inputs.Content(activeTab, inputText, selectedImage)) ==>
        result == old(result) && loading == old(loading) && playback == old(playback) && xp == 0
      ensures Inputs.Present(Inputs.Content(activeTab, inputText, selectedImage)) ==> !loading && playback == Idle
      ensures Inputs.Present(Inputs.Content(activeTab, inputText, selectedImage)) && reply.Success? ==>
        result == Some(reply.value) && xp == AnalysisXP
      ensures Inputs.Present(Inputs.Content(activeTab, inputText, selectedImage)) && reply.Failure? ==>
        result == None && xp == 0
    {
      var content := Inputs.Content(activeTab, inputText, selectedImage);
      if !Inputs.Present(content) {
        return 0;
      }
      loading := true;
      result := None;
      playback := Idle;
      match reply {
        case Success(data) =>
          result := Some(data);
          xp := AnalysisXP;
        case Failure(_) =>
          xp := 0;
      }
      loading := false;
    }

    /** `handlePlayAudio`: without a summary nothing happens; while playing it stops; otherwise it
        starts reading with the chosen voice, which is returned. */
    method PlayAudio(voices: seq<Voice>) returns (voice: Option<Voice>)
      modifies this`playback
      ensures (result.None? || result.value.summary == "") ==> playback == old(playback) && voice == None
      ensures result.Some? && result.value.summary != "" && old(playback) == Playing ==> playback == Idle && voice == None
      ensures result.Some? && result.value.summary != "" && old(playback) == Idle ==>
        playback == Playing && voice == PickVoice(voices, audioLang)
    {
      if result.None? || result.value.summary == "" {
        return None;
      }
      if playback == Playing {
        playback := Idle;
        return None;
      }
      voice := PickVoice(voices, audioLang);
      playback := Playing;
    }

    /** The utterance's end and error handlers. */
    method PlaybackFinished()
      modifies this`playback
      ensures playback == Idle
    {
      playback := Idle;
    }
  }
}
