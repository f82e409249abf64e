/** The speaking tool (components/SpeakingModule.tsx): recording, and what a processed recording
    does in the free, topic-dialogue and chat modes. */
module Speaking {
  import opened Types
  import Service

  const FreeXP := 20
  const LineXP := 10
  const ChatXP := 15

  /** JavaScript truthiness of an optional string: present and not empty. */
  predicate Truthy(s: Option<string>) {
    s.Some? && s.value != ""
  }

  /** A dialogue holds a line with this id (`dialogue.find(l => l.id === lineId)` succeeds). */
  predicate HasLine(dialogue: seq<DialogueLine>, id: string) {
    exists i :: 0 <= i < |dialogue| && dialogue[i].id == id
  }

  /** `prev.map(l => l.id === lineId ? { ...l, feedback: data } : l)`. What it means is stated
      by `UpdateLineKeepsScript`, `UpdateLineOverwrites` and `UpdateLineTouchesOne`. */
  function UpdateLine(dialogue: seq<DialogueLine>, id: string, f: SpeakingFeedback): (r: seq<DialogueLine>)
    ensures |r| == |dialogue|
  {
    seq(|dialogue|, i requires 0 <= i < |dialogue| =>
      if dialogue[i].id == id then dialogue[i].(feedback := Some(f)) else dialogue[i])
  }

  /** Ids, speakers and texts are untouched by an assessment; the line order too. */
  lemma UpdateLineKeepsScript(dialogue: seq<DialogueLine>, id: string, f: SpeakingFeedback)
    ensures var r := UpdateLine(dialogue, id, f);
      forall i :: 0 <= i < |r| ==>
        r[i].id == dialogue[i].id && r[i].speaker == dialogue[i].speaker && r[i].text == dialogue[i].text
  {
  }

  /** A later assessment of the same line replaces the earlier one. */
  lemma UpdateLineOverwrites(dialogue: seq<DialogueLine>, id: string, f1: SpeakingFeedback, f2: SpeakingFeedback)
    ensures UpdateLine(UpdateLine(dialogue, id, f1), id, f2) == UpdateLine(dialogue, id, f2)
  {
  }

  /** With distinct ids, as generated dialogues have, an assessment of the line at `k` changes that
      line alone. */
  lemma UpdateLineTouchesOne(dialogue: seq<DialogueLine>, k: int, f: SpeakingFeedback)
    requires 0 <= k < |dialogue|
    requires forall i, j :: 0 <= i < j < |dialogue| ==> dialogue[i].id != dialogue[j].id
    ensures UpdateLine(dialogue, dialogue[k].id, f) == dialogue[k := dialogue[k].(feedback := Some(f))]
  {
    var r := UpdateLine(dialogue, dialogue[k].id, f);
    var s := dialogue[k := dialogue[k].(feedback := Some(f))];
    forall i | 0 <= i < |r| ensures r[i] == s[i] {
      if i < k {
        assert dialogue[i].id != dialogue[k].id;
      } else if i > k {
        assert dialogue[k].id != dialogue[i].id;
      }
    }
  }

  /** `result.userTranscript || "..."`. */
  function ShownTranscript(transcript: string): (r: string)
    ensures r != ""
    ensures transcript != "" ==> r == transcript
  {
    if transcript == "" then "..." else transcript
  }

  /** The two messages a chat turn appends: the learner's words with the correction, then the reply. */
  function ChatTurn(reply: ChatReply, userId: string, aiId: string): (turn: seq<ChatMessage>)
    ensures |turn| == 2 && turn[0].sender == User && turn[1].sender == Ai
    ensures turn[0].text != "" && turn[0].correction == reply.correction
    ensures turn[1].text == reply.reply && turn[1].correction == None
  {
    [ChatMessage(userId, User, ShownTranscript(reply.userTranscript), reply.correction),
     ChatMessage(aiId, Ai, reply.reply, None)]
  }

  /** The chat alternates learner and friend, starting with the learner and ending on a reply,
      and only the learner's messages carry corrections. */
  predicate Alternates(history: seq<ChatMessage>) {
    |history| % 2 == 0
    && forall i :: 0 <= i < |history| ==>
      (history[i].sender == User <==> i % 2 == 0) && (history[i].sender == Ai ==> history[i].correction == None)
  }

  lemma {:induction false} ChatTurnKeepsAlternation(history: seq<ChatMessage>, reply: ChatReply, userId: string, aiId: string)
    requires Alternates(history)
    ensures Alternates(history + ChatTurn(reply, userId, aiId))
  {
    var h := history + ChatTurn(reply, userId, aiId);
    forall i | 0 <= i < |h|
      ensures (h[i].sender == User <==> i % 2 == 0) && (h[i].sender == Ai ==> h[i].correction == None)
    {
      if i < |history| {
        assert h[i] == history[i];
      } else {
        assert i == |history| || i == |history| + 1;
      }
    }
  }

  /** No two lines of a dialogue share an identifier. */
  predicate DistinctIds(dialogue: seq<DialogueLine>) {
    forall i, j :: 0 <= i < j < |dialogue| ==> dialogue[i].id != dialogue[j].id
  }

  /** The state slots of the speaking tool; `hasRecorder` says a recorder has been set up. */
  class SpeakingSession {
    var mode: SpeakingMode
    var loading: bool
    var isRecording: bool
    var hasRecorder: bool
    var freeFeedback: Option<SpeakingFeedback>
    var topic: string
    var dialogue: seq<DialogueLine>
    var activeLineId: Option<string>
    var chatHistory: seq<ChatMessage>

    ghost predicate Valid()
      reads this
    {
      Alternates(chatHistory) && (isRecording ==> hasRecorder) && DistinctIds(dialogue)
    }

    constructor ()
      ensures mode == Free && !loading && !isRecording && !hasRecorder
      ensures freeFeedback == None && topic == "" && dialogue == [] && activeLineId == None && chatHistory == []
      ensures Valid()
    {
      mode, loading, isRecording, hasRecorder := Free, false, false, false;
      freeFeedback, topic, dialogue, activeLineId, chatHistory := None, "", [], None, [];
    }

    /** The three mode buttons; switching mode clears nothing. */
    method SetMode(m: SpeakingMode)
      modifies this`mode
      ensures mode == m
    {
      mode := m;
    }

    /** `handleStartRecording(lineId)`: when the microphone is granted, recording starts and a
        truthy line id becomes the active line; a refusal changes nothing. */
    method StartRecording(lineId: Option<string>, granted: bool)
      requires Valid()
      modifies this`isRecording, this`hasRecorder, this`activeLineId
      ensures Valid()
      ensures !granted ==> isRecording == old(isRecording) && hasRecorder == old(hasRecorder) && activeLineId == old(activeLineId)
      ensures granted ==> isRecording && hasRecorder
      ensures granted ==> activeLineId == (if Truthy(lineId) then lineId else old(activeLineId))
    {
      if !granted {
        return;
      }
      hasRecorder := true;
      isRecording := true;
      if Truthy(lineId) {
        activeLineId := lineId;
      }
    }

    /** `handleStopRecording`: only a running recorder stops. The recording is then processed by
        `ProcessAudio`. */
    method StopRecording()
      requires Valid()
      modifies this`isRecording
      ensures Valid() && !isRecording
    {
      if hasRecorder && isRecording {
        isRecording := false;
      }
    }

    /** `processAudio(base64, lineId)`. `feedbackReply` is the assessment of the recording (free
        speech, or the dialogue line), `chatReply` the friend's answer; `userId` and `aiId` are the
        clock-based message ids. The experience earned is returned. */
    method ProcessAudio(lineId: Option<string>, feedbackReply: Outcome<SpeakingFeedback>, chatReply: Outcome<ChatReply>,
                        userId: string, aiId: string) returns (xp: int)
      requires Valid()
      modifies this`loading, this`freeFeedback, this`dialogue, this`activeLineId, this`chatHistory
      ensures Valid() && !loading
      ensures mode == Free ==> dialogue == old(dialogue) && activeLineId == old(activeLineId) && chatHistory == old(chatHistory)
      ensures mode == Free && feedbackReply.Success? ==> freeFeedback == Some(feedbackReply.value) && xp == FreeXP
      ensures mode == Free && feedbackReply.Failure? ==> freeFeedback == old(freeFeedback) && xp == 0
      ensures mode == Topic ==> freeFeedback == old(freeFeedback) && chatHistory == old(chatHistory)
      ensures mode == Topic && !Truthy(lineId) ==> dialogue == old(dialogue) && activeLineId == old(activeLineId) && xp == 0
      ensures mode == Topic && Truthy(lineId) && !HasLine(old(dialogue), lineId.value) ==>
        dialogue == old(dialogue) && activeLineId == None && xp == 0
      ensures mode == Topic && Truthy(lineId) && HasLine(old(dialogue), lineId.value) && feedbackReply.Success? ==>
        dialogue == UpdateLine(old(dialogue), lineId.value, feedbackReply.value) && activeLineId == None && xp == LineXP
      ensures mode == Topic && Truthy(lineId) && HasLine(old(dialogue), lineId.value) && feedbackReply.Success? ==>
        exists k :: 0 <= k < |old(dialogue)| && old(dialogue)[k].id == lineId.value
          && dialogue == old(dialogue)[k := old(dialogue)[k].(feedback := Some(feedbackReply.value))]
      ensures mode == Topic && Truthy(lineId) && HasLine(old(dialogue), lineId.value) && feedbackReply.Failure? ==>
        dialogue == old(dialogue) && activeLineId == old(activeLineId) && xp == 0
      ensures mode == Chat ==> freeFeedback == old(freeFeedback) && dialogue == old(dialogue) && activeLineId == old(activeLineId)
      ensures mode == Chat && chatReply.Success? ==>
        chatHistory == old(chatHistory) + ChatTurn(chatReply.value, userId, aiId) && xp == ChatXP
      ensures mode == Chat && chatReply.Failure? ==> chatHistory == old(chatHistory) && xp == 0
    {
      loading := true;
      xp := 0;
      if mode == Free {
        match feedbackReply {
          case Success(data) =>
            freeFeedback := Some(data);
            xp := FreeXP;
          case Failure(_) =>
        }
      } else if mode == Topic && Truthy(lineId) {
        if HasLine(dialogue, lineId.value) {
          match feedbackReply {
            case Success(data) =>
              var k :| 0 <= k < |dialogue| && dialogue[k].id == lineId.value;
              UpdateLineTouchesOne(dialogue, k, data);
              UpdateLineKeepsScript(dialogue, lineId.value, data);
              dialogue := UpdateLine(dialogue, lineId.value, data);
              xp := LineXP;
              activeLineId := None;
            case Failure(_) =>
          }
        } else {
          activeLineId := None;
        }
      } else if mode == Chat {
        match chatReply {
          case Success(result) =>
            ChatTurnKeepsAlternation(chatHistory, result, userId, aiId);
            chatHistory := chatHistory + ChatTurn(result, userId, aiId);
            xp := ChatXP;
          case Failure(_) =>
        }
      }
      loading := false;
    }

    /** `generateTopicDialogue`: an empty topic issues no request; otherwise the dialogue is
        cleared and replaced, when `reply` (the generator's lines) arrives, by the script built
        from it: one line per item, in order, unassessed, with distinct `dlg-<index>` ids. */
    method GenerateTopicDialogue(reply: Outcome<seq<Service.RawLine>>)
      requires Valid()
      modifies this`loading, this`dialogue
      ensures Valid()
      ensures topic == "" ==> dialogue == old(dialogue) && loading == old(loading)
      ensures topic != "" ==> !loading
      ensures topic != "" && reply.Success? ==> dialogue == Service.DialogueFromItems(reply.value)
      ensures topic != "" && reply.Success? ==> |dialogue| == |reply.value|
      ensures topic != "" && reply.Success? ==>
        forall i :: 0 <= i < |dialogue| ==> dialogue[i].feedback == None && dialogue[i].text == reply.value[i].text
      ensures topic != "" && reply.Failure? ==> dialogue == []
    {
      if topic == "" {
        return;
      }
      loading := true;
      dialogue := [];
      match reply {
        case Success(items) =>
          dialogue := Service.DialogueFromItems(items);
        case Failure(_) =>
      }
      loading := false;
    }
  }
}
