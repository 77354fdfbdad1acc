/**
 * The voice assistant component: its speech queue, the conversation shown,
 * the live transcript, and the handlers that change them. Each handler is a
 * method; the queue part of the state is tied to the transitions of
 * `SpeechQueue`, and the reply handling to `Segmenter`.
 *
 * Awaited calls are split where the component can observe the gap: a
 * synthesis request outstanding for the text being spoken is the `pending`
 * field, and its outcome arrives through `OnSpeechResult` and
 * `OnPlaybackEnded`. `handleUserInput` is split at each of its `await`s:
 * the chat call, every chunk of the `for await` loop, and the end of the
 * stream are methods of their own, so synthesis results and the end of
 * playback can arrive between chunks. The locals the call keeps across its
 * `await`s are a `ReplyStream` value handed from one method to the next.
 */
module VoiceAssistantModel {
  import opened Wrappers
  import opened Text
  import opened Types
  import opened Services
  import opened SpeechQueue
  import opened Segmenter
  import opened Recognition
  import Pcm

  /** The turn added when the chat call or its stream throws. */
  const ErrorReply: string := "Sorry, I encountered an error."

  /** The greeting the conversation starts with. */
  const Greeting: string := "Hello! Press the microphone and I'll start listening."

  /**
   * The locals of one `handleUserInput` call once its stream is open: the
   * model's text so far, the sentence accumulator, and the index of the turn
   * the streamed text is written to. Several calls can be in flight at once,
   * each with its own.
   */
  datatype ReplyStream = ReplyStream(modelResponse: string, currentSentence: string, responseIndex: nat)

  /** The locals after one more chunk: both texts grow by it, and the accumulator is emptied when it is spoken. */
  function Advance(s: ReplyStream, chunk: string): ReplyStream
  {
    ReplyStream(s.modelResponse + chunk, Feed(Segmentation([], s.currentSentence), chunk).rest, s.responseIndex)
  }

  /** What one chunk speaks: the trimmed accumulator, when it now holds a terminator. */
  function ChunkSpeech(s: ReplyStream, chunk: string): seq<string>
  {
    Spoken(Feed(Segmentation([], s.currentSentence), chunk))
  }

  /** What the end of the stream speaks: the remainder, unless it is blank. */
  function EndSpeech(s: ReplyStream): seq<string>
  {
    Flush(Segmentation([], s.currentSentence))
  }

  /** The locals after a run of chunks. */
  function AdvanceAll(s: ReplyStream, chunks: seq<string>): ReplyStream
  {
    if chunks == [] then s else Advance(AdvanceAll(s, chunks[..|chunks| - 1]), chunks[|chunks| - 1])
  }

  /** Everything a run of chunks speaks, chunk by chunk. */
  function StreamSpeech(s: ReplyStream, chunks: seq<string>): seq<string>
  {
    if chunks == [] then []
    else StreamSpeech(s, chunks[..|chunks| - 1]) + ChunkSpeech(AdvanceAll(s, chunks[..|chunks| - 1]), chunks[|chunks| - 1])
  }

  /** The locals after `chunks`: the model's text is all of them, the accumulator the chunker's remainder. */
  predicate Tracks(s: ReplyStream, chunks: seq<string>)
  {
    s.modelResponse == Concat(chunks) && s.currentSentence == Segment(chunks).rest
  }

  /**
   * One chunk keeps the locals in step with the sentence chunker, and speaks
   * exactly the utterance the chunker adds for it.
   */
  lemma AdvanceTracks(s: ReplyStream, chunks: seq<string>, chunk: string)
    requires Tracks(s, chunks)
    ensures Tracks(Advance(s, chunk), chunks + [chunk])
    ensures Spoken(Segment(chunks + [chunk])) == Spoken(Segment(chunks)) + ChunkSpeech(s, chunk)
  {
    var cs := chunks + [chunk];
    assert cs[..|cs| - 1] == chunks;
    var g := Segment(chunks);
    var f := Feed(Segmentation([], g.rest), chunk);
    assert Segment(cs) == Segmentation(g.raw + f.raw, f.rest);
    SpokenAppend(g.raw, f.raw, f.rest);
    assert Spoken(Segmentation(g.raw, f.rest)) == Spoken(g);
    assert Spoken(Segmentation(f.raw, f.rest)) == Spoken(f);
  }

  /**
   * Whatever happens between the chunks, a stream opened for `responseIndex`
   * ends with locals holding all the chunks' text and the chunker's
   * remainder, its chunks speak exactly what the sentence chunker emits, and
   * with the end of the stream it speaks `Utterances(chunks)`.
   */
  lemma {:induction false} StreamFollowsSegmenter(responseIndex: nat, chunks: seq<string>)
    ensures var s := AdvanceAll(ReplyStream("", "", responseIndex), chunks);
      Tracks(s, chunks) && s.responseIndex == responseIndex
      && StreamSpeech(ReplyStream("", "", responseIndex), chunks) == Spoken(Segment(chunks))
      && StreamSpeech(ReplyStream("", "", responseIndex), chunks) + EndSpeech(s) == Utterances(chunks)
  {
    var s0 := ReplyStream("", "", responseIndex);
    if chunks != [] {
      var init, last := chunks[..|chunks| - 1], chunks[|chunks| - 1];
      StreamFollowsSegmenter(responseIndex, init);
      AdvanceTracks(AdvanceAll(s0, init), init, last);
      assert init + [last] == chunks;
    }
    var s := AdvanceAll(s0, chunks);
    assert Segmentation([], s.currentSentence).rest == Segment(chunks).rest;
  }

  /**
   * `handleUserInput` never speaks a blank text: everything the chunks and
   * the end of a stream hand to `speak` is non-empty and trimmed, and so is
   * the apology spoken when the call or the stream throws.
   */
  lemma StreamSpeechShape(responseIndex: nat, chunks: seq<string>)
    ensures forall i :: 0 <= i < |StreamSpeech(ReplyStream("", "", responseIndex), chunks)| ==>
      StreamSpeech(ReplyStream("", "", responseIndex), chunks)[i] != ""
      && IsTrimmed(StreamSpeech(ReplyStream("", "", responseIndex), chunks)[i])
    ensures forall i :: 0 <= i < |EndSpeech(AdvanceAll(ReplyStream("", "", responseIndex), chunks))| ==>
      EndSpeech(AdvanceAll(ReplyStream("", "", responseIndex), chunks))[i] != ""
      && IsTrimmed(EndSpeech(AdvanceAll(ReplyStream("", "", responseIndex), chunks))[i])
    ensures ErrorReply != "" && IsTrimmed(ErrorReply)
  {
    StreamFollowsSegmenter(responseIndex, chunks);
    SpokenAreSentences(chunks);
    FlushShape(Segmentation([], AdvanceAll(ReplyStream("", "", responseIndex), chunks).currentSentence));
  }

  class VoiceAssistant {
    var queue: seq<string>
    var isSpeaking: bool
    var status: Status
    var pending: Pending
    ghost var started: seq<string>
    ghost var accepted: seq<string>
    var conversation: seq<ChatMessage>
    var liveTranscript: string
    /** Whether the chat session could be created. */
    const hasChat: bool
    /** Whether the browser offers speech recognition. */
    const recognitionSupported: bool

    /** The queue part of the state. */
    ghost function Queue(): QueueState
      reads this
    {
      QueueState(queue, isSpeaking, status, pending, started, accepted)
    }

    /** The component after its mount effect: a greeting, an empty queue, idle. */
    constructor(hasChat: bool, recognitionSupported: bool)
      ensures Queue() == Initial && Inv(Queue())
      ensures conversation == [ChatMessage(Model, Greeting)] && liveTranscript == ""
      ensures this.hasChat == hasChat && this.recognitionSupported == recognitionSupported
    {
      queue, isSpeaking, status, pending := [], false, Idle, NoUtterance;
      started, accepted := [], [];
      conversation := [ChatMessage(Model, Greeting)];
      liveTranscript := "";
      this.hasChat := hasChat;
      this.recognitionSupported := recognitionSupported;
    }

    /** `processAudioQueue`, up to its first `await`. */
    method ProcessAudioQueue()
      modifies this
      ensures Queue() == Drain(old(Queue()))
      ensures conversation == old(conversation) && liveTranscript == old(liveTranscript)
    {
      if isSpeaking || queue == [] {
        isSpeaking := false;
        status := Idle;
        return;
      }
      isSpeaking := true;
      status := Speaking;
      var textToPlay := queue[0];
      queue := queue[1..];
      started := started + [textToPlay];
      pending := if textToPlay != "" then Synthesising(textToPlay) else NoUtterance;
    }

    /** `speak` */
    method Speak(text: string)
      modifies this
      ensures Queue() == SpeechQueue.Speak(old(Queue()), text)
      ensures conversation == old(conversation) && liveTranscript == old(liveTranscript)
    {
      if text == "" {
        return;
      }
      queue := queue + [text];
      accepted := accepted + [text];
      if !isSpeaking {
        ProcessAudioQueue();
      }
    }

    /**
     * The synthesis request comes back: playable audio is decoded and handed
     * to the output (`played`); anything else, including a decoding failure
     * caught inside `playAudio`, re-enters the drain.
     */
    method OnSpeechResult(r: SpeechResult) returns (played: Option<array<real>>)
      requires pending.Synthesising?
      modifies this
      ensures Queue() == OnSpeech(old(Queue()), r)
      ensures played.Some? <==> Plays(r)
      ensures played.Some? ==> fresh(played.value) && played.value[..] == Pcm.DecodePayload(r.base64).value
      ensures conversation == old(conversation) && liveTranscript == old(liveTranscript)
    {
      played := None;
      if r.Audio? && r.base64 != "" {
        played := Pcm.DecodeForPlayback(r.base64);
        if played.Some? {
          pending := Playing(pending.text);
          return;
        }
      }
      pending := NoUtterance;
      ProcessAudioQueue();
    }

    /** `source.onended` */
    method OnPlaybackEnded()
      requires pending.Playing?
      modifies this
      ensures Queue() == SpeechQueue.OnPlaybackEnded(old(Queue()))
      ensures conversation == old(conversation) && liveTranscript == old(liveTranscript)
    {
      pending := NoUtterance;
      ProcessAudioQueue();
    }

    /**
     * `handleUserInput` up to its chat call: nothing without a chat or with
     * empty text. Otherwise the status becomes thinking, the user's turn is
     * added, and the call is made; `responseIndex` is the turn the reply will
     * be written to, one past the conversation the call started from.
     */
    method HandleUserInput(text: string) returns (responseIndex: Option<nat>)
      modifies this
      ensures responseIndex.Some? <==> hasChat && text != ""
      ensures responseIndex == None ==> Queue() == old(Queue()) && conversation == old(conversation)
      ensures responseIndex.Some? ==>
        responseIndex.value == |old(conversation)| + 1
        && conversation == old(conversation) + [ChatMessage(User, text)]
        && Queue() == old(Queue()).(status := Thinking)
      ensures liveTranscript == old(liveTranscript)
    {
      if !hasChat || text == "" {
        return None;
      }
      responseIndex := Some(|conversation| + 1);
      status := Thinking;
      conversation := conversation + [ChatMessage(User, text)];
    }

    /** The stream is open: an empty model turn is added as the placeholder, and the locals start empty. */
    method OnStreamOpened(responseIndex: nat) returns (s: ReplyStream)
      modifies this
      ensures s == ReplyStream("", "", responseIndex)
      ensures conversation == old(conversation) + [ChatMessage(Model, "")]
      ensures Queue() == old(Queue()) && liveTranscript == old(liveTranscript)
    {
      conversation := conversation + [ChatMessage(Model, "")];
      s := ReplyStream("", "", responseIndex);
    }

    /**
     * One iteration of the `for await` loop: the chunk extends both texts,
     * the turn at `responseIndex` (when there is one) gets the model's text
     * so far, and the accumulator is spoken and emptied when it holds a
     * terminator.
     */
    method OnChunk(s: ReplyStream, chunk: string) returns (next: ReplyStream)
      modifies this
      ensures next == Advance(s, chunk)
      ensures conversation == if s.responseIndex < |old(conversation)|
        then old(conversation)[s.responseIndex := old(conversation)[s.responseIndex].(text := next.modelResponse)]
        else old(conversation)
      ensures Queue() == SpeakAll(old(Queue()), ChunkSpeech(s, chunk))
      ensures liveTranscript == old(liveTranscript)
    {
      var modelResponse := s.modelResponse + chunk;
      var currentSentence := s.currentSentence + chunk;
      if s.responseIndex < |conversation| {
        conversation := conversation[s.responseIndex := conversation[s.responseIndex].(text := modelResponse)];
      }
      ghost var q0 := Queue();
      assert currentSentence == Segmentation([], s.currentSentence).rest + chunk;
      if HasTerminator(currentSentence) {
        Speak(Trim(currentSentence));
        assert Spoken(Segmentation([currentSentence], "")) == [Trim(currentSentence)];
        assert [Trim(currentSentence)][..0] == [];
        currentSentence := "";
      }
      next := ReplyStream(modelResponse, currentSentence, s.responseIndex);
    }

    /** The stream has ended: a remainder that is not blank is spoken, trimmed. */
    method OnStreamEnd(s: ReplyStream)
      modifies this
      ensures Queue() == SpeakAll(old(Queue()), EndSpeech(s))
      ensures conversation == old(conversation) && liveTranscript == old(liveTranscript)
    {
      if Trim(s.currentSentence) != "" {
        Speak(Trim(s.currentSentence));
        assert [Trim(s.currentSentence)][..0] == [];
      }
    }

    /** The chat call or its stream throws: the apology is added and spoken. */
    method OnChatFailed()
      modifies this
      ensures conversation == old(conversation) + [ChatMessage(Model, ErrorReply)]
      ensures Queue() == SpeechQueue.Speak(old(Queue()), ErrorReply)
      ensures liveTranscript == old(liveTranscript)
    {
      conversation := conversation + [ChatMessage(Model, ErrorReply)];
      Speak(ErrorReply);
    }

    /**
     * `toggleListen`: without recognition, only the alert. While listening,
     * stop, submit the trimmed transcript if it is not blank, and clear the
     * transcript; `responseIndex` is what the chat call of `handleUserInput`
     * reports. When idle, start. While thinking or speaking, nothing.
     */
    method ToggleListen() returns (cmd: RecognitionCommand, responseIndex: Option<nat>)
      modifies this
      ensures cmd == if !recognitionSupported then UnsupportedAlert
        else if old(status) == Listening then StopRecognition
        else if old(status) == Idle then StartRecognition
        else NoCommand
      ensures cmd != StopRecognition ==>
        responseIndex == None && Queue() == old(Queue())
        && conversation == old(conversation) && liveTranscript == old(liveTranscript)
      ensures cmd == StopRecognition ==> liveTranscript == ""
      ensures cmd == StopRecognition && (AllSpace(old(liveTranscript)) || !hasChat) ==>
        responseIndex == None && Queue() == old(Queue()) && conversation == old(conversation)
      ensures cmd == StopRecognition && !AllSpace(old(liveTranscript)) && hasChat ==>
        responseIndex == Some(|old(conversation)| + 1)
        && conversation == old(conversation) + [ChatMessage(User, Trim(old(liveTranscript)))]
        && Queue() == old(Queue()).(status := Thinking)
    {
      responseIndex := None;
      if !recognitionSupported {
        return UnsupportedAlert, None;
      }
      if status == Listening {
        cmd := StopRecognition;
        var transcript := Trim(liveTranscript);
        if transcript != "" {
          responseIndex := HandleUserInput(transcript);
        }
        liveTranscript := "";
      } else if status == Idle {
        cmd := StartRecognition;
      } else {
        cmd := NoCommand;
      }
    }

    /** `recognition.onstart` */
    method OnRecognitionStart()
      modifies this
      ensures Queue() == old(Queue()).(status := Listening)
      ensures conversation == old(conversation) && liveTranscript == old(liveTranscript)
    {
      status := Listening;
    }

    /** `recognition.onend` */
    method OnRecognitionEnd()
      modifies this
      ensures Queue() == old(Queue()).(status := Idle)
      ensures conversation == old(conversation) && liveTranscript == old(liveTranscript)
    {
      status := Idle;
    }

    /** `recognition.onresult`: the live transcript becomes the joined first alternatives. */
    method OnRecognitionResult(results: seq<Alternatives>)
      modifies this
      ensures liveTranscript == JoinTranscript(results)
      ensures Queue() == old(Queue()) && conversation == old(conversation)
    {
      liveTranscript := JoinTranscript(results);
    }
  }
}
