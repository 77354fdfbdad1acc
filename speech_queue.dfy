/**
 * The voice assistant's speech queue and status, as state transitions: the
 * queue of texts waiting to be spoken (`audioQueueRef`), the speaking flag
 * (`isSpeakingRef`), the status shown to the user, and the one request that
 * may be outstanding (speech synthesis, then playback) for the text taken
 * last.
 *
 * `processAudioQueue` is modelled as written. It returns to idle whenever
 * it is entered with the flag set, and every completion path (playback
 * ended, no audio, synthesis error, undecodable audio) re-enters it with the
 * flag still set. So one drain speaks one text and then goes idle; texts
 * queued meanwhile stay queued until the next `speak` starts a drain.
 */
module SpeechQueue {
  import opened Services
  import Pcm

  datatype Status = Idle | Listening | Thinking | Speaking

  /** The request outstanding for the text taken last. */
  datatype Pending = NoUtterance | Synthesising(text: string) | Playing(text: string)

  /**
   * The queue state. `started` and `accepted` are histories: every text
   * taken from the queue, and every text pushed onto it, in order.
   */
  datatype QueueState = QueueState(
    queue: seq<string>,
    speaking: bool,
    status: Status,
    pending: Pending,
    started: seq<string>,
    accepted: seq<string>)

  const Initial := QueueState([], false, Idle, NoUtterance, [], [])

  /**
   * The part of `processAudioQueue` before its first `await`. Entered with
   * the flag set or an empty queue, it clears the flag and shows idle.
   * Otherwise it sets the flag, shows speaking and takes the head; a
   * non-empty head is sent to speech synthesis.
   */
  function Drain(s: QueueState): QueueState
  {
    if s.speaking || s.queue == [] then s.(speaking := false, status := Idle)
    else
      var text := s.queue[0];
      s.(speaking := true, status := Speaking, queue := s.queue[1..],
         started := s.started + [text],
         pending := if text != "" then Synthesising(text) else NoUtterance)
  }

  /** `speak`: ignore the empty text, otherwise push it and start a drain if the flag is clear. */
  function Speak(s: QueueState, text: string): QueueState
  {
    if text == "" then s
    else
      var pushed := s.(queue := s.queue + [text], accepted := s.accepted + [text]);
      if pushed.speaking then pushed else Drain(pushed)
  }

  /** A completion path: the outstanding request is over and `processAudioQueue` is entered again. */
  function Finish(s: QueueState): QueueState
  {
    Drain(s.(pending := NoUtterance))
  }

  /**
   * The synthesis request for the current text comes back. Playable audio
   * starts playing; no audio, a synthesis error, or audio that fails to
   * decode (the `catch` in `playAudio` calls `onEnded`) re-enter the drain.
   */
  function OnSpeech(s: QueueState, r: SpeechResult): QueueState
    requires s.pending.Synthesising?
  {
    if Plays(r) then s.(pending := Playing(s.pending.text)) else Finish(s)
  }

  /** `source.onended`: playback is over and the drain is entered again. */
  function OnPlaybackEnded(s: QueueState): QueueState
    requires s.pending.Playing?
  {
    Finish(s)
  }

  /** Speaking several texts one after another. */
  function SpeakAll(s: QueueState, texts: seq<string>): QueueState
  {
    if texts == [] then s else Speak(SpeakAll(s, texts[..|texts| - 1]), texts[|texts| - 1])
  }

  /**
   * The invariant: the flag is set exactly while a request is outstanding,
   * no queued text is empty, and the texts taken so far followed by those
   * still queued are exactly the texts pushed, in push order.
   */
  predicate Inv(s: QueueState)
  {
    (s.speaking <==> !s.pending.NoUtterance?)
    && (forall i :: 0 <= i < |s.queue| ==> s.queue[i] != "")
    && s.accepted == s.started + s.queue
  }

  lemma InitialInv()
    ensures Inv(Initial)
  {
  }

  // ----- One call at a time -----

  /** `speak("")` changes nothing. */
  lemma SpeakEmpty(s: QueueState)
    ensures Speak(s, "") == s
  {
  }

  /**
   * Only the empty text is ignored: a text of white space alone is pushed
   * and, from an idle queue, sent to speech synthesis.
   */
  lemma WhitespaceIsSpoken()
    ensures Speak(Initial, " ").started == [" "]
    ensures Speak(Initial, " ").pending == Synthesising(" ")
  {
    assert ([] + [" "])[1..] == [];
  }

  /** While the flag is set, `speak` only appends its text at the tail of the queue. */
  lemma SpeakWhileSpeaking(s: QueueState, text: string)
    requires s.speaking && text != ""
    ensures Speak(s, text) == s.(queue := s.queue + [text], accepted := s.accepted + [text])
  {
  }

  /**
   * With the flag clear, `speak` starts a drain, which takes the OLDEST
   * queued text (not necessarily the one just pushed) and synthesises it.
   */
  lemma SpeakWhenIdle(s: QueueState, text: string)
    requires !s.speaking && text != ""
    requires forall i :: 0 <= i < |s.queue| ==> s.queue[i] != ""
    ensures var t := Speak(s, text); var head := (s.queue + [text])[0];
      t.speaking && t.status == Speaking && t.pending == Synthesising(head)
      && t.queue == (s.queue + [text])[1..] && t.started == s.started + [head]
  {
  }

  /** A drain entered with the flag set or an empty queue takes nothing, clears the flag and shows idle. */
  lemma DrainGuard(s: QueueState)
    requires s.speaking || s.queue == []
    ensures Drain(s) == s.(speaking := false, status := Idle)
  {
  }

  /** A drain entered with the flag clear and a non-empty queue takes exactly the head. */
  lemma DrainTakesHead(s: QueueState)
    requires !s.speaking && s.queue != []
    ensures Drain(s).queue == s.queue[1..] && Drain(s).started == s.started + [s.queue[0]]
    ensures Drain(s).speaking && Drain(s).status == Speaking
  {
  }

  /**
   * Every completion path ends idle with the flag cleared and nothing
   * outstanding, and leaves the queue as it was: the flag never stays stuck,
   * but the texts still queued are not spoken.
   */
  lemma CompletionGoesIdle(s: QueueState)
    requires Inv(s) && !s.pending.NoUtterance?
    ensures Finish(s) == s.(speaking := false, status := Idle, pending := NoUtterance)
  {
  }

  /** The synthesis result decides between playing and going idle. */
  lemma SpeechOutcome(s: QueueState, r: SpeechResult)
    requires Inv(s) && s.pending.Synthesising?
    ensures Plays(r) ==> OnSpeech(s, r) == s.(pending := Playing(s.pending.text))
    ensures !Plays(r) ==> OnSpeech(s, r) == s.(speaking := false, status := Idle, pending := NoUtterance)
  {
    if !Plays(r) {
      CompletionGoesIdle(s);
    }
  }

  // ----- The invariant -----

  lemma SpeakKeepsInv(s: QueueState, text: string)
    requires Inv(s)
    ensures Inv(Speak(s, text))
  {
    if text != "" {
      var pushed := s.(queue := s.queue + [text], accepted := s.accepted + [text]);
      assert pushed.accepted == pushed.started + pushed.queue;
      if !pushed.speaking {
        assert pushed.queue == [pushed.queue[0]] + pushed.queue[1..];
      }
    }
  }

  lemma SpeechKeepsInv(s: QueueState, r: SpeechResult)
    requires Inv(s) && s.pending.Synthesising?
    ensures Inv(OnSpeech(s, r))
  {
    SpeechOutcome(s, r);
  }

  lemma PlaybackEndedKeepsInv(s: QueueState)
    requires Inv(s) && s.pending.Playing?
    ensures Inv(OnPlaybackEnded(s))
  {
    CompletionGoesIdle(s);
  }

  lemma {:induction false} SpeakAllKeepsInv(s: QueueState, texts: seq<string>)
    requires Inv(s)
    ensures Inv(SpeakAll(s, texts))
  {
    if texts != [] {
      SpeakAllKeepsInv(s, texts[..|texts| - 1]);
      SpeakKeepsInv(SpeakAll(s, texts[..|texts| - 1]), texts[|texts| - 1]);
    }
  }

  lemma SpeakAllSnoc(s: QueueState, texts: seq<string>, text: string)
    ensures SpeakAll(s, texts + [text]) == Speak(SpeakAll(s, texts), text)
  {
    assert (texts + [text])[..|texts|] == texts;
  }

  /** Speaking two runs of texts is speaking the first run, then the second. */
  lemma {:induction false} SpeakAllAppend(s: QueueState, a: seq<string>, b: seq<string>)
    ensures SpeakAll(s, a + b) == SpeakAll(SpeakAll(s, a), b)
    decreases |b|
  {
    if b == [] {
      assert a + b == a;
    } else {
      var init, last := b[..|b| - 1], b[|b| - 1];
      assert a + b == (a + init) + [last];
      assert b == init + [last];
      calc {
        SpeakAll(s, a + b);
        { SpeakAllSnoc(s, a + init, last); }
        Speak(SpeakAll(s, a + init), last);
        { SpeakAllAppend(s, a, init); }
        Speak(SpeakAll(SpeakAll(s, a), init), last);
        { SpeakAllSnoc(SpeakAll(s, a), init, last); }
        SpeakAll(SpeakAll(s, a), b);
      }
    }
  }

  /** Speaking several texts pushes every non-empty one, in order. */
  lemma {:induction false} SpeakAllAccepts(s: QueueState, texts: seq<string>)
    requires forall i :: 0 <= i < |texts| ==> texts[i] != ""
    ensures SpeakAll(s, texts).accepted == s.accepted + texts
  {
    if texts != [] {
      var init := texts[..|texts| - 1];
      SpeakAllAccepts(s, init);
      assert s.accepted + init + [texts[|texts| - 1]] == s.accepted + texts;
    }
  }

  // ----- Traces -----

  /** What can happen to the queue: a `speak` call, a synthesis result, the end of playback, or a status change. */
  datatype Event = SpeakEvent(text: string) | SpeechEvent(result: SpeechResult) | PlaybackEndedEvent | StatusEvent(status: Status)

  /** One event; a result or an end of playback that no request is waiting for cannot arrive and changes nothing. */
  function Step(s: QueueState, e: Event): QueueState
  {
    match e
    case SpeakEvent(text) => Speak(s, text)
    case SpeechEvent(r) => if s.pending.Synthesising? then OnSpeech(s, r) else s
    case PlaybackEndedEvent => if s.pending.Playing? then OnPlaybackEnded(s) else s
    case StatusEvent(status) => s.(status := status)
  }

  function Run(s: QueueState, events: seq<Event>): QueueState
  {
    if events == [] then s else Step(Run(s, events[..|events| - 1]), events[|events| - 1])
  }

  /**
   * Along any run from the initial state the invariant holds: at most one
   * request is outstanding, and texts are taken in exactly the order they
   * were pushed.
   */
  lemma {:induction false} RunKeepsInv(events: seq<Event>)
    ensures Inv(Run(Initial, events))
    ensures StartsInPushOrder(Run(Initial, events))
  {
    if events != [] {
      RunKeepsInv(events[..|events| - 1]);
      var s := Run(Initial, events[..|events| - 1]);
      match events[|events| - 1]
      case SpeakEvent(text) => SpeakKeepsInv(s, text);
      case SpeechEvent(r) => if s.pending.Synthesising? { SpeechKeepsInv(s, r); }
      case PlaybackEndedEvent => if s.pending.Playing? { PlaybackEndedKeepsInv(s); }
      case StatusEvent(_) =>
    }
  }

  /** The texts taken so far are the first texts pushed, in push order. */
  predicate StartsInPushOrder(s: QueueState)
  {
    |s.started| <= |s.accepted| && s.started == s.accepted[..|s.started|]
  }

  /**
   * A text queued while another is being spoken is not spoken when that one
   * finishes: with "One." being synthesised and "Two." queued, a result
   * without audio leaves "Two." waiting and the assistant idle; the next
   * `speak("Three.")` then starts "Two.".
   */
  lemma LeftoverWaitsForNextSpeak()
    ensures var s1 := Speak(Speak(Initial, "One."), "Two.");
      var s2 := OnSpeech(s1, NoAudio);
      var s3 := Speak(s2, "Three.");
      s1.pending == Synthesising("One.") && s1.queue == ["Two."]
      && s2.queue == ["Two."] && !s2.speaking && s2.status == Idle
      && s3.pending == Synthesising("Two.") && s3.queue == ["Three."]
  {
    var s0 := Speak(Initial, "One.");
    assert s0.queue == [] && s0.pending == Synthesising("One.") by {
      assert (Initial.queue + ["One."])[1..] == [];
    }
    var s1 := Speak(s0, "Two.");
    var s2 := OnSpeech(s1, NoAudio);
    assert s2.queue == ["Two."];
    assert (s2.queue + ["Three."])[1..] == ["Three."];
  }
}
