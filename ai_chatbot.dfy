/**
 * The chatbot component: the message log, the input box, and dictation
 * into the input box through speech recognition.
 *
 * `sendMessage` is split at its first `await`: `SendMessage` runs up to the
 * chat call and `ReceiveReply` receives the whole reply, streaming it into
 * the log. Whether the chat session exists and whether the browser offers
 * speech recognition are fixed when the component mounts.
 */
module AiChatbotModel {
  import opened Wrappers
  import opened Text
  import opened Types
  import opened Services
  import opened Recognition

  const Greeting: string := "Hello! I'm your AI Fitness expert. Ask me anything about workouts, nutrition, or your health goals."
  const Apology: string := "Sorry, I encountered an error. Please try again."

  /** The messages a reply leaves in the log after the user's message. */
  function ChatTurns(reply: ChatReply): (turns: seq<ChatMessage>)
    ensures 1 <= |turns| <= 2
    ensures turns[|turns| - 1].role == Model
  {
    match reply
    case SendFailed => [ChatMessage(Model, Apology)]
    case Streamed(chunks, broken) =>
      [ChatMessage(Model, Concat(chunks))] + (if broken then [ChatMessage(Model, Apology)] else [])
  }

  /**
   * A stream that ends normally leaves exactly one model message holding all
   * its chunks; a failure leaves the apology last, after whatever streamed.
   */
  lemma ChatTurnsOutcome(reply: ChatReply)
    ensures reply.Streamed? && !reply.broken ==> ChatTurns(reply) == [ChatMessage(Model, Concat(reply.chunks))]
    ensures reply.Streamed? && reply.broken ==>
      ChatTurns(reply) == [ChatMessage(Model, Concat(reply.chunks)), ChatMessage(Model, Apology)]
    ensures reply.SendFailed? ==> ChatTurns(reply) == [ChatMessage(Model, Apology)]
  {
  }

  class AiChatbot {
    /** Whether `createChat` produced a chat session. */
    const hasChat: bool
    /** Whether the browser offers speech recognition. */
    const recognitionSupported: bool
    var messages: seq<ChatMessage>
    var currentInput: string
    var isLoading: bool
    var isListening: bool

    /** `sendMessage`'s guard: a chat exists, nothing is loading, and the text is not blank. */
    predicate CanSend(text: string)
      reads this
    {
      hasChat && !isLoading && !AllSpace(text)
    }

    /** The component after its mount effects: the greeting, an empty input. */
    constructor(hasChat: bool, recognitionSupported: bool)
      ensures this.hasChat == hasChat && this.recognitionSupported == recognitionSupported
      ensures messages == [ChatMessage(Model, Greeting)] && currentInput == ""
      ensures !isLoading && !isListening
    {
      this.hasChat := hasChat;
      this.recognitionSupported := recognitionSupported;
      messages := [ChatMessage(Model, Greeting)];
      currentInput := "";
      isLoading := false;
      isListening := false;
    }

    /** The input box. */
    method EditInput(text: string)
      modifies this
      ensures currentInput == text
      ensures messages == old(messages) && isLoading == old(isLoading) && isListening == old(isListening)
    {
      currentInput := text;
    }

    /**
     * `sendMessage` up to the chat call: nothing when it cannot send.
     * Otherwise recognition is stopped if it is listening, loading is on, one
     * user message with the trimmed text is added, the input is cleared, and
     * the text as given (untrimmed) is what is sent (`sent`).
     */
    method SendMessage(text: string) returns (sent: Option<string>, cmd: RecognitionCommand)
      modifies this
      ensures !old(CanSend(text)) ==>
        sent == None && cmd == NoCommand && messages == old(messages)
        && currentInput == old(currentInput) && isLoading == old(isLoading)
      ensures old(CanSend(text)) ==>
        sent == Some(text) && isLoading && currentInput == ""
        && messages == old(messages) + [ChatMessage(User, Trim(text))]
        && cmd == (if old(isListening) then StopRecognition else NoCommand)
      ensures isListening == old(isListening)
    {
      if !hasChat || isLoading || Trim(text) == "" {
        return None, NoCommand;
      }
      cmd := if isListening then StopRecognition else NoCommand;
      isLoading := true;
      messages := messages + [ChatMessage(User, Trim(text))];
      currentInput := "";
      sent := Some(text);
    }

    /**
     * The rest of `sendMessage`: a placeholder model message is added and
     * overwritten with the text streamed so far after every chunk; a failure
     * adds the apology. Loading ends on every path.
     */
    method ReceiveReply(reply: ChatReply)
      requires isLoading
      modifies this
      ensures messages == old(messages) + ChatTurns(reply)
      ensures !isLoading
      ensures currentInput == old(currentInput) && isListening == old(isListening)
    {
      match reply {
        case SendFailed =>
          messages := messages + [ChatMessage(Model, Apology)];
        case Streamed(chunks, broken) =>
          var modelResponse := "";
          ghost var m0 := messages;
          messages := messages + [ChatMessage(Model, "")];
          for i := 0 to |chunks|
            invariant modelResponse == Concat(chunks[..i])
            invariant messages == m0 + [ChatMessage(Model, modelResponse)]
            invariant currentInput == old(currentInput) && isListening == old(isListening)
          {
            assert chunks[..i + 1][..i] == chunks[..i];
            modelResponse := modelResponse + chunks[i];
            messages := messages[|messages| - 1 := ChatMessage(Model, modelResponse)];
          }
          assert chunks[..|chunks|] == chunks;
          if broken {
            messages := messages + [ChatMessage(Model, Apology)];
          }
      }
      isLoading := false;
    }

    /** `handleKeyPress`: Enter without Shift sends the input; any other key does nothing. */
    method HandleKeyPress(key: string, shift: bool) returns (sent: Option<string>, cmd: RecognitionCommand)
      modifies this
      ensures key != "Enter" || shift || !old(CanSend(currentInput)) ==>
        sent == None && cmd == NoCommand && messages == old(messages)
        && currentInput == old(currentInput) && isLoading == old(isLoading)
      ensures key == "Enter" && !shift && old(CanSend(currentInput)) ==>
        sent == Some(old(currentInput)) && isLoading && currentInput == ""
        && messages == old(messages) + [ChatMessage(User, Trim(old(currentInput)))]
      ensures isListening == old(isListening)
    {
      if key == "Enter" && !shift {
        sent, cmd := SendMessage(currentInput);
      } else {
        sent, cmd := None, NoCommand;
      }
    }

    /** `toggleListening`: nothing without recognition; otherwise stop while listening, start when not. */
    method ToggleListening() returns (cmd: RecognitionCommand)
      ensures cmd == if !recognitionSupported then NoCommand
        else if isListening then StopRecognition
        else StartRecognition
    {
      if !recognitionSupported {
        return NoCommand;
      }
      cmd := if isListening then StopRecognition else StartRecognition;
    }

    /** `recognition.onstart` */
    method OnRecognitionStart()
      modifies this
      ensures isListening
      ensures messages == old(messages) && currentInput == old(currentInput) && isLoading == old(isLoading)
    {
      isListening := true;
    }

    /** `recognition.onend` */
    method OnRecognitionEnd()
      modifies this
      ensures !isListening
      ensures messages == old(messages) && currentInput == old(currentInput) && isLoading == old(isLoading)
    {
      isListening := false;
    }

    /** `recognition.onresult`: the input becomes the joined first alternatives. */
    method OnRecognitionResult(results: seq<Alternatives>)
      modifies this
      ensures currentInput == JoinTranscript(results)
      ensures messages == old(messages) && isLoading == old(isLoading) && isListening == old(isListening)
    {
      currentInput := JoinTranscript(results);
    }
  }
}
