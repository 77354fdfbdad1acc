# Fitness centre assistant — verified model of the client core

This project models, in Dafny, the parts of the fitness web app that carry
real logic:

- **Voice assistant** (`components/VoiceAssistant.tsx`):
  - the speech queue (`speak`, `processAudioQueue`, and the fail-open completion paths of `playAudio`);
  - the sentence chunker that speaks a streamed chat reply while it arrives;
  - the microphone toggle;
  - the speech-recognition transcript join;
  - the decoding of the base64 16-bit PCM audio returned by speech synthesis.
- **Workout analysis parser** (`parseAnalysisResult`/`parseList`). It is copied identically into `components/LiveWorkout.tsx` and `components/AnalyzeVideo.tsx` and is modelled once, in `WorkoutAnalysis`. It reads the `### Repetition Count` / `### Form Assessment` / `### Tips for Improvement` Markdown that the video-analysis model writes.
- **Live workout recorder** (`components/LiveWorkout.tsx`): the recorder, its chunk list and the analysis of the recording.
- **Video upload analysis** (`components/AnalyzeVideo.tsx`): the 50 MiB upload gate and the analysis guards.
- **Diet planner** (`components/DietPlanner.tsx`): plan generation and read-aloud.
- **Chatbot** (`components/AiChatbot.tsx`): the message log, the streamed reply, Enter-to-send and dictation.

Modules:

| module | file | role |
|---|---|---|
| `Wrappers` | wrappers.dfy | `Option` |
| `Text` | text.dfy | JavaScript `trim` (its white-space set), `split`, `indexOf`, `join('')` |
| `Base64` | base64.dfy | `atob`: RFC 4648 section 4 alphabet, forgiving-base64 padding rules; `Encode` is the reference partner |
| `Pcm` | pcm.dfy | `decode` / `decodeAudioData` as loops over arrays, and the whole chain as the function `DecodePayload` |
| `Types`, `Services` | types.dfy, services.dfy | the `types.ts` records and the outcomes of the AI service calls |
| `SpeechQueue` | speech_queue.dfy | the speech queue as a state machine on values, with its invariant over all runs |
| `Segmenter` | segmenter.dfy | the sentence chunker as a fold over the streamed chunks |
| `Recognition` | recognition.dfy | the `onresult` transcript join and recogniser commands |
| `WorkoutAnalysis` | workout_analysis.dfy | `parseAnalysisResult` and its regular expressions |
| `VoiceAssistantModel`, `LiveWorkoutModel`, `AnalyzeVideoModel`, `DietPlannerModel`, `AiChatbotModel` | one file each | one class per component; each class has the component's state as fields and its handlers as methods |

Handlers that await a service call are split at the call:

- a method runs up to the call and reports what it requests;
- a second method receives the outcome.

The outcome is a value of `Services` (`Audio`/`NoAudio`/`SpeechFailed`, `Streamed(chunks, broken)`/`SendFailed`, and so on). The second method requires the in-flight flag that the first one sets, such as `isLoading`, `isSpeaking` or a pending synthesis. Two awaits are not split further: the base64 read before `analyzeVideo` changes no state, and while the chatbot's stream is read no other chatbot handler writes its log (see "## Left out").

The voice assistant's `handleUserInput` is split at each `await`, since synthesis and playback change its queue between chunks. It becomes five methods: `HandleUserInput` (up to the chat call), `OnStreamOpened`, `OnChunk` (one per chunk), `OnStreamEnd`, and `OnChatFailed` (the `catch`). Synthesis results and the end of playback can therefore arrive between two chunks. The call's locals (`modelResponse`, `currentSentence`, `responseIndex`) are a `ReplyStream` value passed from one method to the next, so several replies can be in flight at once.

The voice assistant's class keeps the queue fields themselves (`queue`, `isSpeaking`, `status`). A ghost `Queue()` views them as a `SpeechQueue.QueueState`. Every method states its new queue state as a `SpeechQueue` transition of the old one, and the lemmas about those transitions carry the properties.

Behaviour of the code that a reader might not expect:

- **Queue drain.** The queue does not drain continuously. After one utterance, every completion path re-enters `processAudioQueue` with `isSpeakingRef` still set (components/VoiceAssistant.tsx:64-68, 78-84). That re-entry clears the flag and goes idle, so texts queued in the meantime wait for the next `speak` call. `SpeechQueue.CompletionGoesIdle` and `SpeechQueue.LeftoverWaitsForNextSpeak` state this.
- **Sentence chunking.** The chunker does not cut at sentence boundaries. It speaks the whole accumulator at the first terminator of each chunk. For the chunks "Hello world. How are" and " you? Fine." it speaks "Hello world. How are" and then "you? Fine." (`Segmenter.ChunksNotSentences`).
- **White-space text.** `speak` only ignores the empty string (`if (!text)`), so a blank text is queued and synthesised (`SpeechQueue.WhitespaceIsSpoken`). `handleUserInput` itself never produces one, because it trims everything it speaks.
- **Thinking until recognition ends.** `handleUserInput` sets the status to thinking and nothing in it sets it back when a reply speaks nothing, for example a blank stream that ends normally (`VoiceAssistantModel.VoiceAssistant.HandleUserInput` leaves `Thinking`). The status then leaves thinking through the recogniser's `onend` (components/VoiceAssistant.tsx:155), which follows the `stop()` that `toggleListen` issues before every call (components/VoiceAssistant.tsx:179-181); `VoiceAssistantModel.VoiceAssistant.OnRecognitionEnd` sets it to idle.
- **"N/A" repetition count.** A report whose count section reads "N/A" cannot be told apart from a report without the heading (`WorkoutAnalysis.NotAvailableIsAmbiguous`).
- **Zero-frame audio.** `createBuffer` with zero frames throws, so an empty payload counts as a decode failure (`Pcm.Playable`). No caller reaches this with an empty string, which is falsy; a white-space-only payload would reach it, but the model treats it as invalid base64, which ends in the same decode failure.

## Model

| member | source | states |
|---|---|---|
| Text.Trim | components/LiveWorkout.tsx:17 | `String.prototype.trim`: the result has no white space at either end and is empty exactly when the input is all white space |
| Text.TrimBounds | components/LiveWorkout.tsx:21 | the trimmed text is the input with maximal runs of white space cut from both ends and nothing else |
| Text.TrimStart | components/LiveWorkout.tsx:15 | the tips capture: the input after the white space that follows the heading, kept to the end of input |
| Text.AllSpaceAppend | components/VoiceAssistant.tsx:131 | a concatenation is blank exactly when both parts are blank |
| Text.IndexOf | components/LiveWorkout.tsx:13-15 | the first occurrence of a pattern at or after a position, or none when there is no occurrence at all |
| Text.Split | components/LiveWorkout.tsx:21 | `split('\n')`: at least one part, no part contains the separator, and joining the parts with it gives back the input |
| Text.SplitJoin | components/LiveWorkout.tsx:21 | splitting lines joined with the separator gives back the lines, when none contains it |
| Text.TrimTrimmed | components/LiveWorkout.tsx:21 | trimming text that is already trimmed changes nothing |
| Text.SplitLength | components/LiveWorkout.tsx:21 | the number of parts is the number of separators plus one |
| Text.ConcatAppend | components/AiChatbot.tsx:79-86 | the text streamed from two runs of chunks is the two texts one after the other |
| Text.ConcatGrows | components/AiChatbot.tsx:79-86 | the streamed model text only grows: the text after fewer chunks is a prefix of the text after more |
| Base64.DigitChar | components/VoiceAssistant.tsx:17 | every six-bit value has a character of the base64 alphabet |
| Base64.DigitRoundTrip | components/VoiceAssistant.tsx:17 | reading back the character of a six-bit value gives the value |
| Base64.StripPadding | components/VoiceAssistant.tsx:17 | padding removal only cuts characters from the end of the input |
| Base64.DigitChars | components/VoiceAssistant.tsx:17 | encoding digits yields alphabet characters, one per digit |
| Base64.DigitCharsRoundTrip | components/VoiceAssistant.tsx:17 | digits survive being written as characters and read back |
| Base64.Decode | components/VoiceAssistant.tsx:17 | `atob` succeeds exactly when the unpadded text is all alphabet and its length is not 1 modulo 4; it yields three bytes per four characters |
| Base64.EncodeValues | components/VoiceAssistant.tsx:17 | the number of digits the encoder writes for a byte run |
| Base64.Encode | components/VoiceAssistant.tsx:17 | the padded encoding has a length that is a multiple of four |
| Base64.DecodeEncode | components/VoiceAssistant.tsx:17 | decoding the encoding of any byte run gives the bytes back |
| Base64.DecodeValuesEncode | components/VoiceAssistant.tsx:17 | decoding the encoder's digits gives the bytes back |
| Base64.GroupRoundTrip | components/VoiceAssistant.tsx:17 | each three-byte group survives being split into four digits and joined again |
| Pcm.Atob | components/VoiceAssistant.tsx:17 | the binary string has one character per decoded byte, with that byte as its code, and fails exactly when decoding fails |
| Pcm.Decode | components/VoiceAssistant.tsx:16-22 | the byte array filled by the loop holds exactly the decoded bytes, and it is absent exactly when `atob` throws |
| Pcm.Int16LE | components/VoiceAssistant.tsx:24 | a byte pair read as little-endian two's complement lies in the 16-bit range and agrees with the bytes modulo 65536 |
| Pcm.Int16BytesRoundTrip | components/VoiceAssistant.tsx:24 | reading back the bytes of a 16-bit value gives the value |
| Pcm.Int16LERoundTrip | components/VoiceAssistant.tsx:24 | no two byte pairs give the same 16-bit value |
| Pcm.Sample | components/VoiceAssistant.tsx:28 | a sample is the value divided by 32768 and lies in [-1, 1) |
| Pcm.DecodeAudioData | components/VoiceAssistant.tsx:23-30 | a fresh channel of half as many frames as bytes, frame i being the sample of bytes 2i and 2i+1; absent exactly when the byte length is odd or zero |
| Pcm.DecodeForPlayback | components/DietPlanner.tsx:11-32 | decode and then `decodeAudioData` yield exactly the samples of the payload, and fail exactly when the payload does |
| Pcm.PayloadSamplesInRange | components/VoiceAssistant.tsx:25-28 | a decoded payload has one sample per two bytes, each in [-1, 1) |
| Pcm.PcmBytes | components/VoiceAssistant.tsx:24 | the reference encoder writes two bytes per 16-bit value |
| Pcm.PcmBytesAt | components/VoiceAssistant.tsx:24 | value i is stored at bytes 2i (low) and 2i+1 (high) |
| Pcm.DecodeEncodedPcm | components/VoiceAssistant.tsx:16-31 | base64 of any non-empty run of 16-bit values decodes to exactly those values over 32768 |
| Pcm.PlayableRoundTrip | components/VoiceAssistant.tsx:31 | any playable byte run survives base64 encoding and decodes to its samples |
| Pcm.SamplesOfPcm | components/VoiceAssistant.tsx:28 | the samples of encoded values are the values over 32768, one per value |
| Pcm.OddPayloadFails | components/VoiceAssistant.tsx:24 | a payload with an odd number of bytes never plays |
| SpeechQueue.InitialInv | components/VoiceAssistant.tsx:60-61 | the empty, idle queue satisfies the invariant |
| SpeechQueue.SpeakEmpty | components/VoiceAssistant.tsx:90 | `speak("")` changes nothing |
| SpeechQueue.WhitespaceIsSpoken | components/VoiceAssistant.tsx:90-93 | a blank but non-empty text is queued and sent to synthesis |
| SpeechQueue.SpeakWhileSpeaking | components/VoiceAssistant.tsx:91-92 | with the flag set, `speak` only appends at the tail |
| SpeechQueue.SpeakWhenIdle | components/VoiceAssistant.tsx:89-95 | with the flag clear, `speak` starts a drain that takes the oldest queued text and synthesises it |
| SpeechQueue.DrainGuard | components/VoiceAssistant.tsx:64-68 | a drain entered with the flag set or an empty queue takes nothing, clears the flag and shows idle |
| SpeechQueue.DrainTakesHead | components/VoiceAssistant.tsx:70-73 | a drain with the flag clear and a non-empty queue takes exactly the head and shows speaking |
| SpeechQueue.CompletionGoesIdle | components/VoiceAssistant.tsx:76-85 | every completion path ends idle with the flag cleared, and the queue is untouched |
| SpeechQueue.SpeechOutcome | components/VoiceAssistant.tsx:76-85 | playable audio starts playback; no audio, a synthesis error or undecodable audio go idle |
| SpeechQueue.SpeakKeepsInv | components/VoiceAssistant.tsx:89-95 | `speak` keeps the invariant: the flag is set exactly while a request is outstanding, no queued text is empty, and taken followed by queued texts equal the pushed texts |
| SpeechQueue.SpeechKeepsInv | components/VoiceAssistant.tsx:76-85 | a synthesis result keeps the invariant |
| SpeechQueue.PlaybackEndedKeepsInv | components/VoiceAssistant.tsx:35-38 | the end of playback keeps the invariant |
| SpeechQueue.SpeakAllKeepsInv | components/VoiceAssistant.tsx:126-133 | speaking a run of texts keeps the invariant |
| SpeechQueue.SpeakAllSnoc | components/VoiceAssistant.tsx:126-133 | speaking a run and then one more text is speaking the longer run |
| SpeechQueue.SpeakAllAppend | components/VoiceAssistant.tsx:126-133 | speaking two runs is speaking their concatenation |
| SpeechQueue.SpeakAllAccepts | components/VoiceAssistant.tsx:89-95 | speaking non-empty texts pushes all of them, in order |
| SpeechQueue.RunKeepsInv | components/VoiceAssistant.tsx:63-95 | along every run of events from the start, the invariant holds and texts are taken in push order |
| SpeechQueue.LeftoverWaitsForNextSpeak | components/VoiceAssistant.tsx:64-68 | after one utterance the queue goes idle with a later text still queued; the next `speak` takes that text first |
| Segmenter.Feed | components/VoiceAssistant.tsx:113-129 | one chunk adds at most one utterance and keeps the earlier ones |
| Segmenter.Spoken | components/VoiceAssistant.tsx:127 | one trimmed utterance per spoken accumulator |
| Segmenter.SegmentConserves | components/VoiceAssistant.tsx:112-130 | nothing streamed is lost or reordered: the spoken accumulators followed by the remainder are all the chunks |
| Segmenter.SegmentShape | components/VoiceAssistant.tsx:126-129 | at most one utterance per chunk; every spoken accumulator has a terminator and the remainder has none |
| Segmenter.SpokenAreSentences | components/VoiceAssistant.tsx:126-128 | every utterance spoken in the loop is non-empty, trimmed and contains a terminator |
| Segmenter.FlushShape | components/VoiceAssistant.tsx:131-133 | the remainder is spoken at most once, trimmed, and only when it is not blank |
| Segmenter.HasTerminatorAppend | components/VoiceAssistant.tsx:126 | a concatenation has a terminator exactly when one of its parts has |
| Segmenter.TrimKeepsTerminator | components/VoiceAssistant.tsx:127 | trimming a text with a terminator leaves a non-empty text that still has it |
| Segmenter.NoTerminatorSpokenOnce | components/VoiceAssistant.tsx:131-133 | a reply without terminators is spoken once, whole, at the end, unless it is blank |
| Segmenter.ChunksNotSentences | components/VoiceAssistant.tsx:126-129 | the chunks "Hello world. How are" and " you? Fine." are spoken as "Hello world. How are" and "you? Fine." |
| Recognition.FirstAlternatives | components/VoiceAssistant.tsx:159-161 | one entry per result, the result's first alternative |
| Recognition.JoinTranscriptAppend | components/VoiceAssistant.tsx:158-163 | the transcript of two runs of results is the two transcripts joined |
| Recognition.JoinTranscriptSingle | components/AiChatbot.tsx:46-51 | a single result shows exactly its best alternative |
| Recognition.JoinTranscriptLength | components/AiChatbot.tsx:46-51 | the transcript is as long as the first alternatives together |
| WorkoutAnalysis.HeadingEnd | components/LiveWorkout.tsx:13-15 | the end of the first occurrence of a heading, or none exactly when it never occurs |
| WorkoutAnalysis.SectionEnd | components/LiveWorkout.tsx:13-14 | the next `###` after a position, or the end of input when there is none |
| WorkoutAnalysis.CleanLine | components/LiveWorkout.tsx:21 | a cleaned line has no white space at either end |
| WorkoutAnalysis.LineItems | components/LiveWorkout.tsx:21 | a line gives at most one item, non-empty and trimmed |
| WorkoutAnalysis.LazyCapture | components/LiveWorkout.tsx:13 | read literally, the regular expression skips the white space after the heading, captures as little as possible, and stops where only white space remains before the next `###` or the end; that capture is the trimmed text between the heading and the next `###` or the end |
| WorkoutAnalysis.CaptureAt | components/LiveWorkout.tsx:13-14 | the capture found from the trim bounds matches the pattern, and no shorter capture does |
| WorkoutAnalysis.NoEarlierTail | components/LiveWorkout.tsx:13-14 | the trailing white space and lookahead of the pattern cannot match before the last non-space character of a section |
| WorkoutAnalysis.RepCountWithoutHeading | components/LiveWorkout.tsx:17 | without the heading the count is "N/A" |
| WorkoutAnalysis.HeadingEndFirst | components/LiveWorkout.tsx:13 | the heading is matched at its first occurrence |
| WorkoutAnalysis.RepCountWithHeading | components/AnalyzeVideo.tsx:13-17 | with the heading, the count is the trimmed text from its first occurrence to the next `###` or the end |
| WorkoutAnalysis.NotAvailableIsAmbiguous | components/AnalyzeVideo.tsx:17 | a count section reading "N/A" gives the same count as a missing heading |
| WorkoutAnalysis.ItemsFollowLines | components/LiveWorkout.tsx:21 | the items of a run of lines are the items of its parts, in line order |
| WorkoutAnalysis.FlatMapAppend | components/LiveWorkout.tsx:21 | mapping and flattening distributes over concatenation |
| WorkoutAnalysis.ItemsAreClean | components/AnalyzeVideo.tsx:19-21 | every list item is non-empty and trimmed |
| WorkoutAnalysis.ItemsPerLine | components/LiveWorkout.tsx:21 | there are no more items than lines |
| WorkoutAnalysis.SingleLineItems | components/LiveWorkout.tsx:21 | a single line yields its own cleaned text, if any |
| WorkoutAnalysis.BlankSectionHasNoItems | components/LiveWorkout.tsx:19-20 | a missing, empty or blank section gives no items |
| WorkoutAnalysis.ItemsAtMostLines | components/LiveWorkout.tsx:21 | a section gives at most one item per `'\n'`-separated line of its trimmed text |
| WorkoutAnalysis.BulletStripped | components/LiveWorkout.tsx:21 | one leading "- " is removed from a bulleted item and nothing else of it changes |
| WorkoutAnalysis.SectionBounds | components/LiveWorkout.tsx:14-15 | the assessment stops at the next `###`; the tips run to the end of input |
| VoiceAssistantModel.AdvanceTracks | components/VoiceAssistant.tsx:112-129 | one chunk keeps the call's locals in step with the sentence chunker and speaks exactly the utterance the chunker adds for it |
| VoiceAssistantModel.StreamFollowsSegmenter | components/VoiceAssistant.tsx:105-133 | whatever arrives between chunks, the locals end holding all the chunks' text and the chunker's remainder, and the stream speaks exactly `Segmenter.Utterances` of its chunks |
| VoiceAssistantModel.StreamSpeechShape | components/VoiceAssistant.tsx:126-139 | every text the chunks, the end of the stream and the `catch` hand to `speak` is non-empty and trimmed |
| VoiceAssistantModel.VoiceAssistant.constructor | components/VoiceAssistant.tsx:144-146 | the component starts idle with an empty queue and the greeting |
| VoiceAssistantModel.VoiceAssistant.ProcessAudioQueue | components/VoiceAssistant.tsx:63-76 | the new queue state is `SpeechQueue.Drain` of the old |
| VoiceAssistantModel.VoiceAssistant.Speak | components/VoiceAssistant.tsx:89-95 | the new queue state is `SpeechQueue.Speak` of the old |
| VoiceAssistantModel.VoiceAssistant.OnSpeechResult | components/VoiceAssistant.tsx:12-46 | the new queue state is `SpeechQueue.OnSpeech` of the old; audio is handed to the output exactly when it decodes, as the decoded samples |
| VoiceAssistantModel.VoiceAssistant.OnPlaybackEnded | components/VoiceAssistant.tsx:35-38 | the end of playback re-enters the drain |
| VoiceAssistantModel.VoiceAssistant.HandleUserInput | components/VoiceAssistant.tsx:97-104 | nothing without a chat or text; otherwise the status becomes thinking, the user turn is added, and the reply is requested for the turn one past the conversation the call started from |
| VoiceAssistantModel.VoiceAssistant.OnStreamOpened | components/VoiceAssistant.tsx:105-110 | an empty model turn is added and the call's locals start empty |
| VoiceAssistantModel.VoiceAssistant.OnChunk | components/VoiceAssistant.tsx:112-129 | the locals advance as `Advance`; the turn at `responseIndex`, if it exists, gets the model's text so far; the queue speaks exactly `ChunkSpeech` |
| VoiceAssistantModel.VoiceAssistant.OnStreamEnd | components/VoiceAssistant.tsx:131-133 | the remainder is spoken, trimmed, unless it is blank; the conversation is unchanged |
| VoiceAssistantModel.VoiceAssistant.OnChatFailed | components/VoiceAssistant.tsx:135-140 | the apology is added as a model turn and spoken |
| VoiceAssistantModel.VoiceAssistant.ToggleListen | components/VoiceAssistant.tsx:173-187 | the alert without recognition; while listening, stop, submit the trimmed transcript if not blank (thinking, the user turn, the chat request) and clear it; start when idle; nothing otherwise |
| VoiceAssistantModel.VoiceAssistant.OnRecognitionStart | components/VoiceAssistant.tsx:154 | status becomes listening |
| VoiceAssistantModel.VoiceAssistant.OnRecognitionEnd | components/VoiceAssistant.tsx:155 | status becomes idle |
| VoiceAssistantModel.VoiceAssistant.OnRecognitionResult | components/VoiceAssistant.tsx:158-164 | the live transcript becomes the joined first alternatives |
| LiveWorkoutModel.Recorded | components/LiveWorkout.tsx:82-86 | no more chunks are kept than data events arrive |
| LiveWorkoutModel.RecordedKeepsData | components/LiveWorkout.tsx:82-86 | every kept chunk has data, and exactly the events with data are kept |
| LiveWorkoutModel.EmptyEventsRecordNothing | components/LiveWorkout.tsx:83 | events without data record nothing |
| LiveWorkoutModel.RecordedAppend | components/LiveWorkout.tsx:82-86 | two runs of events record their chunks one after the other |
| LiveWorkoutModel.LiveWorkout.constructor | components/LiveWorkout.tsx:31-40 | the component starts with no stream, recorder, result or chunks |
| LiveWorkoutModel.LiveWorkout.OnMediaStream | components/LiveWorkout.tsx:42-54 | a granted stream is attached; a refusal only sets the permission error |
| LiveWorkoutModel.LiveWorkout.SelectExercise | components/LiveWorkout.tsx:164 | the exercise picker sets the exercise only |
| LiveWorkoutModel.LiveWorkout.StartRecording | components/LiveWorkout.tsx:72-94 | without a stream only the error is set; with one the error, result and URL are cleared, the chunk list is emptied and recording starts |
| LiveWorkoutModel.LiveWorkout.OnDataAvailable | components/LiveWorkout.tsx:82-86 | a chunk is appended exactly when it has data, and every kept chunk has data |
| LiveWorkoutModel.LiveWorkout.StopRecording | components/LiveWorkout.tsx:96-101 | acts only with a recorder, and then clears the recording flag |
| LiveWorkoutModel.LiveWorkout.HandleAnalyze | components/LiveWorkout.tsx:114-128 | nothing without chunks; the exercise error with loading off without an exercise; otherwise loading on and the recording's URL set; the video requested is never empty, because every kept chunk has data |
| LiveWorkoutModel.LiveWorkout.CompleteAnalyze | components/LiveWorkout.tsx:130-140 | the parsed result or the analysis error; loading off and the chunk list emptied on both paths |
| AnalyzeVideoModel.LimitIsInclusive | components/AnalyzeVideo.tsx:42 | exactly 50 MiB is accepted, one byte more is rejected |
| AnalyzeVideoModel.AnalyzeVideo.constructor | components/AnalyzeVideo.tsx:32-37 | the component starts with no file, no result and no error |
| AnalyzeVideoModel.AnalyzeVideo.HandleFileChange | components/AnalyzeVideo.tsx:39-52 | an empty selection changes nothing; an oversized file only sets the error; an accepted file replaces the current one and clears the result and error |
| AnalyzeVideoModel.AnalyzeVideo.SelectExercise | components/AnalyzeVideo.tsx:125 | the exercise picker sets the exercise only |
| AnalyzeVideoModel.AnalyzeVideo.HandleAnalyze | components/AnalyzeVideo.tsx:74-86 | the file is checked first, then the exercise, and each failure sets only its error; otherwise loading is on and the error and result are cleared |
| AnalyzeVideoModel.AnalyzeVideo.CompleteAnalyze | components/AnalyzeVideo.tsx:88-97 | the parsed result or the analysis error; loading off on both paths |
| DietPlannerModel.ReadAloudParts | components/DietPlanner.tsx:87 | the text read aloud is the whole title, then ". ", then the whole summary, and nothing of the daily plans |
| DietPlannerModel.DietPlanner.constructor | components/DietPlanner.tsx:51-56 | the component starts with empty inputs, no plan and no flags set |
| DietPlannerModel.DietPlanner.EditInputs | components/DietPlanner.tsx:118-130 | the text areas set the biography and goals only |
| DietPlannerModel.DietPlanner.HandleGeneratePlan | components/DietPlanner.tsx:58-69 | an empty biography or goals only sets the error; otherwise loading is on and the error and plan are cleared |
| DietPlannerModel.DietPlanner.CompleteGeneratePlan | components/DietPlanner.tsx:69-80 | a plan is shown, or the missing-plan or failure error is set; loading off on every path |
| DietPlannerModel.DietPlanner.HandleReadAloud | components/DietPlanner.tsx:83-88 | nothing without a plan or while speaking; otherwise the flag is set and the title-and-summary text is requested |
| DietPlannerModel.DietPlanner.CompleteReadAloud | components/DietPlanner.tsx:88-96 | audio plays exactly when it came back and decodes; the speaking flag is cleared on every path |
| AiChatbotModel.ChatTurns | components/AiChatbot.tsx:74-92 | a reply leaves one or two messages, the last from the model |
| AiChatbotModel.ChatTurnsOutcome | components/AiChatbot.tsx:76-89 | a finished stream leaves one model message with all chunks; a broken one adds the apology; a failed send leaves only the apology |
| AiChatbotModel.AiChatbot.constructor | components/AiChatbot.tsx:23-33 | the log starts with the greeting and nothing is loading |
| AiChatbotModel.AiChatbot.EditInput | components/AiChatbot.tsx:142 | the input box sets the input only |
| AiChatbotModel.AiChatbot.SendMessage | components/AiChatbot.tsx:62-75 | nothing without a chat, while loading, or for blank text; otherwise recognition is stopped if listening, one trimmed user message is added, the input is cleared, and the untrimmed text is sent |
| AiChatbotModel.AiChatbot.ReceiveReply | components/AiChatbot.tsx:74-92 | the log gains exactly the reply's messages, the streamed one holding all chunks; loading off on every path |
| AiChatbotModel.AiChatbot.HandleKeyPress | components/AiChatbot.tsx:95-100 | Enter without Shift sends the current input; any other key does nothing |
| AiChatbotModel.AiChatbot.ToggleListening | components/AiChatbot.tsx:102-109 | nothing without recognition; stop while listening, start otherwise |
| AiChatbotModel.AiChatbot.OnRecognitionStart | components/AiChatbot.tsx:42 | listening becomes true |
| AiChatbotModel.AiChatbot.OnRecognitionEnd | components/AiChatbot.tsx:43 | listening becomes false |
| AiChatbotModel.AiChatbot.OnRecognitionResult | components/AiChatbot.tsx:46-52 | the input becomes the joined first alternatives |

## Left out

- The AI service calls in `services/geminiService.ts` (chat streaming, speech synthesis, video analysis, plan generation, and the JSON parse of the plan) are network I/O. Their results are the outcome datatypes of `Services`, passed in.
- Browser I/O is reduced to arguments, flags and returned commands:
  - Web Audio output and the audio context;
  - `MediaRecorder`, `getUserMedia` and `FileReader` (the base64 reading of a video);
  - object URLs and their revocation in effect clean-ups;
  - the `SpeechRecognition` object;
  - `alert`, `console` logging and scrolling.
- Float32 rounding: a channel sample is the exact quotient `value / 32768` as a `real`.
- `atob` removal of ASCII white space from its input is not modelled. A payload with white space counts as invalid base64.
- React update batching is left out. Each `setState` takes effect at once, in program order.
- AiChatbotModel.AiChatbot.ReceiveReply: receives the whole stream in one method, although `sendMessage` yields at every chunk (components/AiChatbot.tsx:79). While `isLoading` is set no other chatbot handler writes the log: recognition events and `toggleListening` write only `currentInput`/`isListening`, and sending is blocked by `isLoading`.
- LiveWorkoutModel.LiveWorkout.CompleteAnalyze: the base64 read of the recording and the analysis call are two awaits (components/LiveWorkout.tsx:126-131), received as one outcome. The read changes no component state, so a handler that runs during either await runs before `CompleteAnalyze` with the same effect.
- AnalyzeVideoModel.AnalyzeVideo.CompleteAnalyze: the base64 read of the file and the analysis call are two awaits (components/AnalyzeVideo.tsx:74-86), received as one outcome. The read changes no component state, so a handler that runs during either await runs before `CompleteAnalyze` with the same effect.
- VoiceAssistantModel.VoiceAssistant.HandleUserInput: `responseIndex` is one past the conversation at the call. The source reads the length from the render that created the handler (components/VoiceAssistant.tsx:109), which can lag behind when several updates land before a re-render.
- The timing of recognition `onend` relative to the status change to thinking depends on browser event order. Status changes from recognition are separate methods that can be called in any order.
- `getStatusInfo` and the rest of the rendering are not modelled, and neither are the dashboard, sidebar, app shell, content generator and recommendations views.
- A model method takes its action at once where the source awaits an event the browser fires later (the recorder's `onstop`, recognition `stop()`/`start()`). The method returns whether it asked for the event.
- LiveWorkoutModel.Blob: a recorded chunk is its size only. Its bytes and the combined video blob are not modelled.
