/**
 * What the calls into the hosted generative-AI service (and the file and
 * blob readers around them) can come back with. The calls themselves are
 * network I/O; the components only see these outcomes.
 */
module Services {
  import opened Types
  import Pcm

  /** `textToSpeech`: base64 PCM data, `undefined`, or a thrown error. */
  datatype SpeechResult = Audio(base64: string) | NoAudio | SpeechFailed

  /**
   * Whether a synthesis result reaches `source.start()` in `playAudio`: the
   * data must be a non-empty string (`if (audioData)`), and decoding must not
   * throw.
   */
  predicate Plays(r: SpeechResult)
  {
    r.Audio? && r.base64 != "" && Pcm.DecodePayload(r.base64).Some?
  }

  /**
   * `chat.sendMessageStream` and the `for await` over its chunks: either the
   * request itself throws, or the stream delivers `chunks` in order and then
   * either ends or throws (`broken`).
   */
  datatype ChatReply = SendFailed | Streamed(chunks: seq<string>, broken: bool)

  /** Reading the video as base64 and `analyzeVideo`: Markdown text, or a thrown error. */
  datatype AnalysisResult = Analysed(markdown: string) | AnalysisFailed

  /** `generateDietPlan`: a plan, `null` (the response did not parse), or a thrown error. */
  datatype PlanResult = PlanReady(plan: DietPlan) | PlanMissing | PlanFailed
}
