/**
 * The speech-recognition `onresult` handler shared by the voice assistant and
 * the chatbot: the transcript shown is the first alternative of every result
 * so far, joined with no separator.
 */
module Recognition {
  import opened Text

  /**
   * What a handler asks of the speech recogniser: nothing, `start()`,
   * `stop()`, or (in the voice assistant) the `alert` shown when the browser
   * has no recogniser.
   */
  datatype RecognitionCommand = NoCommand | StartRecognition | StopRecognition | UnsupportedAlert

  /**
   * One recognition result: its alternatives, best first. The browser always
   * delivers at least one.
   */
  type Alternatives = alts: seq<string> | |alts| >= 1 witness [""]

  /** The first alternative of each result, in result order. */
  function FirstAlternatives(results: seq<Alternatives>): (firsts: seq<string>)
    ensures |firsts| == |results|
    ensures forall i :: 0 <= i < |results| ==> firsts[i] == results[i][0]
  {
    seq(|results|, i requires 0 <= i < |results| => results[i][0])
  }

  /** `Array.from(event.results).map(r => r[0]).map(r => r.transcript).join('')` */
  function JoinTranscript(results: seq<Alternatives>): string
  {
    Concat(FirstAlternatives(results))
  }

  /** Joining two runs of results gives the two transcripts one after the other. */
  lemma JoinTranscriptAppend(a: seq<Alternatives>, b: seq<Alternatives>)
    ensures JoinTranscript(a + b) == JoinTranscript(a) + JoinTranscript(b)
  {
    assert FirstAlternatives(a + b) == FirstAlternatives(a) + FirstAlternatives(b);
    ConcatAppend(FirstAlternatives(a), FirstAlternatives(b));
  }

  /**
   * Only the first alternative of a result is shown: the others never reach
   * the transcript, and a single result shows exactly its best alternative.
   */
  lemma JoinTranscriptSingle(r: Alternatives)
    ensures JoinTranscript([r]) == r[0]
  {
    assert FirstAlternatives([r]) == [r[0]];
    assert [r[0]][..0] == [];
    assert Concat([r[0]]) == Concat([]) + r[0];
  }

  /** The transcript is as long as the first alternatives together. */
  lemma {:induction false} JoinTranscriptLength(results: seq<Alternatives>)
    ensures |JoinTranscript(results)| == TotalLength(FirstAlternatives(results))
  {
    if results != [] {
      var init := results[..|results| - 1];
      JoinTranscriptLength(init);
      JoinTranscriptAppend(init, [results[|results| - 1]]);
      JoinTranscriptSingle(results[|results| - 1]);
      assert init + [results[|results| - 1]] == results;
      assert FirstAlternatives(results)[..|results| - 1] == FirstAlternatives(init);
    }
  }

  /** The summed lengths of a run of strings. */
  function TotalLength(parts: seq<string>): nat
  {
    if parts == [] then 0 else TotalLength(parts[..|parts| - 1]) + |parts[|parts| - 1]|
  }
}
