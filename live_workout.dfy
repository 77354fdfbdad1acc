/**
 * The live workout component: a camera stream, a recorder that collects
 * data chunks, and the analysis of the recording once the recorder stops.
 *
 * The media stream request, the recorder and the object URL are browser
 * I/O: whether the stream was granted is an argument, the recorder is the
 * flag `hasRecorder`, and the object URL of the recording is an argument.
 * `handleAnalyze` is split at its `await`: `HandleAnalyze` runs up to the
 * call, `CompleteAnalyze` receives its outcome.
 */
module LiveWorkoutModel {
  import opened Wrappers
  import opened Services
  import opened WorkoutAnalysis

  const PermissionError: string := "Camera and microphone access denied. Please enable permissions."
  const NoStreamError: string := "Cannot start recording. Media stream not available."
  const NoExerciseError: string := "Please select an exercise before starting the recording."
  const AnalysisError: string := "An error occurred during analysis. Please try again."

  /** A recorded data chunk; only its size matters to the component. */
  datatype Blob = Blob(size: nat)

  /** The chunks `ondataavailable` keeps from a run of events: those with data. */
  function Recorded(sizes: seq<nat>): (blobs: seq<Blob>)
    ensures |blobs| <= |sizes|
  {
    if sizes == [] then []
    else
      var last := sizes[|sizes| - 1];
      Recorded(sizes[..|sizes| - 1]) + (if last > 0 then [Blob(last)] else [])
  }

  /** Every kept chunk has data, and exactly the events with data are kept, in order. */
  lemma {:induction false} RecordedKeepsData(sizes: seq<nat>)
    ensures forall i :: 0 <= i < |Recorded(sizes)| ==> Recorded(sizes)[i].size > 0
    ensures |Recorded(sizes)| == CountWithData(sizes)
  {
    if sizes != [] {
      RecordedKeepsData(sizes[..|sizes| - 1]);
    }
  }

  /** The number of events that carry data. */
  function CountWithData(sizes: seq<nat>): nat
  {
    if sizes == [] then 0
    else CountWithData(sizes[..|sizes| - 1]) + (if sizes[|sizes| - 1] > 0 then 1 else 0)
  }

  /** Events with no data are dropped: a run of them records nothing. */
  lemma {:induction false} EmptyEventsRecordNothing(sizes: seq<nat>)
    requires forall i :: 0 <= i < |sizes| ==> sizes[i] == 0
    ensures Recorded(sizes) == []
  {
    if sizes != [] {
      EmptyEventsRecordNothing(sizes[..|sizes| - 1]);
    }
  }

  /** Two runs of events record the two runs' chunks one after the other. */
  lemma {:induction false} RecordedAppend(a: seq<nat>, b: seq<nat>)
    ensures Recorded(a + b) == Recorded(a) + Recorded(b)
    decreases |b|
  {
    if b == [] {
      assert a + b == a;
    } else {
      var init, last := b[..|b| - 1], b[|b| - 1];
      assert (a + b)[..|a + b| - 1] == a + init;
      RecordedAppend(a, init);
    }
  }

  /** The size of `new Blob(chunks)`: the chunks' sizes added up. */
  function TotalSize(chunks: seq<Blob>): nat
  {
    if chunks == [] then 0 else TotalSize(chunks[..|chunks| - 1]) + chunks[|chunks| - 1].size
  }

  class LiveWorkout {
    /** Whether the video element holds a camera stream. */
    var hasStream: bool
    /** Whether `mediaRecorderRef` holds a recorder. */
    var hasRecorder: bool
    var isRecording: bool
    var isLoading: bool
    var exerciseType: string
    /**
     * The exercise seen by the `onstop` handler of the current recorder: the
     * handler is the `handleAnalyze` of the render in which recording started.
     */
    var recorderExercise: string
    var parsedResult: Option<ParsedAnalysis>
    var error: string
    var recordedVideoUrl: Option<string>
    /** `recordedChunksRef` */
    var chunks: seq<Blob>

    /** Every chunk kept has data. */
    predicate Valid()
      reads this
    {
      forall i :: 0 <= i < |chunks| ==> chunks[i].size > 0
    }

    constructor()
      ensures Valid()
      ensures !hasStream && !hasRecorder && !isRecording && !isLoading
      ensures exerciseType == "" && parsedResult == None && error == ""
      ensures recordedVideoUrl == None && chunks == []
    {
      hasStream, hasRecorder, isRecording, isLoading := false, false, false, false;
      exerciseType, recorderExercise := "", "";
      parsedResult, error, recordedVideoUrl := None, "", None;
      chunks := [];
    }

    /** The mount effect's `getUserMedia`: the stream is attached, or the permission error is shown. */
    method OnMediaStream(granted: bool)
      modifies this
      ensures granted ==> hasStream && error == old(error)
      ensures !granted ==> hasStream == old(hasStream) && error == PermissionError
      ensures hasRecorder == old(hasRecorder) && isRecording == old(isRecording)
      ensures isLoading == old(isLoading) && chunks == old(chunks)
      ensures parsedResult == old(parsedResult) && recordedVideoUrl == old(recordedVideoUrl)
      ensures exerciseType == old(exerciseType) && recorderExercise == old(recorderExercise)
    {
      if granted {
        hasStream := true;
      } else {
        error := PermissionError;
      }
    }

    /** The exercise picker. */
    method SelectExercise(exercise: string)
      modifies this
      ensures exerciseType == exercise
      ensures hasStream == old(hasStream) && hasRecorder == old(hasRecorder)
      ensures isRecording == old(isRecording) && isLoading == old(isLoading)
      ensures chunks == old(chunks) && error == old(error) && recorderExercise == old(recorderExercise)
      ensures parsedResult == old(parsedResult) && recordedVideoUrl == old(recordedVideoUrl)
    {
      exerciseType := exercise;
    }

    /**
     * `startRecording`: without a stream only the error is set. With one, the
     * error, result and recorded URL are cleared, a new recorder is created
     * with an empty chunk list, and recording starts.
     */
    method StartRecording()
      requires Valid()
      modifies this
      ensures Valid()
      ensures !old(hasStream) ==>
        error == NoStreamError && chunks == old(chunks) && isRecording == old(isRecording)
        && hasRecorder == old(hasRecorder) && parsedResult == old(parsedResult)
        && recordedVideoUrl == old(recordedVideoUrl) && recorderExercise == old(recorderExercise)
      ensures old(hasStream) ==>
        error == "" && parsedResult == None && recordedVideoUrl == None
        && chunks == [] && hasRecorder && isRecording && recorderExercise == exerciseType
      ensures hasStream == old(hasStream) && isLoading == old(isLoading) && exerciseType == old(exerciseType)
    {
      if hasStream {
        error := "";
        parsedResult := None;
        recordedVideoUrl := None;
        hasRecorder := true;
        recorderExercise := exerciseType;
        chunks := [];
        isRecording := true;
      } else {
        error := NoStreamError;
      }
    }

    /** `ondataavailable`: a chunk is kept only when it has data. */
    method OnDataAvailable(size: nat)
      requires Valid()
      modifies this
      ensures Valid()
      ensures chunks == old(chunks) + Recorded([size])
      ensures size > 0 ==> chunks == old(chunks) + [Blob(size)]
      ensures size == 0 ==> chunks == old(chunks)
      ensures hasStream == old(hasStream) && hasRecorder == old(hasRecorder)
      ensures isRecording == old(isRecording) && isLoading == old(isLoading)
      ensures error == old(error) && exerciseType == old(exerciseType) && recorderExercise == old(recorderExercise)
      ensures parsedResult == old(parsedResult) && recordedVideoUrl == old(recordedVideoUrl)
    {
      assert [size][..0] == [];
      if size > 0 {
        chunks := chunks + [Blob(size)];
      }
    }

    /**
     * `stopRecording`: only with a recorder, which is stopped (its `onstop`
     * then runs `handleAnalyze`) and recording is shown as over.
     */
    method StopRecording() returns (stopped: bool)
      modifies this
      ensures stopped == old(hasRecorder)
      ensures stopped ==> !isRecording
      ensures !stopped ==> isRecording == old(isRecording)
      ensures hasStream == old(hasStream) && hasRecorder == old(hasRecorder)
      ensures chunks == old(chunks) && isLoading == old(isLoading)
      ensures error == old(error) && exerciseType == old(exerciseType) && recorderExercise == old(recorderExercise)
      ensures parsedResult == old(parsedResult) && recordedVideoUrl == old(recordedVideoUrl)
    {
      stopped := hasRecorder;
      if hasRecorder {
        isRecording := false;
      }
    }

    /**
     * `handleAnalyze` up to its `await`: nothing without chunks; the error,
     * with loading off, without an exercise; otherwise loading is on, the
     * recording gets its object URL `url`, and the analysis is requested
     * (`requested`) for the recorded chunks. Because every kept chunk has
     * data, the video sent is never empty.
     */
    method HandleAnalyze(url: string) returns (requested: bool)
      requires Valid()
      modifies this
      ensures Valid()
      ensures requested <==> old(chunks) != [] && recorderExercise != ""
      ensures old(chunks) == [] ==>
        error == old(error) && isLoading == old(isLoading) && recordedVideoUrl == old(recordedVideoUrl)
      ensures old(chunks) != [] && recorderExercise == "" ==>
        error == NoExerciseError && !isLoading && recordedVideoUrl == old(recordedVideoUrl)
      ensures requested ==> isLoading && error == old(error) && recordedVideoUrl == Some(url)
      ensures requested ==> TotalSize(chunks) > 0
      ensures chunks == old(chunks) && parsedResult == old(parsedResult)
      ensures hasStream == old(hasStream) && hasRecorder == old(hasRecorder) && isRecording == old(isRecording)
      ensures exerciseType == old(exerciseType) && recorderExercise == old(recorderExercise)
    {
      if chunks == [] {
        return false;
      }
      if recorderExercise == "" {
        error := NoExerciseError;
        isLoading := false;
        return false;
      }
      isLoading := true;
      recordedVideoUrl := Some(url);
      requested := true;
    }

    /**
     * The rest of `handleAnalyze`: the Markdown is parsed into the result, or
     * the analysis error is shown; on both paths loading ends and the chunk
     * list is emptied.
     */
    method CompleteAnalyze(result: AnalysisResult)
      requires Valid() && isLoading
      modifies this
      ensures Valid()
      ensures !isLoading && chunks == []
      ensures result.Analysed? ==>
        parsedResult == Some(ParseAnalysisResult(result.markdown)) && error == old(error)
      ensures result.AnalysisFailed? ==> parsedResult == old(parsedResult) && error == AnalysisError
      ensures recordedVideoUrl == old(recordedVideoUrl) && hasStream == old(hasStream)
      ensures hasRecorder == old(hasRecorder) && isRecording == old(isRecording)
      ensures exerciseType == old(exerciseType) && recorderExercise == old(recorderExercise)
    {
      match result {
        case Analysed(markdown) =>
          parsedResult := Some(ParseAnalysisResult(markdown));
        case AnalysisFailed =>
          error := AnalysisError;
      }
      isLoading := false;
      chunks := [];
    }
  }
}
