/**
 * The video upload analysis component: an uploaded video file gated by
 * size, an exercise choice, and the analysis of the file.
 *
 * The object URL of the preview is an argument. `handleAnalyze` is split at
 * its `await`: `HandleAnalyze` runs up to the call, `CompleteAnalyze`
 * receives its outcome.
 */
module AnalyzeVideoModel {
  import opened Wrappers
  import opened Services
  import opened WorkoutAnalysis

  /** The upload limit, 50 MiB. */
  const MaxFileSize: nat := 50 * 1024 * 1024

  const TooLargeError: string := "File is too large. Please upload a video under 50MB."
  const NoVideoError: string := "Please upload a video to analyze."
  const NoExerciseError: string := "Please select the exercise you are performing."
  const AnalysisError: string := "An error occurred during analysis. Please try again."

  /** A selected file: its name and its size in bytes. */
  datatype VideoFile = VideoFile(name: string, size: nat)

  /** Whether the size gate lets a file through: it rejects only sizes strictly above the limit. */
  predicate Accepted(file: VideoFile)
  {
    !(file.size > MaxFileSize)
  }

  /** A file of exactly 50 MiB is accepted; one byte more is rejected. */
  lemma LimitIsInclusive(name: string)
    ensures Accepted(VideoFile(name, 52428800))
    ensures !Accepted(VideoFile(name, 52428801))
    ensures forall size: nat :: Accepted(VideoFile(name, size)) <==> size <= 52428800
  {
  }

  class AnalyzeVideo {
    var videoFile: Option<VideoFile>
    var videoPreviewUrl: string
    var exerciseType: string
    var parsedResult: Option<ParsedAnalysis>
    var isLoading: bool
    var error: string

    /** A file held by the component passed the size gate. */
    predicate Valid()
      reads this
    {
      videoFile.Some? ==> Accepted(videoFile.value)
    }

    constructor()
      ensures Valid()
      ensures videoFile == None && videoPreviewUrl == "" && exerciseType == ""
      ensures parsedResult == None && !isLoading && error == ""
    {
      videoFile, videoPreviewUrl, exerciseType := None, "", "";
      parsedResult, isLoading, error := None, false, "";
    }

    /**
     * `handleFileChange`: an empty selection changes nothing; a file over the
     * limit only sets the error; any other file replaces the current one,
     * clears the result and the error, and gets the preview URL `url`.
     */
    method HandleFileChange(selection: Option<VideoFile>, url: string)
      requires Valid()
      modifies this
      ensures Valid()
      ensures selection == None ==>
        videoFile == old(videoFile) && videoPreviewUrl == old(videoPreviewUrl)
        && parsedResult == old(parsedResult) && error == old(error)
      ensures selection.Some? && !Accepted(selection.value) ==>
        videoFile == old(videoFile) && videoPreviewUrl == old(videoPreviewUrl)
        && parsedResult == old(parsedResult) && error == TooLargeError
      ensures selection.Some? && Accepted(selection.value) ==>
        videoFile == selection && videoPreviewUrl == url && parsedResult == None && error == ""
      ensures exerciseType == old(exerciseType) && isLoading == old(isLoading)
    {
      if selection.Some? {
        var file := selection.value;
        if file.size > MaxFileSize {
          error := TooLargeError;
          return;
        }
        videoFile := Some(file);
        parsedResult := None;
        error := "";
        videoPreviewUrl := url;
      }
    }

    /** The exercise picker. */
    method SelectExercise(exercise: string)
      modifies this
      ensures exerciseType == exercise
      ensures videoFile == old(videoFile) && videoPreviewUrl == old(videoPreviewUrl)
      ensures parsedResult == old(parsedResult) && isLoading == old(isLoading) && error == old(error)
    {
      exerciseType := exercise;
    }

    /**
     * `handleAnalyze` up to its `await`: the file is checked first, then the
     * exercise, and each failure only sets its error. Otherwise loading is on,
     * the error and result are cleared, and the analysis of the file is
     * requested (`requested`).
     */
    method HandleAnalyze() returns (requested: bool)
      requires Valid()
      modifies this
      ensures Valid()
      ensures requested <==> old(videoFile).Some? && exerciseType != ""
      ensures old(videoFile) == None ==>
        error == NoVideoError && isLoading == old(isLoading) && parsedResult == old(parsedResult)
      ensures old(videoFile).Some? && exerciseType == "" ==>
        error == NoExerciseError && isLoading == old(isLoading) && parsedResult == old(parsedResult)
      ensures requested ==> isLoading && error == "" && parsedResult == None
      ensures videoFile == old(videoFile) && videoPreviewUrl == old(videoPreviewUrl)
      ensures exerciseType == old(exerciseType)
    {
      if videoFile == None {
        error := NoVideoError;
        return false;
      }
      if exerciseType == "" {
        error := NoExerciseError;
        return false;
      }
      isLoading := true;
      error := "";
      parsedResult := None;
      requested := true;
    }

    /**
     * The rest of `handleAnalyze`: the Markdown is parsed into the result, or
     * the analysis error is shown; loading ends on both paths.
     */
    method CompleteAnalyze(result: AnalysisResult)
      requires Valid() && isLoading
      modifies this
      ensures Valid()
      ensures !isLoading
      ensures result.Analysed? ==>
        parsedResult == Some(ParseAnalysisResult(result.markdown)) && error == old(error)
      ensures result.AnalysisFailed? ==> parsedResult == old(parsedResult) && error == AnalysisError
      ensures videoFile == old(videoFile) && videoPreviewUrl == old(videoPreviewUrl)
      ensures exerciseType == old(exerciseType)
    {
      match result {
        case Analysed(markdown) =>
          parsedResult := Some(ParseAnalysisResult(markdown));
        case AnalysisFailed =>
          error := AnalysisError;
      }
      isLoading := false;
    }
  }
}
