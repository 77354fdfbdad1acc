/**
 * The diet planner component: plan generation from a biography and goals,
 * and reading the plan's title and summary aloud.
 *
 * Both handlers are split at their `await`: `HandleGeneratePlan` and
 * `HandleReadAloud` run up to the service call, `CompleteGeneratePlan` and
 * `CompleteReadAloud` receive its outcome. `playAudio` resolves as soon as
 * playback starts, so the read-aloud flag is cleared without waiting for
 * the audio to end.
 */
module DietPlannerModel {
  import opened Wrappers
  import opened Types
  import opened Services
  import Pcm

  const MissingInputError: string := "Please fill in both your biography and fitness goals."
  const NoPlanError: string := "Could not generate a diet plan. The response might be invalid."
  const PlanError: string := "An error occurred while generating the plan. Please try again."

  /** The text read aloud for a plan: its title, a full stop and a space, then its summary. */
  function ReadAloudText(plan: DietPlan): string
  {
    plan.title + ". " + plan.summary
  }

  /**
   * The text read aloud starts with the whole title and ends with the whole
   * summary, with exactly ". " between them; nothing else of the plan (the
   * daily meals) is read.
   */
  lemma ReadAloudParts(plan: DietPlan)
    ensures var t := ReadAloudText(plan);
      |t| == |plan.title| + 2 + |plan.summary|
      && t[..|plan.title|] == plan.title
      && t[|plan.title|..|plan.title| + 2] == ". "
      && t[|plan.title| + 2..] == plan.summary
    ensures forall days :: ReadAloudText(plan.(dailyPlans := days)) == ReadAloudText(plan)
  {
    var t := ReadAloudText(plan);
    assert t == (plan.title + ". ") + plan.summary;
    assert (plan.title + ". ")[..|plan.title|] == plan.title;
  }

  class DietPlanner {
    var biography: string
    var goals: string
    var dietPlan: Option<DietPlan>
    var isLoading: bool
    var isSpeaking: bool
    var error: string

    constructor()
      ensures biography == "" && goals == "" && dietPlan == None
      ensures !isLoading && !isSpeaking && error == ""
    {
      biography, goals, dietPlan := "", "", None;
      isLoading, isSpeaking, error := false, false, "";
    }

    /** The two text areas. */
    method EditInputs(biography: string, goals: string)
      modifies this
      ensures this.biography == biography && this.goals == goals
      ensures dietPlan == old(dietPlan) && isLoading == old(isLoading)
      ensures isSpeaking == old(isSpeaking) && error == old(error)
    {
      this.biography := biography;
      this.goals := goals;
    }

    /**
     * `handleGeneratePlan` up to its `await`: an empty biography or empty
     * goals only set the error. Otherwise loading is on, the error and the
     * plan are cleared, and a plan is requested (`requested`).
     */
    method HandleGeneratePlan() returns (requested: bool)
      modifies this
      ensures requested <==> biography != "" && goals != ""
      ensures !requested ==>
        error == MissingInputError && dietPlan == old(dietPlan) && isLoading == old(isLoading)
      ensures requested ==> isLoading && error == "" && dietPlan == None
      ensures biography == old(biography) && goals == old(goals) && isSpeaking == old(isSpeaking)
    {
      if biography == "" || goals == "" {
        error := MissingInputError;
        return false;
      }
      isLoading := true;
      error := "";
      dietPlan := None;
      requested := true;
    }

    /**
     * The rest of `handleGeneratePlan`: a plan is shown; a missing plan and a
     * failed call each set their error; loading ends on every path.
     */
    method CompleteGeneratePlan(result: PlanResult)
      requires isLoading
      modifies this
      ensures !isLoading
      ensures result.PlanReady? ==> dietPlan == Some(result.plan) && error == old(error)
      ensures result.PlanMissing? ==> dietPlan == old(dietPlan) && error == NoPlanError
      ensures result.PlanFailed? ==> dietPlan == old(dietPlan) && error == PlanError
      ensures biography == old(biography) && goals == old(goals) && isSpeaking == old(isSpeaking)
    {
      match result {
        case PlanReady(plan) =>
          dietPlan := Some(plan);
        case PlanMissing =>
          error := NoPlanError;
        case PlanFailed =>
          error := PlanError;
      }
      isLoading := false;
    }

    /**
     * `handleReadAloud` up to its `await`: nothing without a plan or while
     * already speaking. Otherwise the flag is set and the plan's read-aloud
     * text is sent to speech synthesis (`text`).
     */
    method HandleReadAloud() returns (text: Option<string>)
      modifies this
      ensures old(dietPlan) == None || old(isSpeaking) ==> text == None && isSpeaking == old(isSpeaking)
      ensures old(dietPlan).Some? && !old(isSpeaking) ==>
        text == Some(ReadAloudText(old(dietPlan).value)) && isSpeaking
      ensures dietPlan == old(dietPlan) && isLoading == old(isLoading) && error == old(error)
      ensures biography == old(biography) && goals == old(goals)
    {
      if dietPlan == None || isSpeaking {
        return None;
      }
      isSpeaking := true;
      text := Some(ReadAloudText(dietPlan.value));
    }

    /**
     * The rest of `handleReadAloud`: audio that came back is decoded and
     * handed to the output (`played`); a failure anywhere is swallowed. The
     * flag is cleared on every path.
     */
    method CompleteReadAloud(r: SpeechResult) returns (played: Option<array<real>>)
      requires isSpeaking
      modifies this
      ensures !isSpeaking
      ensures played.Some? <==> Plays(r)
      ensures played.Some? ==> fresh(played.value) && played.value[..] == Pcm.DecodePayload(r.base64).value
      ensures dietPlan == old(dietPlan) && isLoading == old(isLoading) && error == old(error)
      ensures biography == old(biography) && goals == old(goals)
    {
      played := None;
      if r.Audio? && r.base64 != "" {
        played := Pcm.DecodeForPlayback(r.base64);
      }
      isSpeaking := false;
    }
  }
}
