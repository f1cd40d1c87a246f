/**
 * The page of Index.tsx: which of the three views is shown, and the result
 * slot the result view reads.
 */
module IndexPage {
  import opened Wrappers
  import opened Scoring

  datatype View = Landing | Assessment | Result

  /** The page's callbacks, as passed to the child views. */
  datatype Handler = StartAssessmentHandler | ShowResultHandler | ResetToLandingHandler

  /** What the page renders, with the callbacks wired into it. */
  datatype Screen =
    | LandingScreen(onStart: Handler)
    | FormScreen(onComplete: Handler, onBack: Handler)
    | ResultScreen(result: Option<AssessmentResult>, onRestart: Handler)

  class Index {
    /** `currentView`. */
    var currentView: View
    /** `careerResult`; None stands for `null`. */
    var careerResult: Option<AssessmentResult>
    /** The argument of the latest `showResult` call. */
    ghost var lastShown: Option<AssessmentResult>

    /** In the result view the slot holds the latest result passed to `showResult`. */
    ghost predicate Valid()
      reads this
    {
      currentView == Result ==> careerResult.Some? && careerResult == lastShown
    }

    /** Initial state: landing view, no result. */
    constructor ()
      ensures Valid()
      ensures currentView == Landing && careerResult == None && lastShown == None
    {
      currentView := Landing;
      careerResult := None;
      lastShown := None;
    }

    /** `startAssessment`: show the form; the result slot is left alone. */
    method StartAssessment()
      requires Valid()
      modifies this
      ensures Valid()
      ensures currentView == Assessment
      ensures careerResult == old(careerResult) && lastShown == old(lastShown)
    {
      currentView := Assessment;
    }

    /** `showResult`: store the result and show the result view. */
    method ShowResult(result: AssessmentResult)
      requires Valid()
      modifies this
      ensures Valid()
      ensures currentView == Result && careerResult == Some(result) && lastShown == Some(result)
    {
      careerResult := Some(result);
      currentView := Result;
      lastShown := Some(result);
    }

    /** `resetToLanding`: back to the landing view with the slot cleared. */
    method ResetToLanding()
      requires Valid()
      modifies this
      ensures Valid()
      ensures currentView == Landing && careerResult == None && lastShown == old(lastShown)
    {
      currentView := Landing;
      careerResult := None;
    }

    /**
     * The view dispatch: the form gets `showResult` and `resetToLanding`, the
     * result view gets the stored result and `resetToLanding`, and anything
     * else renders the landing page, whose buttons call `startAssessment`.
     */
    function Render(): (s: Screen)
      reads this
      ensures s.FormScreen? <==> currentView == Assessment
      ensures s.ResultScreen? <==> currentView == Result
      ensures s.FormScreen? ==> s.onComplete == ShowResultHandler && s.onBack == ResetToLandingHandler
      ensures s.ResultScreen? ==> s.result == careerResult && s.onRestart == ResetToLandingHandler
      ensures s.LandingScreen? ==> s.onStart == StartAssessmentHandler
    {
      if currentView == Assessment then FormScreen(ShowResultHandler, ResetToLandingHandler)
      else if currentView == Result then ResultScreen(careerResult, ResetToLandingHandler)
      else LandingScreen(StartAssessmentHandler)
    }
  }

  /** The result view is never handed `null`: it always gets the latest result shown. */
  lemma RenderedResultIsLatest(page: Index)
    requires page.Valid()
    ensures page.Render().ResultScreen? ==>
      page.Render().result.Some? && page.Render().result == page.lastShown
  {
  }
}
