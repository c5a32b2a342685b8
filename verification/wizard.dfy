/**
 * The analysis wizard controller, the `Analyze` page: a step index and three payload slots
 * (resume, job description, analysis). Each step's component offers only its own Next and,
 * from step 2 on, Back callbacks; an event no rendered callback can produce leaves the state
 * unchanged.
 */
module Wizard {
  import opened Wrappers
  import ResumeUpload
  import JobDescription
  import SkillGap
  import opened StepIndicator

  /** The step list given to the indicator. */
  const Steps: seq<StepInfo> := [
    StepInfo(1, "Resume Input", "Upload CV or LinkedIn"),
    StepInfo(2, "Job Description", "Target job details"),
    StepInfo(3, "Skill Analysis", "Gap identification"),
    StepInfo(4, "Project Plans", "Learning roadmap"),
    StepInfo(5, "Submissions", "Portfolio building")
  ]

  const FirstStep: int := 1
  const LastStep: int := 5

  /** The page's state hooks: `currentStep`, `resumeData`, `jobData`, `analysisData`. */
  datatype State = State(
    step: int,
    resume: Option<ResumeUpload.Payload>,
    job: Option<JobDescription.Payload>,
    analysis: Option<SkillGap.Analysis>)

  /** The callbacks the step components invoke. */
  datatype Event =
    | ResumeNext(resumeData: ResumeUpload.Payload)   // step 1's onNext
    | JobNext(jobData: JobDescription.Payload)       // step 2's onNext
    | AnalysisNext(analysisData: SkillGap.Analysis)  // step 3's onNext
    | PlansNext                                      // step 4's onNext, which carries no data
    | Back                                           // onBack of steps 2 to 5

  /** The page mounts at step 1 with every slot empty. */
  const Init: State := State(FirstStep, None, None, None)

  /** Whether the component rendered at `step` offers the callback behind `e`. Any index other
      than 2..5 renders the resume form (the `switch`'s `default` shares case 1), which has no
      Back. */
  predicate Offered(step: int, e: Event) {
    if step == 2 then e.JobNext? || e.Back?
    else if step == 3 then e.AnalysisNext? || e.Back?
    else if step == 4 then e.PlansNext? || e.Back?
    else if step == 5 then e.Back?
    else e.ResumeNext?
  }

  /** One callback of `renderCurrentStep`. */
  function Apply(s: State, e: Event): (r: State)
    ensures !Offered(s.step, e) ==> r == s
    ensures Offered(s.step, e) && e.Back? ==> r == s.(step := s.step - 1)
    ensures Offered(s.step, e) && !e.Back? && FirstStep <= s.step < LastStep ==> r.step == s.step + 1
    ensures FirstStep <= s.step <= LastStep ==> FirstStep <= r.step <= LastStep
    ensures e.ResumeNext? && Offered(s.step, e) ==>
      r.resume == Some(e.resumeData) && r.job == s.job && r.analysis == s.analysis
    ensures e.JobNext? && Offered(s.step, e) ==>
      r.job == Some(e.jobData) && r.resume == s.resume && r.analysis == s.analysis
    ensures e.AnalysisNext? && Offered(s.step, e) ==>
      r.analysis == Some(e.analysisData) && r.resume == s.resume && r.job == s.job
    ensures e.PlansNext? || e.Back? ==>
      r.resume == s.resume && r.job == s.job && r.analysis == s.analysis
  {
    if s.step == 2 then
      match e
      case JobNext(j) => s.(job := Some(j), step := 3)
      case Back => s.(step := 1)
      case _ => s
    else if s.step == 3 then
      match e
      case AnalysisNext(a) => s.(analysis := Some(a), step := 4)
      case Back => s.(step := 2)
      case _ => s
    else if s.step == 4 then
      match e
      case PlansNext => s.(step := 5)
      case Back => s.(step := 3)
      case _ => s
    else if s.step == 5 then
      match e
      case Back => s.(step := 4)
      case _ => s
    else
      match e
      case ResumeNext(d) => s.(resume := Some(d), step := 2)
      case _ => s
  }

  /** The state after a sequence of callbacks (the last one applied last). */
  function Run(s: State, evs: seq<Event>): State
    decreases |evs|
  {
    if |evs| == 0 then s else Apply(Run(s, evs[..|evs| - 1]), evs[|evs| - 1])
  }

  /** What every reachable state satisfies: the step is in 1..5, and a step's payload is
      present once the wizard has moved past that step. */
  predicate Inv(s: State) {
    && FirstStep <= s.step <= LastStep
    && (s.step >= 2 ==> s.resume.Some?)
    && (s.step >= 3 ==> s.job.Some?)
    && (s.step >= 4 ==> s.analysis.Some?)
  }

  /** No sequence of Next and Back callbacks takes the step outside 1..5 or reaches a step
      whose predecessors' payloads are missing. */
  lemma {:induction false} RunKeepsInv(evs: seq<Event>)
    ensures Inv(Run(Init, evs))
    decreases |evs|
  {
    if |evs| > 0 {
      RunKeepsInv(evs[..|evs| - 1]);
    }
  }

  /** A slot, once filled, is never emptied again; only its own step's Next overwrites it. */
  lemma {:induction false} SlotsNeverEmptied(s: State, evs: seq<Event>)
    ensures s.resume.Some? ==> Run(s, evs).resume.Some?
    ensures s.job.Some? ==> Run(s, evs).job.Some?
    ensures s.analysis.Some? ==> Run(s, evs).analysis.Some?
    ensures (forall i :: 0 <= i < |evs| ==> evs[i].Back?) ==>
      Run(s, evs).resume == s.resume && Run(s, evs).job == s.job && Run(s, evs).analysis == s.analysis
    decreases |evs|
  {
    if |evs| > 0 {
      SlotsNeverEmptied(s, evs[..|evs| - 1]);
    }
  }

  /** Going back to step 1 and resubmitting the resume and the job replaces those two slots but
      brings back the analysis stored before, which was never resubmitted. */
  lemma ResubmitKeepsLaterPayload(s: State, r: ResumeUpload.Payload, j: JobDescription.Payload)
    requires s.step == 4
    ensures Run(s, [Back, Back, Back, ResumeNext(r), JobNext(j)])
      == State(3, Some(r), Some(j), s.analysis)
  {
    var evs := [Back, Back, Back, ResumeNext(r), JobNext(j)];
    assert Run(s, evs[..1]) == s.(step := 3) by { assert evs[..1][..0] == []; }
    assert Run(s, evs[..2]) == s.(step := 2) by { assert evs[..2][..1] == evs[..1]; }
    assert Run(s, evs[..3]) == s.(step := 1) by { assert evs[..3][..2] == evs[..2]; }
    assert Run(s, evs[..4]) == s.(step := 2, resume := Some(r)) by { assert evs[..4][..3] == evs[..3]; }
    assert evs[..5] == evs;
  }

  /** The inputs step 3 renders with: the resume and job currently stored. */
  function AnalysisInputs(s: State): (r: Option<(ResumeUpload.Payload, JobDescription.Payload)>)
    requires Inv(s)
    ensures r.Some? <==> s.step == 3
    ensures r.Some? ==> s.resume == Some(r.value.0) && s.job == Some(r.value.1)
  {
    if s.step == 3 then Some((s.resume.value, s.job.value)) else None
  }

  /** The step list is numbered 1..5 in order, exactly the indices the controller reaches. */
  lemma StepsNumbered()
    ensures |Steps| == LastStep
    ensures NumberedFromOne(Steps)
  {
  }

  /** Whatever the user has done, the indicator shows exactly one current step, with the steps
      before it completed and the connectors after them filled. */
  lemma IndicatorAfterRun(evs: seq<Event>)
    ensures CountStatus(Render(Steps, Run(Init, evs).step), Current) == 1
    ensures CountStatus(Render(Steps, Run(Init, evs).step), Completed) == Run(Init, evs).step - 1
    ensures CountConnectors(Render(Steps, Run(Init, evs).step), true) == Run(Init, evs).step - 1
  {
    RunKeepsInv(evs);
    StepsNumbered();
    StatusCounts(Steps, Run(Init, evs).step);
  }
}
