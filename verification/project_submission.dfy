/**
 * Step 5 of the analysis wizard, `ProjectSubmission`: a project is submitted as a GitHub URL,
 * a live-demo URL or an uploaded archive, with an optional description; a simulated delay
 * later replaces the form by fixed mock feedback. The delay timer becomes an explicit
 * `FeedbackReady` event, and `pending` counts the timers armed and not yet fired.
 */
module ProjectSubmission {
  import opened Wrappers
  import opened Text
  import opened Upload

  datatype Kind = GitHub | LiveDemo | FileUpload

  /** The feedback record: a score out of 100, three lists of advice, per-skill progress. */
  datatype Feedback = Feedback(
    score: int,
    strengths: seq<string>,
    improvements: seq<string>,
    nextSteps: seq<string>,
    skillProgress: seq<(string, int)>)

  const MockFeedback: Feedback := Feedback(
    85,
    ["Clean and well-structured code with proper TypeScript typing",
     "Comprehensive error handling and input validation",
     "Good use of modern React patterns and hooks",
     "Excellent documentation and README"],
    ["Add unit tests for critical components",
     "Implement proper loading states for async operations",
     "Consider adding TypeScript strict mode",
     "Add accessibility features (ARIA labels, keyboard navigation)"],
    ["Learn and implement React Testing Library",
     "Study advanced TypeScript features like generics",
     "Explore state management with Redux Toolkit",
     "Add internationalization (i18n) support"],
    [("TypeScript", 75), ("React", 80), ("Code Quality", 90), ("Documentation", 95)])

  /** Every number the feedback view draws as a progress bar is a percentage. */
  predicate InBounds(fb: Feedback) {
    && 0 <= fb.score <= 100
    && forall i :: 0 <= i < |fb.skillProgress| ==> 0 <= fb.skillProgress[i].1 <= 100
  }

  lemma MockFeedbackInBounds()
    ensures InBounds(MockFeedback)
  {
  }

  /** The component's state hooks, plus the number of delay timers still to fire. */
  datatype Form = Form(
    kind: Kind,
    githubUrl: string,
    projectUrl: string,
    description: string,
    selected: Option<File>,
    isSubmitted: bool,
    feedback: Option<Feedback>,
    pending: nat)

  datatype Event =
    | ChooseKind(choice: Kind)
    | EditGithubUrl(text: string)
    | EditProjectUrl(text: string)
    | EditDescription(text: string)
    | FileChange(files: seq<File>)
    | Submit          // the "Get AI Feedback" button
    | FeedbackReady   // one armed delay timer fires

  /** The initial state: GitHub mode, every input empty, not submitted, no feedback. */
  const Init: Form := Form(GitHub, "", "", "", None, false, None, 0)

  /** `isFormValid`, by kind; the optional description plays no part. */
  predicate Valid(f: Form) {
    match f.kind
    case GitHub => !IsBlank(f.githubUrl)
    case LiveDemo => !IsBlank(f.projectUrl)
    case FileUpload => f.selected.Some?
  }

  /** The feedback view replaces the form once both `isSubmitted` and `feedback` are set. */
  predicate ShowsFeedback(f: Form) {
    f.isSubmitted && f.feedback.Some?
  }

  /** One event. The form's controls exist only while the form view is shown; the submit button
      is disabled while the form is invalid; a fired timer sets both hooks at once. */
  function Apply(f: Form, e: Event): (r: Form)
    ensures e.FeedbackReady? && f.pending > 0 ==>
      r.isSubmitted && r.feedback == Some(MockFeedback) && r.pending == f.pending - 1
    ensures e.Submit? && !ShowsFeedback(f) && Valid(f) ==> r == f.(pending := f.pending + 1)
    ensures e.Submit? && !Valid(f) ==> r == f
    ensures ShowsFeedback(f) ==> ShowsFeedback(r)
    ensures !e.FeedbackReady? ==> r.isSubmitted == f.isSubmitted && r.feedback == f.feedback
    ensures ShowsFeedback(f) && !e.FeedbackReady? ==> r == f
    ensures !ShowsFeedback(f) && e.ChooseKind? ==> r == f.(kind := e.choice)
    ensures !ShowsFeedback(f) && e.EditGithubUrl? ==> r == f.(githubUrl := e.text)
    ensures !ShowsFeedback(f) && e.EditProjectUrl? ==> r == f.(projectUrl := e.text)
    ensures !ShowsFeedback(f) && e.EditDescription? ==> r == f.(description := e.text)
    ensures !ShowsFeedback(f) && e.FileChange? && |e.files| == 0 ==> r == f
    ensures !ShowsFeedback(f) && e.FileChange? && |e.files| > 0 ==> r == f.(selected := Some(e.files[0]))
  {
    match e
    case FeedbackReady =>
      if f.pending > 0 then f.(isSubmitted := true, feedback := Some(MockFeedback), pending := f.pending - 1)
      else f
    case ChooseKind(k) => OnForm(f, f.(kind := k))
    case EditGithubUrl(t) => OnForm(f, f.(githubUrl := t))
    case EditProjectUrl(t) => OnForm(f, f.(projectUrl := t))
    case EditDescription(t) => OnForm(f, f.(description := t))
    case FileChange(files) => OnForm(f, f.(selected := PickFile(f.selected, files)))
    case Submit => OnForm(f, if Valid(f) then f.(pending := f.pending + 1) else f)
  }

  /** A control of the form view acts only while that view is shown. */
  function OnForm(f: Form, acted: Form): Form {
    if ShowsFeedback(f) then f else acted
  }

  function Run(f: Form, evs: seq<Event>): Form
    decreases |evs|
  {
    if |evs| == 0 then f else Apply(Run(f, evs[..|evs| - 1]), evs[|evs| - 1])
  }

  /** The form starts invalid, in the form view. */
  lemma InitShowsInvalidForm()
    ensures !Valid(Init) && !ShowsFeedback(Init)
  {
  }

  /** Validity in terms of the raw inputs; the description never matters. */
  lemma ValidIff(f: Form, d: string)
    ensures Valid(f) <==>
      (f.kind == GitHub && !AllWhitespace(f.githubUrl))
      || (f.kind == LiveDemo && !AllWhitespace(f.projectUrl))
      || (f.kind == FileUpload && f.selected.Some?)
    ensures Valid(f.(description := d)) == Valid(f)
  {
    BlankIffAllWhitespace(f.githubUrl);
    BlankIffAllWhitespace(f.projectUrl);
  }

  /** What every reachable state satisfies: the two hooks are set together, to the mock. */
  predicate Inv(f: Form) {
    && (f.isSubmitted <==> f.feedback.Some?)
    && (f.feedback.Some? ==> f.feedback.value == MockFeedback)
  }

  /** From mount: the two hooks stay in step, a bar never leaves 0..100, the feedback view never
      goes away once shown, and neither feedback nor an armed timer exists without a Submit. */
  lemma {:induction false} RunInvariant(evs: seq<Event>)
    ensures Inv(Run(Init, evs))
    ensures Run(Init, evs).feedback.Some? ==> InBounds(Run(Init, evs).feedback.value)
    ensures Run(Init, evs).isSubmitted || Run(Init, evs).pending > 0 ==> Submit in evs
    decreases |evs|
  {
    if |evs| > 0 {
      var prefix := evs[..|evs| - 1];
      RunInvariant(prefix);
      MockFeedbackInBounds();
      assert evs == prefix + [evs[|evs| - 1]];
    }
  }

  /** Once shown, the feedback view survives every later event. */
  lemma {:induction false} FeedbackPersists(f: Form, evs: seq<Event>)
    requires ShowsFeedback(f)
    ensures ShowsFeedback(Run(f, evs))
    decreases |evs|
  {
    if |evs| > 0 {
      FeedbackPersists(f, evs[..|evs| - 1]);
    }
  }
}
