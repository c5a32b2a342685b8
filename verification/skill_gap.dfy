/**
 * Step 3 of the analysis wizard, `SkillGapAnalysis`: a simulated progress ticker that, once
 * complete, shows a fixed mock analysis which the Next button hands to the wizard.
 * The interval timer is replaced by explicit tick events.
 */
module SkillGap {
  import opened Wrappers

  const ProgressStep: int := 10
  const ProgressFull: int := 100

  /** The component's state: `progress` and `analysisComplete`. */
  datatype Ticker = Ticker(progress: int, complete: bool)

  const Init: Ticker := Ticker(0, false)

  /** One interval tick, the `setProgress` updater: below 100 it adds 10; at or above 100 it
      pins progress to 100 and raises the completion flag. */
  function Tick(t: Ticker): (r: Ticker)
    ensures t.progress < ProgressFull ==> r.progress == t.progress + ProgressStep && r.complete == t.complete
    ensures t.progress >= ProgressFull ==> r == Ticker(ProgressFull, true)
  {
    if t.progress >= ProgressFull then Ticker(ProgressFull, true)
    else t.(progress := t.progress + ProgressStep)
  }

  /** The state after `n` ticks from mount. */
  function Ticks(n: nat): Ticker
  {
    if n == 0 then Init else Tick(Ticks(n - 1))
  }

  /** What every reachable state satisfies. */
  predicate Inv(t: Ticker) {
    && 0 <= t.progress <= ProgressFull
    && t.progress % ProgressStep == 0
    && (t.complete ==> t.progress == ProgressFull)
  }

  /** A tick keeps the invariant, never lowers progress, and never clears the flag. */
  lemma TickMonotone(t: Ticker)
    requires Inv(t)
    ensures Inv(Tick(t))
    ensures Tick(t).progress >= t.progress
    ensures t.complete ==> Tick(t) == t
  {
  }

  /** Ten ticks take progress from 0 to 100; the eleventh raises the flag, and the ticker then
      stays put. */
  lemma {:induction false} TicksClosedForm(n: nat)
    ensures Ticks(n).progress == (if n <= 10 then n * ProgressStep else ProgressFull)
    ensures Ticks(n).complete <==> n >= 11
    ensures Inv(Ticks(n))
  {
    if n > 0 {
      TicksClosedForm(n - 1);
    }
  }

  /** The skill a candidate lacks, with the priority that picks its badge colour. */
  datatype MissingSkill = MissingSkill(name: string, priority: string, learningTime: string)
  datatype ExistingSkill = ExistingSkill(name: string, level: string, matched: bool)
  datatype Improvement = Improvement(skill: string, suggestion: string, priority: string)

  /** The analysis object passed on to the wizard. */
  datatype Analysis = Analysis(
    overallMatch: int,
    existingSkills: seq<ExistingSkill>,
    missingSkills: seq<MissingSkill>,
    improvements: seq<Improvement>)

  /** The hard-coded analysis every run produces, whatever resume and job it was given. */
  const MockAnalysis: Analysis := Analysis(
    75,
    [ExistingSkill("JavaScript", "Advanced", true), ExistingSkill("React", "Intermediate", true),
     ExistingSkill("Python", "Beginner", true), ExistingSkill("Git", "Intermediate", true)],
    [MissingSkill("TypeScript", "High", "2-3 weeks"), MissingSkill("Node.js", "High", "3-4 weeks"),
     MissingSkill("Docker", "Medium", "1-2 weeks"), MissingSkill("AWS", "Medium", "4-6 weeks")],
    [Improvement("React", "Learn React hooks and context API", "Medium"),
     Improvement("Python", "Focus on data structures and algorithms", "High")])

  datatype View = ProgressView(percent: int) | ResultsView(analysis: Analysis)

  /** The progress view until the flag is raised, the results afterwards. */
  function Render(t: Ticker): (v: View)
    ensures v.ResultsView? <==> t.complete
    ensures v.ProgressView? ==> v.percent == t.progress
  {
    if t.complete then ResultsView(MockAnalysis) else ProgressView(t.progress)
  }

  /** `handleNext`: the Next button exists only on the results view and hands the analysis on
      unchanged. */
  function Next(t: Ticker): (r: Option<Analysis>)
    ensures r.Some? <==> Render(t).ResultsView?
    ensures r.Some? ==> r.value == Render(t).analysis
  {
    if t.complete then Some(MockAnalysis) else None
  }

  datatype BadgeVariant = Destructive | Secondary

  /** The badge of a missing skill is destructive exactly for priority "High". */
  function PriorityBadge(priority: string): (b: BadgeVariant)
    ensures b == Destructive <==> priority == "High"
  {
    if priority == "High" then Destructive else Secondary
  }

  /** The mock flags the first two missing skills as destructive and the last two as secondary. */
  lemma MockBadges()
    ensures forall i :: 0 <= i < 2 ==> PriorityBadge(MockAnalysis.missingSkills[i].priority) == Destructive
    ensures forall i :: 2 <= i < 4 ==> PriorityBadge(MockAnalysis.missingSkills[i].priority) == Secondary
    ensures 0 <= MockAnalysis.overallMatch <= 100
  {
  }
}
