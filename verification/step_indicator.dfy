/**
 * `StepIndicator`: renders the wizard's step list relative to the current step. Every step is
 * completed, current or upcoming; the circle, glow, text emphasis and the connector after it
 * all follow from that classification.
 */
module StepIndicator {
  import opened Wrappers

  /** One entry of the step list: the step's number and its two labels. */
  datatype StepInfo = StepInfo(number: int, title: string, description: string)

  datatype Status = Completed | Current | Upcoming

  /** A step's status, from comparing its number with the current step. */
  function Classify(number: int, current: int): (st: Status)
    ensures st == Completed <==> number < current
    ensures st == Current <==> number == current
    ensures st == Upcoming <==> number > current
  {
    if number < current then Completed
    else if number == current then Current
    else Upcoming
  }

  /** What is drawn for one step: the check mark in place of the number, the pulsing glow, the
      emphasised title and description, and the connector after it (`Some(filled)`) if any. */
  datatype StepView = StepView(
    status: Status,
    showsCheck: bool,
    glow: bool,
    emphasised: bool,
    connector: Option<bool>)

  /** The view of the step at `index` of a list of `count` steps. */
  function ViewOf(step: StepInfo, index: int, count: int, current: int): (v: StepView)
    ensures v.status == Classify(step.number, current)
    ensures v.showsCheck <==> v.status == Completed
    ensures v.glow <==> v.status == Current
    ensures v.emphasised <==> v.status != Upcoming
    ensures v.connector.Some? <==> index < count - 1
    ensures v.connector.Some? ==> (v.connector.value <==> v.status == Completed)
  {
    StepView(
      Classify(step.number, current),
      step.number < current,
      step.number == current,
      step.number <= current,
      if index < count - 1 then Some(step.number < current) else None)
  }

  /** `steps.map(...)`: one view per step, in order. */
  function Render(steps: seq<StepInfo>, current: int): (vs: seq<StepView>)
    ensures |vs| == |steps|
    ensures forall i :: 0 <= i < |steps| ==> vs[i] == ViewOf(steps[i], i, |steps|, current)
  {
    seq(|steps|, i requires 0 <= i < |steps| => ViewOf(steps[i], i, |steps|, current))
  }

  /** How many views have status `st`. */
  function CountStatus(vs: seq<StepView>, st: Status): nat
    decreases |vs|
  {
    if |vs| == 0 then 0
    else CountStatus(vs[..|vs| - 1], st) + (if vs[|vs| - 1].status == st then 1 else 0)
  }

  /** How many connectors are drawn, and how many of them are filled. */
  function CountConnectors(vs: seq<StepView>, onlyFilled: bool): nat
    decreases |vs|
  {
    if |vs| == 0 then 0
    else
      var v := vs[|vs| - 1];
      CountConnectors(vs[..|vs| - 1], onlyFilled)
        + (if v.connector.Some? && (!onlyFilled || v.connector.value) then 1 else 0)
  }

  /** The step list is numbered 1, 2, ..., n in order. */
  predicate NumberedFromOne(steps: seq<StepInfo>) {
    forall i :: 0 <= i < |steps| ==> steps[i].number == i + 1
  }

  function Min(a: int, b: int): int { if a <= b then a else b }
  function Max(a: int, b: int): int { if a >= b then a else b }

  /** The counts over the first `k` views of a list numbered from one. */
  lemma {:induction false} PrefixCounts(steps: seq<StepInfo>, current: int, k: nat)
    requires NumberedFromOne(steps) && k <= |steps|
    requires 1 <= current <= |steps|
    ensures CountStatus(Render(steps, current)[..k], Completed) == Min(current - 1, k)
    ensures CountStatus(Render(steps, current)[..k], Current) == (if current <= k then 1 else 0)
    ensures CountStatus(Render(steps, current)[..k], Upcoming) == Max(k - current, 0)
    ensures CountConnectors(Render(steps, current)[..k], false) == Min(k, |steps| - 1)
    ensures CountConnectors(Render(steps, current)[..k], true) == Min(current - 1, k)
    decreases k
  {
    if k > 0 {
      var vs := Render(steps, current);
      PrefixCounts(steps, current, k - 1);
      assert vs[..k][..k - 1] == vs[..k - 1];
      assert vs[..k][k - 1] == vs[k - 1];
    }
  }

  /** With steps numbered 1..n and the current step in 1..n: exactly one step is current,
      exactly current-1 are completed and the rest upcoming; n-1 connectors are drawn, one
      after every step but the last, and exactly the current-1 after completed steps are
      filled. */
  lemma StatusCounts(steps: seq<StepInfo>, current: int)
    requires NumberedFromOne(steps)
    requires 1 <= current <= |steps|
    ensures CountStatus(Render(steps, current), Current) == 1
    ensures CountStatus(Render(steps, current), Completed) == current - 1
    ensures CountStatus(Render(steps, current), Upcoming) == |steps| - current
    ensures CountConnectors(Render(steps, current), false) == |steps| - 1
    ensures CountConnectors(Render(steps, current), true) == current - 1
  {
    PrefixCounts(steps, current, |steps|);
    assert Render(steps, current)[..|steps|] == Render(steps, current);
  }

  /** Advancing the current step never turns a completed step back, and the step that was
      current becomes completed. */
  lemma AdvanceKeepsCompleted(number: int, current: int, later: int)
    requires current <= later
    ensures Classify(number, current) == Completed ==> Classify(number, later) == Completed
    ensures current < later && Classify(number, current) == Current ==> Classify(number, later) == Completed
  {
  }
}
