/**
 * The `Checkout` page: a details form for the chosen plan. Submitting valid details for the
 * free plan issues an API key at once; for a paid plan it reveals a payment panel whose button
 * then issues the key. The simulated delays become a `Settle` event that finishes the
 * operation in flight; the time-and-random part of a key is the event's `suffix`.
 */
module Checkout {
  import opened Wrappers
  import opened Text

  datatype Plan = Plan(name: string, price: string, description: string)

  const FreePrice: string := "Free"
  const DefaultPlan: Plan := Plan("Starter", FreePrice, "Perfect for exploring your career potential")

  /** `location.state?.plan || {...}`: the plan passed by the pricing page, else Starter. */
  function ResolvePlan(supplied: Option<Plan>): (p: Plan)
    ensures supplied.None? ==> p.name == "Starter" && p.price == FreePrice
    ensures supplied.Some? ==> p == supplied.value
  {
    supplied.GetOr(DefaultPlan)
  }

  /** The form's fields. */
  datatype Details = Details(
    name: string,
    email: string,
    contact: string,
    organization: string,
    numberOfPeople: string)

  const MinName: nat := 2
  const MinContact: nat := 10
  const MinOrganization: nat := 2
  const MinNumberOfPeople: nat := 1

  /** The schema's rules; the e-mail check is the caller-supplied `emailOk`. */
  predicate DetailsValid(d: Details, emailOk: string -> bool) {
    && |d.name| >= MinName
    && emailOk(d.email)
    && |d.contact| >= MinContact
    && |d.organization| >= MinOrganization
    && |d.numberOfPeople| >= MinNumberOfPeople
  }

  const KeyPrefix: string := "sk_"

  /** The part every key for `plan` starts with: `sk_<lower-cased plan name>_`. */
  function KeyStem(planName: string): (stem: string)
    ensures |stem| == |KeyPrefix| + |planName| + 1
    ensures stem[..|KeyPrefix|] == KeyPrefix && stem[|stem| - 1] == '_'
    ensures stem[|KeyPrefix|..|stem| - 1] == ToLower(planName)
  {
    KeyPrefix + ToLower(planName) + "_"
  }

  /** `generateApiKey`. */
  function GenerateKey(plan: Plan, suffix: string): (key: string)
    ensures |key| > |KeyPrefix| && key[..|KeyPrefix|] == KeyPrefix
    ensures KeySuffix(key, plan.name) == Some(suffix)
  {
    var stem := KeyStem(plan.name);
    var key := stem + suffix;
    assert key[..|stem|] == stem && key[|stem|..] == suffix;
    assert key[..|KeyPrefix|] == stem[..|KeyPrefix|];
    key
  }

  /** Splits a key issued for a plan back into its random suffix, `None` when it lacks the
      plan's stem. */
  function KeySuffix(key: string, planName: string): (r: Option<string>)
    ensures r.Some? ==> key == KeyStem(planName) + r.value
  {
    var stem := KeyStem(planName);
    if |stem| <= |key| && key[..|stem|] == stem then
      assert key == key[..|stem|] + key[|stem|..];
      Some(key[|stem|..])
    else None
  }

  datatype Operation = SubmitOp | PaymentOp
  datatype Outcome = Completed | Threw

  /** The page's state hooks, plus the operation awaiting its simulated delay. */
  datatype State = State(showPayment: bool, apiKey: string, isProcessing: bool, inFlight: Option<Operation>)

  const Init: State := State(false, "", false, None)

  datatype Event =
    | SubmitDetails(details: Details)         // the form's submit button
    | Pay                                     // the payment panel's button
    | Settle(outcome: Outcome, suffix: string) // the delay of the operation in flight ends

  /** `if (apiKey)`: the success screen replaces the form once a key exists. */
  predicate ShowsSuccess(s: State) {
    s.apiKey != ""
  }

  /** One event. Both buttons are disabled while processing and absent on the success screen;
      the schema rejects invalid details before `onSubmit` runs; the payment button exists only
      on the panel. Settling always releases the processing flag (the `finally`). */
  function Apply(plan: Plan, emailOk: string -> bool, s: State, e: Event): (r: State)
    ensures e.Settle? ==> !r.isProcessing && r.inFlight.None?
    ensures e.Settle? && s.inFlight == Some(SubmitOp) && e.outcome == Completed ==>
      if plan.price == FreePrice then r.apiKey == GenerateKey(plan, e.suffix) && r.showPayment == s.showPayment
      else r.showPayment && r.apiKey == s.apiKey
    ensures e.Settle? && s.inFlight == Some(PaymentOp) && e.outcome == Completed ==>
      r.apiKey == GenerateKey(plan, e.suffix) && !r.showPayment
    ensures e.Settle? && (s.inFlight.None? || e.outcome == Threw) ==>
      r.apiKey == s.apiKey && r.showPayment == s.showPayment
    ensures !e.Settle? ==> r.apiKey == s.apiKey && r.showPayment == s.showPayment
    ensures e.SubmitDetails? && !DetailsValid(e.details, emailOk) ==> r == s
    ensures !e.Settle? && s.isProcessing ==> r == s
    ensures e.SubmitDetails? && DetailsValid(e.details, emailOk) && !ShowsSuccess(s) && !s.isProcessing ==>
      r == s.(isProcessing := true, inFlight := Some(SubmitOp))
    ensures e.Pay? && s.showPayment && !ShowsSuccess(s) && !s.isProcessing ==>
      r == s.(isProcessing := true, inFlight := Some(PaymentOp))
    ensures e.Pay? && !s.showPayment ==> r == s
    ensures ShowsSuccess(s) && !e.Settle? ==> r == s
  {
    match e
    case SubmitDetails(d) =>
      if ShowsSuccess(s) || s.isProcessing || !DetailsValid(d, emailOk) then s
      else s.(isProcessing := true, inFlight := Some(SubmitOp))
    case Pay =>
      if ShowsSuccess(s) || !s.showPayment || s.isProcessing then s
      else s.(isProcessing := true, inFlight := Some(PaymentOp))
    case Settle(outcome, suffix) =>
      var done := s.(isProcessing := false, inFlight := None);
      if outcome == Threw then done
      else match s.inFlight
        case None => done
        case Some(SubmitOp) =>
          if plan.price == FreePrice then done.(apiKey := GenerateKey(plan, suffix))
          else done.(showPayment := true)
        case Some(PaymentOp) => done.(apiKey := GenerateKey(plan, suffix), showPayment := false)
  }

  /** The schema's rules, in the numbers of `formSchema`: from the form with nothing in flight, a
      submit starts processing exactly when every rule holds, so any one failing rule blocks it. */
  lemma DetailsRules(plan: Plan, emailOk: string -> bool, s: State, d: Details)
    requires !ShowsSuccess(s) && !s.isProcessing
    ensures Apply(plan, emailOk, s, SubmitDetails(d)).isProcessing <==>
      |d.name| >= 2 && emailOk(d.email) && |d.contact| >= 10 && |d.organization| >= 2 && |d.numberOfPeople| >= 1
  {
  }

  function Run(plan: Plan, emailOk: string -> bool, s: State, evs: seq<Event>): State
    decreases |evs|
  {
    if |evs| == 0 then s else Apply(plan, emailOk, Run(plan, emailOk, s, evs[..|evs| - 1]), evs[|evs| - 1])
  }

  /** What every reachable state satisfies: processing exactly while an operation is in flight;
      a payment is in flight only from the visible panel and nothing is in flight once a key
      exists; any key shown is one issued for this
      plan; the free plan never shows the payment panel, and the panel is gone once a key exists. */
  predicate Inv(plan: Plan, s: State) {
    && (s.isProcessing <==> s.inFlight.Some?)
    && (s.inFlight == Some(PaymentOp) ==> s.showPayment)
    && (s.inFlight.Some? ==> s.apiKey == "")
    && (s.apiKey != "" ==> KeySuffix(s.apiKey, plan.name).Some? && !s.showPayment)
    && (plan.price == FreePrice ==> !s.showPayment)
  }

  lemma {:induction false} RunKeepsInv(plan: Plan, emailOk: string -> bool, evs: seq<Event>)
    ensures Inv(plan, Run(plan, emailOk, Init, evs))
    decreases |evs|
  {
    if |evs| > 0 {
      RunKeepsInv(plan, emailOk, evs[..|evs| - 1]);
    }
  }

  /** The event that issues a key: the details submit for the free plan, the payment otherwise. */
  predicate Issuing(plan: Plan, e: Event) {
    if plan.price == FreePrice then e.SubmitDetails? else e.Pay?
  }

  /** The success screen appears only after a free-plan submit or, for a paid plan, a payment. */
  lemma {:induction false} SuccessNeedsIssuingEvent(plan: Plan, emailOk: string -> bool, evs: seq<Event>)
    ensures ShowsSuccess(Run(plan, emailOk, Init, evs)) ==>
      exists i :: 0 <= i < |evs| && Issuing(plan, evs[i])
    ensures Run(plan, emailOk, Init, evs).inFlight.Some? ==>
      exists i :: 0 <= i < |evs| && (evs[i].SubmitDetails? || evs[i].Pay?)
    ensures Run(plan, emailOk, Init, evs).inFlight == Some(SubmitOp) ==>
      exists i :: 0 <= i < |evs| && evs[i].SubmitDetails?
    ensures Run(plan, emailOk, Init, evs).inFlight == Some(PaymentOp) ==>
      exists i :: 0 <= i < |evs| && evs[i].Pay?
    decreases |evs|
  {
    if |evs| > 0 {
      var prefix := evs[..|evs| - 1];
      SuccessNeedsIssuingEvent(plan, emailOk, prefix);
      RunKeepsInv(plan, emailOk, prefix);
      assert forall i :: 0 <= i < |prefix| ==> prefix[i] == evs[i];
    }
  }

  /** The free plan: valid details and one delay give the key; the payment panel never shows. */
  lemma FreePlanIssuesKeyOnSubmit(plan: Plan, emailOk: string -> bool, d: Details, suffix: string)
    requires plan.price == FreePrice && DetailsValid(d, emailOk)
    ensures Run(plan, emailOk, Init, [SubmitDetails(d), Settle(Completed, suffix)])
      == State(false, GenerateKey(plan, suffix), false, None)
  {
    var evs := [SubmitDetails(d), Settle(Completed, suffix)];
    assert evs[..1][..0] == [] && evs[..1] == [SubmitDetails(d)];
    assert Run(plan, emailOk, Init, evs[..1]) == State(false, "", true, Some(SubmitOp));
  }

  /** A paid plan: submitting reveals the payment panel without a key; paying then issues the
      key and hides the panel. */
  lemma PaidPlanIssuesKeyOnPayment(plan: Plan, emailOk: string -> bool, d: Details, s1: string, s2: string)
    requires plan.price != FreePrice && DetailsValid(d, emailOk)
    ensures Run(plan, emailOk, Init, [SubmitDetails(d), Settle(Completed, s1)])
      == State(true, "", false, None)
    ensures Run(plan, emailOk, Init, [SubmitDetails(d), Settle(Completed, s1), Pay, Settle(Completed, s2)])
      == State(false, GenerateKey(plan, s2), false, None)
  {
    var evs := [SubmitDetails(d), Settle(Completed, s1), Pay, Settle(Completed, s2)];
    assert evs[..1][..0] == [];
    assert evs[..2][..1] == evs[..1];
    assert evs[..3][..2] == evs[..2];
    assert evs[..4][..3] == evs[..3];
    assert evs[..1] == [SubmitDetails(d)] && evs[..2] == [SubmitDetails(d), Settle(Completed, s1)];
    assert Run(plan, emailOk, Init, evs[..1][..0]) == Init;
    assert Run(plan, emailOk, Init, evs[..1]) == State(false, "", true, Some(SubmitOp));
    assert Run(plan, emailOk, Init, evs[..2]) == State(true, "", false, None);
    assert Run(plan, emailOk, Init, evs[..3]) == State(true, "", true, Some(PaymentOp));
  }
}
