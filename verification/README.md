# Skanjo front-end core, modelled in Dafny

Skanjo is a React web application for career-gap analysis. Most of it is markup. Its behaviour
sits in a few small state machines and validators inside components, and this project models
those:

- the five-step **analysis wizard** (`Analyze`) and its **step indicator**;
- the wizard's step forms:
  - **resume upload** and **job description**, each with a per-mode validator and a tagged payload;
  - the **skill-gap** progress ticker;
  - **project submission** with its feedback view;
- the **session store** (`AuthProvider`): the user mirrored to local storage, restore on mount,
  and a 30-minute expiry timer;
- the **checkout** flow: free plans get an API key at once, paid plans only after a payment step;
- **API-key creation**, in two places:
  - the service `createApiKey`;
  - the Docs page, which builds the same request itself;
  - both use HTTP Basic credentials (section 2 of RFC 7617), Base64-encoded by `btoa` per
    section 4 of RFC 4648;
- the landing page's **FAQ accordion**.

Each component is an immutable state record. Each has a pure `Apply(state, event)` for one user
action, callback or timer firing, and `Run(state, events)` for a sequence of them. Timers and
network answers are explicit events; nondeterministic values are event parameters. Lemmas state
what holds over every event sequence.

Files, one module each:

| file | contents |
|---|---|
| `wrappers.dfy` | `Option` and `Result` |
| `text.dfy` | JavaScript `trim`, truthiness of strings, ASCII lower-casing |
| `base64.dfy` | the RFC 4648 encoder, a reference decoder, `btoa`/`atob` |
| `upload.dfy` | the file input shared by the forms |
| `resume_upload.dfy`, `job_description.dfy`, `skill_gap.dfy`, `project_submission.dfy` | the wizard's steps |
| `step_indicator.dfy`, `wizard.dfy` | the indicator and the wizard controller |
| `session.dfy` | the session store |
| `checkout.dfy` | checkout |
| `api_key.dfy` | `createApiKey` and the Docs page |
| `faq.dfy` | the accordion |

Two behaviours follow the code even where a reader might expect otherwise:

- A storage failure during restore is not swallowed. The code calls `JSON.parse` on the stored
  entry without a `try` (src/auth/AuthContext.tsx:39), so a malformed entry makes mounting fail.
  `Session.Mount` returns a `Failure` in that case.
- On the Docs page, `btoa` runs inside the `try`. A username or password with a character outside
  Latin-1 therefore gets the toast "Failed to connect to the server", and no request is sent
  (`ApiKey.Apply`).

## Model

| member | source | states |
|---|---|---|
| Text.Trim | src/components/analyze/ResumeUpload.tsx:33 | `trim` removes exactly the leading and trailing ECMAScript whitespace and line terminators; the result starts and ends with a non-whitespace character |
| Text.BlankIffAllWhitespace | src/components/analyze/JobDescriptionInput.tsx:49-51 | `s.trim() !== ''` fails exactly when every character of `s` is whitespace |
| Text.ToLower | src/pages/Checkout.tsx:56 | lower-casing keeps the length and maps each character through the ASCII case table |
| Base64.SextetChar | src/services/apiService.ts:17 | every 6-bit value has an alphabet character, which is never the pad and which the inverse table maps back to the value |
| Base64.Encode | src/services/apiService.ts:17 | the output has four characters per started group of three input bytes |
| Base64.EncodeAlphabet | src/services/apiService.ts:17 | the encoder emits only alphabet characters and `=`, and `=` only in the last two positions |
| Base64.DecodeQuad | src/services/apiService.ts:17 | a quadruple decodes to one to three bytes, and to three only when it has no padding |
| Base64.DecodeEncode | src/services/apiService.ts:17 | decoding the encoding of any byte string gives that byte string back |
| Base64.RepackGroup | src/services/apiService.ts:17 | the three bytes unpacked from four sextets pack back into the same four sextets |
| Base64.GroupOfQuad | src/services/apiService.ts:17 | a quadruple that decodes to three bytes is exactly the encoding of those bytes |
| Base64.FinalTwoOfQuad | src/services/apiService.ts:17 | a quadruple that decodes to two bytes is exactly their padded encoding, with zero pad bits (section 3.5 of RFC 4648) |
| Base64.FinalOneOfQuad | src/services/apiService.ts:17 | a quadruple that decodes to one byte is exactly its padded encoding, with zero pad bits (section 3.5 of RFC 4648) |
| Base64.EncodeDecode | src/services/apiService.ts:17 | every string the decoder accepts is the encoding of its bytes; with `DecodeEncode` this fixes `Encode` as the canonical encoder, character for character |
| Base64.FromBytes | src/services/apiService.ts:17 | bytes read as characters are Latin-1 and turn back into the same bytes |
| Base64.Btoa | src/services/apiService.ts:17 | `btoa` succeeds exactly on Latin-1 strings; its output has the Base64 length, and `atob` of it is the input |
| Base64.PadBitsRejected | src/services/apiService.ts:17 | "Zh==" and "Zm9=", which differ from the encodings of "f" and "fo" only in pad bits, are rejected while the canonical forms decode |
| Base64.Atob | src/services/apiService.ts:17 | a strict decoder standing in for `atob`: whatever it returns is a Latin-1 string |
| Base64.AtobOnlyFromBtoa | src/services/apiService.ts:17 | `btoa(s)` is the only string that decodes to `s`, so the `Authorization` header is fixed exactly |
| Base64.EncodeTestVectors | src/services/apiService.ts:17 | the encoder produces the test vectors of section 10 of RFC 4648 |
| Upload.PickFile | src/components/analyze/ResumeUpload.tsx:18-23 | a change event selects its first file; an event without a file keeps the previous selection |
| Upload.PickFileNeverClears | src/components/analyze/ResumeUpload.tsx:18-23 | once a file is selected, no change event clears the selection |
| ResumeUpload.Apply | src/components/analyze/ResumeUpload.tsx:14-23 | each action changes only its own hook; switching mode keeps the typed URL and the chosen file |
| ResumeUpload.Submit | src/components/analyze/ResumeUpload.tsx:25-33 | a payload exists exactly when the form is valid; its tag matches the mode; it carries the selected file, or the URL as typed, which is never all whitespace |
| ResumeUpload.InitInvalid | src/components/analyze/ResumeUpload.tsx:14-16 | the form starts invalid, so submit starts disabled |
| ResumeUpload.ValidIff | src/components/analyze/ResumeUpload.tsx:33 | valid exactly when file mode has a file, or LinkedIn mode has a URL that is not all whitespace |
| ResumeUpload.RunFields | src/components/analyze/ResumeUpload.tsx:14-23 | after any actions, each hook equals the last value its own input gave; while the step stays mounted, no other action resets it |
| JobDescription.Apply | src/components/analyze/JobDescriptionInput.tsx:16-26 | each action changes only its own hook; switching method keeps text, URL and file |
| JobDescription.Submit | src/components/analyze/JobDescriptionInput.tsx:28-55 | a payload exists exactly when the form is valid; its tag equals the method; it carries only that method's input, untrimmed and not all whitespace |
| JobDescription.InitInvalid | src/components/analyze/JobDescriptionInput.tsx:16-19 | the form starts in text mode and invalid |
| JobDescription.ValidIff | src/components/analyze/JobDescriptionInput.tsx:44-55 | valid exactly when file mode has a file, URL mode a URL that is not all whitespace, or text mode text that is not all whitespace |
| JobDescription.RunFields | src/components/analyze/JobDescriptionInput.tsx:16-26 | after any actions, each hook equals the last value its own input gave |
| SkillGap.Tick | src/components/analyze/SkillGapAnalysis.tsx:43-50 | below 100 a tick adds 10 and keeps the flag; at 100 or more it pins progress to 100 and raises the flag |
| SkillGap.TickMonotone | src/components/analyze/SkillGapAnalysis.tsx:43-50 | a tick keeps progress a multiple of 10 in 0..100 and never lowers it; once complete, nothing changes |
| SkillGap.TicksClosedForm | src/components/analyze/SkillGapAnalysis.tsx:40-54 | after n ticks progress is min(10n, 100); the flag is first raised by the eleventh tick |
| SkillGap.Render | src/components/analyze/SkillGapAnalysis.tsx:60 | results are shown exactly when the analysis is complete; otherwise the progress percentage is shown |
| SkillGap.Next | src/components/analyze/SkillGapAnalysis.tsx:56-58 | Next exists only on the results view and hands on the displayed analysis unchanged |
| SkillGap.PriorityBadge | src/components/analyze/SkillGapAnalysis.tsx:163 | the badge is destructive exactly for priority "High" |
| SkillGap.MockBadges | src/components/analyze/SkillGapAnalysis.tsx:20-37 | the fixed analysis gives destructive badges to its two High skills only, and its match score is a percentage |
| ProjectSubmission.MockFeedbackInBounds | src/components/analyze/ProjectSubmission.tsx:34-59 | the feedback score and every skill-progress value lie in 0..100 |
| ProjectSubmission.Apply | src/components/analyze/ProjectSubmission.tsx:62-321 | a fired timer sets `isSubmitted` and `feedback` together; submit arms a timer only when valid; each form input changes only its own hook, and a change event without a file keeps the selection; while the step stays mounted, once the feedback view is shown it is never left and only a timer still acts |
| ProjectSubmission.InitShowsInvalidForm | src/components/analyze/ProjectSubmission.tsx:25-31 | the component starts in the form view with an invalid form |
| ProjectSubmission.ValidIff | src/components/analyze/ProjectSubmission.tsx:77-88 | valid exactly per mode (GitHub URL or project URL not all whitespace, or a file selected); the description never matters |
| ProjectSubmission.RunInvariant | src/components/analyze/ProjectSubmission.tsx:69-90 | from mount, `isSubmitted` and `feedback` are set together to the fixed feedback, whose bars stay in 0..100; neither happens without a submit |
| ProjectSubmission.FeedbackPersists | src/components/analyze/ProjectSubmission.tsx:90 | while the step stays mounted, once the feedback view is shown every later event of the component keeps it |
| StepIndicator.Classify | src/components/analyze/StepIndicator.tsx:26-31 | a step is completed, current or upcoming exactly when its number is below, equal to or above the current step |
| StepIndicator.ViewOf | src/components/analyze/StepIndicator.tsx:23-66 | check mark iff completed, glow iff current, emphasis iff not upcoming, a connector iff not the last step, filled iff completed |
| StepIndicator.Render | src/components/analyze/StepIndicator.tsx:19-68 | one view per step, in order |
| StepIndicator.StatusCounts | src/components/analyze/StepIndicator.tsx:19-68 | for steps numbered 1..n and current in 1..n: one current, current-1 completed, n-current upcoming; n-1 connectors, current-1 filled |
| StepIndicator.AdvanceKeepsCompleted | src/components/analyze/StepIndicator.tsx:26-31 | raising the current step never un-completes a step, and the old current step becomes completed |
| Wizard.Apply | src/pages/Analyze.tsx:26-41 | only the rendered step's callbacks act; Next moves k to k+1 and stores exactly that step's payload; Back moves k to k-1 and changes no payload; the step stays in 1..5 |
| Wizard.RunKeepsInv | src/pages/Analyze.tsx:13-41 | from mount, the step stays in 1..5 and every step passed has its payload stored |
| Wizard.SlotsNeverEmptied | src/pages/Analyze.tsx:29-37 | a filled slot is never emptied, and Back alone changes no slot |
| Wizard.ResubmitKeepsLaterPayload | src/pages/Analyze.tsx:29-33 | going back to step 1 and resubmitting replaces resume and job but keeps the earlier analysis |
| Wizard.AnalysisInputs | src/pages/Analyze.tsx:33 | step 3 receives exactly the stored resume and job, and only step 3 does |
| Wizard.StepsNumbered | src/pages/Analyze.tsx:18-24 | the step list is numbered 1..5 in order |
| Wizard.IndicatorAfterRun | src/pages/Analyze.tsx:49 | after any callbacks the indicator shows one current step, and the completed steps and filled connectors are those before it |
| Session.Initial | src/auth/AuthContext.tsx:32 | the provider starts unauthenticated with no timer |
| Session.Rearm | src/auth/AuthContext.tsx:44-50 | a timer is armed exactly when a user is present, due the full 30 minutes (1,800,000 ms) from now |
| Session.Mount | src/auth/AuthContext.tsx:36-41 | a stored entry is adopted exactly when present and non-empty, and then always, with a full timeout armed for an adopted user; a malformed one makes mounting fail; nothing is written |
| Session.Login | src/auth/AuthContext.tsx:52-55 | login sets the user, writes it under "skanjo_user", re-arms the full timeout, and does not navigate |
| Session.Logout | src/auth/AuthContext.tsx:57-61 | logout clears the user and the timer, removes only "skanjo_user", and navigates to "/login" |
| Session.Elapse | src/auth/AuthContext.tsx:44-61 | time passing fires logout exactly when the armed deadline is reached: the user and timer are cleared, only "skanjo_user" leaves storage, and the page goes to "/login"; otherwise only the clock moves |
| Session.ApplyKeepsInv | src/auth/AuthContext.tsx:44-61 | every event keeps the session invariant |
| Session.RunKeepsInv | src/auth/AuthContext.tsx:44-64 | after any events, `isAuthenticated` holds exactly while a timer is armed |
| Session.LoginThenRestore | src/auth/AuthContext.tsx:36-55 | a fresh mount over the storage a login wrote restores that user, given the codec round-trips |
| Session.LogoutThenRestore | src/auth/AuthContext.tsx:36-61 | after logout a fresh mount restores nobody |
| Session.ExpiryAfterTimeout | src/auth/AuthContext.tsx:44-61 | a user is still logged in 1 ms before the timeout and logged out, sent to "/login" with no timer, at it; a reload then restores nobody |
| Session.SecondLoginRestartsTimeout | src/auth/AuthContext.tsx:44-55 | a second login cancels the first timer; expiry counts from the second login |
| Checkout.ResolvePlan | src/pages/Checkout.tsx:36-40 | without a supplied plan the plan is Starter at price "Free"; a supplied plan is used as is |
| Checkout.KeyStem | src/pages/Checkout.tsx:56 | every key stem is "sk_", then the lower-cased plan name, then "_" |
| Checkout.GenerateKey | src/pages/Checkout.tsx:53-57 | a key starts with "sk_", is non-empty, and splits back into the plan's stem and the given suffix |
| Checkout.KeySuffix | src/pages/Checkout.tsx:56 | a suffix is recovered only from a key that is the plan's stem followed by it |
| Checkout.Apply | src/pages/Checkout.tsx:59-117 | valid details with nothing processing start the submit, and Pay on the shown panel starts the payment, both setting the processing flag; settling releases it; a free submit sets the key; a paid submit shows the payment panel with no key; a payment sets the key and hides the panel; invalid details, Pay without the panel, clicks while processing and clicks on the success screen do nothing |
| Checkout.DetailsRules | src/pages/Checkout.tsx:17-23 | a submit from the form starts processing exactly when the name has at least 2 characters, the e-mail passes, the contact has at least 10, the organization at least 2 and the number of people at least 1 |
| Checkout.RunKeepsInv | src/pages/Checkout.tsx:31-128 | from mount: processing exactly while an operation is in flight; any key has the plan's stem; the free plan never shows the payment panel; no panel once a key exists |
| Checkout.SuccessNeedsIssuingEvent | src/pages/Checkout.tsx:128 | the success screen appears only after a free-plan submit or, for a paid plan, a payment |
| Checkout.FreePlanIssuesKeyOnSubmit | src/pages/Checkout.tsx:66-73 | valid details on the free plan yield the key after one delay, with the panel hidden |
| Checkout.PaidPlanIssuesKeyOnPayment | src/pages/Checkout.tsx:74-103 | a paid plan shows the panel with no key after submitting, and has the key with the panel hidden after paying |
| ApiKey.Credentials | src/services/apiService.ts:17 | the credential string is the username, one colon, then the password |
| ApiKey.BasicAuthorization | src/services/apiService.ts:17-22 | the header exists exactly when `btoa` accepts the credentials; it is "Basic " followed by text that `atob` turns back into them |
| ApiKey.BuildRequest | src/services/apiService.ts:17-26 | a POST to base + "/add-client" with the Authorization header and Content-Type "application/json", whose body holds only the email |
| ApiKey.SplitAtFirstColon | src/services/apiService.ts:17 | splitting at the first colon gives a colon-free user part, and the two parts rejoin to the input |
| ApiKey.SplitRecoversCredentials | src/services/apiService.ts:17 | when the username has no colon, splitting the credentials at the first colon returns username and password |
| ApiKey.AuthorizationRecoversCredentials | src/services/apiService.ts:17-22 | decoding the header's payload and splitting it returns exactly the username and password |
| ApiKey.ErrorText | src/services/apiService.ts:30 | the server's message when it is a non-empty string, else the fallback; never empty |
| ApiKey.ServiceOutcome | src/services/apiService.ts:28-33 | an ok response returns its body unchanged; otherwise the error is the message or "API key creation failed" |
| ApiKey.Apply | src/pages/Docs.tsx:20-54 | a click while loading does nothing; an empty field only toasts; otherwise the service's request goes out and only the loading flag and the pending request change; an ok answer stores the body and shows the success toast, and the stored response changes only so; failures keep the stored response with the right toast; loading ends |
| ApiKey.RunKeepsInv | src/pages/Docs.tsx:17-54 | loading holds exactly while a request is in flight, and that request is a POST to "http://localhost:8000/add-client" |
| ApiKey.DocsRequestIsServiceRequest | src/pages/Docs.tsx:28-39 | the Docs page sends the request the service builds, with "http://localhost:8000" as base |
| ApiKey.WhitespaceFieldsPass | src/pages/Docs.tsx:21-24 | the required-field guard does not trim: whitespace-only fields start a request |
| ApiKey.FailureKeepsResponse | src/pages/Docs.tsx:46-54 | a failed or unreachable answer leaves the stored response as it was and ends loading |
| Faq.Toggle | src/components/landing/FAQsection.tsx:29-31 | toggling opens the entry iff it was closed, and leaves every other entry closed |
| Faq.ToggleTwice | src/components/landing/FAQsection.tsx:30 | toggling one entry twice restores the state if it or nothing was open, else leaves all closed |
| Faq.ViewOf | src/components/landing/FAQsection.tsx:66-75 | the answer is shown and the glyph is "−" exactly for the open entry; "+" otherwise |
| Faq.Render | src/components/landing/FAQsection.tsx:55-82 | one view per entry, in order |
| Faq.AtMostOneExpanded | src/components/landing/FAQsection.tsx:9-75 | at most one answer is shown; exactly one when the open index names an entry; none initially |
| Faq.OpenIsLastPressed | src/components/landing/FAQsection.tsx:30 | after any presses from all-closed, the open entry, if any, is the last one pressed |

## Left out

- Rendering: markup, CSS classes, icons and animations. Only the flags that decide what is drawn
  are modelled: check mark, glow, emphasis, connectors, badges, glyphs and which view is shown.
- Browser plumbing: local storage is a map of raw strings, and JSON serialisation is a `Codec`
  parameter. `navigate` is recorded as the last path requested. Toasts are recorded only on the
  Docs page; checkout toasts and the clipboard are not modelled.
- Timers: `setTimeout` and `setInterval` become events. These are `Tick` and `FeedbackReady`,
  `Settle` in checkout, and `Elapse` on a millisecond clock in the session.
  - Effect scheduling, batching and cleanup on unmount are not modelled.
- Step lifetimes: each wizard step's state lives only while the wizard renders that step
  (src/pages/Analyze.tsx:25-40).
  - A wizard Back or Next unmounts the step, and re-entering the step starts again from its `Init`.
  - This covers an empty resume form after Back from step 2, a fresh project form with
    `isSubmitted` false after the feedback view's Back (src/components/analyze/ProjectSubmission.tsx:203), and the ticker
    restarting from 0 when step 3 is entered again.
  - The step models describe one mount; `Wizard` keeps only the payloads handed to it.
- Session.Login: every login re-arms the timer. React skips the effect when `setUser` receives the
  very same object; reference identity is not modelled.
- Checkout: `Date.now()` and `Math.random()` in the key suffix are left out. The suffix is an
  arbitrary string given with the `Settle` event.
- Checkout.Apply: the `catch` branches are reachable only through the `Threw` outcome. The
  simulated delays cannot reject, so no failure toast is modelled.
- Checkout.DetailsValid: the zod e-mail check is a caller-supplied predicate. Lengths count
  Unicode code points, not UTF-16 code units.
- Text.ToLower: maps only ASCII letters; the plan names are ASCII.
- Network I/O: `fetch`, `response.json()` and `process.env` are left out.
  - The answer to the Docs page's `fetch` arrives as the `Settle` event.
  - The exchange is an `Exchange` parameter: an answer, or `Unreachable`, which covers both a
    failed fetch and a body that is not JSON.
  - The JSON body `{ client_email }` is represented by its one field, not by its serialised text.
  - A response `message` is taken to be a string when present.
- The wording of fixtures is left out: the FAQ questions and answers, and the step components'
  labels beyond the step list. The mock analysis (with each existing skill's `match` flag) and the mock feedback are kept, because their
  numbers and priorities decide what is drawn.
- Wizard.Apply: at step 3 the model offers Back and the analysis Next at any time. The component
  renders neither button until its progress ticker completes (SkillGapAnalysis.tsx:60-91); that
  gating lives in `SkillGap.Render` and `SkillGap.Next` and is not threaded into the wizard.
- Step 4 (`ProjectSuggestions`) is not part of this model. The wizard sees only its Next and
  Back callbacks.
