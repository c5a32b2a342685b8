/**
 * Step 1 of the analysis wizard, `ResumeUpload`: the resume is given either as an uploaded
 * file or as a LinkedIn profile URL. The form is a record of its three state hooks; its
 * events are the user's actions.
 */
module ResumeUpload {
  import opened Wrappers
  import opened Text
  import opened Upload

  datatype Method = FileUpload | LinkedIn

  /** The component's state: `uploadMethod`, `linkedinUrl`, `selectedFile`. */
  datatype Form = Form(uploadMethod: Method, linkedinUrl: string, selected: Option<File>)

  /** What `handleSubmit` hands to the wizard: `{type: 'file', file}` or `{type: 'linkedin', url}`. */
  datatype Payload = FilePayload(file: File) | LinkedInPayload(url: string)

  datatype Event =
    | ChooseMethod(choice: Method)   // the two method buttons
    | EditUrl(text: string)          // typing in the URL input
    | FileChange(files: seq<File>)   // the file input's change event

  /** The initial state: file mode, empty URL, no file. */
  const Init: Form := Form(FileUpload, "", None)

  /** `isFormValid`: a file is selected in file mode, a non-blank URL is typed in LinkedIn mode. */
  predicate Valid(f: Form) {
    match f.uploadMethod
    case FileUpload => f.selected.Some?
    case LinkedIn => !IsBlank(f.linkedinUrl)
  }

  /** One user action. Each handler touches only its own hook. */
  function Apply(f: Form, e: Event): (r: Form)
    ensures e.ChooseMethod? ==> r.linkedinUrl == f.linkedinUrl && r.selected == f.selected
    ensures e.EditUrl? ==> r.uploadMethod == f.uploadMethod && r.selected == f.selected
    ensures e.FileChange? ==> r.uploadMethod == f.uploadMethod && r.linkedinUrl == f.linkedinUrl
    ensures e.FileChange? && f.selected.Some? ==> r.selected.Some?
  {
    match e
    case ChooseMethod(m) => f.(uploadMethod := m)
    case EditUrl(t) => f.(linkedinUrl := t)
    case FileChange(files) => f.(selected := PickFile(f.selected, files))
  }

  /** The state after a sequence of actions (the last one applied last). */
  function Run(f: Form, evs: seq<Event>): Form
    decreases |evs|
  {
    if |evs| == 0 then f else Apply(Run(f, evs[..|evs| - 1]), evs[|evs| - 1])
  }

  /** The submit button: disabled (`None`) while the form is invalid; otherwise the payload for
      the chosen method, carrying the URL exactly as typed (untrimmed). */
  function Submit(f: Form): (r: Option<Payload>)
    ensures r.Some? <==> Valid(f)
    ensures r.Some? ==> (r.value.FilePayload? <==> f.uploadMethod == FileUpload)
    ensures r.Some? && r.value.FilePayload? ==> f.selected == Some(r.value.file)
    ensures r.Some? && r.value.LinkedInPayload? ==>
      r.value.url == f.linkedinUrl && !AllWhitespace(r.value.url)
  {
    if !Valid(f) then None
    else match f.uploadMethod
      case FileUpload => Some(FilePayload(f.selected.value))
      case LinkedIn =>
        BlankIffAllWhitespace(f.linkedinUrl);
        Some(LinkedInPayload(f.linkedinUrl))
  }

  /** The form starts invalid, so its submit button starts disabled. */
  lemma InitInvalid()
    ensures !Valid(Init) && Submit(Init) == None
  {
  }

  /** Validity in terms of the raw input: a whitespace-only URL never enables submit. */
  lemma ValidIff(f: Form)
    ensures Valid(f) <==>
      (f.uploadMethod == FileUpload && f.selected.Some?)
      || (f.uploadMethod == LinkedIn && !AllWhitespace(f.linkedinUrl))
  {
    BlankIffAllWhitespace(f.linkedinUrl);
  }

  /** The last method button pressed, file mode if none. */
  function LastMethod(evs: seq<Event>): Method
    decreases |evs|
  {
    if |evs| == 0 then FileUpload
    else if evs[|evs| - 1].ChooseMethod? then evs[|evs| - 1].choice
    else LastMethod(evs[..|evs| - 1])
  }

  /** The last text typed into the URL input, "" if none. */
  function LastUrl(evs: seq<Event>): string
    decreases |evs|
  {
    if |evs| == 0 then ""
    else if evs[|evs| - 1].EditUrl? then evs[|evs| - 1].text
    else LastUrl(evs[..|evs| - 1])
  }

  /** The files an event hands to `handleFileChange`, none for the other events. */
  function FilesOf(e: Event): seq<File>
  {
    if e.FileChange? then e.files else []
  }

  /** The three hooks are independent: switching method never discards a typed URL or a chosen
      file, and a change event without a file never clears the selection. */
  lemma {:induction false} RunFields(evs: seq<Event>)
    ensures Run(Init, evs) == Form(LastMethod(evs), LastUrl(evs), LastFile(evs, FilesOf))
    decreases |evs|
  {
    if |evs| > 0 {
      RunFields(evs[..|evs| - 1]);
    }
  }
}
