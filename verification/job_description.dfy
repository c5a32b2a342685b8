/**
 * Step 2 of the analysis wizard, `JobDescriptionInput`: the job description is pasted as text,
 * given as a posting URL, or uploaded as a file.
 */
module JobDescription {
  import opened Wrappers
  import opened Text
  import opened Upload

  datatype Method = PasteText | PostingUrl | FileUpload

  /** The component's state: `inputMethod`, `jobUrl`, `jobText`, `selectedFile`. */
  datatype Form = Form(inputMethod: Method, jobUrl: string, jobText: string, selected: Option<File>)

  /** What `handleSubmit` hands to the wizard: `{type: 'file', file}`, `{type: 'url', url}` or
      `{type: 'text', description}`. */
  datatype Payload = FilePayload(file: File) | UrlPayload(url: string) | TextPayload(description: string)

  datatype Event =
    | ChooseMethod(choice: Method)   // the three method buttons
    | EditUrl(text: string)          // typing in the URL input
    | EditText(text: string)         // typing in the text area
    | FileChange(files: seq<File>)   // the file input's change event

  /** The initial state: text mode, every input empty. */
  const Init: Form := Form(PasteText, "", "", None)

  /** `isFormValid`, by method. */
  predicate Valid(f: Form) {
    match f.inputMethod
    case FileUpload => f.selected.Some?
    case PostingUrl => !IsBlank(f.jobUrl)
    case PasteText => !IsBlank(f.jobText)
  }

  /** One user action. Each handler touches only its own hook. */
  function Apply(f: Form, e: Event): (r: Form)
    ensures !e.ChooseMethod? ==> r.inputMethod == f.inputMethod
    ensures !e.EditUrl? ==> r.jobUrl == f.jobUrl
    ensures !e.EditText? ==> r.jobText == f.jobText
    ensures !e.FileChange? ==> r.selected == f.selected
    ensures e.FileChange? && f.selected.Some? ==> r.selected.Some?
  {
    match e
    case ChooseMethod(m) => f.(inputMethod := m)
    case EditUrl(t) => f.(jobUrl := t)
    case EditText(t) => f.(jobText := t)
    case FileChange(files) => f.(selected := PickFile(f.selected, files))
  }

  /** The state after a sequence of actions (the last one applied last). */
  function Run(f: Form, evs: seq<Event>): Form
    decreases |evs|
  {
    if |evs| == 0 then f else Apply(Run(f, evs[..|evs| - 1]), evs[|evs| - 1])
  }

  /** The submit button: disabled (`None`) while the form is invalid; otherwise a payload whose
      tag is the current method and which carries only that method's input, untrimmed. */
  function Submit(f: Form): (r: Option<Payload>)
    ensures r.Some? <==> Valid(f)
    ensures r.Some? ==> (r.value.FilePayload? <==> f.inputMethod == FileUpload)
    ensures r.Some? ==> (r.value.UrlPayload? <==> f.inputMethod == PostingUrl)
    ensures r.Some? ==> (r.value.TextPayload? <==> f.inputMethod == PasteText)
    ensures r.Some? && r.value.FilePayload? ==> f.selected == Some(r.value.file)
    ensures r.Some? && r.value.UrlPayload? ==> r.value.url == f.jobUrl && !AllWhitespace(r.value.url)
    ensures r.Some? && r.value.TextPayload? ==>
      r.value.description == f.jobText && !AllWhitespace(r.value.description)
  {
    if !Valid(f) then None
    else match f.inputMethod
      case FileUpload => Some(FilePayload(f.selected.value))
      case PostingUrl =>
        BlankIffAllWhitespace(f.jobUrl);
        Some(UrlPayload(f.jobUrl))
      case PasteText =>
        BlankIffAllWhitespace(f.jobText);
        Some(TextPayload(f.jobText))
  }

  /** The form starts invalid, so its submit button starts disabled. */
  lemma InitInvalid()
    ensures !Valid(Init) && Submit(Init) == None
  {
  }

  /** Validity in terms of the raw inputs: whitespace-only text or URL never enables submit. */
  lemma ValidIff(f: Form)
    ensures Valid(f) <==>
      (f.inputMethod == FileUpload && f.selected.Some?)
      || (f.inputMethod == PostingUrl && !AllWhitespace(f.jobUrl))
      || (f.inputMethod == PasteText && !AllWhitespace(f.jobText))
  {
    BlankIffAllWhitespace(f.jobUrl);
    BlankIffAllWhitespace(f.jobText);
  }

  /** The last method button pressed, text mode if none. */
  function LastMethod(evs: seq<Event>): Method
    decreases |evs|
  {
    if |evs| == 0 then PasteText
    else if evs[|evs| - 1].ChooseMethod? then evs[|evs| - 1].choice
    else LastMethod(evs[..|evs| - 1])
  }

  /** The last value typed into the URL input, "" if none. */
  function LastUrl(evs: seq<Event>): string
    decreases |evs|
  {
    if |evs| == 0 then ""
    else if evs[|evs| - 1].EditUrl? then evs[|evs| - 1].text
    else LastUrl(evs[..|evs| - 1])
  }

  /** The last value typed into the text area, "" if none. */
  function LastText(evs: seq<Event>): string
    decreases |evs|
  {
    if |evs| == 0 then ""
    else if evs[|evs| - 1].EditText? then evs[|evs| - 1].text
    else LastText(evs[..|evs| - 1])
  }

  /** The files an event hands to `handleFileChange`, none for the other events. */
  function FilesOf(e: Event): seq<File>
  {
    if e.FileChange? then e.files else []
  }

  /** The four hooks are independent: switching method never discards text, a URL or a file
      already entered, and a change event without a file never clears the selection. */
  lemma {:induction false} RunFields(evs: seq<Event>)
    ensures Run(Init, evs) == Form(LastMethod(evs), LastUrl(evs), LastText(evs), LastFile(evs, FilesOf))
    decreases |evs|
  {
    if |evs| > 0 {
      RunFields(evs[..|evs| - 1]);
    }
  }
}
