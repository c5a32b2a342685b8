/** The file inputs shared by the three wizard forms. */
module Upload {
  import opened Wrappers

  /** A browser `File`, opaque to the forms except for the name they display. */
  datatype File = File(name: string)

  /** A form's `handleFileChange`: the first file the change event carries becomes the selection;
      an event that carries no file (the picker was cancelled) keeps the previous selection. */
  function PickFile(selected: Option<File>, files: seq<File>): (r: Option<File>)
    ensures |files| > 0 ==> r == Some(files[0])
    ensures |files| == 0 ==> r == selected
  {
    if |files| > 0 then Some(files[0]) else selected
  }

  /** The first file of the last change event that carried one, none if there was none;
      `filesOf` gives the files an event carries (none for an event that is not a file change). */
  function LastFile<E>(evs: seq<E>, filesOf: E -> seq<File>): Option<File>
    decreases |evs|
  {
    if |evs| == 0 then None
    else if |filesOf(evs[|evs| - 1])| > 0 then Some(filesOf(evs[|evs| - 1])[0])
    else LastFile(evs[..|evs| - 1], filesOf)
  }

  /** Once a file has been chosen, no later change event can clear the selection. */
  lemma PickFileNeverClears(selected: Option<File>, files: seq<File>)
    ensures selected.Some? ==> PickFile(selected, files).Some?
  {
  }
}
