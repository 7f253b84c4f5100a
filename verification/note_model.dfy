/**
 The note records (Waynote/Models/Note.swift, Waynote/Models/NoteContent.swift)
 stored as an arena: a map from id to note. A note names its parent by id and
 holds its content inline, so the content's back-reference to its note is the
 note that holds it; the `children` relationship is derived from the parent
 links, being declared as their inverse.
 */
module NoteModel {
  import opened Common
  import opened Uuids
  import opened AudioFiles

  /** The content class hierarchy as a tagged variant: no content, a bare
      `NoteContent` (the base class is not abstract), `TextNoteContent` or
      `AudioNoteContent`. A duration is a `TimeInterval` in seconds. */
  datatype Content =
    | NoContent
    | Plain
    | Text(text: string)
    | Audio(fileName: string, duration: real)

  /** A note; `dateCreated` is a timestamp. */
  datatype Note = Note(
    id: Uuid,
    dateCreated: int,
    title: string,
    parent: Option<Uuid>,
    content: Content)

  type Arena = map<Uuid, Note>

  /** `Note.init` with its defaults: empty title, no content, no parent. */
  function NewNote(id: Uuid, dateCreated: int, content: Content := NoContent,
                   title: string := "", parent: Option<Uuid> := None): Note
  {
    Note(id, dateCreated, title, parent, content)
  }

  /** `TextNoteContent.init` (text defaults to empty). */
  function NewTextContent(text: string := ""): Content {
    Text(text)
  }

  /** `AudioNoteContent.init` (duration defaults to 0). */
  function NewAudioContent(fileName: string, duration: real := 0.0): Content {
    Audio(fileName, duration)
  }

  /** `fileURL`: derived from the file name, never stored. */
  function FileUrl(c: Content): Url
    requires c.Audio?
  {
    UrlFor(c.fileName)
  }

  /** The derived `children` relationship: the notes whose parent is `id`. */
  function Children(notes: Arena, id: Uuid): set<Uuid> {
    set c | c in notes && notes[c].parent == Some(id)
  }

  /** Replaces a note's content (text edits and recorded durations). */
  function WithContent(notes: Arena, id: Uuid, c: Content): Arena
    requires id in notes
  {
    notes[id := notes[id].(content := c)]
  }

  /** Replaces a note's title. */
  function WithTitle(notes: Arena, id: Uuid, title: string): Arena
    requires id in notes
  {
    notes[id := notes[id].(title := title)]
  }
}
