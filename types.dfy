/** The records shared by the note list and the AI layer. */
module Types {

  /** A note as the page keeps it: an opaque id, the text the user typed or
      the generator produced, and a completion percentage. */
  datatype Note = Note(id: string, title: string, content: string, progress: int)

  /** The record `generateNote` hands back (lib/gemini.ts, `GeneratedNote`). */
  datatype GeneratedNote = GeneratedNote(title: string, content: string, progress: int)
}
