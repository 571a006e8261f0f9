/** The note list of app/page.tsx: the `notes` state and the three form
    fields, with `addNote`, `deleteNote`, `updateProgress` and the append the
    generator triggers. Ids are supplied by the caller. */
module Page {
  import opened Text
  import opened Types

  /** `notes.filter(note => note.id !== id)`. */
  function WithoutId(notes: seq<Note>, id: string): (r: seq<Note>)
    ensures |r| <= |notes|
    ensures forall n :: n in r <==> n in notes && n.id != id
  {
    if |notes| == 0 then []
    else (if notes[0].id == id then [] else [notes[0]]) + WithoutId(notes[1..], id)
  }

  /** `notes.map(note => note.id === id ? { ...note, progress: v } : note)`. */
  function WithProgress(notes: seq<Note>, id: string, v: int): (r: seq<Note>)
    ensures |r| == |notes|
    ensures forall i :: 0 <= i < |notes| ==>
      && r[i].id == notes[i].id && r[i].title == notes[i].title && r[i].content == notes[i].content
      && r[i].progress == (if notes[i].id == id then v else notes[i].progress)
  {
    if |notes| == 0 then []
    else [if notes[0].id == id then notes[0].(progress := v) else notes[0]] + WithProgress(notes[1..], id, v)
  }

  /** How many notes carry `id`. */
  function CountId(notes: seq<Note>, id: string): nat
  {
    if |notes| == 0 then 0 else (if notes[0].id == id then 1 else 0) + CountId(notes[1..], id)
  }

  /** `addNote`'s guard `newTitle.trim() && newContent.trim()`: both fields
      hold a character other than white space (`CanAddIffTrimmed`). */
  predicate CanAdd(title: string, content: string) {
    !AllSpace(title) && !AllSpace(content)
  }

  /** The guard holds exactly when neither field trims to "". */
  lemma CanAddIffTrimmed(title: string, content: string)
    ensures CanAdd(title, content) <==> Trim(title) != "" && Trim(content) != ""
  {
    BlankIffAllSpace(title);
    BlankIffAllSpace(content);
  }

  /** Filtering distributes over concatenation: the survivors keep their
      relative order. */
  lemma {:induction false} WithoutIdConcat(a: seq<Note>, b: seq<Note>, id: string)
    ensures WithoutId(a + b, id) == WithoutId(a, id) + WithoutId(b, id)
  {
    if |a| == 0 {
      assert a + b == b;
    } else {
      assert (a + b)[1..] == a[1..] + b;
      WithoutIdConcat(a[1..], b, id);
    }
  }

  /** Deleting removes exactly the notes with that id: the length drops by
      their number. */
  lemma {:induction false} WithoutIdLength(notes: seq<Note>, id: string)
    ensures |WithoutId(notes, id)| == |notes| - CountId(notes, id)
  {
    if |notes| > 0 {
      WithoutIdLength(notes[1..], id);
    }
  }

  /** An id no note carries leaves the list as it was. */
  lemma {:induction false} WithoutUnknownId(notes: seq<Note>, id: string)
    requires forall i :: 0 <= i < |notes| ==> notes[i].id != id
    ensures WithoutId(notes, id) == notes
  {
    if |notes| > 0 {
      WithoutUnknownId(notes[1..], id);
      assert notes == [notes[0]] + notes[1..];
    }
  }

  /** Deleting twice is deleting once. */
  lemma WithoutIdIdempotent(notes: seq<Note>, id: string)
    ensures WithoutId(WithoutId(notes, id), id) == WithoutId(notes, id)
  {
    var r := WithoutId(notes, id);
    forall i | 0 <= i < |r| ensures r[i].id != id {
      assert r[i] in r;
    }
    WithoutUnknownId(r, id);
  }

  /** Setting the progress of an id no note carries leaves the list as it was. */
  lemma UpdateUnknownId(notes: seq<Note>, id: string, v: int)
    requires forall i :: 0 <= i < |notes| ==> notes[i].id != id
    ensures WithProgress(notes, id, v) == notes
  {
  }

  /** A progress update then a delete of the same id is just the delete. */
  lemma {:induction false} DeleteAfterUpdate(notes: seq<Note>, id: string, v: int)
    ensures WithoutId(WithProgress(notes, id, v), id) == WithoutId(notes, id)
  {
    if |notes| > 0 {
      DeleteAfterUpdate(notes[1..], id, v);
      var r := WithProgress(notes, id, v);
      assert r[1..] == WithProgress(notes[1..], id, v);
    }
  }

  /** Every progress lies in [0, 100]. */
  ghost predicate ProgressInRange(notes: seq<Note>) {
    forall i :: 0 <= i < |notes| ==> 0 <= notes[i].progress <= 100
  }

  /** The operations keep every progress in [0, 100] when what they add or set
      is in range. */
  lemma RangeKept(notes: seq<Note>, id: string, n: Note, v: int)
    requires ProgressInRange(notes)
    ensures ProgressInRange(WithoutId(notes, id))
    ensures 0 <= v <= 100 ==> ProgressInRange(WithProgress(notes, id, v))
    ensures 0 <= n.progress <= 100 ==> ProgressInRange(notes + [n])
  {
    var r := WithoutId(notes, id);
    forall i | 0 <= i < |r| ensures 0 <= r[i].progress <= 100 {
      assert r[i] in notes;
    }
  }

  /** The page's state. */
  class Home {
    var notes: seq<Note>
    var newTitle: string
    var newContent: string
    var newProgress: int

    /** The initial state: no notes and an empty form. */
    constructor ()
      ensures notes == [] && newTitle == "" && newContent == "" && newProgress == 0
    {
      notes := [];
      newTitle := "";
      newContent := "";
      newProgress := 0;
    }

    /** With both fields filled in, appends one note carrying the fields as
        typed (untrimmed) and the chosen progress, then clears the form;
        otherwise changes nothing. */
    method AddNote(id: string)
      modifies this
      ensures old(CanAdd(newTitle, newContent)) ==>
        && notes == old(notes) + [Note(id, old(newTitle), old(newContent), old(newProgress))]
        && newTitle == "" && newContent == "" && newProgress == 0
      ensures !old(CanAdd(newTitle, newContent)) ==>
        notes == old(notes) && newTitle == old(newTitle) &&
        newContent == old(newContent) && newProgress == old(newProgress)
    {
      if CanAdd(newTitle, newContent) {
        var note := Note(id, newTitle, newContent, newProgress);
        notes := notes + [note];
        newTitle := "";
        newContent := "";
        newProgress := 0;
      }
    }

    /** Removes every note with this id; the form is untouched. */
    method DeleteNote(id: string)
      modifies this
      ensures notes == WithoutId(old(notes), id)
      ensures newTitle == old(newTitle) && newContent == old(newContent) && newProgress == old(newProgress)
    {
      notes := WithoutId(notes, id);
    }

    /** Sets the progress of every note with this id; the form is untouched. */
    method UpdateProgress(id: string, v: int)
      modifies this
      ensures notes == WithProgress(old(notes), id, v)
      ensures newTitle == old(newTitle) && newContent == old(newContent) && newProgress == old(newProgress)
    {
      notes := WithProgress(notes, id, v);
    }

    /** The generator's callback: appends the note it built. */
    method AddGeneratedNote(note: Note)
      modifies this
      ensures notes == old(notes) + [note]
      ensures newTitle == old(newTitle) && newContent == old(newContent) && newProgress == old(newProgress)
    {
      notes := notes + [note];
    }
  }
}
