/**
  The note store of the app (`NotesViewModel`): an ordered note list that
  admits duplicates, and a flag saying whether the note form is shown. Each
  operation is a pure transition from one snapshot of the two fields to the
  next; the observable streams that publish the snapshots are not modelled.
 */
module NotesViewModel {
  import opened Notes
  import opened NoteList

  /** One snapshot of the store: the note list and the form-visibility flag. */
  datatype State = State(notes: seq<Note>, formVisible: bool)

  /** The demo notes the store is seeded with when it is created. */
  const Seed: seq<Note> := [Note("Hi1", "Hello"), Note("Hi2", "Hello"), Note("Hi3", "Hello")]

  /** The field initialisers: an empty list and a hidden form. */
  const Blank: State := State([], false)

  /** Construction: the fields start blank, then the init block replaces the
      list with the three demo notes. The form stays hidden. */
  function Init(): (s: State)
    ensures |s.notes| == 3
    ensures s.notes[0].title == "Hi1" && s.notes[1].title == "Hi2" && s.notes[2].title == "Hi3"
    ensures forall i :: 0 <= i < |s.notes| ==> s.notes[i].content == "Hello"
    ensures AllAdmissible(s.notes)
    ensures !s.formVisible
  {
    UpdateNotes(Blank, Seed)
  }

  /** Replaces the whole list with the caller's list, unchecked. */
  function UpdateNotes(s: State, notesList: seq<Note>): (r: State)
    ensures r.notes == notesList
    ensures r.formVisible == s.formVisible
  {
    s.(notes := notesList)
  }

  /** Empties the list (it does not go back to the demo notes). */
  function ResetNotes(s: State): (r: State)
    ensures |r.notes| == 0
    ensures r.formVisible == s.formVisible
  {
    s.(notes := [])
  }

  /** Appends a note at the end of the list, whatever it holds. */
  function AddNote(s: State, note: Note): (r: State)
    ensures |r.notes| == |s.notes| + 1
    ensures r.notes[..|s.notes|] == s.notes
    ensures r.notes[|s.notes|] == note
    ensures r.formVisible == s.formVisible
  {
    s.(notes := Append(s.notes, note))
  }

  /** Takes the first note equal to `note` out of the list; when there is
      none the list is left as it was. The operation never fails. */
  function RemoveNote(s: State, note: Note): (r: State)
    ensures note !in s.notes ==> r == s
    ensures note in s.notes ==>
      var i := FirstIndex(s.notes, note).value;
      r.notes == s.notes[..i] + s.notes[i + 1..]
    ensures r.formVisible == s.formVisible
  {
    RemoveFirstAtFirstIndex(s.notes, note);
    s.(notes := RemoveFirst(s.notes, note))
  }

  /** Shows the form. */
  function ShowForm(s: State): (r: State)
    ensures r.formVisible
    ensures r.notes == s.notes
  {
    s.(formVisible := true)
  }

  /** Hides the form. */
  function HideForm(s: State): (r: State)
    ensures !r.formVisible
    ensures r.notes == s.notes
  {
    s.(formVisible := false)
  }

  /** Flips the form flag. */
  function ToggleFormVisibility(s: State): (r: State)
    ensures r.formVisible != s.formVisible
    ensures r.notes == s.notes
  {
    s.(formVisible := !s.formVisible)
  }

  /** A new store holds exactly the three demo notes, in order, form hidden. */
  lemma InitIsSeed()
    ensures Init().notes == [Note("Hi1", "Hello"), Note("Hi2", "Hello"), Note("Hi3", "Hello")]
    ensures Init() == State(Seed, false)
  {
  }

  /** Resetting leaves an empty list, and doing it again changes nothing;
      a reset store is not the seeded one. */
  lemma ResetIsIdempotent(s: State)
    ensures ResetNotes(ResetNotes(s)) == ResetNotes(s)
    ensures ResetNotes(s).notes == []
    ensures ResetNotes(Init()) != Init()
  {
  }

  /** Replacing the list twice keeps only the second list. */
  lemma UpdateNotesOverwrites(s: State, a: seq<Note>, b: seq<Note>)
    ensures UpdateNotes(UpdateNotes(s, a), b) == UpdateNotes(s, b)
    ensures UpdateNotes(s, s.notes) == s
  {
  }

  /** Two toggles restore the flag; one toggle from shown hides, from hidden
      shows. */
  lemma ToggleIsInvolution(s: State)
    ensures ToggleFormVisibility(ToggleFormVisibility(s)) == s
    ensures s.formVisible ==> ToggleFormVisibility(s) == HideForm(s)
    ensures !s.formVisible ==> ToggleFormVisibility(s) == ShowForm(s)
  {
  }

  /** Showing or hiding twice is the same as doing it once. */
  lemma ShowHideAreIdempotent(s: State)
    ensures ShowForm(ShowForm(s)) == ShowForm(s)
    ensures HideForm(HideForm(s)) == HideForm(s)
    ensures ShowForm(HideForm(s)) == ShowForm(s)
    ensures HideForm(ShowForm(s)) == HideForm(s)
  {
  }

  /** Adding a note and then removing it returns the old list when the note
      was new; with an earlier copy present, the earlier copy is the one that
      goes and the new one stays at the end. */
  lemma AddThenRemove(s: State, note: Note)
    ensures note !in s.notes ==> RemoveNote(AddNote(s, note), note) == s
    ensures note in s.notes ==>
      RemoveNote(AddNote(s, note), note) == AddNote(RemoveNote(s, note), note)
  {
    RemoveAfterAppend(s.notes, note);
  }

  /** Removal on a list `[a, b, a]` takes the first `a`. */
  lemma RemoveNoteFirstMatch(s: State, a: Note, b: Note)
    requires a != b
    requires s.notes == [a, b, a]
    ensures RemoveNote(s, a).notes == [b, a]
  {
    RemoveFirstOfDuplicate(a, b);
  }
}
