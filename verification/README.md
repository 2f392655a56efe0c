# Note store of a single-screen notes app

The app shows a form for a new note (title and description) above a list of
notes. All of its state lives in `NotesViewModel`. That store holds two
fields:

- an ordered list of notes that may contain duplicates, where a note is a
  `(title, content)` value compared by its fields;
- a flag saying whether the note form is visible.

It changes them only through synchronous calls:

- seeding at construction;
- `updateNotes`, `resetNotes`, `addNote` and `removeNote` on the list;
- `showForm`, `hideForm` and `toggleFormVisibility` on the flag.

This project models each call as a pure function from one snapshot
`State(notes, formVisible)` to the next. It proves:

- the order contract of appending;
- the first-match contract of Kotlin's `MutableList.remove`, and that removal
  of an absent note is a no-op;
- the seed contents, and that `resetNotes` empties the list instead of
  restoring the seed;
- that a double toggle restores the flag, and that show and hide are
  idempotent;
- frame conditions: list calls keep the flag, flag calls keep the list, over
  any sequence of calls.

Files:

- `notes.dfy` (module `Notes`): the note value (`UiState` in the app) and the
  form's admission rule (both fields non-empty).
- `note_list.dfy` (module `NoteList`): list append and first-match removal,
  over any element type. A recursive `FirstIndex` is the reference
  definition of "first match". The recursive `RemoveFirst` is proved equal to
  the slice around that index.
- `view_model.dfy` (module `NotesViewModel`): the snapshot and the eight
  store operations, with lemmas on their algebra.
- `operations.dfy` (module `StoreOps`): the calls as data (`Op`), a single
  step and a whole run. Proves frame conditions, toggle parity, and that
  admissibility is kept as long as every call brings only admissible notes.
- `notes_form.dfy` (module `NotesForm`): the screen's two calls into the
  store. The form's button is gated on non-empty fields and on the form
  being shown. Every reachable list satisfies the admission rule.

`UiState` is declared outside viewModel.kt and MainActivity.kt. Its use in
`MainActivity.kt` (constructor `UiState(title, desc)`, properties `title` and
`content`) fixes its shape. The model assumes it is a data class with exactly
those two fields. Under that assumption it compares by its fields, and Dafny's
structural datatype equality matches the equality `remove` uses.

The store does not check that a note's fields are non-empty. `addNote`
(viewModel.kt:33-37) appends whatever it is given. Only the form's button
(MainActivity.kt:184-188) enforces the rule. `StoreOps.AddNoteDoesNotValidate`
proves the gap. `StoreOps.RunKeepsAdmissible` and
`NotesForm.SessionKeepsAdmissible` prove that every note stays admissible
under the conditions that actually enforce the rule.

## Model

| member | source | states |
|---|---|---|
| NoteList.FirstIndex | app/src/main/java/com/example/assignment/viewModel.kt:41 | the match `remove` looks for: there is one exactly when the note occurs, it holds the note, and no earlier position does |
| NoteList.RemoveFirst | app/src/main/java/com/example/assignment/viewModel.kt:39-43 | removal takes out exactly one copy of the note when present (multiset minus one, length minus one) and leaves the list unchanged when absent |
| NoteList.RemoveFirstAtFirstIndex | app/src/main/java/com/example/assignment/viewModel.kt:41 | the list after removal is the part before the first occurrence followed by the part after it |
| NoteList.RemoveFirstPositions | app/src/main/java/com/example/assignment/viewModel.kt:41 | notes before the first match keep their positions; notes after it shift one place forward |
| NoteList.RemoveFirstOfDuplicate | app/src/main/java/com/example/assignment/viewModel.kt:41 | from `[a, b, a]` removing `a` gives `[b, a]`: the earlier copy goes |
| NoteList.Append | app/src/main/java/com/example/assignment/viewModel.kt:34-35 | appending grows the list by one, keeps every earlier element in place and puts the new one last |
| NoteList.RemoveAfterAppend | app/src/main/java/com/example/assignment/viewModel.kt:33-43 | removing what was just appended restores the list if it had no earlier copy; otherwise the earlier copy goes and the appended one stays |
| NotesViewModel.Init | app/src/main/java/com/example/assignment/viewModel.kt:11-23 | a new store holds three notes titled Hi1, Hi2, Hi3 with content Hello, all admissible, and the form is hidden |
| NotesViewModel.InitIsSeed | app/src/main/java/com/example/assignment/viewModel.kt:14-22 | the freshly constructed snapshot is exactly the seed list in order with the flag false |
| NotesViewModel.UpdateNotes | app/src/main/java/com/example/assignment/viewModel.kt:25-27 | the list becomes exactly the given list, unvalidated, and the flag is untouched |
| NotesViewModel.UpdateNotesOverwrites | app/src/main/java/com/example/assignment/viewModel.kt:25-27 | a second replacement discards the first; replacing with the current list changes nothing |
| NotesViewModel.ResetNotes | app/src/main/java/com/example/assignment/viewModel.kt:29-31 | the list becomes empty and the flag is untouched |
| NotesViewModel.ResetIsIdempotent | app/src/main/java/com/example/assignment/viewModel.kt:16-31 | resetting twice equals resetting once, and a reset store differs from the seeded one |
| NotesViewModel.AddNote | app/src/main/java/com/example/assignment/viewModel.kt:33-37 | the list becomes the old list followed by the note, duplicates allowed, and the flag is untouched |
| NotesViewModel.RemoveNote | app/src/main/java/com/example/assignment/viewModel.kt:39-43 | with the note present the list loses exactly its first occurrence; with it absent the whole snapshot is unchanged; the flag is untouched |
| NotesViewModel.AddThenRemove | app/src/main/java/com/example/assignment/viewModel.kt:33-43 | adding then removing a new note restores the store; with an earlier copy it equals removing first and then adding |
| NotesViewModel.RemoveNoteFirstMatch | app/src/main/java/com/example/assignment/viewModel.kt:39-43 | on a store holding `[a, b, a]`, removing `a` leaves `[b, a]` |
| NotesViewModel.ShowForm | app/src/main/java/com/example/assignment/viewModel.kt:44-46 | the flag becomes true and the list is untouched |
| NotesViewModel.HideForm | app/src/main/java/com/example/assignment/viewModel.kt:48-50 | the flag becomes false and the list is untouched |
| NotesViewModel.ToggleFormVisibility | app/src/main/java/com/example/assignment/viewModel.kt:52-54 | the flag flips and the list is untouched |
| NotesViewModel.ToggleIsInvolution | app/src/main/java/com/example/assignment/viewModel.kt:44-54 | two toggles restore the snapshot; one toggle acts as hide when shown and as show when hidden |
| NotesViewModel.ShowHideAreIdempotent | app/src/main/java/com/example/assignment/viewModel.kt:44-50 | show and hide are idempotent, and the later of the two wins |
| StoreOps.Step | app/src/main/java/com/example/assignment/viewModel.kt:25-54 | a list call never changes the flag; a flag call never changes the list |
| StoreOps.Run | app/src/main/java/com/example/assignment/viewModel.kt:25-54 | a sequence of list calls only never changes the flag; a sequence of flag calls only never changes the list |
| StoreOps.RunConcat | app/src/main/java/com/example/assignment/viewModel.kt:25-54 | running two batches of calls equals running one after the other |
| StoreOps.ListAndFlagCallsCommute | app/src/main/java/com/example/assignment/viewModel.kt:25-54 | a list call and a flag call commute, since they touch different fields |
| StoreOps.TogglesFlipByParity | app/src/main/java/com/example/assignment/viewModel.kt:52-54 | after k toggles the flag is flipped exactly when k is odd, and the list is unchanged |
| StoreOps.RemoveFirstKeepsAdmissible | app/src/main/java/com/example/assignment/viewModel.kt:39-43 | removal never introduces a note, so an admissible list stays admissible |
| StoreOps.StepKeepsAdmissible | app/src/main/java/com/example/assignment/viewModel.kt:25-43 | a call bringing only admissible notes keeps every note admissible |
| StoreOps.RunKeepsAdmissible | app/src/main/java/com/example/assignment/viewModel.kt:25-43 | admissibility of every note is invariant over any run whose calls bring only admissible notes |
| StoreOps.AddNoteDoesNotValidate | app/src/main/java/com/example/assignment/viewModel.kt:33-37 | the store accepts a note with an empty field, so the resulting list is not admissible |
| NotesForm.IsFormValid | app/src/main/java/com/example/assignment/MainActivity.kt:184 | the form's button is enabled exactly when both the title and the description are non-empty |
| NotesForm.Dispatch | app/src/main/java/com/example/assignment/MainActivity.kt:92-188 | a press of the floating button flips the form flag and keeps the list; a press of the form's button keeps the flag and either keeps the list or appends the note made from the fields |
| NotesForm.Session | app/src/main/java/com/example/assignment/MainActivity.kt:81-118 | after any session of presses on a new screen, the form is shown exactly when the floating button was pressed an odd number of times, and the three demo notes remain at the front of the list |
| NotesForm.Submit | app/src/main/java/com/example/assignment/MainActivity.kt:184-188 | a press while the form is shown with both fields non-empty appends the note; any press that changes the store came from a shown form with an admissible note; the flag is untouched |
| NotesForm.DisabledPressIsNoOp | app/src/main/java/com/example/assignment/MainActivity.kt:184-188 | a press with the form hidden or a field empty leaves the store unchanged |
| NotesForm.SessionKeepsAdmissible | app/src/main/java/com/example/assignment/MainActivity.kt:94-188 | starting from a new store, any sequence of toggle and submit presses leaves every note admissible |

## Left out

- Publication through `MutableStateFlow`/`StateFlow` and `collectAsState` is not modelled. Each field is a plain value replaced whole by every call, so the snapshot-atomicity property (an observer never sees a half-updated list) holds by construction and is not stated.
- The `ViewModel` lifecycle and scoping are Android framework behaviour and are not modelled.
- `MutableList.remove` returns whether it removed something. `removeNote` discards that result, so the model does not carry it.
- Kotlin lists are bounded by `Int` size. The model's sequences are unbounded, because a notes list never nears that bound.
- The Compose layout, styling, icons, the toast shown on tapping a note, and the text-field state are presentation and are not modelled. `NotesForm` keeps only the two store calls the screen makes and the conditions under which the form's button can be pressed.
- `UiState` is assumed to be a data class with exactly the fields `title` and `content`. Otherwise `remove` would not compare notes by those two fields.
- `updateNotes` stores the caller's list object itself (viewModel.kt:26), so a caller that later mutates a `MutableList` it passed in would change the store without a call. The model has value semantics: `UpdateNotes` keeps a copy of the sequence.
- `addNote`, `removeNote` and `toggleFormVisibility` read, copy and write the stored value in separate steps (viewModel.kt:34-36, 40-42, 53), so concurrent calls could lose an update. `StoreOps.Run` and `NotesForm.Session` take the calls one at a time, because the screen only calls the store from the UI thread.
