/**
  The screen's side of the store, reduced to the two calls it makes: the
  floating button toggles the form, and the form's button adds a note. The
  form's button is only on screen while the form is shown, and it is only
  enabled while both text fields are non-empty; a press that cannot happen
  leaves the store as it was.
 */
module NotesForm {
  import opened Notes
  import VM = NotesViewModel

  /** The enabling condition of the form's button: the note the fields would
      make passes the admission rule. */
  function IsFormValid(title: string, desc: string): (ok: bool)
    ensures ok <==> |title| > 0 && |desc| > 0
  {
    IsAdmissible(Note(title, desc))
  }

  /** A press of the form's button with the fields' current text. */
  function Submit(s: VM.State, title: string, desc: string): (r: VM.State)
    ensures s.formVisible && IsFormValid(title, desc) ==>
      r.notes == s.notes + [Note(title, desc)]
    ensures r != s ==> s.formVisible && IsAdmissible(Note(title, desc))
    ensures r.formVisible == s.formVisible
  {
    if s.formVisible && IsFormValid(title, desc) then VM.AddNote(s, Note(title, desc))
    else s
  }

  /** A user action on the screen. */
  datatype UiEvent =
    | PressFab
    | PressProceed(title: string, desc: string)

  /** The store call a user action turns into: the floating button flips the
      form and nothing else; the form's button leaves the flag alone and at
      most appends the note its fields make. */
  function Dispatch(s: VM.State, e: UiEvent): (r: VM.State)
    ensures e.PressFab? ==> r.formVisible != s.formVisible && r.notes == s.notes
    ensures e.PressProceed? ==> r.formVisible == s.formVisible
    ensures e.PressProceed? ==>
      r.notes == s.notes || r.notes == s.notes + [Note(e.title, e.desc)]
  {
    match e
    case PressFab => VM.ToggleFormVisibility(s)
    case PressProceed(t, d) => Submit(s, t, d)
  }

  /** Number of presses of the floating button in a session. */
  function FabPresses(events: seq<UiEvent>): nat
    decreases |events|
  {
    if |events| == 0 then 0
    else FabPresses(events[..|events| - 1]) + (if events[|events| - 1].PressFab? then 1 else 0)
  }

  /** The store after a session of user actions on a freshly created screen.
      The form is shown exactly when the floating button was pressed an odd
      number of times, and since the screen only ever appends, the demo notes
      stay at the front of the list. */
  function Session(events: seq<UiEvent>): (r: VM.State)
    ensures r.formVisible == (FabPresses(events) % 2 == 1)
    ensures VM.Seed <= r.notes
    decreases |events|
  {
    if |events| == 0 then VM.Init()
    else Dispatch(Session(events[..|events| - 1]), events[|events| - 1])
  }

  /** Every note the screen can ever show passes the form's rule: the demo
      notes do, and the form only lets admissible notes through. */
  lemma {:induction false} SessionKeepsAdmissible(events: seq<UiEvent>)
    ensures Notes.AllAdmissible(Session(events).notes)
    decreases |events|
  {
    if |events| > 0 {
      var prefix := events[..|events| - 1];
      SessionKeepsAdmissible(prefix);
      var s := Session(prefix);
      match events[|events| - 1]
      case PressFab =>
      case PressProceed(t, d) =>
        if s.formVisible && IsFormValid(t, d) {
          Notes.AllAdmissibleAppend(s.notes, [Note(t, d)]);
        }
    }
  }

  /** A press while the form is hidden or a field is empty changes nothing. */
  lemma DisabledPressIsNoOp(s: VM.State, title: string, desc: string)
    requires !s.formVisible || |title| == 0 || |desc| == 0
    ensures Submit(s, title, desc) == s
  {
  }
}
