/**
  The store's operations as data, so that facts about whole sequences of
  calls can be stated: which field each kind of call may touch, what an even
  or odd number of toggles does, and which calls keep every note admissible.
 */
module StoreOps {
  import opened Notes
  import opened NoteList
  import VM = NotesViewModel

  /** One call on the store, with its argument. */
  datatype Op =
    | UpdateNotes(notesList: seq<Note>)
    | ResetNotes
    | AddNote(note: Note)
    | RemoveNote(note: Note)
    | ShowForm
    | HideForm
    | ToggleFormVisibility
  {
    /** The four calls that work on the note list. */
    predicate IsListOp() {
      UpdateNotes? || ResetNotes? || AddNote? || RemoveNote?
    }

    /** The call brings in no note that fails the form's rule. */
    predicate BringsOnlyAdmissible() {
      match this
      case UpdateNotes(l) => AllAdmissible(l)
      case AddNote(n) => IsAdmissible(n)
      case _ => true
    }
  }

  /** Performs one call. A list call leaves the flag alone; a flag call
      leaves the list alone. */
  function Step(s: VM.State, op: Op): (r: VM.State)
    ensures op.IsListOp() ==> r.formVisible == s.formVisible
    ensures !op.IsListOp() ==> r.notes == s.notes
  {
    match op
    case UpdateNotes(l) => VM.UpdateNotes(s, l)
    case ResetNotes => VM.ResetNotes(s)
    case AddNote(n) => VM.AddNote(s, n)
    case RemoveNote(n) => VM.RemoveNote(s, n)
    case ShowForm => VM.ShowForm(s)
    case HideForm => VM.HideForm(s)
    case ToggleFormVisibility => VM.ToggleFormVisibility(s)
  }

  /** Performs the calls one after another, front to back. Calls of one kind
      only never change the other field. */
  function Run(s: VM.State, ops: seq<Op>): (r: VM.State)
    ensures (forall i :: 0 <= i < |ops| ==> ops[i].IsListOp()) ==> r.formVisible == s.formVisible
    ensures (forall i :: 0 <= i < |ops| ==> !ops[i].IsListOp()) ==> r.notes == s.notes
    decreases |ops|
  {
    if |ops| == 0 then s
    else Run(Step(s, ops[0]), ops[1..])
  }

  /** Running two batches is running the first, then the second. */
  lemma {:induction false} RunConcat(s: VM.State, a: seq<Op>, b: seq<Op>)
    ensures Run(s, a + b) == Run(Run(s, a), b)
    decreases |a|
  {
    if |a| > 0 {
      assert (a + b)[1..] == a[1..] + b;
      RunConcat(Step(s, a[0]), a[1..], b);
    } else {
      assert a + b == b;
    }
  }

  /** A list call and a flag call give the same snapshot in either order. */
  lemma ListAndFlagCallsCommute(s: VM.State, l: Op, f: Op)
    requires l.IsListOp() && !f.IsListOp()
    ensures Step(Step(s, l), f) == Step(Step(s, f), l)
  {
  }

  /** After `k` toggles the flag is flipped exactly when `k` is odd. */
  lemma {:induction false} TogglesFlipByParity(s: VM.State, ops: seq<Op>)
    requires forall i :: 0 <= i < |ops| ==> ops[i] == ToggleFormVisibility
    ensures Run(s, ops).formVisible == (s.formVisible != (|ops| % 2 == 1))
    ensures Run(s, ops).notes == s.notes
    decreases |ops|
  {
    if |ops| > 0 {
      TogglesFlipByParity(Step(s, ops[0]), ops[1..]);
    }
  }

  /** Removal never brings a note in: whatever it leaves was already there. */
  lemma RemoveFirstKeepsAdmissible(notes: seq<Note>, n: Note)
    requires AllAdmissible(notes)
    ensures AllAdmissible(RemoveFirst(notes, n))
  {
    var r := RemoveFirst(notes, n);
    forall i | 0 <= i < |r| ensures IsAdmissible(r[i]) {
      assert r[i] in multiset(r);
      assert r[i] in multiset(notes);
    }
  }

  /** One call that brings only admissible notes keeps the list admissible. */
  lemma StepKeepsAdmissible(s: VM.State, op: Op)
    requires AllAdmissible(s.notes) && op.BringsOnlyAdmissible()
    ensures AllAdmissible(Step(s, op).notes)
  {
    match op
    case AddNote(n) =>
      AllAdmissibleAppend(s.notes, [n]);
    case RemoveNote(n) =>
      RemoveFirstKeepsAdmissible(s.notes, n);
    case _ =>
  }

  /** The admission rule is an invariant of the store as long as every call
      brings only admissible notes; the store does not enforce it itself. */
  lemma {:induction false} RunKeepsAdmissible(s: VM.State, ops: seq<Op>)
    requires AllAdmissible(s.notes)
    requires forall i :: 0 <= i < |ops| ==> ops[i].BringsOnlyAdmissible()
    ensures AllAdmissible(Run(s, ops).notes)
    decreases |ops|
  {
    if |ops| > 0 {
      StepKeepsAdmissible(s, ops[0]);
      RunKeepsAdmissible(Step(s, ops[0]), ops[1..]);
    }
  }

  /** The store appends a note with empty fields like any other: admission is
      not checked on the store's side. */
  lemma AddNoteDoesNotValidate(s: VM.State, n: Note)
    requires !IsAdmissible(n)
    ensures !AllAdmissible(Step(s, AddNote(n)).notes)
  {
    assert Step(s, AddNote(n)).notes[|s.notes|] == n;
  }
}
