/**
  The note value the store holds, `UiState` in the app. Its declaration lies
  outside viewModel.kt and MainActivity.kt; those files only build it from a
  title and a description and read its `title` and `content`. It is assumed
  to be a data class with exactly those two fields, so that it compares by
  them, which is Dafny's structural equality on a datatype. Removal of a note
  relies on that equality.
 */
module Notes {

  /** One user-created entry: a title and a body text. */
  datatype Note = Note(title: string, content: string)

  /** The form's admission rule: both text fields must be non-empty.
      The store itself never checks this; only the form's button does. */
  predicate IsAdmissible(n: Note) {
    |n.title| > 0 && |n.content| > 0
  }

  /** Every note of a list passes the form's admission rule. */
  predicate AllAdmissible(notes: seq<Note>) {
    forall i :: 0 <= i < |notes| ==> IsAdmissible(notes[i])
  }

  /** Admissibility of a concatenation is admissibility of both parts. */
  lemma {:induction false} AllAdmissibleAppend(a: seq<Note>, b: seq<Note>)
    ensures AllAdmissible(a + b) <==> AllAdmissible(a) && AllAdmissible(b)
  {
    if AllAdmissible(a + b) {
      forall i | 0 <= i < |a| ensures IsAdmissible(a[i]) {
        assert a[i] == (a + b)[i];
      }
      forall j | 0 <= j < |b| ensures IsAdmissible(b[j]) {
        assert b[j] == (a + b)[|a| + j];
      }
    }
  }
}
