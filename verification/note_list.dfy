/**
  The two list primitives the store uses on its note list: appending at the
  end (`MutableList.add`) and removing the first equal element
  (`MutableList.remove`). Both are stated over any element type with
  equality; the store instantiates them at `Note`.
 */
module NoteList {

  datatype Option<T> = None | Some(value: T)

  /** The position of the first element of `s` equal to `x`, if there is one:
      the least index holding `x`. */
  function FirstIndex<T(==)>(s: seq<T>, x: T): (r: Option<nat>)
    ensures r.Some? <==> x in s
    ensures r.Some? ==> r.value < |s| && s[r.value] == x
    ensures r.Some? ==> forall j :: 0 <= j < r.value ==> s[j] != x
  {
    if |s| == 0 then None
    else if s[0] == x then Some(0)
    else
      match FirstIndex(s[1..], x)
      case None => None
      case Some(i) => Some(i + 1)
  }

  /** `s` with the first element equal to `x` taken out, walking the list
      from the front as an array list's removal does. Exactly one copy of `x`
      leaves when there is one; otherwise nothing changes. */
  function RemoveFirst<T(==)>(s: seq<T>, x: T): (r: seq<T>)
    ensures multiset(r) == multiset(s) - multiset{x}
    ensures |r| == if x in s then |s| - 1 else |s|
    ensures x !in s ==> r == s
  {
    if |s| == 0 then s
    else if s[0] == x then
      assert s == [s[0]] + s[1..];
      s[1..]
    else
      assert s == [s[0]] + s[1..];
      [s[0]] + RemoveFirst(s[1..], x)
  }

  /** The removal is the slice around the first occurrence: everything before
      it and everything after it, in their original order. */
  lemma {:induction false} RemoveFirstAtFirstIndex<T>(s: seq<T>, x: T)
    ensures x in s ==>
      && FirstIndex(s, x).Some?
      && RemoveFirst(s, x) == s[..FirstIndex(s, x).value] + s[FirstIndex(s, x).value + 1..]
  {
    if x in s && s[0] != x {
      var t := s[1..];
      assert x in t by {
        var k :| 0 <= k < |s| && s[k] == x;
        assert t[k - 1] == x;
      }
      RemoveFirstAtFirstIndex(t, x);
      var i := FirstIndex(t, x).value;
      assert FirstIndex(s, x).value == i + 1;
      assert RemoveFirst(s, x) == [s[0]] + (t[..i] + t[i + 1..]);
      ConsSlices(s, i);
    }
  }

  /** Putting the head back in front of a slice of the tail is the same
      slice of the whole list, one place further on. */
  lemma ConsSlices<T>(s: seq<T>, i: nat)
    requires i + 1 < |s|
    ensures [s[0]] + (s[1..][..i] + s[1..][i + 1..]) == s[..i + 1] + s[i + 2..]
  {
    assert s[..i + 1] == [s[0]] + s[1..][..i];
    assert s[i + 2..] == s[1..][i + 1..];
  }

  /** Elements before the first occurrence keep their positions; elements
      after it move one place towards the front. */
  lemma {:induction false} RemoveFirstPositions<T>(s: seq<T>, x: T, i: nat)
    requires FirstIndex(s, x) == Some(i)
    ensures |RemoveFirst(s, x)| == |s| - 1
    ensures forall k :: 0 <= k < i ==> RemoveFirst(s, x)[k] == s[k]
    ensures forall k :: i <= k < |s| - 1 ==> RemoveFirst(s, x)[k] == s[k + 1]
  {
    RemoveFirstAtFirstIndex(s, x);
    SliceOutPositions(s, i, RemoveFirst(s, x));
  }

  /** Cutting out position `i` keeps the elements before it in place and
      moves the ones after it one place towards the front. */
  lemma SliceOutPositions<T>(s: seq<T>, i: nat, r: seq<T>)
    requires i < |s| && r == s[..i] + s[i + 1..]
    ensures |r| == |s| - 1
    ensures forall k :: 0 <= k < i ==> r[k] == s[k]
    ensures forall k :: i <= k < |r| ==> r[k] == s[k + 1]
  {
  }

  /** With a duplicate, the earlier copy is the one that goes: removing `a`
      from `[a, b, a]` leaves `[b, a]`. */
  lemma RemoveFirstOfDuplicate<T>(a: T, b: T)
    requires a != b
    ensures RemoveFirst([a, b, a], a) == [b, a]
  {
  }

  /** Appending keeps every earlier element in place and puts `x` last;
      a copy already present is not an obstacle. */
  function Append<T>(s: seq<T>, x: T): (r: seq<T>)
    ensures |r| == |s| + 1
    ensures r[..|s|] == s
    ensures r[|s|] == x
  {
    s + [x]
  }

  /** Removing what was just appended gives the list back when it held no
      earlier copy; with an earlier copy, that earlier one goes instead. */
  lemma {:induction false} RemoveAfterAppend<T>(s: seq<T>, x: T)
    ensures x !in s ==> RemoveFirst(Append(s, x), x) == s
    ensures x in s ==> RemoveFirst(Append(s, x), x) == Append(RemoveFirst(s, x), x)
  {
    if x in s {
      RemoveAfterAppendPresent(s, x);
    } else {
      RemoveAfterAppendAbsent(s, x);
    }
  }

  /** The appended copy is the first one when there was none before. */
  lemma {:induction false} RemoveAfterAppendAbsent<T>(s: seq<T>, x: T)
    requires x !in s
    ensures RemoveFirst(s + [x], x) == s
  {
    if |s| > 0 {
      var t := s[1..];
      assert s == [s[0]] + t;
      assert s + [x] == [s[0]] + (t + [x]);
      RemoveAfterAppendAbsent(t, x);
    }
  }

  /** An earlier copy is found before the appended one. */
  lemma {:induction false} RemoveAfterAppendPresent<T>(s: seq<T>, x: T)
    requires x in s
    ensures RemoveFirst(s + [x], x) == RemoveFirst(s, x) + [x]
  {
    var t := s[1..];
    assert s + [x] == [s[0]] + (t + [x]);
    if s[0] != x {
      assert x in t by {
        var k :| 0 <= k < |s| && s[k] == x;
        assert t[k - 1] == x;
      }
      RemoveAfterAppendPresent(t, x);
    }
  }
}
