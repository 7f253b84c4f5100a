/**
 Navigation (Waynote/Helpers/Router.swift): the navigation stack holds the
 notes from just below the root down to the target. A `Route.note` is
 identified with the id of its note.
 */
module Router {
  import opened Common
  import opened Uuids
  import opened NoteModel
  import opened NoteTree
  import opened NoteStore

  datatype Router = Router(path: seq<Uuid>)

  /** The stack for a note: its chain without the root, root end first. */
  function PathTo(notes: Arena, id: Uuid): (p: seq<Uuid>)
    requires Valid(notes) && id in notes
    ensures |p| == Depth(notes, id)
    ensures p == [] <==> IsRoot(notes, id)
    ensures forall x :: x in p ==> x in notes
    ensures p != [] ==> p[|p| - 1] == id
    ensures p != [] ==> notes[p[0]].parent.Some? && IsRoot(notes, notes[p[0]].parent.value)
    ensures forall i :: 0 <= i < |p| - 1 ==> notes[p[i + 1]].parent == Some(p[i])
  {
    var chain := Ancestry(notes, id).value;
    AncestrySound(notes, id);
    var p := Reverse(chain[..|chain| - 1]);
    assert forall i :: 0 <= i < |p| ==> p[i] == chain[|chain| - 2 - i];
    p
  }

  /** `navigate(id:context:)`: when the note is found the path is replaced by
      the stack for it; an unknown id, or a failed fetch, leaves the path as it
      was (the failure is only logged). */
  function Navigate(router: Router, notes: Arena, id: Uuid, fetchSucceeds: bool): (r: Router)
    requires Valid(notes)
    ensures FetchNote(notes, id, fetchSucceeds).None? ==> r == router
    ensures FetchNote(notes, id, fetchSucceeds).Some? ==> r.path == PathTo(notes, id)
  {
    match FetchNote(notes, id, fetchSucceeds)
    case None => router
    case Some(n) => Router(PathTo(notes, id))
  }

  /** The path is replaced wholesale: what was there before does not matter. */
  lemma NavigateReplaces(a: Router, b: Router, notes: Arena, id: Uuid)
    requires Valid(notes) && id in notes
    ensures Navigate(a, notes, id, true) == Navigate(b, notes, id, true)
  {
  }

  /** The stack for a child is the stack for its parent plus the child. */
  lemma PathOfChild(notes: Arena, c: Uuid)
    requires Valid(notes) && c in notes && notes[c].parent.Some?
    ensures notes[c].parent.value in notes
    ensures PathTo(notes, c) == PathTo(notes, notes[c].parent.value) + [c]
  {
    var p := notes[c].parent.value;
    ParentChain(notes, c);
    var chain := Ancestry(notes, c).value;
    var pchain := Ancestry(notes, p).value;
    AncestrySound(notes, c);
    AncestrySound(notes, p);
    assert chain == [c] + pchain;
    assert chain[..|chain| - 1] == [c] + pchain[..|pchain| - 1];
  }
}
