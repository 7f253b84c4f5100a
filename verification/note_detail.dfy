/**
 The logic of a note's detail screen (Waynote/Views/NoteDetailView.swift):
 the listed children, renaming, editing text, adding a text or audio child
 and deleting a child. The presented sheets and the router are part of the
 screen state; rendering is not modelled.
 */
module NoteDetail {
  import opened Common
  import opened Strings
  import opened Uuids
  import opened NoteModel
  import opened NoteTree
  import opened NoteStore
  import opened Router

  /** No note in `s` was created after a later one. */
  ghost predicate SortedByDate(notes: Arena, s: seq<Uuid>)
    requires forall x :: x in s ==> x in notes
  {
    forall i, j :: 0 <= i < j < |s| ==> notes[s[i]].dateCreated <= notes[s[j]].dateCreated
  }

  lemma DistinctTail<T>(s: seq<T>)
    requires |s| > 0
    ensures Distinct(s) ==> s[0] !in s[1..] && Distinct(s[1..])
  {
    if Distinct(s) {
      forall k | 0 <= k < |s| - 1 ensures s[1..][k] != s[0] {
        assert s[1..][k] == s[k + 1];
      }
    }
  }

  /** The head of a sorted sequence may precede a sorted rearrangement of its
      tail together with a later note. */
  lemma SortedCons(notes: Arena, s: seq<Uuid>, rest: seq<Uuid>, c: Uuid)
    requires |s| > 0 && c in notes && forall x :: x in s ==> x in notes
    requires SortedByDate(notes, s) && notes[s[0]].dateCreated < notes[c].dateCreated
    requires forall x :: x in rest <==> x in s[1..] || x == c
    requires forall x :: x in rest ==> x in notes
    requires SortedByDate(notes, rest)
    ensures SortedByDate(notes, [s[0]] + rest)
  {
    var r := [s[0]] + rest;
    forall x | x in rest ensures notes[s[0]].dateCreated <= notes[x].dateCreated {
      if x != c {
        var k :| 0 <= k < |s[1..]| && s[1..][k] == x;
        assert s[k + 1] == x;
      }
    }
    forall i, j | 0 <= i < j < |r| ensures notes[r[i]].dateCreated <= notes[r[j]].dateCreated {
      assert r[j] == rest[j - 1] && r[j] in rest;
      if i > 0 {
        assert r[i] == rest[i - 1];
      }
    }
  }

  /** Inserts `c` into a date-sorted sequence. */
  function InsertByDate(notes: Arena, s: seq<Uuid>, c: Uuid): (r: seq<Uuid>)
    requires c in notes && forall x :: x in s ==> x in notes
    requires SortedByDate(notes, s)
    ensures |r| == |s| + 1
    ensures forall x :: x in r <==> x in s || x == c
    ensures forall x :: x in r ==> x in notes
    ensures SortedByDate(notes, r)
    ensures Distinct(s) && c !in s ==> Distinct(r)
  {
    if |s| == 0 then [c]
    else if notes[c].dateCreated <= notes[s[0]].dateCreated then [c] + s
    else
      var rest := InsertByDate(notes, s[1..], c);
      assert forall x :: x in s[1..] ==> x in s;
      DistinctTail(s);
      SortedCons(notes, s, rest, c);
      [s[0]] + rest
  }

  /** The `@Query` of the screen: the notes whose parent is `id`, each once,
      ascending by creation date (ties in no particular order). */
  method SortedChildren(notes: Arena, id: Uuid) returns (r: seq<Uuid>)
    ensures forall x :: x in r <==> x in Children(notes, id)
    ensures forall x :: x in r ==> x in notes && notes[x].parent == Some(id)
    ensures Distinct(r)
    ensures SortedByDate(notes, r)
  {
    var remaining := Children(notes, id);
    r := [];
    while remaining != {}
      invariant remaining <= Children(notes, id)
      invariant forall x :: x in r <==> x in Children(notes, id) && x !in remaining
      invariant forall x :: x in r ==> x in notes
      invariant Distinct(r) && SortedByDate(notes, r)
      decreases |remaining|
    {
      var c :| c in remaining;
      r := InsertByDate(notes, r, c);
      remaining := remaining - {c};
    }
  }

  /** The screen's own state: the rename alert and its draft, the recorder
      sheet and the note whose audio content it records, the search sheet. */
  datatype Screen = Screen(
    isRenaming: bool,
    draftTitle: string,
    isRecordingAudio: bool,
    recordingNote: Option<Uuid>,
    isSearching: bool)

  /** What an action leaves behind. */
  datatype Step = Step(notes: Arena, router: Router, screen: Screen, effects: seq<Effect>)

  /** "Rename": the draft starts as the current title. */
  function BeginRename(notes: Arena, id: Uuid, screen: Screen): (r: Screen)
    requires id in notes
    ensures r.isRenaming && r.draftTitle == notes[id].title
    ensures r.(isRenaming := screen.isRenaming, draftTitle := screen.draftTitle) == screen
  {
    screen.(draftTitle := notes[id].title, isRenaming := true)
  }

  /** "Cancel": the alert closes; no title is stored and nothing is saved. */
  function CancelRename(screen: Screen): (r: Screen)
    ensures !r.isRenaming && r.(isRenaming := screen.isRenaming) == screen
  {
    screen.(isRenaming := false)
  }

  /** "OK": the draft, trimmed of surrounding whitespace and newlines, becomes
      the title, the note is saved, and the alert closes. */
  function ConfirmRename(notes: Arena, router: Router, screen: Screen, id: Uuid): (r: Step)
    requires Valid(notes) && id in notes
    ensures Valid(r.notes) && r.notes.Keys == notes.Keys
    ensures forall y :: y in notes && y != id ==> r.notes[y] == notes[y]
    ensures r.notes[id] == notes[id].(title := r.notes[id].title)
    ensures var t := r.notes[id].title;
            t == [] || (!IsWhitespace(t[0]) && !IsWhitespace(t[|t| - 1]))
    ensures exists i :: TrimmedAt(screen.draftTitle, r.notes[id].title, i)
    ensures r.notes[id].title == [] <==> AllWhitespace(screen.draftTitle)
    ensures AudioNamed(notes) ==> AudioNamed(r.notes)
    ensures r.effects == [Saved]
    ensures r.router == router && r.screen == screen.(isRenaming := false)
  {
    var n := notes[id].(title := Trim(screen.draftTitle));
    UpdateInPlace(notes, n);
    Step(WithTitle(notes, id, Trim(screen.draftTitle)), router, screen.(isRenaming := false), [Saved])
  }

  /** Renaming again without touching the draft changes nothing. */
  lemma RenameIdempotent(notes: Arena, router: Router, screen: Screen, id: Uuid)
    requires Valid(notes) && id in notes
    ensures var once := ConfirmRename(notes, router, screen, id);
            ConfirmRename(once.notes, router, BeginRename(once.notes, id, once.screen), id).notes == once.notes
  {
    var once := ConfirmRename(notes, router, screen, id);
    TrimIdempotent(screen.draftTitle);
    assert once.notes[id].(title := Trim(once.notes[id].title)) == once.notes[id];
  }

  /** Leaving the text editor: the edited text is stored and the note saved. */
  function EndTextEditing(notes: Arena, router: Router, screen: Screen, id: Uuid, text: string): (r: Step)
    requires Valid(notes) && id in notes && notes[id].content.Text?
    ensures Valid(r.notes) && r.notes.Keys == notes.Keys
    ensures forall y :: y in notes && y != id ==> r.notes[y] == notes[y]
    ensures r.notes[id] == notes[id].(content := Text(text))
    ensures AudioNamed(notes) ==> AudioNamed(r.notes)
    ensures r.effects == [Saved]
    ensures r.router == router && r.screen == screen
  {
    UpdateInPlace(notes, notes[id].(content := Text(text)));
    Step(WithContent(notes, id, Text(text)), router, screen, [Saved])
  }

  /** "Add Text": a text child is created and opened. When the router's fetch
      of the child succeeds the stack becomes the one for this note followed
      by the child; when it fails the stack stays as it was. */
  function AddText(notes: Arena, router: Router, screen: Screen, id: Uuid, newId: Uuid, now: int,
                   fetchSucceeds: bool): (r: Step)
    requires Valid(notes) && id in notes && newId !in notes
    ensures Valid(r.notes) && r.notes == CreateTextNote(notes, id, newId, now).notes
    ensures fetchSucceeds ==> r.router.path == PathTo(notes, id) + [newId]
    ensures !fetchSucceeds ==> r.router == router
    ensures r.screen == screen
    ensures r.effects == [Inserted(newId), Saved]
  {
    var created := CreateTextNote(notes, id, newId, now);
    PathOfChild(created.notes, newId);
    InsertLeaf(notes, created.notes[newId]);
    assert PathTo(created.notes, id) == PathTo(notes, id);
    Step(created.notes, Navigate(router, created.notes, newId, fetchSucceeds), screen, created.effects)
  }

  /** "Add Audio": an audio child is created and the recorder sheet opens on
      its content; the stack is not touched. */
  function AddAudio(notes: Arena, router: Router, screen: Screen, id: Uuid, newId: Uuid, now: int): (r: Step)
    requires Valid(notes) && id in notes && newId !in notes
    ensures Valid(r.notes) && r.notes == CreateAudioNote(notes, id, newId, now).notes
    ensures r.router == router
    ensures r.screen.isRecordingAudio && r.screen.recordingNote == Some(newId)
    ensures r.notes[newId].content.Audio? && r.notes[newId].parent == Some(id)
    ensures r.effects == [Inserted(newId), Saved]
  {
    var created := CreateAudioNote(notes, id, newId, now);
    Step(created.notes, router, screen.(recordingNote := Some(newId), isRecordingAudio := true), created.effects)
  }

  /** "Delete" on a listed child deletes the child's subtree, every
      descendant before its parent, with the store's deletion effects in that
      order; this note and everything outside that subtree stay as they were. */
  method DeleteChild(notes: Arena, id: Uuid, child: Uuid) returns (notes': Arena, order: seq<Uuid>, effects: seq<Effect>)
    requires Valid(notes) && id in notes && child in Children(notes, id)
    ensures Valid(notes')
    ensures notes' == notes - Subtree(notes, child)
    ensures id in notes' && notes'[id] == notes[id]
    ensures child !in notes'
    ensures Distinct(order) && (forall x :: x in order <==> x in Subtree(notes, child))
    ensures ChildrenFirst(notes, order)
    ensures effects == DeletionEffects(notes, order)
  {
    notes', order, effects := DeleteNote(notes, child);
    ParentOutsideSubtree(notes, child);
    SubtreeHasRoot(notes, child);
  }
}
