/**
 The repository over the note arena (Waynote/Models/NoteStore.swift). Every
 operation returns the new arena together with the effects it asks of the
 persistence layer and the file system, in the order it asks for them. A
 `save()` is the `Saved` effect: a failed commit is only logged and the
 in-memory arena stays authoritative, so it never changes the arena.
 */
module NoteStore {
  import opened Common
  import opened Uuids
  import opened AudioFiles
  import opened NoteModel
  import opened NoteTree

  datatype Effect =
    | Inserted(id: Uuid)
    | ContentDeleted(id: Uuid)
    | RecordDeleted(id: Uuid)
    | Saved
    | FileRemovalAttempted(url: Url)

  /** A new arena, the note an operation returns, and the effects on the way. */
  datatype Outcome = Outcome(notes: Arena, id: Uuid, effects: seq<Effect>)

  /** Title given to a synthesized root. */
  const RootTitle: string := "Waynote"

  const AudioExtension: string := ".m4a"

  /** The file name of an audio note: its id's canonical string plus ".m4a". */
  function AudioFileName(id: Uuid): string {
    UuidString(id) + AudioExtension
  }

  /** The file name gives back the note id, so distinct audio notes never share a file. */
  lemma AudioFileNameIdentifies(a: Uuid, b: Uuid)
    ensures ParseUuid(AudioFileName(a)[..36]) == Some(a)
    ensures AudioFileName(a) == AudioFileName(b) ==> a == b
  {
    assert AudioFileName(a)[..36] == UuidString(a);
    ParseUuidString(a);
    if AudioFileName(a) == AudioFileName(b) {
      assert AudioFileName(b)[..36] == UuidString(b);
      UuidStringInjective(a, b);
    }
  }

  /** Every audio note's file is named after the note itself. */
  ghost predicate AudioNamed(notes: Arena) {
    forall id :: id in notes && notes[id].content.Audio? ==>
      notes[id].content.fileName == AudioFileName(id)
  }

  /** `fetchRootNote` when its fetch succeeds: the parentless note if there is
      one, otherwise a new note titled "Waynote", inserted and saved. In a
      valid arena a missing root means an empty arena. */
  function FetchRoot(notes: Arena, newId: Uuid, now: int): (r: Outcome)
    requires Valid(notes)
    ensures Valid(r.notes) && IsRoot(r.notes, r.id)
    ensures forall x :: IsRoot(r.notes, x) ==> x == r.id
    ensures (exists x :: IsRoot(notes, x)) ==> r.notes == notes && r.effects == []
    ensures (forall x :: !IsRoot(notes, x)) ==>
              && notes == map[]
              && r.id == newId
              && r.notes == map[newId := NewNote(newId, now, title := RootTitle)]
              && r.effects == [Inserted(newId), Saved]
  {
    if exists x :: x in notes && IsRoot(notes, x) then
      var x :| x in notes && IsRoot(notes, x);
      Outcome(notes, x, [])
    else
      assert notes == map[] by {
        if y :| y in notes { HasRoot(notes, y); }
      }
      var root := NewNote(newId, now, title := RootTitle);
      var m := notes[newId := root];
      assert Ancestry(m, newId) == Some([newId]);
      Outcome(m, newId, [Inserted(newId), Saved])
  }

  /** A second `fetchRootNote` returns the same note and changes nothing. */
  lemma FetchRootIdempotent(notes: Arena, newId: Uuid, newId': Uuid, now: int, now': int)
    requires Valid(notes)
    ensures var first := FetchRoot(notes, newId, now);
            FetchRoot(first.notes, newId', now') == Outcome(first.notes, first.id, [])
  {
  }

  /** `fetchRootNote` as written, including a failed fetch: the failure is
      logged and treated like "no root", so a new root is inserted anyway. */
  function FetchRootAsWritten(notes: Arena, newId: Uuid, now: int, fetchSucceeds: bool): (r: Outcome)
    requires Valid(notes) && newId !in notes
    ensures fetchSucceeds ==> r == FetchRoot(notes, newId, now)
    ensures !fetchSucceeds ==>
              && r.id == newId
              && r.notes == notes[newId := NewNote(newId, now, title := RootTitle)]
              && r.effects == [Inserted(newId), Saved]
  {
    if fetchSucceeds then FetchRoot(notes, newId, now)
    else
      var root := NewNote(newId, now, title := RootTitle);
      Outcome(notes[newId := root], newId, [Inserted(newId), Saved])
  }

  /** A failed fetch on a non-empty store leaves two parentless notes: the old
      root and the new "Waynote" note, and the tree invariant is broken. */
  lemma FailedRootFetchDuplicatesRoot(notes: Arena, newId: Uuid, now: int, y: Uuid)
    requires Valid(notes) && newId !in notes && y in notes
    ensures var r := FetchRootAsWritten(notes, newId, now, false);
            exists other :: other != r.id && IsRoot(r.notes, other) && IsRoot(r.notes, r.id)
    ensures !Valid(FetchRootAsWritten(notes, newId, now, false).notes)
  {
    HasRoot(notes, y);
    var other :| IsRoot(notes, other);
    var m := FetchRootAsWritten(notes, newId, now, false).notes;
    assert IsRoot(m, other) && IsRoot(m, newId);
  }

  /** `fetchRootNote` with the failure kept apart from "no root": a failed fetch
      yields nothing and leaves the store alone, so the store never holds more
      than one root. */
  function FetchRootChecked(notes: Arena, newId: Uuid, now: int, fetchSucceeds: bool): (r: Option<Outcome>)
    requires Valid(notes)
    ensures r.Some? <==> fetchSucceeds
    ensures r.Some? ==> Valid(r.value.notes) && IsRoot(r.value.notes, r.value.id)
    ensures r.Some? ==> forall x :: IsRoot(r.value.notes, x) ==> x == r.value.id
  {
    if fetchSucceeds then Some(FetchRoot(notes, newId, now)) else None
  }

  /** `fetchNote(withID:)`: the stored note, or nothing when it is absent or the
      fetch fails; never an error. */
  function FetchNote(notes: Arena, id: Uuid, fetchSucceeds: bool): (r: Option<Note>)
    requires Valid(notes)
    ensures r.Some? <==> fetchSucceeds && id in notes
    ensures r.Some? ==> r.value.id == id && r.value == notes[id]
  {
    if fetchSucceeds && id in notes then Some(notes[id]) else None
  }

  /** Inserting a note under a stored parent, then saving. */
  function CreateChild(notes: Arena, parent: Uuid, newId: Uuid, now: int, content: Content): (r: Outcome)
    requires Valid(notes) && parent in notes && newId !in notes
    ensures Valid(r.notes) && r.id == newId
    ensures r.notes.Keys == notes.Keys + {newId}
    ensures forall y :: y in notes ==> r.notes[y] == notes[y]
    ensures r.notes[newId] == Note(newId, now, "", Some(parent), content)
    ensures Children(r.notes, newId) == {}
    ensures Depth(r.notes, newId) == Depth(notes, parent) + 1
    ensures r.effects == [Inserted(newId), Saved]
  {
    var n := NewNote(newId, now, content := content, parent := Some(parent));
    InsertLeaf(notes, n);
    Outcome(notes[newId := n], newId, [Inserted(newId), Saved])
  }

  /** `createTextNote(parent:)`: a new untitled child holding empty text. */
  function CreateTextNote(notes: Arena, parent: Uuid, newId: Uuid, now: int): (r: Outcome)
    requires Valid(notes) && parent in notes && newId !in notes
    ensures Valid(r.notes) && r.id == newId
    ensures r.notes == notes[newId := Note(newId, now, "", Some(parent), Text(""))]
    ensures Children(r.notes, newId) == {}
    ensures r.effects == [Inserted(newId), Saved]
  {
    CreateChild(notes, parent, newId, now, NewTextContent())
  }

  /** `createAudioNote(parent:)`: a new untitled child whose audio file is named
      after the child's own id, with duration 0 (nothing is recorded yet). */
  function CreateAudioNote(notes: Arena, parent: Uuid, newId: Uuid, now: int): (r: Outcome)
    requires Valid(notes) && parent in notes && newId !in notes
    ensures Valid(r.notes) && r.id == newId
    ensures r.notes == notes[newId := Note(newId, now, "", Some(parent), Audio(AudioFileName(newId), 0.0))]
    ensures ParseUuid(r.notes[newId].content.fileName[..36]) == Some(newId)
    ensures Children(r.notes, newId) == {}
    ensures AudioNamed(notes) ==> AudioNamed(r.notes)
    ensures r.effects == [Inserted(newId), Saved]
  {
    AudioFileNameIdentifies(newId, newId);
    CreateChild(notes, parent, newId, now, NewAudioContent(AudioFileName(newId)))
  }

  // Cascading deletion

  /** What deleting one note asks for once its children are gone: its content
      record deleted and saved (if it has content), the note record deleted and
      saved, and only then, for audio content, removal of the audio file. */
  function NoteDeletionEffects(n: Note): (e: seq<Effect>)
    ensures RecordDeleted(n.id) in e
    ensures ContentDeleted(n.id) in e <==> !n.content.NoContent?
    ensures (exists u :: FileRemovalAttempted(u) in e) <==> n.content.Audio?
    ensures n.content.Audio? ==>
              && e[|e| - 1] == FileRemovalAttempted(FileUrl(n.content))
              && e[|e| - 3] == RecordDeleted(n.id)
  {
    (if n.content.NoContent? then [] else [ContentDeleted(n.id), Saved])
    + [RecordDeleted(n.id), Saved]
    + (if n.content.Audio? then [FileRemovalAttempted(FileUrl(n.content))] else [])
  }

  /** The effects of deleting the notes in `order`, one after another. */
  function DeletionEffects(notes: Arena, order: seq<Uuid>): seq<Effect>
    requires forall x :: x in order ==> x in notes
  {
    if |order| == 0 then []
    else NoteDeletionEffects(notes[order[0]]) + DeletionEffects(notes, order[1..])
  }

  lemma {:induction false} DeletionEffectsAppend(notes: Arena, a: seq<Uuid>, b: seq<Uuid>)
    requires forall x :: x in a + b ==> x in notes
    ensures DeletionEffects(notes, a + b) == DeletionEffects(notes, a) + DeletionEffects(notes, b)
    decreases |a|
  {
    if |a| > 0 {
      assert (a + b)[1..] == a[1..] + b;
      DeletionEffectsAppend(notes, a[1..], b);
    } else {
      assert a + b == b;
    }
  }

  lemma {:induction false} DeletionEffectsFrame(notes: Arena, m: Arena, order: seq<Uuid>)
    requires forall x :: x in order ==> x in notes && x in m && m[x] == notes[x]
    ensures DeletionEffects(m, order) == DeletionEffects(notes, order)
    decreases |order|
  {
    if |order| > 0 {
      DeletionEffectsFrame(notes, m, order[1..]);
    }
  }

  /** No note is deleted after its parent. */
  ghost predicate ChildrenFirst(notes: Arena, order: seq<Uuid>) {
    forall i, j :: 0 <= i < j < |order| && order[j] in notes ==>
      notes[order[j]].parent != Some(order[i])
  }

  lemma NoSelfParent(notes: Arena, y: Uuid)
    requires Valid(notes) && y in notes
    ensures notes[y].parent != Some(y)
  {
    var c := Ancestry(notes, y).value;
    AncestrySound(notes, y);
    if notes[y].parent.Some? {
      assert |c| > 1;
      assert c[1] != c[0];
    }
  }

  /** The subtree of a note is closed under descendants. */
  lemma SubtreeClosed(notes: Arena, t: Uuid)
    requires Valid(notes)
    ensures Closed(notes, Subtree(notes, t))
  {
    forall a, y | a in Subtree(notes, t) && y in notes && IsAncestor(notes, a, y)
      ensures y in Subtree(notes, t)
    {
      AncestorTransitive(notes, t, a, y);
    }
  }

  lemma SubsetSize<T>(a: set<T>, b: set<T>)
    requires a <= b
    ensures |a| <= |b|
  {
    assert b == a + (b - a);
  }

  /** One round of the drain loop: the subtree of a remaining child of `t` is
      strictly below `t`, disjoint from what is already gone, and adding it
      keeps the gone set closed. */
  lemma DrainStep(notes: Arena, cur: Arena, gone: set<Uuid>, t: Uuid, c: Uuid)
    requires Valid(notes) && Valid(cur) && Closed(notes, gone) && cur == notes - gone
    requires forall y :: y in cur ==> Ancestry(cur, y) == Ancestry(notes, y)
    requires t in cur && c in Children(cur, t)
    ensures c in Subtree(cur, c)
    ensures Subtree(cur, c) <= Subtree(notes, t) - {t}
    ensures Subtree(cur, c) !! gone
    ensures Closed(notes, gone + Subtree(cur, c))
  {
    var s := Subtree(cur, c);
    ParentChain(notes, c);
    NoSelfParent(notes, c);
    forall x | x in s ensures x in Subtree(notes, t) && x != t {
      assert IsAncestor(notes, c, x);
      AncestorTransitive(notes, t, c, x);
      if x == t {
        AncestorAntisymmetric(notes, c, t);
      }
    }
    forall a, y | a in gone + s && y in notes && IsAncestor(notes, a, y)
      ensures y in gone + s
    {
      if a in s && y !in gone {
        assert IsAncestor(cur, a, y);
        AncestorTransitive(cur, c, a, y);
      }
    }
  }

  /** When `t` has no children left, everything strictly below it is gone. */
  lemma DrainDone(notes: Arena, cur: Arena, gone: set<Uuid>, t: Uuid)
    requires Valid(notes) && Valid(cur) && cur == notes - gone
    requires forall y :: y in cur ==> Ancestry(cur, y) == Ancestry(notes, y)
    requires t in cur && Children(cur, t) == {}
    ensures Subtree(notes, t) - {t} <= gone
  {
    forall x | x in Subtree(notes, t) && x != t ensures x in gone {
      if x !in gone {
        assert IsAncestor(cur, t, x);
        var c := ChildOnPath(cur, t, x);
        assert false;
      }
    }
  }

  lemma ChildrenFirstAppend(notes: Arena, cur: Arena, order: seq<Uuid>, sub: seq<Uuid>)
    requires Valid(cur) && ChildrenFirst(notes, order) && ChildrenFirst(cur, sub)
    requires forall x :: x in sub ==> x in cur && x in notes && cur[x] == notes[x]
    requires forall x :: x in order ==> x !in cur
    ensures ChildrenFirst(notes, order + sub)
  {
    var all := order + sub;
    forall i, j | 0 <= i < j < |all| && all[j] in notes
      ensures notes[all[j]].parent != Some(all[i])
    {
      if j >= |order| {
        var y := all[j];
        assert y == sub[j - |order|];
        if i < |order| {
          if notes[y].parent.Some? {
            ParentChain(cur, y);
          }
        } else {
          assert all[i] == sub[i - |order|];
        }
      }
    }
  }

  /** The file removals in a deletion log are exactly the audio files of the
      deleted audio notes. */
  lemma {:induction false} DeletionFiles(notes: Arena, order: seq<Uuid>, u: Url)
    requires forall x :: x in order ==> x in notes
    ensures FileRemovalAttempted(u) in DeletionEffects(notes, order) <==>
              exists x :: x in order && notes[x].content.Audio? && FileUrl(notes[x].content) == u
    decreases |order|
  {
    if |order| > 0 {
      DeletionFiles(notes, order[1..], u);
      var n := notes[order[0]];
      if FileRemovalAttempted(u) in NoteDeletionEffects(n) {
        assert n.content.Audio? && FileUrl(n.content) == u;
      }
      if n.content.Audio? && FileUrl(n.content) == u {
        assert NoteDeletionEffects(n)[|NoteDeletionEffects(n)| - 1] == FileRemovalAttempted(u);
      }
      forall x | x in order ensures x == order[0] || x in order[1..] {
        var k :| 0 <= k < |order| && order[k] == x;
        if k > 0 { assert order[1..][k - 1] == x; }
      }
    }
  }

  /** In a store whose audio files are named after their notes, deleting a
      subtree never asks to remove the audio file of a note that survives. */
  lemma SurvivorFilesKept(notes: Arena, t: Uuid, order: seq<Uuid>, y: Uuid)
    requires Valid(notes) && AudioNamed(notes) && t in notes
    requires forall x :: x in order <==> x in Subtree(notes, t)
    requires y in notes && y !in Subtree(notes, t) && notes[y].content.Audio?
    ensures FileRemovalAttempted(FileUrl(notes[y].content)) !in DeletionEffects(notes, order)
  {
    var u := FileUrl(notes[y].content);
    forall x | x in order && notes[x].content.Audio? ensures FileUrl(notes[x].content) != u {
      assert x != y;
      AudioFileNameIdentifies(x, y);
      UrlForInjective(notes[x].content.fileName, notes[y].content.fileName);
    }
    DeletionFiles(notes, order, u);
  }

  /** The state of the drain loop of `DeleteNote(notes, t)`: the notes in
      `gone` (a closed part of the subtree strictly below `t`) are deleted, in
      `order`, with `effects`, and `cur` is what remains. */
  ghost predicate Draining(notes: Arena, t: Uuid, cur: Arena, gone: set<Uuid>,
                           order: seq<Uuid>, effects: seq<Effect>)
  {
    && Valid(notes) && t in notes
    && gone <= Subtree(notes, t) - {t}
    && Closed(notes, gone)
    && cur == notes - gone
    && Valid(cur) && t in cur
    && (forall y :: y in cur ==> Ancestry(cur, y) == Ancestry(notes, y))
    && Distinct(order) && (forall x :: x in order <==> x in gone)
    && (forall x :: x in order ==> x in notes)
    && ChildrenFirst(notes, order)
    && effects == DeletionEffects(notes, order)
  }

  /** The recursive deletion of a child's subtree stays strictly inside the
      subtree of `t`. */
  lemma DrainShrinks(notes: Arena, t: Uuid, cur: Arena, gone: set<Uuid>,
                     order: seq<Uuid>, effects: seq<Effect>, c: Uuid)
    requires Draining(notes, t, cur, gone, order, effects) && c in Children(cur, t)
    ensures |Subtree(cur, c)| < |Subtree(notes, t)|
  {
    DrainStep(notes, cur, gone, t, c);
    SubsetSize(Subtree(cur, c), Subtree(notes, t) - {t});
    SubtreeHasRoot(notes, t);
  }

  lemma DistinctConcat<T>(a: seq<T>, b: seq<T>)
    requires Distinct(a) && Distinct(b) && forall x :: x in a ==> x !in b
    ensures Distinct(a + b)
  {
    var all := a + b;
    forall i, j | 0 <= i < j < |all| ensures all[i] != all[j] {
      if i < |a| && j >= |a| {
        assert all[i] == a[i] && a[i] in a;
        assert all[j] == b[j - |a|];
      } else if i < |a| {
        assert all[i] == a[i] && all[j] == a[j];
      } else {
        assert all[i] == b[i - |a|] && all[j] == b[j - |a|];
      }
    }
  }

  /** Removing a child's subtree keeps the remaining arena as the drain loop
      needs it. */
  lemma DrainAdvanceArena(notes: Arena, t: Uuid, cur: Arena, gone: set<Uuid>, c: Uuid)
    requires Valid(notes) && t in notes && Valid(cur) && t in cur
    requires gone <= Subtree(notes, t) - {t} && Closed(notes, gone) && cur == notes - gone
    requires forall y :: y in cur ==> Ancestry(cur, y) == Ancestry(notes, y)
    requires c in Children(cur, t)
    ensures var g := gone + Subtree(cur, c);
            && g <= Subtree(notes, t) - {t} && Closed(notes, g)
            && cur - Subtree(cur, c) == notes - g
            && Valid(notes - g) && t in notes - g
            && (forall y :: y in notes - g ==> Ancestry(notes - g, y) == Ancestry(notes, y))
            && |gone| < |g| <= |Subtree(notes, t)|
  {
    DrainStep(notes, cur, gone, t, c);
    var s := Subtree(cur, c);
    assert cur - s == notes - (gone + s);
    RemoveClosed(notes, gone + s);
    SubsetSize(gone + s, Subtree(notes, t));
  }

  /** Appending a child's deletion order keeps the log of the drain loop. */
  lemma DrainAdvanceLog(notes: Arena, cur: Arena, gone: set<Uuid>, order: seq<Uuid>,
                        effects: seq<Effect>, s: set<Uuid>, sub: seq<Uuid>, eff: seq<Effect>)
    requires Valid(cur) && cur == notes - gone && s <= cur.Keys
    requires Distinct(order) && (forall x :: x in order <==> x in gone)
    requires forall x :: x in order ==> x in notes
    requires ChildrenFirst(notes, order) && effects == DeletionEffects(notes, order)
    requires ChildrenFirst(cur, sub) && Distinct(sub) && forall x :: x in sub <==> x in s
    requires eff == DeletionEffects(cur, sub)
    ensures Distinct(order + sub) && (forall x :: x in order + sub <==> x in gone + s)
    ensures forall x :: x in order + sub ==> x in notes
    ensures ChildrenFirst(notes, order + sub)
    ensures effects + eff == DeletionEffects(notes, order + sub)
  {
    DistinctConcat(order, sub);
    ChildrenFirstAppend(notes, cur, order, sub);
    DeletionEffectsFrame(notes, cur, sub);
    DeletionEffectsAppend(notes, order, sub);
  }

  /** Deleting one child's subtree advances the drain loop. */
  lemma DrainAdvance(notes: Arena, t: Uuid, cur: Arena, gone: set<Uuid>,
                     order: seq<Uuid>, effects: seq<Effect>, c: Uuid,
                     rest: Arena, sub: seq<Uuid>, eff: seq<Effect>)
    requires Draining(notes, t, cur, gone, order, effects) && c in Children(cur, t)
    requires rest == cur - Subtree(cur, c)
    requires ChildrenFirst(cur, sub) && forall x :: x in sub <==> x in Subtree(cur, c)
    requires Distinct(sub)
    requires eff == DeletionEffects(cur, sub)
    ensures Draining(notes, t, rest, gone + Subtree(cur, c), order + sub, effects + eff)
    ensures |gone| < |gone + Subtree(cur, c)| <= |Subtree(notes, t)|
  {
    DrainAdvanceArena(notes, t, cur, gone, c);
    DrainAdvanceLog(notes, cur, gone, order, effects, Subtree(cur, c), sub, eff);
  }

  /** The parent of a note is never in the note's own subtree. */
  lemma ParentOutsideSubtree(notes: Arena, t: Uuid)
    requires Valid(notes) && t in notes && notes[t].parent.Some?
    ensures notes[t].parent.value !in Subtree(notes, t)
  {
    ParentChain(notes, t);
    var c := Ancestry(notes, t).value;
    AncestrySound(notes, t);
    assert forall i :: 1 <= i < |c| ==> c[i] != c[0];
    assert t !in c[1..];
  }

  /** Once `t` has no children left, deleting `t` itself completes the deletion
      of its subtree. */
  lemma DrainFinish(notes: Arena, t: Uuid, cur: Arena, gone: set<Uuid>,
                    order: seq<Uuid>, effects: seq<Effect>)
    requires Draining(notes, t, cur, gone, order, effects) && Children(cur, t) == {}
    ensures cur - {t} == notes - Subtree(notes, t)
    ensures Valid(cur - {t})
    ensures Distinct(order + [t]) && forall x :: x in order + [t] <==> x in Subtree(notes, t)
    ensures ChildrenFirst(notes, order + [t])
    ensures effects + NoteDeletionEffects(cur[t]) == DeletionEffects(notes, order + [t])
  {
    DrainDone(notes, cur, gone, t);
    SubtreeHasRoot(notes, t);
    if notes[t].parent.Some? {
      ParentOutsideSubtree(notes, t);
    }
    DeletionEffectsAppend(notes, order, [t]);
    assert DeletionEffects(notes, [t]) == NoteDeletionEffects(cur[t]);
    assert Subtree(notes, t) == gone + {t};
    SubtreeClosed(notes, t);
    RemoveClosed(notes, Subtree(notes, t));
  }

  /** `deleteNote(_:)`: drains the children (each time any remaining one, as
      the order of the `children` array is unspecified), deleting each with its
      whole subtree, then deletes the note itself. Returns the arena without
      the subtree, the order in which notes were deleted, and the effects. */
  method DeleteNote(notes: Arena, t: Uuid) returns (notes': Arena, order: seq<Uuid>, effects: seq<Effect>)
    requires Valid(notes) && t in notes
    ensures notes' == notes - Subtree(notes, t)
    ensures Valid(notes')
    ensures Distinct(order) && forall x :: x in order <==> x in Subtree(notes, t)
    ensures |order| > 0 && order[|order| - 1] == t
    ensures ChildrenFirst(notes, order)
    ensures effects == DeletionEffects(notes, order)
    decreases |Subtree(notes, t)|
  {
    var cur: Arena := notes;
    ghost var gone: set<Uuid> := {};
    order := [];
    effects := [];
    assert notes - {} == notes;
    while Children(cur, t) != {}
      invariant Draining(notes, t, cur, gone, order, effects)
      invariant |gone| <= |Subtree(notes, t)|
      decreases |Subtree(notes, t)| - |gone|
    {
      var c :| c in Children(cur, t);
      DrainShrinks(notes, t, cur, gone, order, effects, c);
      var rest, sub, eff := DeleteNote(cur, c);
      DrainAdvance(notes, t, cur, gone, order, effects, c, rest, sub, eff);
      gone := gone + Subtree(cur, c);
      order := order + sub;
      effects := effects + eff;
      cur := rest;
    }
    DrainFinish(notes, t, cur, gone, order, effects);
    effects := effects + NoteDeletionEffects(cur[t]);
    order := order + [t];
    notes' := cur - {t};
  }
}
