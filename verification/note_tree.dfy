/**
 The tree shape of the note arena: parent chains, ancestry, subtrees, and the
 invariant every store operation keeps (Waynote/Models/Note.swift declares the
 unique id and the parent/children inverse; the rest of the app relies on the
 parent links forming a single tree).
 */
module NoteTree {
  import opened Common
  import opened Uuids
  import opened NoteModel

  /** `c` is the parent chain of `id`: it starts at `id`, follows parent links
      through stored notes, stops at a parentless note and never repeats. */
  ghost predicate IsChain(notes: Arena, id: Uuid, c: seq<Uuid>) {
    && |c| >= 1 && c[0] == id
    && (forall i :: 0 <= i < |c| ==> c[i] in notes)
    && (forall i :: 0 <= i < |c| - 1 ==> notes[c[i]].parent == Some(c[i + 1]))
    && notes[c[|c| - 1]].parent.None?
    && Distinct(c)
  }

  /** Follows parent links from `id`, refusing to revisit a note: `None` on a
      dangling parent link or a cycle, the chain otherwise. */
  function Walk(notes: Arena, id: Uuid, visited: set<Uuid>): (r: Option<seq<Uuid>>)
    decreases |notes.Keys - visited|
  {
    if id !in notes || id in visited then None
    else match notes[id].parent
      case None => Some([id])
      case Some(p) =>
        assert notes.Keys - (visited + {id}) == (notes.Keys - visited) - {id};
        var rest := Walk(notes, p, visited + {id});
        if rest.None? then None else Some([id] + rest.value)
  }

  /** The note, its parent, its grandparent, ... up to a root. */
  function Ancestry(notes: Arena, id: Uuid): Option<seq<Uuid>> {
    Walk(notes, id, {})
  }

  /** What the walk returns is a chain that avoids the visited notes. */
  lemma {:induction false} WalkSound(notes: Arena, id: Uuid, visited: set<Uuid>)
    requires Walk(notes, id, visited).Some?
    ensures IsChain(notes, id, Walk(notes, id, visited).value)
    ensures forall e :: e in Walk(notes, id, visited).value ==> e !in visited
    decreases |notes.Keys - visited|
  {
    var p := notes[id].parent;
    if p.Some? {
      assert notes.Keys - (visited + {id}) == (notes.Keys - visited) - {id};
      WalkSound(notes, p.value, visited + {id});
    }
  }

  /** The walk finds every chain that exists and avoids the visited notes. */
  lemma {:induction false} WalkComplete(notes: Arena, id: Uuid, c: seq<Uuid>, visited: set<Uuid>)
    requires IsChain(notes, id, c)
    requires forall e :: e in c ==> e !in visited
    ensures Walk(notes, id, visited) == Some(c)
    decreases |c|
  {
    if |c| > 1 {
      assert IsChain(notes, c[1], c[1..]);
      assert id !in c[1..];
      WalkComplete(notes, c[1], c[1..], visited + {id});
      assert [id] + c[1..] == c;
    } else {
      assert c == [id];
    }
  }

  /** `Ancestry` is exactly the parent chain: both directions. */
  lemma AncestryIsChain(notes: Arena, id: Uuid, c: seq<Uuid>)
    ensures Ancestry(notes, id) == Some(c) <==> IsChain(notes, id, c)
  {
    if IsChain(notes, id, c) {
      WalkComplete(notes, id, c, {});
    }
    if Ancestry(notes, id).Some? {
      WalkSound(notes, id, {});
    }
  }

  lemma AncestrySound(notes: Arena, id: Uuid)
    requires Ancestry(notes, id).Some?
    ensures IsChain(notes, id, Ancestry(notes, id).value)
  {
    WalkSound(notes, id, {});
  }

  lemma ChainSuffix(notes: Arena, id: Uuid, c: seq<Uuid>, k: nat)
    requires IsChain(notes, id, c) && k < |c|
    ensures IsChain(notes, c[k], c[k..])
  {
  }

  /** A chain depends only on the parent links of its own members. */
  lemma ChainFrame(notes: Arena, notes': Arena, id: Uuid, c: seq<Uuid>)
    requires IsChain(notes, id, c)
    requires forall e :: e in c ==> e in notes' && notes'[e].parent == notes[e].parent
    ensures IsChain(notes', id, c)
  {
  }

  /** Ancestry carries over to another arena that keeps the parent links of
      the chain's members. */
  lemma AncestryFrame(notes: Arena, m: Arena, y: Uuid)
    requires Ancestry(notes, y).Some?
    requires forall e :: e in Ancestry(notes, y).value ==>
               e in notes && e in m && m[e].parent == notes[e].parent
    ensures Ancestry(m, y) == Ancestry(notes, y)
  {
    var c := Ancestry(notes, y).value;
    AncestrySound(notes, y);
    ChainFrame(notes, m, y, c);
    AncestryIsChain(m, y, c);
  }

  /** The tree invariant: ids are the keys, every note reaches a root through
      stored parents without a cycle, and at most one note has no parent. */
  ghost predicate Valid(notes: Arena) {
    && (forall id :: id in notes ==> notes[id].id == id)
    && (forall id {:trigger Ancestry(notes, id)} :: id in notes ==> Ancestry(notes, id).Some?)
    && (forall a, b :: IsRoot(notes, a) && IsRoot(notes, b) ==> a == b)
  }

  predicate IsRoot(notes: Arena, id: Uuid) {
    id in notes && notes[id].parent.None?
  }

  /** Number of ancestors of a note. */
  function Depth(notes: Arena, id: Uuid): nat
    requires Ancestry(notes, id).Some?
  {
    |Ancestry(notes, id).value| - 1
  }

  /** `a` is `y` or one of its ancestors. */
  predicate IsAncestor(notes: Arena, a: Uuid, y: Uuid) {
    var c := Ancestry(notes, y);
    c.Some? && a in c.value
  }

  /** The note `t` and all its descendants. */
  ghost function Subtree(notes: Arena, t: Uuid): set<Uuid> {
    set y | y in notes && IsAncestor(notes, t, y)
  }

  /** A set of notes that holds every descendant of each of its members. */
  ghost predicate Closed(notes: Arena, d: set<Uuid>) {
    forall a, y :: a in d && y in notes && IsAncestor(notes, a, y) ==> y in d
  }

  /** The chain of an ancestor is a suffix of the chain of its descendant. */
  lemma AncestrySuffix(notes: Arena, y: Uuid, k: nat)
    requires Ancestry(notes, y).Some? && k < |Ancestry(notes, y).value|
    ensures Ancestry(notes, Ancestry(notes, y).value[k]) == Some(Ancestry(notes, y).value[k..])
  {
    var c := Ancestry(notes, y).value;
    AncestrySound(notes, y);
    ChainSuffix(notes, y, c, k);
    AncestryIsChain(notes, c[k], c[k..]);
  }

  lemma AncestorTransitive(notes: Arena, a: Uuid, b: Uuid, y: Uuid)
    requires IsAncestor(notes, a, b) && IsAncestor(notes, b, y)
    ensures IsAncestor(notes, a, y)
  {
    var c := Ancestry(notes, y).value;
    var k :| 0 <= k < |c| && c[k] == b;
    AncestrySuffix(notes, y, k);
    assert Ancestry(notes, b).value == c[k..];
  }

  lemma AncestorAntisymmetric(notes: Arena, a: Uuid, b: Uuid)
    requires IsAncestor(notes, a, b) && IsAncestor(notes, b, a)
    ensures a == b
  {
    var c := Ancestry(notes, b).value;
    var k :| 0 <= k < |c| && c[k] == a;
    AncestrySuffix(notes, b, k);
    var j :| 0 <= j < |c[k..]| && c[k..][j] == b;
    AncestrySound(notes, b);
    assert c[k + j] == c[0];
  }

  /** In a valid arena the parent of a note is stored, and its chain is the
      note's chain without the note. */
  lemma ParentChain(notes: Arena, y: Uuid)
    requires Valid(notes) && y in notes && notes[y].parent.Some?
    ensures notes[y].parent.value in notes
    ensures Ancestry(notes, notes[y].parent.value) == Some(Ancestry(notes, y).value[1..])
    ensures IsAncestor(notes, notes[y].parent.value, y)
  {
    var c := Ancestry(notes, y).value;
    AncestrySound(notes, y);
    assert |c| > 1;
    AncestrySuffix(notes, y, 1);
  }

  lemma SubtreeHasRoot(notes: Arena, t: Uuid)
    requires Valid(notes) && t in notes
    ensures t in Subtree(notes, t)
  {
  }

  /** The root of a valid arena is an ancestor of every note. */
  lemma RootIsAncestorOfAll(notes: Arena, r: Uuid, y: Uuid)
    requires Valid(notes) && IsRoot(notes, r) && y in notes
    ensures IsAncestor(notes, r, y)
    ensures Ancestry(notes, y).value[Depth(notes, y)] == r
  {
    var c := Ancestry(notes, y).value;
    AncestrySound(notes, y);
    assert IsRoot(notes, c[|c| - 1]);
  }

  /** A non-empty valid arena has a root. */
  lemma HasRoot(notes: Arena, y: Uuid)
    requires Valid(notes) && y in notes
    ensures exists r :: IsRoot(notes, r)
  {
    var c := Ancestry(notes, y).value;
    AncestrySound(notes, y);
    assert IsRoot(notes, c[|c| - 1]);
  }

  /** Removing a closed set keeps the arena valid, and the survivors keep
      their ancestry. */
  lemma RemoveClosed(notes: Arena, d: set<Uuid>)
    requires Valid(notes) && Closed(notes, d)
    ensures Valid(notes - d)
    ensures forall y :: y in notes - d ==> Ancestry(notes - d, y) == Ancestry(notes, y)
  {
    var rest := notes - d;
    forall y | y in rest
      ensures Ancestry(rest, y) == Ancestry(notes, y)
    {
      var c := Ancestry(notes, y).value;
      AncestrySound(notes, y);
      forall e | e in c ensures e in notes && e in rest && rest[e].parent == notes[e].parent {
        assert IsAncestor(notes, e, y);
      }
      AncestryFrame(notes, rest, y);
    }
    assert forall a :: IsRoot(rest, a) ==> IsRoot(notes, a);
    assert forall id :: id in rest ==> Ancestry(rest, id).Some? by {
      forall id | id in rest ensures Ancestry(rest, id).Some? {
        assert Ancestry(notes, id).Some?;
      }
    }
  }

  /** Adding a fresh note under a stored parent keeps the arena valid; the
      new note has the parent's chain above it and no children, and everyone
      else keeps their ancestry. */
  lemma InsertLeaf(notes: Arena, n: Note)
    requires Valid(notes) && n.id !in notes
    requires n.parent.Some? && n.parent.value in notes
    ensures Valid(notes[n.id := n])
    ensures forall y :: y in notes ==> Ancestry(notes[n.id := n], y) == Ancestry(notes, y)
    ensures Ancestry(notes[n.id := n], n.id)
            == Some([n.id] + Ancestry(notes, n.parent.value).value)
    ensures Children(notes[n.id := n], n.id) == {}
  {
    var m := notes[n.id := n];
    forall y | y in notes ensures Ancestry(m, y) == Ancestry(notes, y) {
      AncestrySound(notes, y);
      AncestryFrame(notes, m, y);
    }
    var pc := Ancestry(notes, n.parent.value).value;
    AncestrySound(notes, n.parent.value);
    ChainFrame(notes, m, n.parent.value, pc);
    assert IsChain(m, n.id, [n.id] + pc);
    AncestryIsChain(m, n.id, [n.id] + pc);
    forall c | c in m && m[c].parent == Some(n.id) ensures false {
      ParentChain(notes, c);
    }
    assert forall a :: IsRoot(m, a) ==> IsRoot(notes, a);
    assert forall id :: id in m ==> Ancestry(m, id).Some? by {
      forall id | id in m ensures Ancestry(m, id).Some? {
        if id != n.id { assert Ancestry(notes, id).Some?; }
      }
    }
  }

  /** Changing a note without touching its parent link keeps the arena valid
      and every ancestry as it was. */
  lemma UpdateInPlace(notes: Arena, n: Note)
    requires Valid(notes) && n.id in notes && n.parent == notes[n.id].parent
    ensures Valid(notes[n.id := n])
    ensures forall y :: y in notes ==> Ancestry(notes[n.id := n], y) == Ancestry(notes, y)
  {
    var m := notes[n.id := n];
    forall y | y in notes ensures Ancestry(m, y) == Ancestry(notes, y) {
      AncestrySound(notes, y);
      AncestryFrame(notes, m, y);
    }
    assert forall a :: IsRoot(m, a) ==> IsRoot(notes, a);
    assert forall id :: id in m ==> Ancestry(m, id).Some? by {
      forall id | id in m ensures Ancestry(m, id).Some? {
        assert Ancestry(notes, id).Some?;
      }
    }
  }

  /** `children` is the inverse of `parent`: in a valid arena every note but
      the root is a child of exactly one stored note, its parent, and a note
      without a parent is the only such note. */
  lemma ChildOfExactlyOne(notes: Arena, c: Uuid, q: Uuid)
    requires Valid(notes) && c in notes
    ensures notes[c].parent.Some? ==> notes[c].parent.value in notes
    ensures c in Children(notes, q) <==> notes[c].parent == Some(q)
    ensures notes[c].parent.None? ==> forall x :: IsRoot(notes, x) ==> x == c
  {
    if notes[c].parent.Some? {
      ParentChain(notes, c);
    } else {
      assert IsRoot(notes, c);
    }
  }

  /** A note strictly below `t` lies in the subtree of some child of `t`. */
  lemma ChildOnPath(notes: Arena, t: Uuid, x: Uuid) returns (c: Uuid)
    requires Valid(notes) && x in notes && IsAncestor(notes, t, x) && x != t
    ensures c in notes && notes[c].parent == Some(t) && IsAncestor(notes, c, x)
    ensures c in Children(notes, t)
  {
    var ch := Ancestry(notes, x).value;
    AncestrySound(notes, x);
    var k :| 0 <= k < |ch| && ch[k] == t;
    assert k > 0;
    c := ch[k - 1];
  }
}
