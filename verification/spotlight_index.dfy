/**
 The records the app hands to the system search index
 (Waynote/Models/SpotlightIndex.swift): a display title with fallbacks, a
 breadcrumb of titles from the root down to the note, a short content
 description, and the identifier and domain under which the note is indexed.
 Submitting records to the index is fire-and-forget and is not modelled;
 the record and the identifiers to remove are.
 */
module SpotlightIndex {
  import opened Common
  import opened Strings
  import opened Uuids
  import opened NoteModel
  import opened NoteTree

  const DomainIdentifier: string := "note"

  /** " › " (U+203A between two spaces). */
  const Separator: string := [' ', 0x203A as char, ' ']

  /** Longest prefix of a text note taken into its description. */
  const DescriptionLimit: nat := 256

  /** The fallback shown for an untitled note, by content kind. */
  function FallbackTitle(c: Content): string {
    match c
    case NoContent => "Waynote"
    case Text(_) => "Text Note"
    case Audio(_, _) => "Audio Note"
    case Plain => "Unknown Note"
  }

  /** `getTitle(for:)`: the title when it is not empty, otherwise the
      fallback for the note's content kind. */
  function DisplayTitle(n: Note): (r: string)
    ensures |r| > 0
    ensures n.title != [] ==> r == n.title
    ensures n.title == [] ==> r == FallbackTitle(n.content)
  {
    if n.title != [] then n.title else FallbackTitle(n.content)
  }

  /** The fallbacks tell the content kinds apart. */
  lemma FallbackDistinguishesKinds(a: Content, b: Content)
    ensures FallbackTitle(a) == FallbackTitle(b) <==>
              (a.NoContent? && b.NoContent?) || (a.Text? && b.Text?)
              || (a.Audio? && b.Audio?) || (a.Plain? && b.Plain?)
  {
    if FallbackTitle(a) == FallbackTitle(b) {
      var fa := FallbackTitle(a);
      assert fa[0] == FallbackTitle(b)[0] && fa[|fa| - 1] == FallbackTitle(b)[|fa| - 1];
    }
  }

  /** Display titles of the notes in `ids`, in order. */
  function Titles(notes: Arena, ids: seq<Uuid>): (r: seq<string>)
    requires forall x :: x in ids ==> x in notes
    ensures |r| == |ids|
    ensures forall i :: 0 <= i < |ids| ==> r[i] == DisplayTitle(notes[ids[i]])
  {
    seq(|ids|, i requires 0 <= i < |ids| => DisplayTitle(notes[ids[i]]))
  }

  /** `getContainerTitle(for:)`: the display titles from the root down to the
      note, joined by " › ". */
  function Breadcrumb(notes: Arena, id: Uuid): string
    requires Valid(notes) && id in notes
  {
    var chain := Ancestry(notes, id).value;
    AncestrySound(notes, id);
    Join(Titles(notes, Reverse(chain)), Separator)
  }

  /** The breadcrumb has one part per note on the way from the root (first) to
      the note itself (last). */
  lemma BreadcrumbParts(notes: Arena, id: Uuid, root: Uuid)
    requires Valid(notes) && id in notes && IsRoot(notes, root)
    ensures var chain := Ancestry(notes, id).value;
            && (forall x :: x in chain ==> x in notes)
            && var parts := Titles(notes, Reverse(chain));
            && |parts| == Depth(notes, id) + 1
            && parts[0] == DisplayTitle(notes[root])
            && parts[|parts| - 1] == DisplayTitle(notes[id])
            && Breadcrumb(notes, id) == Join(parts, Separator)
            && DisplayTitle(notes[root]) <= Breadcrumb(notes, id)
            && EndsWith(Breadcrumb(notes, id), DisplayTitle(notes[id]))
  {
    var chain := Ancestry(notes, id).value;
    AncestrySound(notes, id);
    RootIsAncestorOfAll(notes, root, id);
    var parts := Titles(notes, Reverse(chain));
    JoinEnds(parts, Separator);
  }

  /** The breadcrumb of a child extends its parent's by one separator and the
      child's own title. */
  lemma BreadcrumbOfChild(notes: Arena, c: Uuid)
    requires Valid(notes) && c in notes && notes[c].parent.Some?
    ensures notes[c].parent.value in notes
    ensures Breadcrumb(notes, c)
            == Breadcrumb(notes, notes[c].parent.value) + Separator + DisplayTitle(notes[c])
  {
    var p := notes[c].parent.value;
    ParentChain(notes, c);
    var chain := Ancestry(notes, c).value;
    var pchain := Ancestry(notes, p).value;
    AncestrySound(notes, c);
    AncestrySound(notes, p);
    assert chain == [c] + pchain;
    assert Reverse(chain) == Reverse(pchain) + [c];
    assert Titles(notes, Reverse(chain)) == Titles(notes, Reverse(pchain)) + [DisplayTitle(notes[c])];
    JoinSnoc(Titles(notes, Reverse(pchain)), DisplayTitle(notes[c]), Separator);
  }

  function Min(a: int, b: int): int {
    if a < b then a else b
  }

  /** `getContentDescription(for:)`: for text, its first 256 characters trimmed
      of whitespace; "Audio Recording" for audio; nothing otherwise. */
  function ContentDescription(c: Content): (r: Option<string>)
    ensures r.Some? <==> c.Text? || c.Audio?
    ensures c.Audio? ==> r == Some("Audio Recording")
    ensures c.Text? ==>
              && |r.value| <= DescriptionLimit
              && var prefix := c.text[..Min(|c.text|, DescriptionLimit)];
              && (exists i :: TrimmedAt(prefix, r.value, i))
              && (r.value == [] <==> AllWhitespace(prefix))
              && (r.value == [] || (!IsWhitespace(r.value[0]) && !IsWhitespace(r.value[|r.value| - 1])))
  {
    match c
    case Text(t) => Some(Trim(t[..Min(|t|, DescriptionLimit)]))
    case Audio(_, _) => Some("Audio Recording")
    case _ => None
  }

  /** A short text without surrounding whitespace is its own description. */
  lemma ShortCleanTextDescribesItself(t: string)
    requires 0 < |t| <= DescriptionLimit && !IsWhitespace(t[0]) && !IsWhitespace(t[|t| - 1])
    ensures ContentDescription(Text(t)) == Some(t)
  {
    assert t[..Min(|t|, DescriptionLimit)] == t;
    TrimKeepsClean(t);
  }

  /** The attribute set and identifiers of a `CSSearchableItem`. */
  datatype Item = Item(
    uniqueIdentifier: string,
    domainIdentifier: string,
    title: string,
    containerTitle: string,
    contentCreationDate: int,
    contentDescription: Option<string>,
    textContent: Option<string>)

  /** The record `index(note:)` submits for a note. */
  function BuildItem(notes: Arena, id: Uuid): (r: Item)
    requires Valid(notes) && id in notes
    ensures ParseUuid(r.uniqueIdentifier) == Some(id)
    ensures r.domainIdentifier == DomainIdentifier
    ensures r.title == DisplayTitle(notes[id]) && r.containerTitle == Breadcrumb(notes, id)
    ensures r.contentCreationDate == notes[id].dateCreated
    ensures r.contentDescription == ContentDescription(notes[id].content)
    ensures r.textContent.Some? <==> notes[id].content.Text?
    ensures r.textContent.Some? ==> r.textContent.value == notes[id].content.text
  {
    var n := notes[id];
    ParseUuidString(id);
    Item(UuidString(id), DomainIdentifier, DisplayTitle(n), Breadcrumb(notes, id),
         n.dateCreated, ContentDescription(n.content),
         if n.content.Text? then Some(n.content.text) else None)
  }

  /** Identifiers `delete(noteID:)` asks the index to remove. */
  function DeletionIdentifiers(id: Uuid): (r: seq<string>)
    ensures |r| == 1 && ParseUuid(r[0]) == Some(id)
  {
    ParseUuidString(id);
    [UuidString(id)]
  }

  /** Deleting a note from the index names exactly the record indexed for it,
      and records of different notes never share an identifier. */
  lemma IndexIdentifiersAgree(notes: Arena, a: Uuid, b: Uuid)
    requires Valid(notes) && a in notes && b in notes
    ensures DeletionIdentifiers(a) == [BuildItem(notes, a).uniqueIdentifier]
    ensures BuildItem(notes, a).uniqueIdentifier == BuildItem(notes, b).uniqueIdentifier <==> a == b
  {
    if UuidString(a) == UuidString(b) {
      UuidStringInjective(a, b);
    }
  }
}
