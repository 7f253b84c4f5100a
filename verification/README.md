# Waynote note tree — a Dafny model

Waynote is an iOS note-taking app whose notes form a single tree. A note has:

- a unique id;
- a creation date and a title;
- an optional parent;
- optional content: text, or a recorded audio file that lives in the app's "AudioFiles" folder.

This project models the core of the app as pure Dafny functions over an immutable arena, a map from note id to note record. The `children` relationship is derived from the parent links, because the source declares it as their inverse.

On top of the arena the project models:

- the tree invariant: every note reaches the single parentless root through stored parents, without a cycle;
- the store: fetch-or-create the root, look up a note, create text and audio notes, and delete a note together with its whole subtree (manual cascading);
- the records handed to the system search index: display title, breadcrumb, content summary, identifier and domain;
- the navigation stack computed for a note;
- the logic of the note screen: the sorted child list, renaming, adding and deleting children;
- the search sheet, as an event-driven state machine: searching, receiving responses, finishing a stream, closing the sheet;
- the audio recorder and audio player state machines, and their `m:ss` time label.

Persistence, file-system, search-engine and audio-device calls become explicit effects or success flags.

Modules:

| module | file | models |
|---|---|---|
| `Common` | common.dfy | `Option`, `Distinct`, `Reverse` |
| `Strings` | strings.dfy | whitespace trimming, `joined(separator:)`, `%d` / `%02d` |
| `Clock` | clock.dfy | the shared `m:ss` formatter with Swift's truncating `Int(_:)`, `/` and `%` |
| `Uuids` | uuids.dfy | `uuidString` (upper-case 8-4-4-4-12) and `UUID(uuidString:)` |
| `AudioFiles` | audio_files.dfy | `baseURL`, `url(for:)` |
| `NoteModel` | note_model.dfy | `Note`, the content variants, the arena, derived `children` and `fileURL` |
| `NoteTree` | note_tree.dfy | ancestry walk, the tree invariant `Valid`, subtrees, insert/update/remove lemmas |
| `NoteStore` | note_store.dfy | `NoteStore` operations with their effect log |
| `SpotlightIndex` | spotlight_index.dfy | the search record and the identifiers to delete |
| `Router` | router.dfy | `navigate` |
| `NoteDetail` | note_detail.dfy | `NoteDetailView` actions and child query |
| `Search` | search.dfy | `SearchSheet` |
| `AudioRecorder` | audio_recorder.dfy | `AudioRecorderView` |
| `AudioPlayer` | audio_player.dfy | `AudioPlayerView` |

Store operations return the effects they ask for, in order:

- `Inserted(id)`: insert a note record.
- `ContentDeleted(id)`: delete the note's content record.
- `RecordDeleted(id)`: delete the note record.
- `Saved`: `save()`. A failed save is only logged, so it never changes the arena.
- `FileRemovalAttempted(url)`: try to remove the audio file. A failure is only logged.

In three places the model follows the code where a reader might expect otherwise:

- The navigation stack includes the target note as its last element. Only the root is dropped.
- An untitled note without content is shown as "Waynote". A bare `NoteContent` is shown as "Unknown Note".
- Callers use `router.navigate(noteID:context:)` and `store.saveNote(_:)`. The declarations are `navigate(id:context:)` and `save()`. The model treats each caller as calling the declared method.

## Model

| member | source | states |
|---|---|---|
| `Uuids.ParseUuid` | Waynote/Views/SearchSheet.swift:102-110 | `UUID(uuidString:)` accepts exactly the well-formed 8-4-4-4-12 hexadecimal strings, in either case, and rejects everything else |
| `Uuids.ParseUuidString` | Waynote/Models/SpotlightIndex.swift:27 | an identifier written as `uuidString` parses back to the same UUID |
| `Uuids.UuidStringOfParse` | Waynote/Views/SearchSheet.swift:102 | a well-formed identifier without lower-case letters is the `uuidString` of the UUID it parses to |
| `Uuids.UuidStringInjective` | Waynote/Models/NoteStore.swift:68-69 | different UUIDs never share a `uuidString` |
| `AudioFiles.AccessBaseUrl` | Waynote/Models/AudioFiles.swift:14-28 | reading `baseURL` always returns documents directory / "AudioFiles". A successful creation adds that folder and its ancestors and nothing else; a failed one is logged and changes nothing |
| `AudioFiles.AccessBaseUrlIdempotent` | Waynote/Models/AudioFiles.swift:19-23 | creating with intermediate directories twice is the same as once |
| `AudioFiles.UrlForInjective` | Waynote/Models/AudioFiles.swift:30-32 | `url(for:)` puts every file directly in the audio folder, and different file names give different URLs |
| `NoteTree.AncestryIsChain` | Waynote/Models/Note.swift:22-25 | the ancestor walk returns a chain exactly when that chain starts at the note, follows stored parent links without repeating a note, and ends at a parentless note |
| `NoteTree.ChildOfExactlyOne` | Waynote/Models/Note.swift:22-25 | in a valid arena the parent of every note is stored, and a note without parent is the only parentless note. That a note is a child of `q` exactly when its parent is `q` holds by the definition of the derived `children` |
| `NoteTree.AncestorAntisymmetric` | Waynote/Models/Note.swift:22 | parent links have no cycles: two notes that are each other's ancestor are the same note |
| `NoteTree.AncestorTransitive` | Waynote/Models/Note.swift:22 | an ancestor of an ancestor is an ancestor |
| `NoteTree.RootIsAncestorOfAll` | Waynote/Models/Note.swift:22 | the notes form one tree: the root is the last element of every note's ancestor chain |
| `NoteTree.RemoveClosed` | Waynote/Models/Note.swift:24-25 | removing a set of notes that holds all descendants of its members keeps the arena a valid tree, and the survivors keep their ancestry |
| `NoteTree.InsertLeaf` | Waynote/Models/Note.swift:27-41 | a new note with a stored parent keeps the tree valid, has no children, and has the parent's chain above it; no other note's ancestry changes |
| `NoteTree.UpdateInPlace` | Waynote/Models/Note.swift:16-21 | changing anything of a note but its parent link (title, content) keeps the tree valid and every ancestry as it was |
| `NoteStore.AudioFileNameIdentifies` | Waynote/Models/NoteStore.swift:68-69 | an audio file name starts with its note's id as a parseable `uuidString`, so two notes never share a file name |
| `NoteStore.FetchRoot` | Waynote/Models/NoteStore.swift:24-41 | an existing parentless note is returned and nothing changes. Otherwise the store was empty and exactly one note titled "Waynote" without parent or content is inserted and saved. Either way the result is the only root |
| `NoteStore.FetchRootIdempotent` | Waynote/Models/NoteStore.swift:24-41 | a second `fetchRootNote` returns the same note and has no effect |
| `NoteStore.FetchRootAsWritten` | Waynote/Models/NoteStore.swift:28-41 | a failed fetch is treated like "no root": a new "Waynote" root is inserted and saved |
| `NoteStore.FailedRootFetchDuplicatesRoot` | Waynote/Models/NoteStore.swift:30-38 | on a non-empty store, a failed fetch leaves two parentless notes and breaks the tree invariant |
| `NoteStore.FetchRootChecked` | Waynote/Models/NoteStore.swift:24-41 | with a failed fetch kept apart from "no root", the store always has exactly one root afterwards |
| `NoteStore.FetchNote` | Waynote/Models/NoteStore.swift:44-57 | a note is returned exactly when it is stored and the fetch succeeds, and it is the stored note with that id; it never fails otherwise |
| `NoteStore.CreateTextNote` | Waynote/Models/NoteStore.swift:59-65 | exactly one note is added: untitled, with empty text, under the given parent, and without children. Nothing else changes; it is inserted, then saved |
| `NoteStore.CreateAudioNote` | Waynote/Models/NoteStore.swift:67-75 | exactly one untitled note is added under the parent. Its file name is its own id's `uuidString` + ".m4a" and its duration is 0. Nothing else changes, and audio files stay named after their notes |
| `NoteStore.NoteDeletionEffects` | Waynote/Models/NoteStore.swift:82-100 | deleting one note deletes its content record only if it has content, always deletes the note record, and removes a file only for audio content, as the last step after the record deletion |
| `NoteStore.DeleteNote` | Waynote/Models/NoteStore.swift:77-102 | the subtree is removed and nothing else: the arena becomes the old one minus the note and all its descendants, and stays a valid tree. Each subtree note is deleted once, children before parents, the note itself last. The effect log is the per-note deletion effects in that order |
| `NoteStore.DeletionFiles` | Waynote/Models/NoteStore.swift:82-100 | a deletion log asks to remove exactly the audio files of the deleted audio notes |
| `NoteStore.SurvivorFilesKept` | Waynote/Models/NoteStore.swift:82-91 | when audio files are named after their notes, deleting a subtree never asks to remove the file of a note that survives |
| `SpotlightIndex.DisplayTitle` | Waynote/Models/SpotlightIndex.swift:55-69 | the display title is never empty. It is the title when that is non-empty, otherwise the fallback for the content kind |
| `SpotlightIndex.FallbackDistinguishesKinds` | Waynote/Models/SpotlightIndex.swift:59-68 | the fallbacks "Waynote", "Text Note", "Audio Note" and "Unknown Note" are equal exactly for the same content kind |
| `SpotlightIndex.BreadcrumbParts` | Waynote/Models/SpotlightIndex.swift:71-77 | the breadcrumb joins depth + 1 display titles, with " › " between them. It starts with the root's title and ends with the note's own |
| `SpotlightIndex.BreadcrumbOfChild` | Waynote/Models/SpotlightIndex.swift:71-77 | a child's breadcrumb is its parent's breadcrumb, then " › ", then the child's title |
| `SpotlightIndex.ContentDescription` | Waynote/Models/SpotlightIndex.swift:79-88 | text gives its first 256 characters trimmed of surrounding whitespace: at most 256 long, empty only if that prefix is all whitespace. Audio gives "Audio Recording"; other content gives nothing |
| `SpotlightIndex.ShortCleanTextDescribesItself` | Waynote/Models/SpotlightIndex.swift:81-82 | a text of at most 256 characters without surrounding whitespace is its own description |
| `SpotlightIndex.BuildItem` | Waynote/Models/SpotlightIndex.swift:14-40 | the record's identifier parses back to the note id, and its domain is "note". It carries the display title, breadcrumb, creation date and description; text content is set exactly for text notes, and is their text |
| `SpotlightIndex.DeletionIdentifiers` | Waynote/Models/SpotlightIndex.swift:42-53 | removing a note from the index names one identifier, and it parses back to the note id |
| `SpotlightIndex.IndexIdentifiersAgree` | Waynote/Models/SpotlightIndex.swift:42-53 | the identifier removed is the one indexed for the note, and records of different notes never share an identifier |
| `Router.PathTo` | Waynote/Helpers/Router.swift:26-30 | the stack has as many entries as the note has ancestors. It is empty exactly for the root and otherwise ends with the target. Its first entry is a child of the root, and each entry is the parent of the next |
| `Router.Navigate` | Waynote/Helpers/Router.swift:20-31 | an unknown id or a failed fetch leaves the path unchanged; otherwise the path becomes the stack for the note |
| `Router.NavigateReplaces` | Waynote/Helpers/Router.swift:30 | the path is replaced wholesale: the previous path does not matter |
| `Router.PathOfChild` | Waynote/Helpers/Router.swift:26-30 | the stack for a child is the stack for its parent followed by the child |
| `NoteDetail.SortedChildren` | Waynote/Views/NoteDetailView.swift:27-36 | the listed children are exactly the notes whose parent is this note, each once, in ascending creation date |
| `NoteDetail.BeginRename` | Waynote/Views/NoteDetailView.swift:91-94 | "Rename" opens the alert with the current title as the draft and touches nothing else |
| `NoteDetail.CancelRename` | Waynote/Views/NoteDetailView.swift:110 | "Cancel" closes the alert and touches nothing else |
| `NoteDetail.ConfirmRename` | Waynote/Views/NoteDetailView.swift:111-114 | "OK" stores the draft trimmed of surrounding whitespace and newlines as the title of this note only, keeps the tree valid, saves, and closes the alert |
| `NoteDetail.RenameIdempotent` | Waynote/Views/NoteDetailView.swift:111-114 | renaming again with the draft the alert starts from changes nothing |
| `NoteDetail.EndTextEditing` | Waynote/Views/NoteDetailView.swift:41-45 | finishing a text edit stores the new text in this note only, keeps the tree valid, and saves |
| `NoteDetail.AddText` | Waynote/Views/NoteDetailView.swift:78-81 | "Add Text" creates a text child and opens it: when the router's fetch of the child succeeds the stack becomes this note's stack followed by the child, and when it fails the stack stays as it was |
| `NoteDetail.AddAudio` | Waynote/Views/NoteDetailView.swift:82-86 | "Add Audio" creates an audio child and opens the recorder on that child's content, without navigating |
| `NoteDetail.DeleteChild` | Waynote/Views/NoteDetailView.swift:65-67 | "Delete" on a child removes exactly the child's subtree, each descendant before its parent and each once, with the store's deletion effects (content record deleted, note record deleted, file removal for audio) in that order; this note stays unchanged |
| `Search.Accepts` | Waynote/Views/SearchSheet.swift:99-114 | a response counts exactly when it is an item, its identifier parses as a UUID, and that note can be fetched |
| `Search.Step` | Waynote/Views/SearchSheet.swift:99-118 | one response appends at most one note, only an accepted one and only if its id is not listed yet; earlier results are kept in place and no id is listed twice |
| `Search.HandleResponses` | Waynote/Views/SearchSheet.swift:97-119 | the response loop only appends to the list and never lists an id twice |
| `Search.FirstOccurrences` | Waynote/Views/SearchSheet.swift:115-118 | reference definition: the ids not seen before, each at its first occurrence, without repetition |
| `Search.HandleIsFirstOccurrences` | Waynote/Views/SearchSheet.swift:97-119 | the response loop appends exactly the first occurrences of the accepted ids not already listed, in stream order |
| `Search.HandleFromEmpty` | Waynote/Views/SearchSheet.swift:92-119 | a stream read into an empty list lists every accepted note once, in first-seen order, and nothing else |
| `Search.StartQuery` | Waynote/Views/SearchSheet.swift:78-88 | a new query first cancels the query and handler in progress, then becomes the only live one, filtered to the "note" domain; its handler is started but has not yet read `userQuery` |
| `Search.PerformSearchAsWritten` | Waynote/Views/SearchSheet.swift:72-89 | results are always cleared. A blank trimmed text starts nothing and leaves any query in progress alive; any other text starts a new query |
| `Search.EditTextAsWritten` | Waynote/Views/SearchSheet.swift:32-34 | every change of the text stores it and runs the search as written: a blank text leaves the query, handler and streams as they were |
| `Search.BlankTextKeepsStaleQuery` | Waynote/Views/SearchSheet.swift:74-77 | after a search, clearing the field keeps the old query live, and its next item is listed under an empty field |
| `Search.PerformSearch` | Waynote/Views/SearchSheet.swift:72-89 | corrected: a blank text also cancels the query in progress. The sheet's guarantees are kept: only the current query delivers, and it searches the trimmed text in the field |
| `Search.EditText` | Waynote/Views/SearchSheet.swift:32-34 | corrected: every change of the text runs the corrected search, so a blank text cancels the query in progress; the sheet's guarantees are kept |
| `Search.BlankTextSilencesQuery` | Waynote/Views/SearchSheet.swift:74-79 | corrected: after the field is cleared, nothing the old query delivers reaches the sheet |
| `Search.Begin` | Waynote/Views/SearchSheet.swift:92-95 | a handler's body reads the current query when it starts: with none it returns at once without cleaning up, otherwise it reads that query from then on; the sheet's guarantees are kept |
| `Search.Deliver` | Waynote/Views/SearchSheet.swift:98-118 | only a running handler reading a live stream changes the results, by one loop step; the sheet's guarantees are kept |
| `Search.DeliveredForCurrentText` | Waynote/Views/SearchSheet.swift:72-89 | under the sheet's guarantees, any response that changes the sheet comes from the query the handler read, which is the current query for the text now in the field |
| `Search.FinishAsWritten` | Waynote/Views/SearchSheet.swift:125-126 | when a handler leaves its loop, the query it read is cancelled and the sheet's current query is cleared, whichever query that is |
| `Search.StaleFinishOrphansQuery` | Waynote/Views/SearchSheet.swift:125-126 | if a replaced query's handler returns after its successor started, the sheet forgets the successor while the successor is still live; the successor's handler then finds no query, returns, and nothing the successor delivers is listed |
| `Search.Finish` | Waynote/Views/SearchSheet.swift:125-126 | corrected: a returning handler cancels the query it read and clears the current query only if it is that one; the sheet's guarantees are kept |
| `Search.BeginOnOwnQuery` | Waynote/Views/SearchSheet.swift:86-95 | corrected: a handler's body reads the query it was created with, whenever it starts; the sheet's guarantees are kept and every begun handler reads its own query |
| `Search.FinishSparesCurrent` | Waynote/Views/SearchSheet.swift:125-126 | corrected: when every handler reads its own query, a handler other than the current query's never clears or cancels the current query when it returns, in any order of events |
| `Search.LateBeginCancelsSuccessor` | Waynote/Views/SearchSheet.swift:92-95 | with only the finish corrected, a handler whose body starts after the next query replaced its own reads and then cancels that next query, so nothing the next query delivers is listed |
| `Search.FinishKeepsSuccessor` | Waynote/Views/SearchSheet.swift:86-95 | corrected: whether a stale handler's body began before or after its successor started, after it returns the successor's handler still reads the successor's query and lists what it delivers |
| `Search.Close` | Waynote/Views/SearchSheet.swift:62-69 | closing resets the text, cancels and forgets the query and handler, and clears the results |
| `AudioRecorder.StartRecording` | Waynote/Views/AudioRecorderView.swift:91-126 | a launched start, running later: recording starts only when permission, session set-up and recorder creation all succeed, and then restarts the elapsed time at 0, replacing any earlier recorder. Any failure changes nothing else; with no start launched nothing happens |
| `AudioRecorder.Tap` | Waynote/Views/AudioRecorderView.swift:51-61 | tapping while recording dismisses the sheet; tapping while idle starts watching interruptions and launches one more start, without recording yet |
| `AudioRecorder.DoubleTapRestarts` | Waynote/Views/AudioRecorderView.swift:51-61 | two idle taps before the first start runs launch two starts; when both succeed the second restarts the clock at its own time |
| `AudioRecorder.DisappearThenLateStart` | Waynote/Views/AudioRecorderView.swift:55-60 | if the sheet closes after a tap but before the launched start runs, the note's subtree is deleted, yet the start can still succeed afterwards, when permission, session set-up and recorder creation all succeed, and then records into a file that no surviving note names |
| `AudioRecorder.Tick` | Waynote/Views/AudioRecorderView.swift:76-80 | elapsed time changes only while recording, and then becomes the time since the start |
| `AudioRecorder.ElapsedSinceStart` | Waynote/Views/AudioRecorderView.swift:122-125 | after a tap and a successful start a tick shows the time since that start |
| `AudioRecorder.Interrupt` | Waynote/Views/AudioRecorderView.swift:150-164 | once the watch has started, an interruption that begins dismisses the sheet; an unreadable or ending one, or any before the watch, is ignored |
| `AudioRecorder.InterruptNeedsTap` | Waynote/Views/AudioRecorderView.swift:51-61 | an interruption before the first tap leaves the sheet open; after an idle tap one that begins closes it, whether the launched start has run yet or not, and whether or not it succeeded |
| `AudioRecorder.Disappear` | Waynote/Views/AudioRecorderView.swift:81-87 | leaving while recording stops the recording as `stopRecording` does: the recorder is released and the duration is set when it can be read. The note is then saved and nothing else changes. Leaving without a recording deletes the note's subtree, including the request to remove its audio file, so an unrecorded audio note does not survive |
| `AudioPlayer.SliderUpperBound` | Waynote/Views/AudioPlayerView.swift:33-35 | the slider ends at the duration when that is positive, and at 1 otherwise |
| `AudioPlayer.Play` | Waynote/Views/AudioPlayerView.swift:113-142 | nothing happens while playing. Otherwise playback starts exactly when a player exists or can be created and the session is set up, and then it starts at the shown progress |
| `AudioPlayer.Pause` | Waynote/Views/AudioPlayerView.swift:144-147 | pausing always stops playback and keeps the progress |
| `AudioPlayer.Seek` | Waynote/Views/AudioPlayerView.swift:149-156 | the progress becomes the target clamped to [0, duration]. A paused player stays paused; a playing one plays on from there exactly when the session is set up |
| `AudioPlayer.BeginSliderEdit` | Waynote/Views/AudioPlayerView.swift:36-39 | grabbing the slider remembers whether it was playing, and pauses |
| `AudioPlayer.EndSliderEdit` | Waynote/Views/AudioPlayerView.swift:40-42 | releasing the slider plays again only if it was playing before |
| `AudioPlayer.SliderEditRestoresPlayback` | Waynote/Views/AudioPlayerView.swift:36-43 | grab, move and release leave a playing player playing from the new point, and a paused one paused there |
| `AudioPlayer.TogglePlayPause` | Waynote/Views/AudioPlayerView.swift:67-75 | while playing, the button takes the player's time at the tap as the progress and pauses; otherwise it plays |
| `AudioPlayer.PauseThenPlayResumesAtTap` | Waynote/Views/AudioPlayerView.swift:67-75 | pausing with the button keeps the position the player reached at the tap, even between ticks, and playing again resumes there |
| `AudioPlayer.Tick` | Waynote/Views/AudioPlayerView.swift:98-106 | a tick only matters with a player while playing. Then the progress follows the player, and playback stops once the player has stopped |
| `AudioPlayer.DisappearAsWritten` | Waynote/Views/AudioPlayerView.swift:107-110 | leaving stops and releases the player but keeps the playing flag |
| `AudioPlayer.DisappearWhilePlayingStaysPlaying` | Waynote/Views/AudioPlayerView.swift:107-110 | leaving while playing leaves a "playing" view without a player. Ticks no longer move the progress, and the first tap only pauses |
| `AudioPlayer.Disappear` | Waynote/Views/AudioPlayerView.swift:107-110 | corrected: leaving also stops playback, so the view never plays without a running player |
| `AudioPlayer.ReturnThenPlayResumes` | Waynote/Views/AudioPlayerView.swift:67-75 | after the corrected leave, one tap resumes playback at the position reached |
| `Clock.FormatClockRoundTrip` | Waynote/Views/AudioRecorderView.swift:166-171 | the elapsed-time label, and the player's `formatTime` (AudioPlayerView.swift lines 158-163, the same body): for a non-negative time, `m:ss` has seconds below 60 and reads back as the whole seconds. Minutes are not wrapped into hours |
| `Strings.Trim` | Waynote/Views/NoteDetailView.swift:112 | trimming removes only whitespace from both ends and leaves no whitespace at either end; the result is empty exactly when the input is all whitespace |
| `Strings.TrimIdempotent` | Waynote/Views/SearchSheet.swift:74 | trimming twice is trimming once |
| `Strings.Pad2Digits` | Waynote/Views/AudioRecorderView.swift:170 | `%02d` of 0 through 99 is exactly two digits spelling the number |
| `Strings.JoinEnds` | Waynote/Models/SpotlightIndex.swift:76 | a joined string starts with its first part and ends with its last |
| `Strings.DecimalRoundTrip` | Waynote/Views/AudioRecorderView.swift:170 | `%d` of a natural number reads back as the same number |

## Left out

- SwiftData is not modelled: fetch descriptors, the on-disk store and `context.save`. A fetch failure is a success flag; a save is the `Saved` effect, which never changes the arena because a failed save is only logged.
- The file system is not modelled: creating the audio folder is reduced to the set of existing directories, and removing a file is the `FileRemovalAttempted` effect. A failed removal is only logged.
- CoreSpotlight is not modelled: submitting and deleting records (async, fire-and-forget), `CSUserQuery.prepare`, ranked results and fetched attributes. A query's responses are an input sequence and arrive as explicit events. Nothing calls `index(note:)` in the files modelled, so no "re-indexed after a change" invariant is stated.
- AVFoundation is not modelled: permission, audio session, recorder, player and reading a file's duration. Each becomes a success flag or an input; deactivating the session on stop is only logged on failure and is left out.
- Timers and notification streams become explicit tick and interruption events. The search handler's steps are separate events: starting its body, one per delivered element, and leaving its loop. The caller chooses their order. Cancelling a handler task is modelled as ending its stream; when a cancelled handler then leaves its loop is the caller's choice too.
- Random UUIDs and `Date.now` are parameters (`newId`, `now`). A new id must not already be stored. Dates are integers and `TimeInterval` is `real`.
- The deep-link handling in RootView, the app entry point, NoteCardView, the unused `Item` model and logging are not part of this model, and neither is rendering.
- NoteStore.DeleteNote: drains the children in any order, not always the last element of `children`, whose order SwiftData does not specify; its contract holds for every order.
- NoteDetail.SortedChildren: leaves the order among children with the same creation date unspecified, as the query does.
- SpotlightIndex.ContentDescription: counts Unicode scalars for the 256-character prefix, while Swift counts grapheme clusters; the two agree on text without combining sequences.
- Strings.Trim: trims Unicode scalars in the `whitespacesAndNewlines` set (tab through carriage return, U+0085, and the space separators), not grapheme clusters.
- AudioRecorder.Disappear: requires the note to exist while recording, because the source force-unwraps `content.note` there; `isRecording` is left as it was, as in the source.
- AudioRecorder.Tap: the interruption watch counts as started at the tap, although its task, like the recording start, runs later; only the recording start is a separate event.
- The `failing` set of a search delivery (notes whose fetch fails) is chosen per delivery and is not tied to the arena; the source logs and skips such a note, and nothing here says which notes can fail.
- Computing an audio note's file URL goes through the audio folder's lookup, which creates the folder if it is missing, even on the way to removing a file; `FileRemovalAttempted` carries only the URL and leaves that folder creation out.
- A deleted note's Spotlight record is never removed: deleting a note in the store does not touch the index, and no code in the files modelled calls `SpotlightIndex.delete(noteID:)`, so `SpotlightIndex.DeletionIdentifiers` describes a call nothing makes.
- The timer-driven player is the only player modelled; the audio session category calls are part of the success flags.

## Findings

| source | as written | input that shows it | evidently intended | confidence | as-written member | corrected member |
|---|---|---|---|---|---|---|
| Waynote/Models/NoteStore.swift:28-38 | a failed root fetch is treated as "no root" and a new root is inserted | any non-empty store whose root fetch throws | a failed fetch does not create a second root | high; not executed | `NoteStore.FailedRootFetchDuplicatesRoot` | `NoteStore.FetchRootChecked` |
| Waynote/Views/SearchSheet.swift:74-77 | a blank text returns before cancelling the query in progress | type "cat", then clear the field before the responses arrive | the query is cancelled, and no results appear under an empty field | high; not executed | `Search.BlankTextKeepsStaleQuery` | `Search.EditText` |
| Waynote/Views/SearchSheet.swift:92-126 | a handler reads whichever `userQuery` is current when its body starts, and on returning cancels it and sets `userQuery` to nil even when a newer query has replaced its own; if the newer handler has not started yet, it then finds no query and lists nothing | type "a", then "b"; the handler of "a" returns after "b" started | each handler reads, cancels and forgets only the query it was created with (`Search.BeginOnOwnQuery` with `Search.Finish`) | medium; not executed | `Search.StaleFinishOrphansQuery` | `Search.Finish` |
| Waynote/Views/AudioPlayerView.swift:107-110 | leaving stops and releases the player but keeps `isPlaying` | play, navigate away, come back | the view stops playing when the player is released | medium; not executed | `AudioPlayer.DisappearWhilePlayingStaysPlaying` | `AudioPlayer.Disappear` |
