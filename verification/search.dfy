/**
 The search sheet (Waynote/Views/SearchSheet.swift) as a state machine over
 the events it reacts to: editing or submitting the search text, a response
 arriving on a query's stream, a query's stream ending, and the sheet
 closing. Queries are numbered in the order they are started; a query is
 "live" while its stream may still deliver responses, and "running" while
 its handler task has not finished.
 */
module Search {
  import opened Common
  import opened Strings
  import opened Uuids
  import opened NoteModel
  import opened NoteTree
  import opened NoteStore
  import opened SpotlightIndex

  /** An element of a query's response stream: a found item, or anything
      else the engine reports (suggestions). */
  datatype Response = Found(uniqueIdentifier: string) | Suggestion

  /** A started query: its trimmed text and its filter. */
  datatype Query = Query(text: string, filter: string)

  /** Queries only look at records of the note domain. */
  const NoteFilter: string := "domainIdentifier == '" + DomainIdentifier + "'"

  // Accumulating results

  /** The note a response contributes: it must be an item whose identifier
      parses as a UUID and names a note that can be fetched. `failing` holds
      the ids whose fetch fails. */
  function Accepts(notes: Arena, failing: set<Uuid>, resp: Response): (r: Option<Uuid>)
    requires Valid(notes)
    ensures r.Some? <==>
              && resp.Found?
              && ParseUuid(resp.uniqueIdentifier).Some?
              && ParseUuid(resp.uniqueIdentifier).value in notes
              && ParseUuid(resp.uniqueIdentifier).value !in failing
    ensures r.Some? ==> r.value == ParseUuid(resp.uniqueIdentifier).value
  {
    match resp
    case Suggestion => None
    case Found(ident) =>
      match ParseUuid(ident)
      case None => None
      case Some(id) =>
        match FetchNote(notes, id, id !in failing)
        case None => None
        case Some(n) => Some(n.id)
  }

  /** One turn of the response loop: an accepted note is appended unless a
      note with its id is already listed. */
  function Step(results: seq<Uuid>, notes: Arena, failing: set<Uuid>, resp: Response): (r: seq<Uuid>)
    requires Valid(notes)
    ensures results <= r && |r| <= |results| + 1
    ensures forall x :: x in r <==> x in results || Accepts(notes, failing, resp) == Some(x)
    ensures Distinct(results) ==> Distinct(r)
  {
    match Accepts(notes, failing, resp)
    case None => results
    case Some(id) => if id in results then results else results + [id]
  }

  /** `handleQueryResponses`: the response loop over a whole stream, starting
      from the listed results. */
  function HandleResponses(results: seq<Uuid>, notes: Arena, failing: set<Uuid>, rs: seq<Response>): (r: seq<Uuid>)
    requires Valid(notes)
    ensures results <= r
    ensures Distinct(results) ==> Distinct(r)
  {
    if |rs| == 0 then results
    else Step(HandleResponses(results, notes, failing, rs[..|rs| - 1]), notes, failing, rs[|rs| - 1])
  }

  /** The ids of the accepted responses of a stream, repetitions included. */
  function AcceptedIds(notes: Arena, failing: set<Uuid>, rs: seq<Response>): seq<Uuid>
    requires Valid(notes)
  {
    if |rs| == 0 then []
    else
      var last := Accepts(notes, failing, rs[|rs| - 1]);
      AcceptedIds(notes, failing, rs[..|rs| - 1]) + (if last.Some? then [last.value] else [])
  }

  /** Reference definition of keeping first occurrences: the elements of `s`
      that occur neither in `seen` nor earlier in `s`, in their order. */
  function FirstOccurrences(seen: seq<Uuid>, s: seq<Uuid>): (r: seq<Uuid>)
    ensures forall x :: x in r <==> x in s && x !in seen
    ensures Distinct(r)
  {
    if |s| == 0 then []
    else
      var init := s[..|s| - 1];
      var x := s[|s| - 1];
      var r0 := FirstOccurrences(seen, init);
      assert forall y :: y in s <==> y in init || y == x;
      if x in seen || x in init then r0
      else
        DistinctSnoc(r0, x);
        r0 + [x]
  }

  lemma DistinctSnoc(s: seq<Uuid>, x: Uuid)
    requires Distinct(s) && x !in s
    ensures Distinct(s + [x])
  {
    var r := s + [x];
    forall i, j | 0 <= i < j < |r| ensures r[i] != r[j] {
      assert r[i] == s[i] && s[i] in s;
      if j < |s| {
        assert r[j] == s[j];
      }
    }
  }

  lemma FirstOccurrencesSnoc(seen: seq<Uuid>, a: seq<Uuid>, x: Uuid)
    ensures FirstOccurrences(seen, a + [x])
            == if x in seen || x in a then FirstOccurrences(seen, a)
               else FirstOccurrences(seen, a) + [x]
  {
    var s := a + [x];
    assert s[..|s| - 1] == a;
    assert s[|s| - 1] == x;
  }

  /** One accepted id extends the first occurrences the way one turn of the
      loop extends the list. */
  lemma StepFirstOccurrences(results: seq<Uuid>, a: seq<Uuid>, notes: Arena, failing: set<Uuid>, resp: Response)
    requires Valid(notes)
    ensures var last := Accepts(notes, failing, resp);
            Step(results + FirstOccurrences(results, a), notes, failing, resp)
            == results + FirstOccurrences(results, a + (if last.Some? then [last.value] else []))
  {
    var f := FirstOccurrences(results, a);
    var h := results + f;
    match Accepts(notes, failing, resp)
    case None =>
      assert a + [] == a;
    case Some(id) =>
      FirstOccurrencesSnoc(results, a, id);
      assert id in h <==> id in results || id in a;
      if id !in h {
        assert h + [id] == results + (f + [id]);
      }
  }

  /** The response loop lists, after what was already there, exactly the
      first occurrences of the accepted ids that were not yet listed. */
  lemma {:induction false} HandleIsFirstOccurrences(results: seq<Uuid>, notes: Arena, failing: set<Uuid>, rs: seq<Response>)
    requires Valid(notes)
    ensures HandleResponses(results, notes, failing, rs)
            == results + FirstOccurrences(results, AcceptedIds(notes, failing, rs))
    decreases |rs|
  {
    if |rs| > 0 {
      var init := rs[..|rs| - 1];
      HandleIsFirstOccurrences(results, notes, failing, init);
      StepFirstOccurrences(results, AcceptedIds(notes, failing, init), notes, failing, rs[|rs| - 1]);
    }
  }

  /** Hence the listed results repeat no id, and a response stream listed on
      an empty list gives each accepted note once, in first-seen order. */
  lemma HandleFromEmpty(notes: Arena, failing: set<Uuid>, rs: seq<Response>)
    requires Valid(notes)
    ensures HandleResponses([], notes, failing, rs) == FirstOccurrences([], AcceptedIds(notes, failing, rs))
    ensures Distinct(HandleResponses([], notes, failing, rs))
    ensures forall x :: x in HandleResponses([], notes, failing, rs) <==> x in AcceptedIds(notes, failing, rs)
  {
    HandleIsFirstOccurrences([], notes, failing, rs);
    assert [] + FirstOccurrences([], AcceptedIds(notes, failing, rs))
        == FirstOccurrences([], AcceptedIds(notes, failing, rs));
  }

  // The sheet

  /** The sheet's state. `performSearch` starts query n together with handler
      task n; `current` and `handler` stand for `userQuery` and `handlerTask`.
      `live` holds the queries whose streams may still deliver, `running` the
      handlers that have not returned, and `begun` maps every handler whose
      body has started to the query it found in `userQuery` at that moment. */
  datatype Sheet = Sheet(
    searchText: string,
    current: Option<nat>,
    handler: Option<nat>,
    results: seq<Uuid>,
    queries: seq<Query>,
    live: set<nat>,
    running: set<nat>,
    begun: map<nat, nat>)

  /** The sheet as it first appears. */
  const Initial: Sheet := Sheet("", None, None, [], [], {}, {}, map[])

  function Members(o: Option<nat>): set<nat> {
    if o.Some? then {o.value} else {}
  }

  /** The sheet's guarantees: only the current query can still deliver, the
      current query searches for the trimmed text in the field, every query
      is limited to notes, no result is listed twice, and every handler that
      runs or has begun was started by some earlier search. */
  ghost predicate Coherent(s: Sheet) {
    && (forall n :: n in s.live ==> s.current == Some(n))
    && (s.current.Some? ==>
          s.current.value < |s.queries| && s.queries[s.current.value].text == Trim(s.searchText))
    && (forall i :: 0 <= i < |s.queries| ==> s.queries[i].filter == NoteFilter)
    && Distinct(s.results)
    && (forall h :: h in s.running ==> h < |s.queries|)
    && (forall h :: h in s.begun ==> h < |s.queries|)
  }

  lemma InitialCoherent()
    ensures Coherent(Initial)
  {
  }

  /** Starting a new query for the trimmed text: cancel the query and handler
      in progress, then start and remember the next query and its handler,
      whose body has not started yet. */
  function StartQuery(s: Sheet, text: string): (r: Sheet)
    ensures r.current == Some(|s.queries|) && r.handler == Some(|s.queries|)
    ensures r.queries == s.queries + [Query(text, NoteFilter)]
    ensures r.live == s.live - Members(s.current) - Members(s.handler) + {|s.queries|}
    ensures r.running == s.running + {|s.queries|} && r.begun == s.begun
    ensures Coherent(s) ==> |s.queries| !in s.begun && |s.queries| !in s.running
  {
    var n := |s.queries|;
    s.(results := [], current := Some(n), handler := Some(n),
       queries := s.queries + [Query(text, NoteFilter)],
       live := s.live - Members(s.current) - Members(s.handler) + {n},
       running := s.running + {n})
  }

  /** `performSearch` as written: results are cleared; a blank text starts
      nothing and returns, leaving any query in progress running. */
  function PerformSearchAsWritten(s: Sheet): (r: Sheet)
    ensures r.results == [] && r.searchText == s.searchText
    ensures Trim(s.searchText) == [] ==> r == s.(results := [])
    ensures Trim(s.searchText) != [] ==> r.current == Some(|s.queries|) && r.live == {|s.queries|} + (s.live - Members(s.current) - Members(s.handler))
  {
    var t := Trim(s.searchText);
    if t == [] then s.(results := []) else StartQuery(s, t)
  }

  /** The text field changed (or was submitted), as written: store the text
      and run `performSearch` as written. */
  function EditTextAsWritten(s: Sheet, text: string): (r: Sheet)
    ensures r.searchText == text && r.results == []
    ensures Trim(text) == [] ==> r == s.(searchText := text, results := [])
    ensures Trim(text) != [] ==>
              && r.current == Some(|s.queries|)
              && r.queries == s.queries + [Query(Trim(text), NoteFilter)]
  {
    PerformSearchAsWritten(s.(searchText := text))
  }

  /** A non-empty text without surrounding whitespace. */
  predicate Clean(word: string) {
    word != [] && !IsWhitespace(word[0]) && !IsWhitespace(word[|word| - 1])
  }

  /** The sheet with query 0 for `word` started and handler 0 not yet begun. */
  function Typed(word: string): Sheet {
    Sheet(word, Some(0), Some(0), [], [Query(word, NoteFilter)], {0}, {0}, map[])
  }

  /** The same sheet once handler 0 has begun reading query 0. */
  function Listening(word: string): Sheet {
    Typed(word).(begun := map[0 := 0])
  }

  /** Typing a word into a fresh sheet starts query 0 for it, and its handler
      then reads that query. */
  lemma FirstQuery(word: string)
    requires Clean(word)
    ensures EditTextAsWritten(Initial, word) == Typed(word)
    ensures EditText(Initial, word) == Typed(word)
    ensures Begin(Typed(word), 0) == Listening(word)
    ensures BeginOnOwnQuery(Typed(word), 0) == Listening(word)
    ensures Coherent(Typed(word)) && Coherent(Listening(word))
  {
    TrimKeepsClean(word);
  }

  /** As written, clearing the field keeps query 0 for the old word in
      progress, and the sheet loses its guarantees. */
  lemma ClearingKeepsQuery(word: string)
    requires Clean(word)
    ensures EditTextAsWritten(Listening(word), "") == Listening(word).(searchText := "")
    ensures !Coherent(Listening(word).(searchText := ""))
  {
    assert AllWhitespace("");
    var cleared := Listening(word).(searchText := "");
    assert Trim(cleared.searchText) == [];
    assert cleared.queries[0].text == word;
  }

  /** A blank text keeps the query for the old text live, and its next item
      is listed under an empty search field. */
  lemma BlankTextKeepsStaleQuery(notes: Arena, id: Uuid, word: string)
    requires Valid(notes) && id in notes && Clean(word)
    ensures var listening := Begin(EditTextAsWritten(Initial, word), 0);
            var cleared := EditTextAsWritten(listening, "");
            && Coherent(listening)
            && !Coherent(cleared)
            && cleared.searchText == ""
            && Deliver(cleared, 0, Found(UuidString(id)), notes, {}).results == [id]
  {
    FirstQuery(word);
    ClearingKeepsQuery(word);
    ParseUuidString(id);
    assert Accepts(notes, {}, Found(UuidString(id))) == Some(id);
    assert Step([], notes, {}, Found(UuidString(id))) == [id];
  }

  /** With the corrected search, clearing the field silences the old query:
      nothing it delivers reaches the sheet. */
  lemma BlankTextSilencesQuery(notes: Arena, word: string, resp: Response, failing: set<Uuid>)
    requires Valid(notes) && Clean(word)
    ensures var cleared := EditText(Listening(word), "");
            && cleared.current == None && cleared.live == {}
            && Deliver(cleared, 0, resp, notes, failing) == cleared
  {
    assert AllWhitespace("");
    assert Trim("") == [];
  }

  /** `performSearch` as intended: a blank text also cancels the query and
      handler in progress. */
  function PerformSearch(s: Sheet): (r: Sheet)
    ensures r.results == [] && r.searchText == s.searchText
    ensures Trim(s.searchText) == [] ==> r.current == None && r.live == s.live - Members(s.current) - Members(s.handler)
    ensures Trim(s.searchText) != [] ==> r.current == Some(|s.queries|) && r.live == {|s.queries|} + (s.live - Members(s.current) - Members(s.handler))
    ensures Coherent(s) ==> Coherent(r)
  {
    var t := Trim(s.searchText);
    if t == [] then
      s.(results := [], current := None, handler := None,
         live := s.live - Members(s.current) - Members(s.handler))
    else StartQuery(s, t)
  }

  /** The text field changed (or was submitted), with the corrected search. */
  function EditText(s: Sheet, text: string): (r: Sheet)
    ensures r.searchText == text && r.results == []
    ensures Trim(text) == [] ==> r.current == None && r.live == s.live - Members(s.current) - Members(s.handler)
    ensures Trim(text) != [] ==>
              && r.current == Some(|s.queries|)
              && r.queries == s.queries + [Query(Trim(text), NoteFilter)]
    ensures Coherent(s) ==> Coherent(r)
  {
    PerformSearch(s.(searchText := text))
  }

  /** The body of handler `h` starts: it reads `userQuery` and returns at
      once, without cleaning up, when there is none; otherwise it reads that
      query's stream from now on. */
  function Begin(s: Sheet, h: nat): (r: Sheet)
    ensures !(h in s.running && h !in s.begun) ==> r == s
    ensures h in s.running && h !in s.begun && s.current.None? ==>
              r == s.(running := s.running - {h})
    ensures h in s.running && h !in s.begun && s.current.Some? ==>
              r == s.(begun := s.begun[h := s.current.value])
    ensures Coherent(s) ==> Coherent(r)
  {
    if !(h in s.running && h !in s.begun) then s
    else if s.current.None? then s.(running := s.running - {h})
    else s.(begun := s.begun[h := s.current.value])
  }

  /** The next element of the stream read by handler `h` arrives; only a
      running handler reading a live stream changes the results. */
  function Deliver(s: Sheet, h: nat, resp: Response, notes: Arena, failing: set<Uuid>): (r: Sheet)
    requires Valid(notes)
    ensures h in s.running && h in s.begun && s.begun[h] in s.live ==>
              r == s.(results := Step(s.results, notes, failing, resp))
    ensures !(h in s.running && h in s.begun && s.begun[h] in s.live) ==> r == s
    ensures Coherent(s) ==> Coherent(r)
  {
    if h in s.running && h in s.begun && s.begun[h] in s.live then
      s.(results := Step(s.results, notes, failing, resp))
    else s
  }

  /** Under the sheet's guarantees a listed result always came from the query
      for the text now in the field. */
  lemma DeliveredForCurrentText(s: Sheet, h: nat, resp: Response, notes: Arena, failing: set<Uuid>)
    requires Valid(notes) && Coherent(s)
    requires Deliver(s, h, resp, notes, failing) != s
    ensures h in s.begun && s.current == Some(s.begun[h])
    ensures s.queries[s.begun[h]].text == Trim(s.searchText)
  {
  }

  /** Handler `h` returns after its loop, as written: it cancels the query it
      read and clears the sheet's current query, whichever query that is. */
  function FinishAsWritten(s: Sheet, h: nat): (r: Sheet)
    ensures h in s.running && h in s.begun ==>
              r == s.(running := s.running - {h}, live := s.live - {s.begun[h]}, current := None)
    ensures !(h in s.running && h in s.begun) ==> r == s
  {
    if h in s.running && h in s.begun then
      s.(running := s.running - {h}, live := s.live - {s.begun[h]}, current := None)
    else s
  }

  /** Typing `a`, then `b` after handler 0 has begun on `a`'s query. */
  function Retyped(a: string, b: string): Sheet {
    Sheet(b, Some(1), Some(1), [], [Query(a, NoteFilter), Query(b, NoteFilter)],
          {1}, {0, 1}, map[0 := 0])
  }

  lemma RetypedReached(a: string, b: string)
    requires Clean(a) && Clean(b)
    ensures EditTextAsWritten(Listening(a), b) == Retyped(a, b)
    ensures Coherent(Retyped(a, b))
  {
    TrimKeepsClean(b);
    var r := Retyped(a, b);
    assert r.queries[1].text == Trim(b);
  }

  /** The handler of a replaced query returns after its successor started:
      the sheet forgets the successor while the successor's stream is still
      live, so the progress indicator goes away, the successor is never
      cancelled, and when the successor's handler begins it finds no query,
      returns, and nothing the successor delivers is ever listed. */
  lemma StaleFinishOrphansQuery(a: string, b: string, resp: Response, notes: Arena, failing: set<Uuid>)
    requires Clean(a) && Clean(b) && Valid(notes)
    ensures var second := EditTextAsWritten(Begin(EditTextAsWritten(Initial, a), 0), b);
            var finished := FinishAsWritten(second, 0);
            var started := Begin(finished, 1);
            && Coherent(second)
            && !Coherent(finished)
            && finished.current == None && 1 in finished.live
            && 1 !in started.running && 1 in started.live
            && Deliver(started, 1, resp, notes, failing) == started
  {
    FirstQuery(a);
    RetypedReached(a, b);
    var finished := FinishAsWritten(Retyped(a, b), 0);
    assert 1 in finished.live && finished.current == None;
  }

  /** Handler `h` returns after its loop, as intended: it cancels the query it
      read, and the sheet forgets that query only if it is still current. */
  function Finish(s: Sheet, h: nat): (r: Sheet)
    ensures h in s.running && h in s.begun ==>
              && h !in r.running && s.begun[h] !in r.live
              && r.current == (if s.current == Some(s.begun[h]) then None else s.current)
              && r.results == s.results && r.searchText == s.searchText
    ensures !(h in s.running && h in s.begun) ==> r == s
    ensures Coherent(s) ==> Coherent(r)
  {
    if h in s.running && h in s.begun then
      var q := s.begun[h];
      s.(running := s.running - {h}, live := s.live - {q},
         current := if s.current == Some(q) then None else s.current)
    else s
  }

  /** Every handler that has begun reads the query it was started with
      (`StartQuery` starts query `n` together with handler `n`). */
  ghost predicate Owned(s: Sheet) {
    forall h :: h in s.begun ==> s.begun[h] == h
  }

  /** The body of handler `h` starts, as intended: it reads the query it was
      created for, captured when the handler was started, rather than
      whatever query is current when the body happens to run. */
  function BeginOnOwnQuery(s: Sheet, h: nat): (r: Sheet)
    ensures !(h in s.running && h !in s.begun) ==> r == s
    ensures h in s.running && h !in s.begun ==> r == s.(begun := s.begun[h := h])
    ensures Coherent(s) ==> Coherent(r)
    ensures Owned(s) ==> Owned(r)
  {
    if h in s.running && h !in s.begun then s.(begun := s.begun[h := h]) else s
  }

  /** When every handler reads its own query, a handler other than the
      current query's leaves the current query and its stream alone when it
      returns, whenever it began and whenever it returns. */
  lemma FinishSparesCurrent(s: Sheet, h: nat)
    requires Owned(s) && s.current.Some? && h != s.current.value
    ensures Finish(s, h).current == s.current
    ensures s.current.value in s.live ==> s.current.value in Finish(s, h).live
    ensures Owned(Finish(s, h))
  {
  }

  /** Typing `a`, then `b` before handler 0 has begun. */
  lemma RetypedEarly(a: string, b: string)
    requires Clean(a) && Clean(b)
    ensures EditText(EditText(Initial, a), b) == Retyped(a, b).(begun := map[])
    ensures EditTextAsWritten(EditTextAsWritten(Initial, a), b) == Retyped(a, b).(begun := map[])
    ensures Coherent(Retyped(a, b).(begun := map[]))
  {
    FirstQuery(a);
    TrimKeepsClean(b);
    RetypedReached(a, b);
    assert EditText(Typed(a), b) == Retyped(a, b).(begun := map[]);
  }

  /** With the corrected finish alone, a handler whose body begins only after
      the next query started still reads that next query, and when it returns
      it cancels it: the successor's handler then finds no query and nothing
      the successor delivers is listed. */
  lemma LateBeginCancelsSuccessor(a: string, b: string, resp: Response, notes: Arena, failing: set<Uuid>)
    requires Clean(a) && Clean(b) && Valid(notes)
    ensures var second := Begin(EditText(EditText(Initial, a), b), 0);
            var started := Begin(Finish(second, 0), 1);
            && second.begun[0] == 1
            && started.current == None && 1 !in started.live && 1 !in started.running
            && Deliver(started, 1, resp, notes, failing) == started
  {
    RetypedEarly(a, b);
  }

  /** With the corrected finish and every handler reading its own query, a
      stale handler leaves its successor alone whether its body began before
      the successor started or after: the successor's handler begins on the
      successor's query and lists what it delivers. */
  lemma FinishKeepsSuccessor(a: string, b: string, resp: Response, notes: Arena, failing: set<Uuid>)
    requires Clean(a) && Clean(b) && Valid(notes)
    ensures var early := EditText(BeginOnOwnQuery(EditText(Initial, a), 0), b);
            var started := BeginOnOwnQuery(Finish(early, 0), 1);
            && Coherent(started) && Owned(started)
            && started.current == Some(1) && started.begun[1] == 1
            && Deliver(started, 1, resp, notes, failing)
               == started.(results := Step(started.results, notes, failing, resp))
    ensures var late := BeginOnOwnQuery(EditText(EditText(Initial, a), b), 0);
            var started := BeginOnOwnQuery(Finish(late, 0), 1);
            && Coherent(started) && Owned(started)
            && started.current == Some(1) && started.begun[1] == 1
            && Deliver(started, 1, resp, notes, failing)
               == started.(results := Step(started.results, notes, failing, resp))
  {
    FirstQuery(a);
    TrimKeepsClean(b);
    assert EditText(Listening(a), b) == Retyped(a, b);
    RetypedReached(a, b);
    RetypedEarly(a, b);
  }

  /** The sheet disappears: text, query, handler and results are reset. */
  function Close(s: Sheet): (r: Sheet)
    ensures r.searchText == "" && r.current == None && r.handler == None && r.results == []
    ensures r.live == s.live - Members(s.current) - Members(s.handler)
    ensures Coherent(s) ==> Coherent(r)
  {
    s.(searchText := "", current := None, handler := None, results := [],
       live := s.live - Members(s.current) - Members(s.handler))
  }
}
