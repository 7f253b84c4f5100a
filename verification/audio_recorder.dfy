/**
 The recorder sheet (Waynote/Views/AudioRecorderView.swift), opened on the
 audio content of a freshly created note. Microphone permission, the audio
 session, the recorder and reading the recorded file's duration become
 success flags; the 60 Hz timer becomes a tick carrying the current date.
 */
module AudioRecorder {
  import opened Common
  import opened Uuids
  import opened AudioFiles
  import opened NoteModel
  import opened NoteTree
  import opened NoteStore

  /** `Date.distantPast`, in seconds since the reference date. */
  const DistantPast: real := -63114076800.0

  /** The sheet's state; `hasRecorder` stands for `recorder != nil`,
      `observing` says whether a task watching audio-session interruptions
      has been started (the first tap while idle starts one), and
      `pendingStarts` counts the recording starts that taps have launched and
      that have not run yet. */
  datatype Recorder = Recorder(
    isRecording: bool,
    startDate: real,
    duration: real,
    hasRecorder: bool,
    dismissed: bool,
    observing: bool,
    pendingStarts: nat)

  const Initial: Recorder := Recorder(false, DistantPast, 0.0, false, false, false, 0)

  /** The record button: while recording it dismisses the sheet; otherwise it
      starts watching interruptions and launches a recording start that runs
      later, as its own event (`StartRecording`). Nothing is recording yet
      when the tap returns. */
  function Tap(r: Recorder): (r': Recorder)
    ensures r.isRecording ==> r' == r.(dismissed := true)
    ensures !r.isRecording ==> r' == r.(observing := true, pendingStarts := r.pendingStarts + 1)
  {
    if r.isRecording then r.(dismissed := true)
    else r.(observing := true, pendingStarts := r.pendingStarts + 1)
  }

  /** A launched `startRecording` running: recording begins only when
      permission is granted, the session is set up and the recorder is
      created; any failure returns without changing the state. On success the
      elapsed time restarts at 0, whatever ran before it: a second start
      replaces the recorder of the first. With no start launched nothing
      happens. */
  function StartRecording(r: Recorder, permitted: bool, sessionReady: bool, recorderCreated: bool, now: real): (r': Recorder)
    ensures r.pendingStarts == 0 ==> r' == r
    ensures r.pendingStarts > 0 && permitted && sessionReady && recorderCreated ==>
              r' == r.(isRecording := true, startDate := now, duration := 0.0, hasRecorder := true,
                       pendingStarts := r.pendingStarts - 1)
    ensures r.pendingStarts > 0 && !(permitted && sessionReady && recorderCreated) ==>
              r' == r.(pendingStarts := r.pendingStarts - 1)
  {
    if r.pendingStarts == 0 then r
    else
      var launched := r.(pendingStarts := r.pendingStarts - 1);
      if !permitted then launched
      else if !sessionReady then launched
      else if !recorderCreated then launched
      else launched.(hasRecorder := true, isRecording := true, startDate := now, duration := 0.0)
  }

  /** Two taps before the first start runs launch two starts; when both
      succeed the second restarts the clock at its own time. */
  lemma DoubleTapRestarts(first: real, second: real)
    ensures var twice := Tap(Tap(Initial));
            && twice.pendingStarts == 2
            && !twice.isRecording
            && var started := StartRecording(StartRecording(twice, true, true, true, first), true, true, true, second);
               started.isRecording && started.startDate == second && started.pendingStarts == 0
  {
  }

  /** A timer tick at `date`: only while recording, the elapsed time becomes
      the time since the recording started. */
  function Tick(r: Recorder, date: real): (r': Recorder)
    ensures !r.isRecording ==> r' == r
    ensures r.isRecording ==> r'.duration == date - r.startDate && r' == r.(duration := r'.duration)
  {
    if r.isRecording then r.(duration := date - r.startDate) else r
  }

  /** After a tap and a successful start, a tick shows the time elapsed since
      the start. */
  lemma ElapsedSinceStart(r: Recorder, now: real, date: real)
    requires !r.isRecording
    ensures var started := StartRecording(Tap(r), true, true, true, now);
            && started.isRecording && started.duration == 0.0
            && Tick(started, date).duration == date - now
  {
  }

  /** The kind carried by an audio-session interruption notification. */
  datatype Interruption = Began | Ended

  /** An interruption notification. Only a started watch sees it: then one
      that begins dismisses the sheet, and one whose kind cannot be read, or
      that ends, is ignored. Before the first tap nothing is watching. */
  function Interrupt(r: Recorder, kind: Option<Interruption>): (r': Recorder)
    ensures r.observing && kind == Some(Began) ==> r' == r.(dismissed := true)
    ensures !(r.observing && kind == Some(Began)) ==> r' == r
  {
    if r.observing && kind == Some(Began) then r.(dismissed := true) else r
  }

  /** An interruption before the first tap leaves the sheet open; after a tap
      while idle, one that begins closes it, whether the launched start has
      run or not, and whether or not it succeeded. */
  lemma InterruptNeedsTap(permitted: bool, sessionReady: bool, recorderCreated: bool, now: real)
    ensures Interrupt(Initial, Some(Began)) == Initial
    ensures Interrupt(Tap(Initial), Some(Began)).dismissed
    ensures var tapped := StartRecording(Tap(Initial), permitted, sessionReady, recorderCreated, now);
            && !tapped.dismissed
            && Interrupt(tapped, Some(Began)).dismissed
            && Interrupt(tapped, Some(Ended)) == tapped
            && Interrupt(tapped, None) == tapped
  {
  }

  /** What the sheet leaves behind when it disappears. */
  datatype Closing = Closing(notes: Arena, recorder: Recorder, effects: seq<Effect>)

  /** `onDisappear` for the sheet recording note `id`. While recording, the
      recording stops: the recorder is released, the duration is set when the
      file's duration can be read (`readDuration`) and left as it was
      otherwise, and the note is saved (the note must still exist). Without a
      recording, the note is deleted if it still exists, so an audio note
      whose sheet closes unrecorded does not survive, and its file is
      removed. */
  method Disappear(notes: Arena, id: Uuid, r: Recorder, readDuration: Option<real>) returns (c: Closing)
    requires Valid(notes)
    requires id in notes ==> notes[id].content.Audio?
    requires r.isRecording ==> id in notes
    ensures Valid(c.notes)
    ensures AudioNamed(notes) ==> AudioNamed(c.notes)
    ensures r.isRecording ==>
              && !c.recorder.hasRecorder
              && c.effects == [Saved]
              && c.notes.Keys == notes.Keys
              && (forall y :: y in notes && y != id ==> c.notes[y] == notes[y])
              && c.notes[id].content.Audio?
              && c.notes[id].content.fileName == notes[id].content.fileName
              && c.notes[id].content.duration
                 == (if readDuration.Some? then readDuration.value else notes[id].content.duration)
              && c.notes[id] == notes[id].(content := c.notes[id].content)
    ensures !r.isRecording && id in notes ==>
              && c.notes == notes - Subtree(notes, id)
              && id !in c.notes
              && FileRemovalAttempted(FileUrl(notes[id].content)) in c.effects
    ensures !r.isRecording && id !in notes ==> c == Closing(notes, r, [])
    ensures !r.isRecording ==> c.recorder == r
  {
    if r.isRecording {
      var n := notes[id];
      var content := n.content;
      if readDuration.Some? {
        content := content.(duration := readDuration.value);
      }
      UpdateInPlace(notes, n.(content := content));
      c := Closing(notes[id := n.(content := content)], r.(hasRecorder := false), [Saved]);
    } else if id in notes {
      var rest, order, effects := DeleteNote(notes, id);
      DeletionFiles(notes, order, FileUrl(notes[id].content));
      c := Closing(rest, r, effects);
      SubtreeHasRoot(notes, id);
    } else {
      c := Closing(notes, r, []);
    }
  }

  /** The sheet closes after a tap but before the launched start has run: the
      note and its file are gone, yet the start still runs afterwards and,
      when it succeeds, records into the deleted note's file, with no sheet
      left to stop it and no note pointing at the file. */
  method DisappearThenLateStart(notes: Arena, id: Uuid, r: Recorder, now: real) returns (notes': Arena, r': Recorder)
    requires Valid(notes) && AudioNamed(notes) && id in notes && notes[id].content.Audio?
    requires !r.isRecording
    ensures notes' == notes - Subtree(notes, id) && id !in notes'
    ensures r'.isRecording && r'.hasRecorder && r'.startDate == now
    ensures forall y :: y in notes' && notes'[y].content.Audio? ==>
              notes'[y].content.fileName != notes[id].content.fileName
  {
    var c := Disappear(notes, id, Tap(r), None);
    notes' := c.notes;
    r' := StartRecording(c.recorder, true, true, true, now);
    forall y | y in notes' && notes'[y].content.Audio?
      ensures notes'[y].content.fileName != notes[id].content.fileName
    {
      assert y in notes && y != id && notes'[y] == notes[y];
      AudioFileNameIdentifies(y, id);
    }
  }
}
