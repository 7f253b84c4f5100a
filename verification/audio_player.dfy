/**
 The audio player of an audio note (Waynote/Views/AudioPlayerView.swift).
 The `AVAudioPlayer` is reduced to whether it exists, its current time and
 whether it is running; creating it and activating the audio session become
 success flags, and the 60 Hz timer becomes a tick carrying what the player
 reports.
 */
module AudioPlayer {
  import opened Common

  datatype Player = Player(
    isPlaying: bool,
    progress: real,
    hasPlayer: bool,
    playerTime: real,
    playerRunning: bool,
    wasPlayingBeforeSliderEdit: bool)

  const Initial: Player := Player(false, 0.0, false, 0.0, false, false)

  /** The view never claims to play without a player that runs. */
  predicate Consistent(p: Player) {
    p.isPlaying ==> p.hasPlayer && p.playerRunning
  }

  function Min(a: real, b: real): real {
    if a <= b then a else b
  }

  function Max(a: real, b: real): real {
    if a >= b then a else b
  }

  /** The slider runs from 0 to the duration, or to 1 for a zero duration. */
  function SliderUpperBound(duration: real): (r: real)
    ensures r > 0.0
    ensures duration > 0.0 ==> r == duration
  {
    if duration > 0.0 then duration else 1.0
  }

  /** `play`: nothing while playing; otherwise create the player if there is
      none, give up if there still is none or the session cannot be set up,
      and else start the player at `progress`. */
  function Play(p: Player, created: bool, sessionReady: bool): (r: Player)
    ensures p.isPlaying ==> r == p
    ensures !p.isPlaying ==> (r.isPlaying <==> (p.hasPlayer || created) && sessionReady)
    ensures r.isPlaying && !p.isPlaying ==> r.playerTime == p.progress && r.playerRunning
    ensures r.progress == p.progress && r.wasPlayingBeforeSliderEdit == p.wasPlayingBeforeSliderEdit
    ensures Consistent(p) ==> Consistent(r)
  {
    if p.isPlaying then p
    else
      var q := if !p.hasPlayer && created then p.(hasPlayer := true, playerTime := 0.0, playerRunning := false) else p;
      if !q.hasPlayer then q
      else if !sessionReady then q
      else q.(playerTime := q.progress, playerRunning := true, isPlaying := true)
  }

  /** `pause`: the player (if any) pauses and the view stops playing. */
  function Pause(p: Player): (r: Player)
    ensures !r.isPlaying && !r.playerRunning
    ensures r.progress == p.progress && r.hasPlayer == p.hasPlayer && r.playerTime == p.playerTime
    ensures r.wasPlayingBeforeSliderEdit == p.wasPlayingBeforeSliderEdit
  {
    p.(playerRunning := false, isPlaying := false)
  }

  /** `seek(to:)`: pause, move to the time clamped to [0, duration], and play
      again if it was playing. */
  function Seek(p: Player, time: real, duration: real, created: bool, sessionReady: bool): (r: Player)
    ensures r.progress == Min(Max(0.0, time), duration)
    ensures duration >= 0.0 ==> 0.0 <= r.progress <= duration
    ensures !p.isPlaying ==> !r.isPlaying
    ensures p.isPlaying && Consistent(p) ==> (r.isPlaying <==> sessionReady)
    ensures r.isPlaying ==> r.playerTime == r.progress
    ensures Consistent(p) ==> Consistent(r)
  {
    var wasPlaying := p.isPlaying;
    var q := Pause(p).(progress := Min(Max(0.0, time), duration));
    if wasPlaying then Play(q, created, sessionReady) else q
  }

  /** The slider is grabbed: remember whether it was playing, and pause. */
  function BeginSliderEdit(p: Player): (r: Player)
    ensures r.wasPlayingBeforeSliderEdit == p.isPlaying && !r.isPlaying
    ensures r.progress == p.progress
  {
    Pause(p.(wasPlayingBeforeSliderEdit := p.isPlaying))
  }

  /** The slider moves the progress within its range. */
  function DragSlider(p: Player, value: real, duration: real): (r: Player)
    requires 0.0 <= value <= SliderUpperBound(duration)
    ensures r == p.(progress := value)
  {
    p.(progress := value)
  }

  /** The slider is released: play again only if it was playing before. */
  function EndSliderEdit(p: Player, created: bool, sessionReady: bool): (r: Player)
    ensures !p.wasPlayingBeforeSliderEdit ==> r == p
    ensures p.wasPlayingBeforeSliderEdit ==> r == Play(p, created, sessionReady)
  {
    if p.wasPlayingBeforeSliderEdit then Play(p, created, sessionReady) else p
  }

  /** Grabbing, moving and releasing the slider leaves a playing player playing
      from the chosen point, and a paused one paused there. */
  lemma SliderEditRestoresPlayback(p: Player, value: real, duration: real)
    requires Consistent(p) && 0.0 <= value <= SliderUpperBound(duration)
    ensures var r := EndSliderEdit(DragSlider(BeginSliderEdit(p), value, duration), false, true);
            && r.isPlaying == p.isPlaying
            && r.progress == value
            && (r.isPlaying ==> r.playerTime == value)
  {
  }

  /** The play/pause button, with the player reporting `currentTime` at the
      tap: while playing, take that time as the progress and pause;
      otherwise play. */
  function TogglePlayPause(p: Player, currentTime: real, created: bool, sessionReady: bool): (r: Player)
    ensures p.isPlaying && p.hasPlayer ==> !r.isPlaying && r.progress == currentTime
    ensures p.isPlaying && !p.hasPlayer ==> !r.isPlaying && r.progress == p.progress
    ensures !p.isPlaying ==> r == Play(p, created, sessionReady)
    ensures Consistent(p) ==> Consistent(r)
  {
    if p.isPlaying then
      Pause(if p.hasPlayer then p.(progress := currentTime, playerTime := currentTime) else p)
    else Play(p, created, sessionReady)
  }

  /** Pausing with the button keeps the position the player had reached at the
      tap, even between two ticks, and playing again resumes from there. */
  lemma PauseThenPlayResumesAtTap(p: Player, currentTime: real)
    requires Consistent(p) && p.isPlaying
    ensures var paused := TogglePlayPause(p, currentTime, false, true);
            var resumed := TogglePlayPause(paused, currentTime, false, true);
            && !paused.isPlaying && paused.progress == currentTime
            && resumed.isPlaying && resumed.playerTime == currentTime
  {
  }

  /** A timer tick with the player reporting `currentTime` and whether it is
      still playing: ignored unless there is a player and the view plays;
      then the progress follows the player, and the view pauses once the
      player has stopped. */
  function Tick(p: Player, currentTime: real, stillPlaying: bool): (r: Player)
    ensures !(p.hasPlayer && p.isPlaying) ==> r == p
    ensures p.hasPlayer && p.isPlaying ==>
              r.progress == currentTime && (r.isPlaying <==> stillPlaying)
    ensures Consistent(p) ==> Consistent(r)
  {
    if !(p.hasPlayer && p.isPlaying) then p
    else
      var q := p.(playerTime := currentTime, playerRunning := stillPlaying, progress := currentTime);
      if !stillPlaying then Pause(q) else q
  }

  /** `onDisappear` as written: the player is stopped and released, but the
      playing flag is left as it was. */
  function DisappearAsWritten(p: Player): (r: Player)
    ensures !r.hasPlayer && !r.playerRunning
    ensures r.isPlaying == p.isPlaying && r.progress == p.progress
  {
    p.(hasPlayer := false, playerRunning := false)
  }

  /** Leaving while playing keeps the view "playing" with no player: ticks no
      longer move the progress, and the first tap on the button only pauses. */
  lemma DisappearWhilePlayingStaysPlaying(p: Player, time: real)
    requires p.isPlaying && Consistent(p)
    ensures var gone := DisappearAsWritten(p);
            && !Consistent(gone)
            && Tick(gone, time, true) == gone
            && !TogglePlayPause(gone, time, true, true).isPlaying
  {
  }

  /** `onDisappear` as intended: the player is stopped and released and the
      view no longer plays. */
  function Disappear(p: Player): (r: Player)
    ensures !r.hasPlayer && !r.isPlaying && r.progress == p.progress
    ensures Consistent(r)
  {
    p.(hasPlayer := false, playerRunning := false, isPlaying := false)
  }

  /** After coming back, one tap resumes playback at the position reached. */
  lemma ReturnThenPlayResumes(p: Player)
    requires Consistent(p)
    ensures var r := TogglePlayPause(Disappear(p), 0.0, true, true);
            r.isPlaying && r.playerTime == p.progress
  {
  }
}
