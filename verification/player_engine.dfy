/** The playback controller of PlayerContext: queue, current index, current
    song, loop mode, the finish latch and the staleness mark, with every
    public operation and every status poll as one pure step. Commands for
    the audio device are appended to `log` instead of being executed. */
module Engine {
  import opened Wrappers
  import opened Songs
  import opened Loop

  /** What the controller asks of the audio device. */
  datatype Command = Replace(uri: string) | Play | Pause | Seek(seconds: real)

  /** One status report of the device, as polled every 500 ms. */
  datatype Status = Status(currentTime: real, duration: real, playing: bool)

  datatype PlayerState = PlayerState(
    queue: seq<Song>,
    index: int,            // -1 while nothing has been played
    current: Option<Song>,
    loopMode: LoopMode,
    finished: bool,        // the latch that makes a finish fire once
    lastProcessed: real,   // position of the last status that was processed
    log: seq<Command>)

  /** Near-end tolerance and staleness threshold, in seconds. */
  const EndTolerance: real := 0.6
  const StaleThreshold: real := 0.5
  /** Past this position, "previous" restarts the track instead. */
  const RestartThreshold: real := 3.0

  /** The provider's state before anything happens. */
  const Initial: PlayerState := PlayerState([], -1, None, Off, false, 0.0, [])

  /** Nothing selected with an empty queue, or a valid index whose song is current. */
  ghost predicate Valid(s: PlayerState) {
    || (s.index == -1 && s.current == None && |s.queue| == 0)
    || (0 <= s.index < |s.queue| && s.current == Some(s.queue[s.index]))
  }

  /** `r` is `s` after the device was told to load and start `list[idx]`,
      which is now the queue and current position. */
  ghost predicate Loaded(s: PlayerState, r: PlayerState, list: seq<Song>, idx: int) {
    && 0 <= idx < |list|
    && r == s.(queue := list, index := idx, current := Some(list[idx]),
               log := s.log + [Replace(list[idx].uri), Play])
  }

  function Abs(x: real): real {
    if x < 0.0 then -x else x
  }

  function Max(a: real, b: real): (r: real)
    ensures r >= a && r >= b && (r == a || r == b)
  {
    if a >= b then a else b
  }

  lemma InitialIsValid()
    ensures Valid(Initial)
  {
  }

  /** `playIndex(index, replaceList?)`: an index outside the list changes
      nothing; otherwise the list becomes the queue and that slot plays. */
  function PlayIndex(s: PlayerState, idx: int, replaceList: Option<seq<Song>>): (r: PlayerState)
    ensures var list := replaceList.GetOr(s.queue);
      && (idx < 0 || idx >= |list| ==> r == s)
      && (0 <= idx < |list| ==> Loaded(s, r, list, idx) && Valid(r))
  {
    var list := replaceList.GetOr(s.queue);
    if idx < 0 || idx >= |list| then s
    else
      var song := list[idx];
      s.(queue := list, index := idx, current := Some(song),
         log := s.log + [Replace(song.uri), Play])
  }

  /** `playSong(song, list?)`: the device is paused first; a non-empty list
      becomes the queue at the song's first position (or 0); otherwise the
      song's slot in the current queue plays, or failing that a one-song queue. */
  function PlaySong(s: PlayerState, song: Song, list: Option<seq<Song>>): (r: PlayerState)
    ensures |r.log| > |s.log| && r.log[..|s.log| + 1] == s.log + [Pause]
    ensures Valid(r)
    ensures var paused := s.(log := s.log + [Pause]);
      if list.Some? && |list.value| > 0 then
        var k := IndexOfId(list.value, song.id);
        Loaded(paused, r, list.value, if k >= 0 then k else 0)
      else if HasId(s.queue, song.id) then
        Loaded(paused, r, s.queue, IndexOfId(s.queue, song.id))
      else
        Loaded(paused, r, [song], 0)
    ensures (list.None? || HasId(list.value, song.id)) ==> r.current.value.id == song.id
  {
    var paused := s.(log := s.log + [Pause]);
    if list.Some? && |list.value| > 0 then
      var idx := IndexOfId(list.value, song.id);
      PlayIndex(paused, if idx >= 0 then idx else 0, list)
    else
      var inQueue := IndexOfId(s.queue, song.id);
      if inQueue >= 0 then PlayIndex(paused, inQueue, None)
      else PlayIndex(paused, 0, Some([song]))
  }

  /** `togglePlayPause()`, given whether the last status said "playing". */
  function TogglePlayPause(s: PlayerState, playing: bool): (r: PlayerState)
    ensures r == s.(log := r.log)
    ensures |r.log| == |s.log| + 1 && r.log[..|s.log|] == s.log
    ensures r.log[|s.log|] == (if playing then Pause else Play)
  {
    s.(log := s.log + [if playing then Pause else Play])
  }

  /** `seekTo(seconds)`: negative targets become 0; there is no upper clamp. */
  function SeekTo(s: PlayerState, seconds: real): (r: PlayerState)
    ensures |r.log| == |s.log| + 1 && r.log[|s.log|].Seek?
    ensures r == s.(log := s.log + [r.log[|s.log|]])
    ensures r.log[|s.log|].seconds >= 0.0
    ensures seconds >= 0.0 ==> r.log[|s.log|].seconds == seconds
    ensures seconds < 0.0 ==> r.log[|s.log|].seconds == 0.0
  {
    s.(log := s.log + [Seek(Max(0.0, seconds))])
  }

  /** `playNext()`: forward one slot when there is one; at the last slot
      `One` replays it and `All` and `Off` go back to the first. */
  function PlayNext(s: PlayerState): (r: PlayerState)
    ensures 0 <= s.index < |s.queue| - 1 ==> Loaded(s, r, s.queue, s.index + 1)
    ensures |s.queue| > 0 && s.index == |s.queue| - 1 && s.loopMode == One ==> Loaded(s, r, s.queue, s.index)
    ensures |s.queue| > 0 && s.index == |s.queue| - 1 && s.loopMode != One ==> Loaded(s, r, s.queue, 0)
    ensures |s.queue| == 0 ==> r == s
    ensures Valid(s) ==> Valid(r)
  {
    if 0 <= s.index < |s.queue| - 1 then PlayIndex(s, s.index + 1, None)
    else if s.loopMode == All && |s.queue| > 0 then PlayIndex(s, 0, None)
    else if s.loopMode == One && s.index >= 0 then PlayIndex(s, s.index, None)
    else if s.index == |s.queue| - 1 then PlayIndex(s, 0, None)
    else s
  }

  /** `playPrevious()`, given the last reported position. */
  function PlayPrevious(s: PlayerState, position: real): (r: PlayerState)
    ensures position > RestartThreshold && s.index >= 0 ==> r == s.(log := s.log + [Seek(0.0)])
    ensures !(position > RestartThreshold && s.index >= 0) && 0 < s.index <= |s.queue| ==>
      Loaded(s, r, s.queue, s.index - 1)
    ensures !(position > RestartThreshold && s.index >= 0) && s.index <= 0 && s.loopMode == All && |s.queue| > 0 ==>
      Loaded(s, r, s.queue, |s.queue| - 1)
    ensures !(position > RestartThreshold && s.index >= 0) && s.index <= 0 && (s.loopMode != All || |s.queue| == 0) ==>
      r == s.(log := s.log + [Seek(0.0)])
    ensures r.index == s.index || r.index == s.index - 1 || (s.loopMode == All && r.index == |s.queue| - 1)
    ensures Valid(s) ==> Valid(r)
  {
    if position > RestartThreshold && s.index >= 0 then s.(log := s.log + [Seek(0.0)])
    else if s.index > 0 then PlayIndex(s, s.index - 1, None)
    else if s.loopMode == All && |s.queue| > 0 then PlayIndex(s, |s.queue| - 1, None)
    else s.(log := s.log + [Seek(0.0)])
  }

  /** `toggleLoopMode()`: only the loop mode changes. */
  function ToggleLoopMode(s: PlayerState): (r: PlayerState)
    ensures r == s.(loopMode := r.loopMode)
    ensures r.loopMode != s.loopMode
  {
    s.(loopMode := Toggle(s.loopMode))
  }

  /** Three toggles restore the whole state. */
  lemma ToggleLoopModeThrice(s: PlayerState)
    ensures ToggleLoopMode(ToggleLoopMode(ToggleLoopMode(s))) == s
  {
    ToggleThriceIsIdentity(s.loopMode);
  }

  /** `setLoopMode(mode)`: only the loop mode changes. */
  function SetLoopMode(s: PlayerState, mode: LoopMode): (r: PlayerState)
    ensures r.loopMode == mode && r == s.(loopMode := mode)
  {
    s.(loopMode := mode)
  }

  /** The setter and the button agree: setting the mode the button would
      pick next is the same step as pressing it. */
  lemma SetLoopModeAgreesWithToggle(s: PlayerState)
    ensures SetLoopMode(s, Toggle(s.loopMode)) == ToggleLoopMode(s)
    ensures SetLoopMode(s, s.loopMode) == s
  {
  }

  /** The position is within the tolerance of the end. */
  predicate NearEnd(currentTime: real, duration: real) {
    currentTime >= Max(0.0, duration - EndTolerance)
  }

  /** The snapshot is skipped: still playing and barely moved since the last one processed. */
  predicate Stale(s: PlayerState, st: Status) {
    Abs(st.currentTime - s.lastProcessed) < StaleThreshold && st.playing
  }

  /** The snapshot fires the finish transition. */
  predicate Fires(s: PlayerState, st: Status) {
    st.duration > 0.0 && !st.playing && NearEnd(st.currentTime, st.duration) && !s.finished
  }

  /** What the finish handler does, per loop mode. */
  function FinishTransition(s: PlayerState): (r: PlayerState)
    ensures r.finished == s.finished && r.lastProcessed == s.lastProcessed
    ensures Valid(s) ==> Valid(r)
  {
    match s.loopMode
    case One => PlayIndex(s, s.index, None)
    case All =>
      if 0 <= s.index < |s.queue| - 1 then PlayNext(s)
      else if |s.queue| > 0 then PlayIndex(s, 0, None)
      else s
    case Off =>
      if 0 <= s.index < |s.queue| - 1 then PlayNext(s)
      else if s.index == |s.queue| - 1 then PlayIndex(s, 0, None)
      else s
  }

  /** The auto-advance effect run on one status snapshot. */
  function OnStatus(s: PlayerState, st: Status): (r: PlayerState)
    ensures st.duration <= 0.0 ==> r == s
    ensures st.duration > 0.0 && Stale(s, st) ==> r == s
    ensures st.duration > 0.0 && !Stale(s, st) ==> r.lastProcessed == st.currentTime
    ensures st.duration > 0.0 && !Stale(s, st) && st.playing ==> !r.finished
    ensures Fires(s, st) ==> r.finished
    ensures r.finished ==> s.finished || Fires(s, st)
    ensures !st.playing && s.finished ==> r.finished
    ensures s.finished && !r.finished ==> st.duration > 0.0 && st.playing && !Stale(s, st)
    ensures !Fires(s, st) ==> r.queue == s.queue && r.index == s.index && r.current == s.current && r.log == s.log
    ensures r.loopMode == s.loopMode
    ensures Valid(s) ==> Valid(r)
  {
    if st.duration <= 0.0 then s
    else if Stale(s, st) then s
    else
      var marked := s.(lastProcessed := st.currentTime);
      var advanced :=
        if !st.playing && NearEnd(st.currentTime, st.duration) && !marked.finished
        then FinishTransition(marked.(finished := true))
        else marked;
      if st.playing then advanced.(finished := false) else advanced
  }

  /** The finish transition lands where the loop policy says: on a valid
      state, firing loads `NextOnFinish` of the queue, or nothing when the
      policy yields no index or an index the queue does not hold. */
  lemma FinishFollowsLoopPolicy(s: PlayerState, st: Status)
    requires Valid(s)
    requires Fires(s, st)
    ensures var latched := s.(lastProcessed := st.currentTime, finished := true);
      match NextOnFinish(|s.queue|, s.index, s.loopMode)
      case Some(j) => OnStatus(s, st) == PlayIndex(latched, j, None)
      case None => OnStatus(s, st) == latched
  {
  }

  /** The states reached from `s` by a sequence of status polls. */
  function Run(s: PlayerState, sts: seq<Status>): (r: PlayerState)
    ensures r.loopMode == s.loopMode
    ensures Valid(s) ==> Valid(r)
    decreases |sts|
  {
    if |sts| == 0 then s else Run(OnStatus(s, sts[0]), sts[1..])
  }

  /** How many polls of `sts` fire the finish transition, starting from `s`. */
  function FireCount(s: PlayerState, sts: seq<Status>): nat
    decreases |sts|
  {
    if |sts| == 0 then 0
    else (if Fires(s, sts[0]) then 1 else 0) + FireCount(OnStatus(s, sts[0]), sts[1..])
  }

  /** The latch: however many "stopped near the end" reports arrive, without
      a report of playback resuming the finish transition fires at most
      once, and not at all once it has fired; once set, the latch is still
      set at the end of the run. */
  lemma {:induction false} FinishFiresAtMostOnce(s: PlayerState, sts: seq<Status>)
    requires forall k :: 0 <= k < |sts| ==> !sts[k].playing
    ensures FireCount(s, sts) <= 1
    ensures s.finished ==> FireCount(s, sts) == 0
    ensures s.finished || FireCount(s, sts) == 1 ==> Run(s, sts).finished
    decreases |sts|
  {
    if |sts| > 0 {
      var next := OnStatus(s, sts[0]);
      assert forall k :: 0 <= k < |sts[1..]| ==> !sts[1..][k].playing by {
        forall k | 0 <= k < |sts[1..]| ensures !sts[1..][k].playing {
          assert sts[1..][k] == sts[k + 1];
        }
      }
      FinishFiresAtMostOnce(next, sts[1..]);
      if Fires(s, sts[0]) {
        assert next.finished;
      } else if s.finished {
        assert next.finished;
      }
    }
  }

  /** A run of stopped reports that opens with a firing one fires exactly once. */
  lemma FinishFiresExactlyOnce(s: PlayerState, sts: seq<Status>)
    requires |sts| > 0 && Fires(s, sts[0])
    requires forall k :: 0 <= k < |sts| ==> !sts[k].playing
    ensures FireCount(s, sts) == 1
    ensures Run(s, sts).finished
  {
    FinishFiresAtMostOnce(s, sts);
  }

  /** A repeated stopped-at-end report that has fired once fires no more. */
  lemma RepeatedEndReportIsIgnored(s: PlayerState, st: Status)
    requires Fires(s, st)
    ensures !Fires(OnStatus(s, st), st)
    ensures OnStatus(OnStatus(s, st), st) == OnStatus(s, st)
  {
  }

  /** Everything that can happen to the controller: a public call (with the
      status fields it reads) or a status poll. */
  datatype Event =
    | PlaySongCall(song: Song, list: Option<seq<Song>>)
    | TogglePlayPauseCall(playing: bool)
    | SeekToCall(seconds: real)
    | PlayNextCall
    | PlayPreviousCall(position: real)
    | ToggleLoopModeCall
    | SetLoopModeCall(mode: LoopMode)
    | Poll(status: Status)

  function Step(s: PlayerState, e: Event): PlayerState {
    match e
    case PlaySongCall(song, list) => PlaySong(s, song, list)
    case TogglePlayPauseCall(playing) => TogglePlayPause(s, playing)
    case SeekToCall(seconds) => SeekTo(s, seconds)
    case PlayNextCall => PlayNext(s)
    case PlayPreviousCall(position) => PlayPrevious(s, position)
    case ToggleLoopModeCall => ToggleLoopMode(s)
    case SetLoopModeCall(mode) => SetLoopMode(s, mode)
    case Poll(status) => OnStatus(s, status)
  }

  function Replay(s: PlayerState, events: seq<Event>): PlayerState
    decreases |events|
  {
    if |events| == 0 then s else Replay(Step(s, events[0]), events[1..])
  }

  /** Whatever happens, the index stays -1 with an empty queue and no song,
      or a valid position whose song is the current one. */
  lemma {:induction false} ReplayKeepsQueueValid(s: PlayerState, events: seq<Event>)
    requires Valid(s)
    ensures Valid(Replay(s, events))
    decreases |events|
  {
    if |events| > 0 {
      ReplayKeepsQueueValid(Step(s, events[0]), events[1..]);
    }
  }

  lemma ValidFromInitial(events: seq<Event>)
    ensures Valid(Replay(Initial, events))
  {
    InitialIsValid();
    ReplayKeepsQueueValid(Initial, events);
  }

  /** A three-track queue under loop mode "none": each stop at the end
      advances once, a repeated stop report does nothing, the latch re-arms
      when playback is seen again, and the last track wraps to the first. */
  lemma ThreeTrackScenario(t1: Song, t2: Song, t3: Song)
    requires t1.id != t2.id && t1.id != t3.id
    ensures var ended := Status(10.0, 10.0, false);
      var resumed := Status(0.0, 10.0, true);
      var s0 := PlaySong(Initial, t1, Some([t1, t2, t3]));
      var s1 := OnStatus(s0, ended);
      var s2 := OnStatus(OnStatus(OnStatus(s1, ended), resumed), ended);
      var s3 := OnStatus(OnStatus(s2, resumed), ended);
      && s0.current == Some(t1)
      && s1.current == Some(t2) && s1.log == s0.log + [Replace(t2.uri), Play]
      && OnStatus(s1, ended) == s1
      && s2.current == Some(t3)
      && s3.current == Some(t1) && s3.index == 0
  {
    var ended := Status(10.0, 10.0, false);
    var resumed := Status(0.0, 10.0, true);
    var s0 := PlaySong(Initial, t1, Some([t1, t2, t3]));
    assert IndexOfId([t1, t2, t3], t1.id) == 0;
    assert s0.index == 0 && s0.queue == [t1, t2, t3] && !s0.finished && s0.loopMode == Off;
    var s1 := OnStatus(s0, ended);
    assert Fires(s0, ended);
    assert s1.index == 1 && s1.finished && s1.lastProcessed == 10.0;
    var r1 := OnStatus(s1, resumed);
    assert !r1.finished && r1.index == 1;
    var s2 := OnStatus(r1, ended);
    assert s2.index == 2 && s2.current == Some(t3);
    var r2 := OnStatus(s2, resumed);
    assert !r2.finished && r2.index == 2;
    var s3 := OnStatus(r2, ended);
    assert s3.index == 0;
  }
}
