/**
 The playback session: HLS error recovery, the play/pause toggle, and the
 metadata polling timer it starts and stops. The audio element and the HLS
 library are replaced by abstract events (what they report) and effects
 (what the page asks of them).
 */
module Player {
  import opened Common

  // ----- status line -----

  datatype StatusKind = LoadingStatus | PlayingStatus | ErrorStatus

  const LIVE_LABEL := "0:35 / Live"

  /** The text `updateStatus(message, type)` puts on the status line. */
  function ShownStatus(message: string, kind: StatusKind): (shown: string)
    ensures kind == PlayingStatus ==> shown == LIVE_LABEL
    ensures kind != PlayingStatus ==> shown == message
  {
    if kind == PlayingStatus then LIVE_LABEL else message
  }

  // ----- state, events, effects -----

  datatype ErrorType = NetworkError | MediaError | OtherError

  /** The `data` of an HLS `ERROR` event: whether it is fatal and its class. */
  datatype HlsErrorData = HlsErrorData(fatal: bool, kind: ErrorType)

  datatype Recovery = StartLoad | RecoverMediaError | Destroy

  /** How the stream is attached: through hls.js, natively, or not at all. */
  datatype Transport = HlsAttached | HlsDestroyed | NativeSource | NoSupport

  /**
   `isPlaying`, the number of `play()` promises not yet settled, the
   `metadataInterval` handle, the timers currently scheduled, the next timer
   handle, the transport and the status text.
   */
  datatype PlayerState = PlayerState(
    isPlaying: bool,
    pendingPlays: nat,
    interval: Option<nat>,
    liveTimers: set<nat>,
    nextTimer: nat,
    transport: Transport,
    status: string)

  datatype Event =
    | Click                        // the play button
    | PlayResolved                 // a pending play() promise resolved
    | PlayRejected                 // a pending play() promise rejected
    | ManifestParsed               // hls.js MANIFEST_PARSED
    | HlsError(data: HlsErrorData) // hls.js ERROR

  datatype Effect =
    | CallPlay                 // audio.play()
    | CallPause                // audio.pause()
    | FetchMetadata            // one immediate metadata poll
    | Recover(action: Recovery)

  datatype Outcome = Outcome(state: PlayerState, effects: seq<Effect>)

  /** `initializePlayer()`: hls.js when supported, else native HLS, else an error status. */
  function Initialize(hlsSupported: bool, nativeHls: bool, status: string): (s: PlayerState)
    ensures !s.isPlaying && s.pendingPlays == 0 && s.interval == None && s.liveTimers == {}
    ensures s.transport == HlsAttached <==> hlsSupported
    ensures s.transport == NativeSource <==> !hlsSupported && nativeHls
    ensures s.transport == NoSupport <==> !hlsSupported && !nativeHls
    ensures hlsSupported ==> s.status == status
    ensures !hlsSupported ==>
              s.status == (if nativeHls then "Using native HLS support" else "HLS is not supported in this browser")
  {
    var idle := PlayerState(false, 0, None, {}, 1, HlsAttached, status);
    if hlsSupported then idle
    else if nativeHls then idle.(transport := NativeSource, status := ShownStatus("Using native HLS support", LoadingStatus))
    else idle.(transport := NoSupport, status := ShownStatus("HLS is not supported in this browser", ErrorStatus))
  }

  // ----- HLS errors -----

  /** The `ERROR` handler: one recovery call per fatal error, chosen by its class. */
  function OnHlsError(s: PlayerState, data: HlsErrorData): (r: Outcome)
    requires s.transport == HlsAttached
    ensures !data.fatal ==> r == Outcome(s, [])
    ensures data.fatal ==> |r.effects| == 1 && r.effects[0].Recover?
    ensures data.fatal && data.kind == NetworkError ==>
              r.effects == [Recover(StartLoad)] && r.state == s.(status := "Network error - retrying...")
    ensures data.fatal && data.kind == MediaError ==>
              r.effects == [Recover(RecoverMediaError)] && r.state == s.(status := "Media error - attempting recovery...")
    ensures data.fatal && data.kind == OtherError ==>
              r.effects == [Recover(Destroy)] && r.state == s.(status := "Fatal error occurred", transport := HlsDestroyed)
  {
    if !data.fatal then Outcome(s, [])
    else match data.kind
      case NetworkError =>
        Outcome(s.(status := ShownStatus("Network error - retrying...", ErrorStatus)), [Recover(StartLoad)])
      case MediaError =>
        Outcome(s.(status := ShownStatus("Media error - attempting recovery...", ErrorStatus)), [Recover(RecoverMediaError)])
      case OtherError =>
        Outcome(s.(status := ShownStatus("Fatal error occurred", ErrorStatus), transport := HlsDestroyed), [Recover(Destroy)])
  }

  // ----- metadata polling timer -----

  function IntervalSet(h: Option<nat>): set<nat> {
    if h.Some? then {h.value} else {}
  }

  /** `startMetadataUpdates()` as written: poll now and schedule a new timer, with no guard. */
  function StartMetadataUpdates(s: PlayerState): (r: Outcome)
    ensures r.effects == [FetchMetadata]
    ensures r.state.interval == Some(s.nextTimer)
    ensures r.state.liveTimers == s.liveTimers + {s.nextTimer}
    ensures r.state.nextTimer > s.nextTimer
    ensures r.state == s.(interval := r.state.interval, liveTimers := r.state.liveTimers, nextTimer := r.state.nextTimer)
  {
    Outcome(s.(interval := Some(s.nextTimer), liveTimers := s.liveTimers + {s.nextTimer},
               nextTimer := s.nextTimer + 1),
            [FetchMetadata])
  }

  /** The corrected start: a held timer means polling already runs, so nothing happens. */
  function StartMetadataUpdatesGuarded(s: PlayerState): (r: Outcome)
    ensures s.interval.Some? ==> r == Outcome(s, [])
    ensures s.interval.None? ==> r == StartMetadataUpdates(s)
  {
    if s.interval.Some? then Outcome(s, []) else StartMetadataUpdates(s)
  }

  /** `stopMetadataUpdates()`: clears the held timer, if any, and forgets its handle. */
  function StopMetadataUpdates(s: PlayerState): (r: PlayerState)
    ensures r.interval == None
    ensures r.liveTimers == s.liveTimers - IntervalSet(s.interval)
    ensures r == s.(interval := None, liveTimers := r.liveTimers)
  {
    match s.interval
    case None => s
    case Some(h) => s.(interval := None, liveTimers := s.liveTimers - {h})
  }

  lemma StopIsIdempotent(s: PlayerState)
    ensures StopMetadataUpdates(StopMetadataUpdates(s)) == StopMetadataUpdates(s)
  {
  }

  /** Which `startMetadataUpdates` the click handler calls. */
  datatype StartPolicy = AsWritten | Guarded

  function Start(policy: StartPolicy, s: PlayerState): Outcome {
    match policy
    case AsWritten => StartMetadataUpdates(s)
    case Guarded => StartMetadataUpdatesGuarded(s)
  }

  // ----- the play button -----

  /** The click handler: start a `play()` when not playing, otherwise pause and stop polling. */
  function OnClick(s: PlayerState): (r: Outcome)
    ensures !s.isPlaying ==> r == Outcome(s.(pendingPlays := s.pendingPlays + 1), [CallPlay])
    ensures s.isPlaying ==>
              && r.state == s.(isPlaying := false, status := "Stream paused", interval := None,
                               liveTimers := s.liveTimers - IntervalSet(s.interval))
              && r.effects == [CallPause]
  {
    if !s.isPlaying then Outcome(s.(pendingPlays := s.pendingPlays + 1), [CallPlay])
    else
      var paused := s.(isPlaying := false, status := ShownStatus("Stream paused", LoadingStatus));
      Outcome(StopMetadataUpdates(paused), [CallPause])
  }

  /** A `play()` promise resolved: playing, live status, metadata polling started. */
  function OnPlayResolved(policy: StartPolicy, s: PlayerState): (r: Outcome)
    ensures s.pendingPlays == 0 ==> r == Outcome(s, [])
    ensures s.pendingPlays > 0 ==>
              && r.state.isPlaying
              && r.state.pendingPlays == s.pendingPlays - 1
              && r.state.status == LIVE_LABEL
              && r.state.interval.Some?
              && r.state.transport == s.transport
    ensures s.pendingPlays > 0 ==>
              r.state == s.(isPlaying := true, pendingPlays := s.pendingPlays - 1, status := LIVE_LABEL,
                            interval := r.state.interval, liveTimers := r.state.liveTimers, nextTimer := r.state.nextTimer)
    ensures s.pendingPlays > 0 && (policy == AsWritten || s.interval.None?) ==>
              && r.effects == [FetchMetadata]
              && r.state.interval == Some(s.nextTimer)
              && r.state.liveTimers == s.liveTimers + {s.nextTimer}
              && r.state.nextTimer > s.nextTimer
    ensures s.pendingPlays > 0 && policy == Guarded && s.interval.Some? ==>
              r.effects == [] && r.state.interval == s.interval && r.state.liveTimers == s.liveTimers
              && r.state.nextTimer == s.nextTimer
  {
    if s.pendingPlays == 0 then Outcome(s, [])
    else
      var playing := s.(isPlaying := true, pendingPlays := s.pendingPlays - 1,
                        status := ShownStatus("Playing live stream...", PlayingStatus));
      Start(policy, playing)
  }

  /** A `play()` promise rejected: error status; `isPlaying` and the timers are untouched. */
  function OnPlayRejected(s: PlayerState): (r: Outcome)
    ensures s.pendingPlays == 0 ==> r == Outcome(s, [])
    ensures s.pendingPlays > 0 ==>
              r == Outcome(s.(pendingPlays := s.pendingPlays - 1, status := "Error playing stream"), [])
  {
    if s.pendingPlays == 0 then Outcome(s, [])
    else Outcome(s.(pendingPlays := s.pendingPlays - 1, status := ShownStatus("Error playing stream", ErrorStatus)), [])
  }

  /** One event. HLS events arrive only while hls.js is attached (destroy removes the listeners). */
  function Step(policy: StartPolicy, s: PlayerState, e: Event): (r: Outcome)
    ensures (e.ManifestParsed? || e.HlsError?) ==>
              && r.state.isPlaying == s.isPlaying && r.state.pendingPlays == s.pendingPlays
              && r.state.interval == s.interval && r.state.liveTimers == s.liveTimers
    ensures (e.ManifestParsed? || e.HlsError?) && s.transport != HlsAttached ==> r == Outcome(s, [])
    ensures e.ManifestParsed? && s.transport == HlsAttached ==> r == Outcome(s.(status := "Stream loaded and ready"), [])
    ensures !e.HlsError? ==> r.state.transport == s.transport
    ensures r.effects == [CallPlay] <==> e.Click? && !s.isPlaying
  {
    match e
    case Click => OnClick(s)
    case PlayResolved => OnPlayResolved(policy, s)
    case PlayRejected => OnPlayRejected(s)
    case ManifestParsed =>
      if s.transport == HlsAttached then Outcome(s.(status := ShownStatus("Stream loaded and ready", LoadingStatus)), [])
      else Outcome(s, [])
    case HlsError(data) =>
      if s.transport == HlsAttached then OnHlsError(s, data) else Outcome(s, [])
  }

  /** The state after a sequence of events. */
  function Run(policy: StartPolicy, s: PlayerState, events: seq<Event>): PlayerState
    decreases |events|
  {
    if |events| == 0 then s
    else Step(policy, Run(policy, s, events[..|events| - 1]), events[|events| - 1]).state
  }

  // ----- the transport -----

  /** Only a fatal error outside the network and media classes changes the transport, by destroying it. */
  lemma TransportChangesOnlyByDestroy(policy: StartPolicy, s: PlayerState, e: Event)
    ensures var t := Step(policy, s, e).state.transport;
            t != s.transport ==>
              && s.transport == HlsAttached && t == HlsDestroyed
              && e.HlsError? && e.data.fatal && e.data.kind == OtherError
  {
  }

  /** A destroyed transport stays destroyed: recovery needs a full re-initialisation. */
  lemma {:induction false} DestroyedIsFinal(policy: StartPolicy, s: PlayerState, events: seq<Event>)
    requires s.transport == HlsDestroyed
    ensures Run(policy, s, events).transport == HlsDestroyed
    decreases |events|
  {
    if |events| > 0 {
      var before := Run(policy, s, events[..|events| - 1]);
      DestroyedIsFinal(policy, s, events[..|events| - 1]);
      TransportChangesOnlyByDestroy(policy, before, events[|events| - 1]);
    }
  }

  /** A recoverable fatal error while playing keeps playback and polling as they were. */
  lemma RecoverableErrorKeepsPlayback(policy: StartPolicy, s: PlayerState, data: HlsErrorData)
    requires s.transport == HlsAttached
    requires data.kind == NetworkError || data.kind == MediaError
    ensures var r := Step(policy, s, HlsError(data)).state;
            r.isPlaying == s.isPlaying && r.interval == s.interval && r.liveTimers == s.liveTimers
            && r.transport == HlsAttached
  {
  }

  // ----- polling timers -----

  /** Every scheduled timer is the one whose handle is held, and handles are fresh. */
  ghost predicate TimersTracked(s: PlayerState) {
    && s.liveTimers == IntervalSet(s.interval)
    && forall t :: t in s.liveTimers ==> t < s.nextTimer
  }

  lemma GuardedStepKeepsTimersTracked(s: PlayerState, e: Event)
    requires TimersTracked(s)
    ensures TimersTracked(Step(Guarded, s, e).state)
  {
  }

  /** With the guarded start, every reachable state tracks its timers. */
  lemma {:induction false} GuardedRunKeepsTimersTracked(s: PlayerState, events: seq<Event>)
    requires TimersTracked(s)
    ensures TimersTracked(Run(Guarded, s, events))
    decreases |events|
  {
    if |events| > 0 {
      GuardedRunKeepsTimersTracked(s, events[..|events| - 1]);
      GuardedStepKeepsTimersTracked(Run(Guarded, s, events[..|events| - 1]), events[|events| - 1]);
    }
  }

  /** With the guarded start, pausing leaves no timer scheduled: polling stops. */
  lemma GuardedPauseStopsPolling(s: PlayerState, events: seq<Event>)
    requires TimersTracked(s)
    requires Run(Guarded, s, events).isPlaying
    ensures Step(Guarded, Run(Guarded, s, events), Click).state.liveTimers == {}
    ensures !Step(Guarded, Run(Guarded, s, events), Click).state.isPlaying
  {
    GuardedRunKeepsTimersTracked(s, events);
  }

  lemma RunAppend(policy: StartPolicy, s: PlayerState, events: seq<Event>, e: Event)
    ensures Run(policy, s, events + [e]) == Step(policy, Run(policy, s, events), e).state
  {
    assert (events + [e])[..|events|] == events;
  }

  /** Two clicks before `play()` settles, both plays resolving, then a pausing click. */
  const DOUBLE_CLICK_THEN_PAUSE: seq<Event> := [Click, Click, PlayResolved, PlayResolved, Click]

  /** The states the event sequence passes through. */
  lemma DoubleClickTrace(policy: StartPolicy, s0: PlayerState)
    ensures var s2 := Step(policy, Step(policy, s0, Click).state, Click).state;
            var s3 := Step(policy, s2, PlayResolved).state;
            var s4 := Step(policy, s3, PlayResolved).state;
            Run(policy, s0, DOUBLE_CLICK_THEN_PAUSE) == Step(policy, s4, Click).state
  {
    assert [] + [Click] == [Click];
    assert [Click] + [Click] == [Click, Click];
    assert [Click, Click] + [PlayResolved] == [Click, Click, PlayResolved];
    assert [Click, Click, PlayResolved] + [PlayResolved] == [Click, Click, PlayResolved, PlayResolved];
    assert [Click, Click, PlayResolved, PlayResolved] + [Click] == DOUBLE_CLICK_THEN_PAUSE;
    RunAppend(policy, s0, [], Click);
    RunAppend(policy, s0, [Click], Click);
    RunAppend(policy, s0, [Click, Click], PlayResolved);
    RunAppend(policy, s0, [Click, Click, PlayResolved], PlayResolved);
    RunAppend(policy, s0, [Click, Click, PlayResolved, PlayResolved], Click);
  }

  /**
   As written, both resolutions start a timer; the second overwrites the
   handle, so the pause clears only one and the other keeps polling.
   */
  lemma AsWrittenDoubleStartLeaksTimer()
    ensures var s := Run(AsWritten, Initialize(true, false, ""), DOUBLE_CLICK_THEN_PAUSE);
            !s.isPlaying && s.liveTimers == {1}
  {
    var s0 := Initialize(true, false, "");
    DoubleClickTrace(AsWritten, s0);
    var s2 := Step(AsWritten, Step(AsWritten, s0, Click).state, Click).state;
    assert s2.pendingPlays == 2 && !s2.isPlaying && s2.liveTimers == {} && s2.nextTimer == 1;
    var s3 := Step(AsWritten, s2, PlayResolved).state;
    assert s3.liveTimers == {1} && s3.nextTimer == 2 && s3.pendingPlays == 1;
    var s4 := Step(AsWritten, s3, PlayResolved).state;
    assert s4.liveTimers == {1, 2} && s4.interval == Some(2) && s4.isPlaying;
  }

  /** The same clicks with the guarded start leave nothing scheduled. */
  lemma GuardedDoubleStartStopsPolling()
    ensures var s := Run(Guarded, Initialize(true, false, ""), DOUBLE_CLICK_THEN_PAUSE);
            !s.isPlaying && s.liveTimers == {}
  {
    var s0 := Initialize(true, false, "");
    DoubleClickTrace(Guarded, s0);
    var s2 := Step(Guarded, Step(Guarded, s0, Click).state, Click).state;
    var s3 := Step(Guarded, s2, PlayResolved).state;
    var s4 := Step(Guarded, s3, PlayResolved).state;
    assert TimersTracked(s0);
    GuardedStepKeepsTimersTracked(s0, Click);
    GuardedStepKeepsTimersTracked(Step(Guarded, s0, Click).state, Click);
    GuardedStepKeepsTimersTracked(s2, PlayResolved);
    GuardedStepKeepsTimersTracked(s3, PlayResolved);
    assert s4.isPlaying;
  }
}
