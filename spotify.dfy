/**
 * The playback analytics of the Spotify episode embed
 * (src/components/SpotifyEmbed.tsx): the `playback_started` and
 * `playback_update` listeners, the five tracking refs they share, and the
 * tracking events they emit. Positions and durations are integer
 * milliseconds; the emitted events keep only the fields that vary between
 * calls (the content type, the episode URI, its id and the title are the
 * same for every event of one embed).
 */
module SpotifyEmbed {

  // ---------------------------------------------------------------------------
  // Episode id
  // ---------------------------------------------------------------------------

  /** `s.split(":").pop()`: the text after the last colon, or all of `s` when it has none. */
  function LastSegment(s: string): (r: string)
    ensures ':' !in r
    ensures |r| <= |s| && r == s[|s| - |r|..]
    ensures |r| < |s| ==> s[|s| - |r| - 1] == ':'
  {
    if s == [] then []
    else if s[|s| - 1] == ':' then []
    else LastSegment(s[..|s| - 1]) + [s[|s| - 1]]
  }

  /** `episodeUri.split(":").pop() || episodeUri`: an empty last segment falls back to the whole URI. */
  function EpisodeId(episodeUri: string): (id: string)
    ensures id == episodeUri ||
      (id != [] && ':' !in id && |id| < |episodeUri| &&
       episodeUri[|episodeUri| - |id| - 1] == ':' && id == episodeUri[|episodeUri| - |id|..])
    ensures episodeUri != [] && episodeUri[|episodeUri| - 1] == ':' ==> id == episodeUri
  {
    var last := LastSegment(episodeUri);
    if last == [] then episodeUri else last
  }

  /** A `spotify:episode:<id>` URI yields its id. */
  lemma {:induction false} EpisodeIdOfUri(prefix: string, id: string)
    requires id != [] && ':' !in id
    ensures EpisodeId(prefix + ":" + id) == id
  {
    LastSegmentAfterColon(prefix + ":", id);
  }

  lemma {:induction false} LastSegmentAfterColon(front: string, id: string)
    requires front != [] && front[|front| - 1] == ':' && ':' !in id
    ensures LastSegment(front + id) == id
    decreases |id|
  {
    if id == [] {
      assert front + id == front;
    } else {
      var whole, init, last := front + id, id[..|id| - 1], id[|id| - 1];
      assert whole[|whole| - 1] == last && last != ':';
      assert whole[..|whole| - 1] == front + init;
      LastSegmentAfterColon(front, init);
      assert LastSegment(whole) == LastSegment(front + init) + [last];
      assert init + [last] == id;
    }
  }

  // ---------------------------------------------------------------------------
  // Events and refs
  // ---------------------------------------------------------------------------

  /** The `data` of a `playback_update` event. */
  datatype PlaybackData = PlaybackData(isPaused: bool, isBuffering: bool, duration: int, position: int)

  /** What the embed controller reports. */
  datatype PlayerEvent =
    | PlaybackStarted(playingUri: string)
    | PlaybackUpdate(data: PlaybackData)

  /** The tracking events, with their varying fields (times and durations in whole seconds). */
  datatype TrackEvent =
    | PlaybackStart(contentId: string)
    | PlaybackProgress(percent: int, currentTime: int, duration: int)
    | PlaybackPause(currentTime: int, duration: int)
    | PlaybackResume(currentTime: int, duration: int)
    | PlaybackSeek(fromTime: int, toTime: int, duration: int)
    | PlaybackComplete(duration: int)

  /** The five tracking refs. */
  datatype Refs = Refs(
    progressMilestones: set<int>,
    hasCompleted: bool,
    lastPausedState: bool,
    lastPosition: int,
    hasStarted: bool)

  /** The refs of a freshly mounted embed. */
  const InitialRefs := Refs({}, false, true, 0, false)

  /** The state of the refs after some events together with what was tracked on the way. */
  datatype Outcome = Outcome(refs: Refs, events: seq<TrackEvent>)

  const Milestones: seq<int> := [25, 50, 75, 90]
  const CompletePercent := 95
  const SeekThresholdMs := 2000

  /**
   * `(position / duration) * 100 >= percent` evaluated on doubles, stated
   * exactly: a positive duration scales both sides; a negative one flips the
   * comparison; a zero duration gives +Infinity for a positive position and
   * -Infinity or NaN (never reaching anything) otherwise.
   */
  predicate Reaches(position: int, duration: int, percent: int) {
    if duration > 0 then position * 100 >= percent * duration
    else if duration < 0 then position * 100 <= percent * duration
    else position > 0
  }

  /** For a non-zero duration `Reaches` is the percentage comparison on exact reals. */
  lemma ReachesIsPercent(position: int, duration: int, percent: int)
    requires duration != 0
    ensures Reaches(position, duration, percent) <==>
      (position as real / duration as real) * 100.0 >= percent as real
  {
    var q := position as real / duration as real;
    assert q * duration as real == position as real;
    assert q * 100.0 * duration as real == position as real * 100.0;
    if duration > 0 {
      PositiveScaling(q * 100.0, percent as real, duration as real);
    } else {
      NegativeScaling(q * 100.0, percent as real, duration as real);
    }
  }

  lemma PositiveScaling(a: real, b: real, d: real)
    requires d > 0.0
    ensures a >= b <==> a * d >= b * d
  {
    assert (a - b) * d == a * d - b * d;
    if a >= b {
      assert (a - b) * d >= 0.0;
    } else {
      assert (b - a) * d > 0.0;
    }
  }

  lemma NegativeScaling(a: real, b: real, d: real)
    requires d < 0.0
    ensures a >= b <==> a * d <= b * d
  {
    PositiveScaling(a, b, -d);
    assert a * -d == -(a * d) && b * -d == -(b * d);
  }

  /** `Math.abs(x)`. */
  function Abs(x: int): (r: nat)
    ensures r == x || r == -x
  {
    if x < 0 then -x else x
  }

  /** `Math.floor(ms / 1000)`: Dafny's division by a positive divisor rounds down as `Math.floor` does. */
  function Seconds(ms: int): (s: int)
    ensures s * 1000 <= ms < s * 1000 + 1000
  {
    ms / 1000
  }

  // ---------------------------------------------------------------------------
  // The listeners as functions of the refs
  // ---------------------------------------------------------------------------

  /** The `playback_started` listener: track the start once, on the first such event. */
  function StartedOutcome(r: Refs, playingUri: string): (o: Outcome)
    ensures o.refs.hasStarted && o.refs.(hasStarted := r.hasStarted) == r
    ensures |o.events| == (if r.hasStarted then 0 else 1)
    ensures forall k :: 0 <= k < |o.events| ==> o.events[k] == PlaybackStart(playingUri)
  {
    if !r.hasStarted then Outcome(r.(hasStarted := true), [PlaybackStart(playingUri)])
    else Outcome(r, [])
  }

  /** The milestone loop after its first `i` iterations: the milestones seen so far and what it tracked. */
  function ProgressUpTo(reached: set<int>, d: PlaybackData, i: nat): (p: (set<int>, seq<TrackEvent>))
    requires i <= |Milestones|
  {
    if i == 0 then (reached, [])
    else
      var prev := ProgressUpTo(reached, d, i - 1);
      var m := Milestones[i - 1];
      if Reaches(d.position, d.duration, m) && m !in prev.0 then
        (prev.0 + {m}, prev.1 + [PlaybackProgress(m, Seconds(d.position), Seconds(d.duration))])
      else prev
  }

  predicate PauseFires(r: Refs, d: PlaybackData) {
    d.isPaused && !r.lastPausedState && r.hasStarted
  }

  predicate ResumeFires(r: Refs, d: PlaybackData) {
    !d.isPaused && r.lastPausedState && r.hasStarted && d.position > 0
  }

  predicate SeekFires(r: Refs, d: PlaybackData) {
    Abs(d.position - r.lastPosition) > SeekThresholdMs && r.lastPosition > 0 && r.hasStarted && !d.isPaused
  }

  predicate CompleteFires(r: Refs, d: PlaybackData) {
    Reaches(d.position, d.duration, CompletePercent) && !r.hasCompleted
  }

  /** The pause event of an update, when its check passes. */
  function PauseEvents(r: Refs, d: PlaybackData): seq<TrackEvent> {
    if PauseFires(r, d) then [PlaybackPause(Seconds(d.position), Seconds(d.duration))] else []
  }

  /** The resume event of an update, when its check passes. */
  function ResumeEvents(r: Refs, d: PlaybackData): seq<TrackEvent> {
    if ResumeFires(r, d) then [PlaybackResume(Seconds(d.position), Seconds(d.duration))] else []
  }

  /** The seek event of an update, from the last playing position, when its check passes. */
  function SeekEvents(r: Refs, d: PlaybackData): seq<TrackEvent> {
    if SeekFires(r, d) then [PlaybackSeek(Seconds(r.lastPosition), Seconds(d.position), Seconds(d.duration))] else []
  }

  /** The completion event of an update, when its check passes. */
  function CompleteEvents(r: Refs, d: PlaybackData): seq<TrackEvent> {
    if CompleteFires(r, d) then [PlaybackComplete(Seconds(d.duration))] else []
  }

  /** The pause, resume, seek and completion events of a non-buffering update, in that order. */
  function TransitionEvents(r: Refs, d: PlaybackData): seq<TrackEvent> {
    PauseEvents(r, d) + ResumeEvents(r, d) + SeekEvents(r, d) + CompleteEvents(r, d)
  }

  /** The refs at the end of a non-buffering update whose milestone loop left `reached`. */
  function UpdatedRefs(r: Refs, d: PlaybackData, reached: set<int>): Refs {
    Refs(
      reached,
      r.hasCompleted || CompleteFires(r, d),
      d.isPaused,
      if !d.isPaused then d.position else r.lastPosition,
      r.hasStarted)
  }

  /**
   * The `playback_update` listener: nothing while buffering; otherwise the
   * milestones, then pause, resume, seek and completion, then the refs update.
   */
  function UpdateOutcome(r: Refs, d: PlaybackData): Outcome {
    if d.isBuffering then Outcome(r, [])
    else
      var progress := ProgressUpTo(r.progressMilestones, d, |Milestones|);
      Outcome(UpdatedRefs(r, d, progress.0), progress.1 + TransitionEvents(r, d))
  }

  function Step(r: Refs, e: PlayerEvent): Outcome {
    match e
    case PlaybackStarted(uri) => StartedOutcome(r, uri)
    case PlaybackUpdate(d) => UpdateOutcome(r, d)
  }

  /** The refs and the tracked events after a whole sequence of controller events. */
  function Run(r: Refs, es: seq<PlayerEvent>): Outcome
    decreases |es|
  {
    if es == [] then Outcome(r, [])
    else
      var first := Step(r, es[0]);
      var rest := Run(first.refs, es[1..]);
      Outcome(rest.refs, first.events + rest.events)
  }

  // ---------------------------------------------------------------------------
  // Counting tracked events
  // ---------------------------------------------------------------------------

  datatype EventKind = StartKind | ProgressKind(percent: int) | PauseKind | ResumeKind | SeekKind | CompleteKind

  function KindOf(e: TrackEvent): EventKind {
    match e
    case PlaybackStart(_) => StartKind
    case PlaybackProgress(m, _, _) => ProgressKind(m)
    case PlaybackPause(_, _) => PauseKind
    case PlaybackResume(_, _) => ResumeKind
    case PlaybackSeek(_, _, _) => SeekKind
    case PlaybackComplete(_) => CompleteKind
  }

  lemma ConcatAssoc(a: seq<TrackEvent>, b: seq<TrackEvent>, c: seq<TrackEvent>)
    ensures a + b + c == a + (b + c)
  {
  }

  /** How many events of kind `k` a sequence holds. */
  function Count(k: EventKind, es: seq<TrackEvent>): nat {
    if es == [] then 0
    else (if KindOf(es[0]) == k then 1 else 0) + Count(k, es[1..])
  }

  lemma {:induction false} CountConcat(k: EventKind, a: seq<TrackEvent>, b: seq<TrackEvent>)
    ensures Count(k, a + b) == Count(k, a) + Count(k, b)
  {
    if a == [] {
      assert a + b == b;
    } else {
      assert (a + b)[1..] == a[1..] + b;
      CountConcat(k, a[1..], b);
    }
  }

  lemma CountSingle(k: EventKind, e: TrackEvent)
    ensures Count(k, [e]) == if KindOf(e) == k then 1 else 0
  {
    assert [e][1..] == [];
  }

  /** A sequence holding no event of kind `k` counts none. */
  lemma {:induction false} CountOfKindless(k: EventKind, es: seq<TrackEvent>)
    requires forall i :: 0 <= i < |es| ==> KindOf(es[i]) != k
    ensures Count(k, es) == 0
  {
    if es != [] {
      CountOfKindless(k, es[1..]);
    }
  }

  /** 1 when `m` is among the first `i` milestones, reached by `d` and not in `reached`, else 0. */
  function FirstReachAmong(reached: set<int>, d: PlaybackData, m: int, i: nat): nat
    requires i <= |Milestones|
  {
    if m in Milestones[..i] && Reaches(d.position, d.duration, m) && m !in reached then 1 else 0
  }

  /** After `i` iterations the milestone loop has added exactly the milestones among the first `i` that the position reaches. */
  lemma {:induction false} ProgressUpToReached(reached: set<int>, d: PlaybackData, i: nat)
    requires i <= |Milestones|
    ensures ProgressUpTo(reached, d, i).0 ==
      reached + set j | 0 <= j < i && Reaches(d.position, d.duration, Milestones[j]) :: Milestones[j]
  {
    if i > 0 {
      ProgressUpToReached(reached, d, i - 1);
    }
  }

  /** The milestone loop tracks nothing but progress, each carrying this update's readings. */
  lemma {:induction false} ProgressUpToPayload(reached: set<int>, d: PlaybackData, i: nat)
    requires i <= |Milestones|
    ensures forall k :: 0 <= k < |ProgressUpTo(reached, d, i).1| ==>
      ProgressUpTo(reached, d, i).1[k].PlaybackProgress? &&
      ProgressUpTo(reached, d, i).1[k].currentTime == Seconds(d.position) &&
      ProgressUpTo(reached, d, i).1[k].duration == Seconds(d.duration)
  {
    if i > 0 {
      ProgressUpToPayload(reached, d, i - 1);
    }
  }

  /** After `i` iterations the milestone loop has tracked each milestone among the first `i` not seen before at most once, and once exactly when reached. */
  lemma {:induction false} ProgressUpToCounts(reached: set<int>, d: PlaybackData, i: nat)
    requires i <= |Milestones|
    ensures forall m ::
      Count(ProgressKind(m), ProgressUpTo(reached, d, i).1) == FirstReachAmong(reached, d, m, i)
  {
    if i > 0 {
      ProgressUpToCounts(reached, d, i - 1);
      ProgressUpToReached(reached, d, i - 1);
      var prev := ProgressUpTo(reached, d, i - 1);
      var m := Milestones[i - 1];
      assert Milestones[..i] == Milestones[..i - 1] + [m];
      assert m !in Milestones[..i - 1];
      assert m in prev.0 <==> m in reached;
      forall m' ensures Count(ProgressKind(m'), ProgressUpTo(reached, d, i).1) == FirstReachAmong(reached, d, m', i) {
        if Reaches(d.position, d.duration, m) && m !in prev.0 {
          var ev := PlaybackProgress(m, Seconds(d.position), Seconds(d.duration));
          CountConcat(ProgressKind(m'), prev.1, [ev]);
          assert Count(ProgressKind(m'), [ev]) == if m' == m then 1 else 0;
        }
      }
    }
  }

  // ---------------------------------------------------------------------------
  // Properties of one update
  // ---------------------------------------------------------------------------

  /** A buffering update tracks nothing and leaves every ref as it was. */
  lemma BufferingIsInert(r: Refs, d: PlaybackData)
    requires d.isBuffering
    ensures UpdateOutcome(r, d) == Outcome(r, [])
  {
  }

  /**
   * A non-buffering update tracks each milestone it reaches for the first time
   * once, and each of pause, resume, seek and completion once exactly when its
   * condition holds; it never tracks a start.
   */
  lemma UpdateEventCounts(r: Refs, d: PlaybackData)
    requires !d.isBuffering
    ensures Count(StartKind, UpdateOutcome(r, d).events) == 0
    ensures Count(PauseKind, UpdateOutcome(r, d).events) == if PauseFires(r, d) then 1 else 0
    ensures Count(ResumeKind, UpdateOutcome(r, d).events) == if ResumeFires(r, d) then 1 else 0
    ensures Count(SeekKind, UpdateOutcome(r, d).events) == if SeekFires(r, d) then 1 else 0
    ensures Count(CompleteKind, UpdateOutcome(r, d).events) == if CompleteFires(r, d) then 1 else 0
    ensures forall m ::
      Count(ProgressKind(m), UpdateOutcome(r, d).events) == FirstReach(r, d, m)
  {
    var progress := ProgressUpTo(r.progressMilestones, d, |Milestones|);
    var transitions := TransitionEvents(r, d);
    ProgressUpToCounts(r.progressMilestones, d, |Milestones|);
    ProgressUpToPayload(r.progressMilestones, d, |Milestones|);
    assert Milestones[..|Milestones|] == Milestones;
    TransitionCounts(r, d);
    forall k: EventKind
      ensures Count(k, UpdateOutcome(r, d).events) == Count(k, progress.1) + Count(k, transitions)
    {
      CountConcat(k, progress.1, transitions);
    }
    forall k: EventKind | !k.ProgressKind? ensures Count(k, progress.1) == 0 {
      CountOfKindless(k, progress.1);
    }
  }

  /** 1 when the update is the first to reach milestone `m`, else 0. */
  function FirstReach(r: Refs, d: PlaybackData, m: int): nat {
    if m in Milestones && Reaches(d.position, d.duration, m) && m !in r.progressMilestones then 1 else 0
  }

  /** The transition events hold each kind once exactly when its condition holds, and no progress. */
  lemma TransitionCounts(r: Refs, d: PlaybackData)
    ensures Count(StartKind, TransitionEvents(r, d)) == 0
    ensures Count(PauseKind, TransitionEvents(r, d)) == if PauseFires(r, d) then 1 else 0
    ensures Count(ResumeKind, TransitionEvents(r, d)) == if ResumeFires(r, d) then 1 else 0
    ensures Count(SeekKind, TransitionEvents(r, d)) == if SeekFires(r, d) then 1 else 0
    ensures Count(CompleteKind, TransitionEvents(r, d)) == if CompleteFires(r, d) then 1 else 0
    ensures forall m :: Count(ProgressKind(m), TransitionEvents(r, d)) == 0
  {
    TransitionCount(r, d, StartKind);
    TransitionCount(r, d, PauseKind);
    TransitionCount(r, d, ResumeKind);
    TransitionCount(r, d, SeekKind);
    TransitionCount(r, d, CompleteKind);
    forall m ensures Count(ProgressKind(m), TransitionEvents(r, d)) == 0 {
      TransitionCount(r, d, ProgressKind(m));
    }
  }

  lemma TransitionCount(r: Refs, d: PlaybackData, k: EventKind)
    ensures Count(k, TransitionEvents(r, d)) ==
      (if PauseFires(r, d) && k == PauseKind then 1 else 0) +
      (if ResumeFires(r, d) && k == ResumeKind then 1 else 0) +
      (if SeekFires(r, d) && k == SeekKind then 1 else 0) +
      (if CompleteFires(r, d) && k == CompleteKind then 1 else 0)
  {
    var cur, dur := Seconds(d.position), Seconds(d.duration);
    var pause, resume, seek, complete := PauseEvents(r, d), ResumeEvents(r, d), SeekEvents(r, d), CompleteEvents(r, d);
    CountSingle(k, PlaybackPause(cur, dur));
    CountSingle(k, PlaybackResume(cur, dur));
    CountSingle(k, PlaybackSeek(Seconds(r.lastPosition), cur, dur));
    CountSingle(k, PlaybackComplete(dur));
    CountConcat(k, pause, resume);
    CountConcat(k, pause + resume, seek);
    CountConcat(k, pause + resume + seek, complete);
  }

  /** After a non-buffering update the refs hold its pause state, its position (only while playing) and every milestone reached. */
  lemma UpdateRefs(r: Refs, d: PlaybackData)
    requires !d.isBuffering
    ensures UpdateOutcome(r, d).refs.lastPausedState == d.isPaused
    ensures UpdateOutcome(r, d).refs.lastPosition == if d.isPaused then r.lastPosition else d.position
    ensures UpdateOutcome(r, d).refs.hasStarted == r.hasStarted
    ensures UpdateOutcome(r, d).refs.hasCompleted == (r.hasCompleted || Reaches(d.position, d.duration, CompletePercent))
    ensures UpdateOutcome(r, d).refs.progressMilestones ==
      r.progressMilestones + set m | m in Milestones && Reaches(d.position, d.duration, m)
  {
    ProgressUpToReached(r.progressMilestones, d, |Milestones|);
    var reachedNow := set j | 0 <= j < |Milestones| && Reaches(d.position, d.duration, Milestones[j]) :: Milestones[j];
    assert reachedNow == set m | m in Milestones && Reaches(d.position, d.duration, m) by {
      forall m | m in Milestones && Reaches(d.position, d.duration, m) ensures m in reachedNow {
        var j :| 0 <= j < |Milestones| && Milestones[j] == m;
      }
    }
  }

  // ---------------------------------------------------------------------------
  // Properties of whole runs
  // ---------------------------------------------------------------------------

  /** The refs that only ever go from false to true, or only grow, never go back. */
  predicate Grown(before: Refs, after: Refs) {
    && before.progressMilestones <= after.progressMilestones
    && (before.hasStarted ==> after.hasStarted)
    && (before.hasCompleted ==> after.hasCompleted)
  }

  lemma StepGrows(r: Refs, e: PlayerEvent)
    ensures Grown(r, Step(r, e).refs)
  {
    if e.PlaybackUpdate? && !e.data.isBuffering {
      UpdateRefs(r, e.data);
    }
  }

  /** One event tracks a start exactly when it is the first `playback_started`, and marks the embed started. */
  lemma StepStart(r: Refs, e: PlayerEvent)
    ensures Count(StartKind, Step(r, e).events) == if e.PlaybackStarted? && !r.hasStarted then 1 else 0
    ensures Step(r, e).refs.hasStarted == (r.hasStarted || e.PlaybackStarted?)
  {
    if e.PlaybackUpdate? && !e.data.isBuffering {
      UpdateEventCounts(r, e.data);
      UpdateRefs(r, e.data);
    } else if e.PlaybackStarted? && !r.hasStarted {
      CountSingle(StartKind, PlaybackStart(e.playingUri));
    }
  }

  /**
   * Over any run, `playback_start` is tracked at most once, and not at all
   * when the embed had already started.
   */
  lemma {:induction false} StartAtMostOnce(r: Refs, es: seq<PlayerEvent>)
    ensures Count(StartKind, Run(r, es).events) <= if r.hasStarted then 0 else 1
    decreases |es|
  {
    if es != [] {
      var first := Step(r, es[0]);
      StartAtMostOnce(first.refs, es[1..]);
      CountConcat(StartKind, first.events, Run(first.refs, es[1..]).events);
      StepStart(r, es[0]);
    }
  }

  /** After any run the embed has started exactly when it had before or the run holds a `playback_started`. */
  lemma {:induction false} StartedAfterRun(r: Refs, es: seq<PlayerEvent>)
    ensures Run(r, es).refs.hasStarted == (r.hasStarted || exists i :: 0 <= i < |es| && es[i].PlaybackStarted?)
    decreases |es|
  {
    if es != [] {
      var first := Step(r, es[0]);
      StartedAfterRun(first.refs, es[1..]);
      StepStart(r, es[0]);
      if exists i :: 0 <= i < |es| && es[i].PlaybackStarted? {
        var i :| 0 <= i < |es| && es[i].PlaybackStarted?;
        if i > 0 {
          assert es[1..][i - 1].PlaybackStarted?;
        }
      }
      if exists i :: 0 <= i < |es[1..]| && es[1..][i].PlaybackStarted? {
        var i :| 0 <= i < |es[1..]| && es[1..][i].PlaybackStarted?;
        assert es[i + 1].PlaybackStarted?;
      }
    }
  }

  /** Over any run, `playback_complete` is tracked at most once, and not at all after an earlier completion. */
  lemma {:induction false} CompleteAtMostOnce(r: Refs, es: seq<PlayerEvent>)
    ensures Count(CompleteKind, Run(r, es).events) <= if r.hasCompleted then 0 else 1
    decreases |es|
  {
    if es != [] {
      var first := Step(r, es[0]);
      CompleteAtMostOnce(first.refs, es[1..]);
      CountConcat(CompleteKind, first.events, Run(first.refs, es[1..]).events);
      StepGrows(r, es[0]);
      if es[0].PlaybackUpdate? && !es[0].data.isBuffering {
        UpdateEventCounts(r, es[0].data);
        UpdateRefs(r, es[0].data);
      }
    }
  }

  /** Over any run, each milestone is tracked at most once, and not at all once it has been seen. */
  lemma {:induction false} MilestoneAtMostOnce(r: Refs, es: seq<PlayerEvent>, m: int)
    ensures Count(ProgressKind(m), Run(r, es).events) <= if m in r.progressMilestones then 0 else 1
    decreases |es|
  {
    if es != [] {
      var first := Step(r, es[0]);
      MilestoneAtMostOnce(first.refs, es[1..], m);
      CountConcat(ProgressKind(m), first.events, Run(first.refs, es[1..]).events);
      StepGrows(r, es[0]);
      if es[0].PlaybackUpdate? && !es[0].data.isBuffering {
        UpdateEventCounts(r, es[0].data);
        UpdateRefs(r, es[0].data);
      }
    }
  }

  // ---------------------------------------------------------------------------
  // The listeners over the refs they mutate
  // ---------------------------------------------------------------------------

  /** The embed's tracking refs and the log of events handed to `trackEvent`. */
  class Tracker {
    var progressMilestones: set<int>
    var hasCompleted: bool
    var lastPausedState: bool
    var lastPosition: int
    var hasStarted: bool
    var tracked: seq<TrackEvent>

    /** The refs, without the log. */
    function Snapshot(): Refs
      reads this`progressMilestones, this`hasCompleted, this`lastPausedState, this`lastPosition, this`hasStarted
    {
      Refs(progressMilestones, hasCompleted, lastPausedState, lastPosition, hasStarted)
    }

    /** The `useRef` initial values. */
    constructor ()
      ensures Snapshot() == InitialRefs && tracked == []
    {
      progressMilestones := {};
      hasCompleted := false;
      lastPausedState := true;
      lastPosition := 0;
      hasStarted := false;
      tracked := [];
    }

    /** The `playback_started` listener. */
    method OnPlaybackStarted(playingUri: string)
      modifies this
      ensures Snapshot() == StartedOutcome(old(Snapshot()), playingUri).refs
      ensures tracked == old(tracked) + StartedOutcome(old(Snapshot()), playingUri).events
    {
      if !hasStarted {
        tracked := tracked + [PlaybackStart(playingUri)];
        hasStarted := true;
      }
    }

    /** The milestone loop of the `playback_update` listener. */
    method TrackMilestones(data: PlaybackData, currentTimeSeconds: int, durationSeconds: int)
      requires currentTimeSeconds == Seconds(data.position) && durationSeconds == Seconds(data.duration)
      modifies this`progressMilestones, this`tracked
      ensures progressMilestones == ProgressUpTo(old(progressMilestones), data, |Milestones|).0
      ensures tracked == old(tracked) + ProgressUpTo(old(progressMilestones), data, |Milestones|).1
    {
      for i := 0 to |Milestones|
        invariant progressMilestones == ProgressUpTo(old(progressMilestones), data, i).0
        invariant tracked == old(tracked) + ProgressUpTo(old(progressMilestones), data, i).1
      {
        var milestone := Milestones[i];
        if Reaches(data.position, data.duration, milestone) && milestone !in progressMilestones {
          tracked := tracked + [PlaybackProgress(milestone, currentTimeSeconds, durationSeconds)];
          progressMilestones := progressMilestones + {milestone};
        }
      }
    }

    /** The `playback_update` listener. */
    method OnPlaybackUpdate(data: PlaybackData)
      modifies this
      ensures Snapshot() == UpdateOutcome(old(Snapshot()), data).refs
      ensures tracked == old(tracked) + UpdateOutcome(old(Snapshot()), data).events
    {
      if data.isBuffering {
        return;
      }
      var currentTimeSeconds := Seconds(data.position);
      var durationSeconds := Seconds(data.duration);
      ghost var before, log := Snapshot(), tracked;
      ghost var progress := ProgressUpTo(before.progressMilestones, data, |Milestones|);
      TrackMilestones(data, currentTimeSeconds, durationSeconds);
      TrackTransitions(data, currentTimeSeconds, durationSeconds, before);
      ConcatAssoc(log, progress.1, TransitionEvents(before, data));
      assert UpdateOutcome(before, data).events == progress.1 + TransitionEvents(before, data);
      lastPausedState := data.isPaused;
      if !data.isPaused {
        lastPosition := data.position;
      }
      assert Snapshot() == UpdatedRefs(before, data, progress.0);
    }

    /**
     * The refs the checks read, apart from the milestones (which the loop
     * before them may have grown).
     */
    ghost predicate SameChecks(r: Refs)
      reads this`hasCompleted, this`lastPausedState, this`lastPosition, this`hasStarted
    {
      r.hasCompleted == hasCompleted && r.lastPausedState == lastPausedState &&
      r.lastPosition == lastPosition && r.hasStarted == hasStarted
    }

    /** The pause, resume, seek and completion checks of the `playback_update` listener, on refs `r`. */
    method TrackTransitions(data: PlaybackData, currentTimeSeconds: int, durationSeconds: int, ghost r: Refs)
      requires currentTimeSeconds == Seconds(data.position) && durationSeconds == Seconds(data.duration)
      requires SameChecks(r)
      modifies this`tracked, this`hasCompleted
      ensures tracked == old(tracked) + TransitionEvents(r, data)
      ensures hasCompleted == (r.hasCompleted || CompleteFires(r, data))
    {
      TrackPause(data, currentTimeSeconds, durationSeconds, r);
      TrackResume(data, currentTimeSeconds, durationSeconds, r);
      TrackSeek(data, currentTimeSeconds, durationSeconds, r);
      TrackComplete(data, durationSeconds, r);
      assert tracked == old(tracked) + (PauseEvents(r, data) + ResumeEvents(r, data) + SeekEvents(r, data)) +
        CompleteEvents(r, data);
    }

    /** Paused now, playing at the last update, after a start: track a pause. */
    method TrackPause(data: PlaybackData, currentTimeSeconds: int, durationSeconds: int, ghost r: Refs)
      requires currentTimeSeconds == Seconds(data.position) && durationSeconds == Seconds(data.duration)
      requires SameChecks(r)
      modifies this`tracked
      ensures tracked == old(tracked) + PauseEvents(r, data)
    {
      if data.isPaused && !lastPausedState && hasStarted {
        tracked := tracked + [PlaybackPause(currentTimeSeconds, durationSeconds)];
      }
    }

    /** Playing now past the start, paused at the last update, after a start: track a resume. */
    method TrackResume(data: PlaybackData, currentTimeSeconds: int, durationSeconds: int, ghost r: Refs)
      requires currentTimeSeconds == Seconds(data.position) && durationSeconds == Seconds(data.duration)
      requires SameChecks(r)
      modifies this`tracked
      ensures tracked == old(tracked) + ResumeEvents(r, data)
    {
      if !data.isPaused && lastPausedState && hasStarted && data.position > 0 {
        tracked := tracked + [PlaybackResume(currentTimeSeconds, durationSeconds)];
      }
    }

    /** A jump of more than two seconds while playing, after a start: track a seek. */
    method TrackSeek(data: PlaybackData, currentTimeSeconds: int, durationSeconds: int, ghost r: Refs)
      requires currentTimeSeconds == Seconds(data.position) && durationSeconds == Seconds(data.duration)
      requires SameChecks(r)
      modifies this`tracked
      ensures tracked == old(tracked) + SeekEvents(r, data)
    {
      var positionDiff := Abs(data.position - lastPosition);
      if positionDiff > SeekThresholdMs && lastPosition > 0 && hasStarted && !data.isPaused {
        tracked := tracked + [PlaybackSeek(Seconds(lastPosition), currentTimeSeconds, durationSeconds)];
      }
    }

    /** 95 percent reached for the first time: track the completion and remember it. */
    method TrackComplete(data: PlaybackData, durationSeconds: int, ghost r: Refs)
      requires durationSeconds == Seconds(data.duration)
      requires SameChecks(r)
      modifies this`tracked, this`hasCompleted
      ensures tracked == old(tracked) + CompleteEvents(r, data)
      ensures hasCompleted == (r.hasCompleted || CompleteFires(r, data))
    {
      if Reaches(data.position, data.duration, CompletePercent) && !hasCompleted {
        tracked := tracked + [PlaybackComplete(durationSeconds)];
        hasCompleted := true;
      }
    }
  }
}
