/**
 * The highlight reel's playback sessions (VideoPlayer's `playCustomSequences`
 * and `stopFilteredTouches`). A reel plays its windows one after another: it
 * seeks to a window's start, asks the video to play, and once play has begun
 * waits on `timeupdate` events until the playhead reaches the window's end;
 * then it pauses and moves on. Every new reel and every stop takes a fresh
 * session number, and a time-update handler whose session is no longer the
 * current one detaches itself.
 *
 * The awaits are modelled as explicit events: the video's `play()` settling
 * (resolved or rejected), a `timeupdate` delivered to one chain's listener,
 * the playhead moving, a new reel, a stop. A chain is one call of
 * `playCustomSequences`, suspended at an await.
 */
module PlaybackSession {
  import opened Common
  import DBStats

  type Window = DBStats.Window

  /** Where a chain is suspended. */
  datatype Phase =
    | Playing    // seeked to its window's start; `play()` has not settled
    | Listening  // its time-update listener is attached
    | Hung       // its listener was removed before resolving: the await never returns
    | Finished   // its loop is over

  /** One call of `playCustomSequences`: its session id, its windows and the window it is at. */
  datatype Chain = Chain(id: nat, windows: seq<Window>, pos: nat, phase: Phase)

  /**
   * The refs and the video the reels share: the session counter, the
   * cancelled flag, the custom-playback and autoplay flags, the playhead,
   * whether the video is paused, every chain so far, and the chain whose
   * listener is stored as the video's custom-playback listener.
   */
  datatype Playback = Playback(
    session: nat,
    cancelled: bool,
    customPlayback: bool,
    autoplay: bool,
    time: real,
    paused: bool,
    chains: seq<Chain>,
    stored: Option<nat>)

  /**
   * Which loop the chains run: the code as written, whose loop checks only the
   * cancelled flag, or the loop that also stops once its session is no
   * longer the current one and then leaves the shared state alone.
   */
  datatype Guard = AsWritten | SessionChecked

  predicate Waiting(c: Chain) {
    c.phase == Playing || c.phase == Listening
  }

  /**
   * Session ids are handed out in increasing order and never above the
   * counter, the stored listener belongs to a chain, and a waiting chain is
   * at one of its windows.
   */
  predicate Valid(p: Playback) {
    ChainsValid(p.chains, p.session) && (p.stored.Some? ==> p.stored.value < |p.chains|)
  }

  predicate ChainsValid(chains: seq<Chain>, session: nat) {
    (forall i, j :: 0 <= i < j < |chains| ==> chains[i].id < chains[j].id) &&
    (forall i :: 0 <= i < |chains| ==> chains[i].id <= session) &&
    (forall i :: 0 <= i < |chains| && Waiting(chains[i]) ==> chains[i].pos < |chains[i].windows|)
  }

  /** What never changes about a chain once it exists: its session id and its windows. */
  function Shapes(chains: seq<Chain>): (r: seq<(nat, seq<Window>)>)
    ensures |r| == |chains|
    ensures forall i :: 0 <= i < |chains| ==> r[i] == (chains[i].id, chains[i].windows)
  {
    seq(|chains|, i requires 0 <= i < |chains| => (chains[i].id, chains[i].windows))
  }

  /** Every chain keeps its id and windows, new chains only come after them, and the session counter does not go down. */
  predicate KeepsChains(p: Playback, r: Playback) {
    r.session >= p.session && Shapes(p.chains) <= Shapes(r.chains)
  }

  /** The session counter, the flags, the video and the stored listener are the same. */
  predicate SameRefs(p: Playback, r: Playback) {
    r.session == p.session && r.cancelled == p.cancelled && r.customPlayback == p.customPlayback &&
    r.autoplay == p.autoplay && r.time == p.time && r.paused == p.paused && r.stored == p.stored
  }

  function SetPhase(p: Playback, k: nat, phase: Phase): (r: Playback)
    requires k < |p.chains|
    ensures |r.chains| == |p.chains| && r.chains[k] == p.chains[k].(phase := phase)
    ensures forall i :: 0 <= i < |p.chains| && i != k ==> r.chains[i] == p.chains[i]
    ensures Shapes(r.chains) == Shapes(p.chains)
    ensures SameRefs(p, r)
    ensures Valid(p) && (phase == Playing || phase == Listening ==> p.chains[k].pos < |p.chains[k].windows|) ==> Valid(r)
  {
    p.(chains := p.chains[k := p.chains[k].(phase := phase)])
  }

  /**
   * `removeEventListener('timeupdate', video._customPlaybackListener)` and
   * `delete video._customPlaybackListener`: the stored chain's listener is
   * detached if it was attached, so that chain's await never returns.
   */
  function Detach(p: Playback): (r: Playback)
    requires Valid(p)
    ensures Valid(r)
    ensures r.stored.None?
    ensures |r.chains| == |p.chains|
    ensures forall i :: 0 <= i < |p.chains| ==> r.chains[i] == p.chains[i] || (Some(i) == p.stored && r.chains[i] == p.chains[i].(phase := Hung))
    ensures Shapes(r.chains) == Shapes(p.chains)
    ensures SameRefs(p, r.(stored := p.stored))
  {
    if p.stored.Some? && p.chains[p.stored.value].phase == Listening then
      SetPhase(p, p.stored.value, Hung).(stored := None)
    else p.(stored := None)
  }

  /** Start chain `k`'s current window: store its listener, seek to the window's start, call `play()` (which unpauses the video). */
  function StartWindow(p: Playback, k: nat): (r: Playback)
    requires Valid(p) && k < |p.chains| && p.chains[k].pos < |p.chains[k].windows|
    ensures Valid(r) && KeepsChains(p, r) && |r.chains| == |p.chains|
    ensures r.session == p.session && r.cancelled == p.cancelled && r.autoplay == p.autoplay
    ensures r.chains[k].pos == p.chains[k].pos
  {
    var c := p.chains[k];
    SetPhase(p, k, Playing).(stored := Some(k), time := c.windows[c.pos].start, paused := false)
  }

  /** End chain `k`'s loop: detach the stored listener and leave custom playback. */
  function EndLoop(p: Playback, k: nat): (r: Playback)
    requires Valid(p) && k < |p.chains|
    ensures Valid(r) && KeepsChains(p, r) && |r.chains| == |p.chains|
    ensures r.session == p.session && r.cancelled == p.cancelled && r.autoplay == p.autoplay
    ensures r.chains[k].pos == p.chains[k].pos
  {
    SetPhase(Detach(p), k, Finished).(customPlayback := false)
  }

  /**
   * The head of the loop over the windows for chain `k`: start its current
   * window, or end the loop once the windows are done or the reel is
   * cancelled.
   */
  function LoopHead(p: Playback, k: nat, g: Guard): (r: Playback)
    requires Valid(p) && k < |p.chains|
    ensures Valid(r) && KeepsChains(p, r) && |r.chains| == |p.chains|
    ensures r.session == p.session && r.cancelled == p.cancelled && r.autoplay == p.autoplay
    ensures r.chains[k].pos == p.chains[k].pos
  {
    var c := p.chains[k];
    if g == SessionChecked && c.id != p.session then SetPhase(p, k, Finished)
    else if c.pos < |c.windows| && !p.cancelled then StartWindow(p, k)
    else EndLoop(p, k)
  }

  /** The loop head seeks only to the start of the chain's current window, and once the reel is cancelled it starts nothing. */
  lemma LoopHeadSeeks(p: Playback, k: nat, g: Guard)
    requires Valid(p) && k < |p.chains|
    ensures LoopHead(p, k, g).time != p.time ==> LoopHead(p, k, g).time == p.chains[k].windows[p.chains[k].pos].start
    ensures p.cancelled ==> LoopHead(p, k, g).time == p.time && LoopHead(p, k, g).chains[k].phase == Finished
  {
  }

  /** A chain's await returned: on to its next window. */
  function Resume(p: Playback, k: nat, g: Guard): (r: Playback)
    requires Valid(p) && k < |p.chains|
    ensures Valid(r) && KeepsChains(p, r) && |r.chains| == |p.chains|
    ensures r.session == p.session
    ensures r.chains[k].pos == p.chains[k].pos + 1
  {
    LoopHead(Advance(p, k), k, g)
  }

  /** Chain `k` moves past its current window and stops waiting. */
  function Advance(p: Playback, k: nat): (r: Playback)
    requires Valid(p) && k < |p.chains|
    ensures Valid(r) && KeepsChains(p, r) && |r.chains| == |p.chains| && r.session == p.session
    ensures r.chains[k].pos == p.chains[k].pos + 1
  {
    var c := p.chains[k];
    var r := p.(chains := p.chains[k := c.(pos := c.pos + 1, phase := Finished)]);
    assert Shapes(r.chains) == Shapes(p.chains);
    r
  }

  /** `++playbackSessionRef.current` and a new chain for that session, not yet at a window. */
  function Open(p: Playback, sequences: seq<Window>): (r: Playback)
    requires Valid(p)
    ensures Valid(r)
    ensures r.session == p.session + 1
    ensures Shapes(r.chains) == Shapes(p.chains) + [(r.session, sequences)]
    ensures SameRefs(p, r.(session := p.session))
  {
    var r := p.(session := p.session + 1, chains := p.chains + [Chain(p.session + 1, sequences, 0, Finished)]);
    assert Shapes(r.chains) == Shapes(p.chains) + [(r.session, sequences)];
    r
  }

  /**
   * `playCustomSequences(sequences)`: custom playback on, not cancelled,
   * autoplay off; without a video nothing more. Otherwise a fresh session,
   * the previous stored listener detached, and a new chain at its first window.
   */
  function Start(p: Playback, sequences: seq<Window>, hasVideo: bool, g: Guard): (r: Playback)
    requires Valid(p)
    ensures Valid(r)
    ensures !r.autoplay
    ensures !hasVideo ==> r == p.(customPlayback := true, cancelled := false, autoplay := false)
    ensures hasVideo ==> r.session == p.session + 1 && Shapes(r.chains) == Shapes(p.chains) + [(r.session, sequences)]
    ensures KeepsChains(p, r)
  {
    var p1 := p.(customPlayback := true, cancelled := false, autoplay := false);
    if !hasVideo then p1
    else LoopHead(Detach(Open(p1, sequences)), |p.chains|, g)
  }

  /** `video.play()` resolved for chain `k`: its listener is attached. */
  function PlayResolved(p: Playback, k: nat): (r: Playback)
    requires Valid(p) && k < |p.chains| && p.chains[k].phase == Playing
    ensures Valid(r) && KeepsChains(p, r) && r.session == p.session
  {
    SetPhase(p, k, Listening)
  }

  /** `video.play()` rejected for chain `k`: the await returns at once, so the loop goes on to the next window. */
  function PlayRejected(p: Playback, k: nat, g: Guard): (r: Playback)
    requires Valid(p) && k < |p.chains| && p.chains[k].phase == Playing
    ensures Valid(r) && KeepsChains(p, r) && r.session == p.session
  {
    Resume(p, k, g)
  }

  /**
   * A `timeupdate` reaches chain `k`'s listener: a listener of an old session
   * detaches itself; the current one, once the playhead is at or past the
   * window's end, detaches, pauses and lets its loop go on.
   */
  function TimeUpdate(p: Playback, k: nat, g: Guard): (r: Playback)
    requires Valid(p) && k < |p.chains| && p.chains[k].phase == Listening
    ensures Valid(r) && KeepsChains(p, r) && r.session == p.session
  {
    var c := p.chains[k];
    if c.id != p.session then SetPhase(p, k, Hung)
    else if p.time >= c.windows[c.pos].end then Resume(p.(paused := true), k, g)
    else p
  }

  /** `stopFilteredTouches`: custom playback off, cancelled, a fresh session, the stored listener detached. */
  function Stop(p: Playback): (r: Playback)
    requires Valid(p)
    ensures Valid(r)
    ensures r.session == p.session + 1 && r.cancelled && !r.customPlayback
    ensures r.stored.None? && r.time == p.time && KeepsChains(p, r)
  {
    Detach(p.(customPlayback := false, cancelled := true, session := p.session + 1))
  }

  /** The playhead moves: the video plays on or the user seeks. */
  function SetTime(p: Playback, t: real): Playback {
    p.(time := t)
  }

  // ---------------------------------------------------------------------
  // Events

  datatype Event =
    | PlayCustom(sequences: seq<Window>, hasVideo: bool)
    | Resolved(k: nat)
    | Rejected(k: nat)
    | Tick(k: nat)
    | StopTouches
    | MovePlayhead(t: real)

  predicate Enabled(p: Playback, e: Event) {
    match e
    case Resolved(k) => k < |p.chains| && p.chains[k].phase == Playing
    case Rejected(k) => k < |p.chains| && p.chains[k].phase == Playing
    case Tick(k) => k < |p.chains| && p.chains[k].phase == Listening
    case _ => true
  }

  function Step(p: Playback, e: Event, g: Guard): (r: Playback)
    requires Valid(p) && Enabled(p, e)
    ensures Valid(r)
  {
    match e
    case PlayCustom(sequences, hasVideo) => Start(p, sequences, hasVideo, g)
    case Resolved(k) => PlayResolved(p, k)
    case Rejected(k) => PlayRejected(p, k, g)
    case Tick(k) => TimeUpdate(p, k, g)
    case StopTouches => Stop(p)
    case MovePlayhead(t) => SetTime(p, t)
  }

  /** No event lowers the session counter or changes an existing chain's id or windows: a session id is never reused. */
  lemma StepKeepsChains(p: Playback, e: Event, g: Guard)
    requires Valid(p) && Enabled(p, e)
    ensures KeepsChains(p, Step(p, e, g))
    ensures (e.PlayCustom? && e.hasVideo) || e.StopTouches? ==> Step(p, e, g).session == p.session + 1
  {
  }

  /** A listener whose session is over only detaches itself: nothing else changes, under either loop. */
  lemma StaleListenerInert(p: Playback, k: nat, g: Guard)
    requires Valid(p) && k < |p.chains| && p.chains[k].phase == Listening
    requires p.chains[k].id != p.session
    ensures TimeUpdate(p, k, g) == SetPhase(p, k, Hung)
  {
  }

  /** A window finishes only once the playhead has reached its end, and only for the current session; before that a time update changes nothing. */
  lemma WindowFinishesAtEnd(p: Playback, k: nat, g: Guard)
    requires Valid(p) && k < |p.chains| && p.chains[k].phase == Listening
    ensures TimeUpdate(p, k, g).chains[k].pos != p.chains[k].pos ==>
      p.chains[k].id == p.session && p.time >= p.chains[k].windows[p.chains[k].pos].end
    ensures p.chains[k].id == p.session && p.time < p.chains[k].windows[p.chains[k].pos].end ==> TimeUpdate(p, k, g) == p
  {
  }

  /** A rejected `play()` moves the chain to its next window; once the reel is cancelled no window starts and the playhead stays. */
  lemma RejectedSkipsWindow(p: Playback, k: nat, g: Guard)
    requires Valid(p) && k < |p.chains| && p.chains[k].phase == Playing
    ensures PlayRejected(p, k, g).chains[k].pos == p.chains[k].pos + 1
    ensures p.cancelled ==> PlayRejected(p, k, g).time == p.time && PlayRejected(p, k, g).chains[k].phase == Finished
  {
  }

  // ---------------------------------------------------------------------
  // A superseded reel

  /** What one chain's step may change without touching anything shared: the shared refs, the video and every other chain stay. */
  predicate OnlyOwnChain(p: Playback, r: Playback, k: nat)
    requires k < |p.chains|
  {
    r.session == p.session && r.cancelled == p.cancelled && r.customPlayback == p.customPlayback &&
    r.autoplay == p.autoplay && r.time == p.time && r.paused == p.paused && r.stored == p.stored &&
    |r.chains| == |p.chains| && forall i :: 0 <= i < |p.chains| && i != k ==> r.chains[i] == p.chains[i]
  }

  /** The event belongs to a chain whose session is over. */
  predicate Superseded(p: Playback, e: Event) {
    match e
    case Resolved(k) => k < |p.chains| && p.chains[k].id != p.session
    case Rejected(k) => k < |p.chains| && p.chains[k].id != p.session
    case Tick(k) => k < |p.chains| && p.chains[k].id != p.session
    case _ => false
  }

  function Owner(e: Event): nat
    requires e.Resolved? || e.Rejected? || e.Tick?
  {
    match e
    case Resolved(k) => k
    case Rejected(k) => k
    case Tick(k) => k
  }

  /**
   * With the session check in the loop, a superseded chain never seeks,
   * pauses, stores a listener or ends custom playback: whatever happens to it
   * changes its own chain only.
   */
  lemma SupersededChainInert(p: Playback, e: Event)
    requires Valid(p) && Enabled(p, e) && Superseded(p, e)
    ensures OnlyOwnChain(p, Step(p, e, SessionChecked), Owner(e))
  {
  }

  /** The trace below: a fresh player, then reel A with two windows, then reel B with one. */
  const Fresh := Playback(0, false, false, true, 0.0, true, [], None)
  const ReelA: seq<Window> := [DBStats.Window(10.0, 20.0), DBStats.Window(30.0, 40.0)]
  const ReelB: seq<Window> := [DBStats.Window(50.0, 60.0)]

  /** Under either loop, A seeks to 10 and waits on `play()`; then B takes session 2, seeks to 50 and stores its listener. */
  lemma TraceStarts(g: Guard)
    ensures Start(Fresh, ReelA, true, g)
      == Playback(1, false, true, false, 10.0, false, [Chain(1, ReelA, 0, Playing)], Some(0))
    ensures Start(Start(Fresh, ReelA, true, g), ReelB, true, g)
      == Playback(2, false, true, false, 50.0, false, [Chain(1, ReelA, 0, Playing), Chain(2, ReelB, 0, Playing)], Some(1))
  {
    var a := Start(Fresh, ReelA, true, g);
    assert a == Playback(1, false, true, false, 10.0, false, [Chain(1, ReelA, 0, Playing)], Some(0));
  }

  /**
   * The loop as written: reel A is waiting on `play()` for its first window
   * when reel B starts; A's `play()` is then rejected, and A, whose session is
   * over, seeks the video to its second window and stores its own listener
   * over B's.
   */
  lemma SupersededChainSeeks()
    ensures var b := Start(Start(Fresh, ReelA, true, AsWritten), ReelB, true, AsWritten);
      var r := PlayRejected(b, 0, AsWritten);
      b.time == 50.0 && b.stored == Some(1) && b.chains[0].id != b.session &&
      r.time == 30.0 && r.stored == Some(0) && !OnlyOwnChain(b, r, 0)
  {
    TraceStarts(AsWritten);
    var b := Start(Start(Fresh, ReelA, true, AsWritten), ReelB, true, AsWritten);
    assert PlayRejected(b, 0, AsWritten)
      == Playback(2, false, true, false, 30.0, false, [Chain(1, ReelA, 1, Playing), Chain(2, ReelB, 0, Playing)], Some(0));
  }

  /** The same trace with the session check: A's rejected `play()` ends A quietly and B keeps the video. */
  lemma SupersededChainQuiet()
    ensures var b := Start(Start(Fresh, ReelA, true, SessionChecked), ReelB, true, SessionChecked);
      var r := PlayRejected(b, 0, SessionChecked);
      r.time == 50.0 && r.stored == Some(1) && r.chains[0].phase == Finished
  {
    TraceStarts(SessionChecked);
    var b := Start(Start(Fresh, ReelA, true, SessionChecked), ReelB, true, SessionChecked);
    assert PlayRejected(b, 0, SessionChecked)
      == Playback(2, false, true, false, 50.0, false, [Chain(1, ReelA, 1, Finished), Chain(2, ReelB, 0, Playing)], Some(1));
  }

  // ---------------------------------------------------------------------
  // The component's refs

  /** The refs and the video as fields; every handler runs the loop with the session check. */
  class PlaybackDriver {
    var session: nat
    var cancelled: bool
    var customPlayback: bool
    var autoplay: bool
    var time: real
    var paused: bool
    var chains: seq<Chain>
    var stored: Option<nat>

    function Snapshot(): Playback
      reads this
    {
      Playback(session, cancelled, customPlayback, autoplay, time, paused, chains, stored)
    }

    /** No reel yet, the session counter at 0, the video paused at the start. */
    constructor (autoplayStored: bool)
      ensures Snapshot() == Playback(0, false, false, autoplayStored, 0.0, true, [], None)
      ensures Valid(Snapshot())
    {
      session, cancelled, customPlayback, autoplay := 0, false, false, autoplayStored;
      time, paused, chains, stored := 0.0, true, [], None;
    }

    method DetachStored()
      requires Valid(Snapshot())
      modifies this
      ensures Snapshot() == Detach(old(Snapshot()))
    {
      if stored.Some? && chains[stored.value].phase == Listening {
        var k := stored.value;
        chains := chains[k := chains[k].(phase := Hung)];
      }
      stored := None;
    }

    method ContinueLoop(k: nat)
      requires Valid(Snapshot()) && k < |chains|
      modifies this
      ensures Snapshot() == LoopHead(old(Snapshot()), k, SessionChecked)
    {
      var c := chains[k];
      if c.id != session {
        chains := chains[k := c.(phase := Finished)];
      } else if c.pos < |c.windows| && !cancelled {
        chains := chains[k := c.(phase := Playing)];
        stored := Some(k);
        time := c.windows[c.pos].start;
        paused := false;
      } else {
        DetachStored();
        chains := chains[k := chains[k].(phase := Finished)];
        customPlayback := false;
      }
    }

    method PlayCustomSequences(sequences: seq<Window>, hasVideo: bool)
      requires Valid(Snapshot())
      modifies this
      ensures Snapshot() == Start(old(Snapshot()), sequences, hasVideo, SessionChecked)
    {
      ghost var p0 := Snapshot();
      customPlayback := true;
      cancelled := false;
      autoplay := false;
      ghost var p1 := p0.(customPlayback := true, cancelled := false, autoplay := false);
      assert Snapshot() == p1;
      if !hasVideo {
        return;
      }
      session := session + 1;
      chains := chains + [Chain(session, sequences, 0, Finished)];
      assert Snapshot() == Open(p1, sequences);
      DetachStored();
      ghost var p2 := Snapshot();
      assert p2 == Detach(Open(p1, sequences)) && |chains| - 1 == |p0.chains|;
      ContinueLoop(|chains| - 1);
    }

    method OnPlayResolved(k: nat)
      requires Valid(Snapshot()) && k < |chains| && chains[k].phase == Playing
      modifies this
      ensures Snapshot() == PlayResolved(old(Snapshot()), k)
    {
      chains := chains[k := chains[k].(phase := Listening)];
    }

    method OnPlayRejected(k: nat)
      requires Valid(Snapshot()) && k < |chains| && chains[k].phase == Playing
      modifies this
      ensures Snapshot() == PlayRejected(old(Snapshot()), k, SessionChecked)
    {
      ghost var p0 := Snapshot();
      chains := chains[k := chains[k].(pos := chains[k].pos + 1, phase := Finished)];
      assert Snapshot() == Advance(p0, k);
      ContinueLoop(k);
    }

    method OnTimeUpdate(k: nat)
      requires Valid(Snapshot()) && k < |chains| && chains[k].phase == Listening
      modifies this
      ensures Snapshot() == TimeUpdate(old(Snapshot()), k, SessionChecked)
    {
      var c := chains[k];
      if c.id != session {
        chains := chains[k := c.(phase := Hung)];
        return;
      }
      if time >= c.windows[c.pos].end {
        ghost var p0 := Snapshot();
        paused := true;
        chains := chains[k := c.(pos := c.pos + 1, phase := Finished)];
        assert Snapshot() == Advance(p0.(paused := true), k);
        ContinueLoop(k);
      }
    }

    method StopFilteredTouches()
      requires Valid(Snapshot())
      modifies this
      ensures Snapshot() == Stop(old(Snapshot()))
    {
      customPlayback := false;
      cancelled := true;
      session := session + 1;
      DetachStored();
    }

    method MovePlayhead(t: real)
      modifies this
      ensures Snapshot() == SetTime(old(Snapshot()), t)
    {
      time := t;
    }
  }
}
