/**
  Deferred play: `play` and `stop` of `MediaPlayer.java`, called by any thread, against the
  main thread that attaches surfaces and is told when they are ready (`AWindow.java`).
 */
module DeferredPlay {
  import opened Basics
  import opened Windows

  type Thread = nat

  const MAIN: Thread := 0

  // ---------------------------------------------------------------------------
  // MediaPlayer.java
  // ---------------------------------------------------------------------------

  /** Calls to the native audio output, and the registration for audio plug events. */
  datatype AudioCall = SetAudioOutput(name: string) | SetAudioOutputDevice(id: string) | RegisterAudioPlug

  class MediaPlayer {
    var mPlaying: bool
    var mPlayRequested: bool
    var mAudioDeviceFromUser: bool
    var mVoutCount: nat
    var mAudioReset: bool
    var mAudioOutput: Option<string>
    var mAudioOutputDevice: Option<string>
    var mAudioPlugRegistered: bool
    var calls: seq<AudioCall>

    constructor ()
      ensures !mPlaying && !mPlayRequested && !mAudioReset
      ensures mAudioOutput == Some("android_audiotrack") && mAudioOutputDevice.None?
      ensures !mAudioDeviceFromUser && !mAudioPlugRegistered && mVoutCount == 0 && calls == []
    {
      mPlaying, mPlayRequested, mAudioReset := false, false, false;
      mAudioOutput, mAudioOutputDevice := Some("android_audiotrack"), None;
      mAudioDeviceFromUser, mAudioPlugRegistered, mVoutCount, calls := false, false, 0, [];
    }

    /** `waiting` is what `areSurfacesWaiting` answers; tells whether `nativePlay` follows. */
    method Play(waiting: bool) returns (go: bool)
      modifies this`mPlaying, this`mPlayRequested, this`mAudioReset, this`mAudioPlugRegistered, this`calls
      ensures go <==> old(mPlaying) || !waiting
      ensures mPlaying == (old(mPlaying) || go)
      ensures mPlayRequested == (old(mPlayRequested) || !old(mPlaying))
      ensures mAudioReset == (old(mAudioReset) && old(mPlaying))
      ensures mAudioPlugRegistered == (old(mAudioPlugRegistered) || (!old(mPlaying) && !mAudioDeviceFromUser))
      ensures old(mPlaying) ==> calls == old(calls)
      ensures !old(mPlaying) ==>
                calls == old(calls)
                  + (if old(mAudioReset) && mAudioOutput.Some? then [SetAudioOutput(mAudioOutput.value)] else [])
                  + (if old(mAudioReset) && mAudioOutputDevice.Some?
                     then [SetAudioOutputDevice(mAudioOutputDevice.value)] else [])
                  + (if !mAudioDeviceFromUser && !old(mAudioPlugRegistered) then [RegisterAudioPlug] else [])
    {
      if !mPlaying {
        if mAudioReset {
          if mAudioOutput.Some? {
            calls := calls + [SetAudioOutput(mAudioOutput.value)];
          }
          if mAudioOutputDevice.Some? {
            calls := calls + [SetAudioOutputDevice(mAudioOutputDevice.value)];
          }
          mAudioReset := false;
        }
        if !mAudioDeviceFromUser {
          if !mAudioPlugRegistered {
            calls := calls + [RegisterAudioPlug];
            mAudioPlugRegistered := true;
          }
        }
        mPlayRequested := true;
        if waiting {
          return false;
        }
      }
      mPlaying := true;
      go := true;
    }

    method Stop()
      modifies this`mPlaying, this`mPlayRequested, this`mAudioReset
      ensures !mPlaying && !mPlayRequested && mAudioReset
    {
      mPlayRequested := false;
      mPlaying := false;
      mAudioReset := true;
    }

    /** The synchronized block of `onSurfacesCreated`. */
    method OnSurfacesCreated() returns (play: bool, enableVideo: bool)
      ensures play <==> !mPlaying && mPlayRequested
      ensures enableVideo <==> !play && mVoutCount == 0
    {
      play, enableVideo := false, false;
      if !mPlaying && mPlayRequested {
        play := true;
      } else if mVoutCount == 0 {
        enableVideo := true;
      }
    }
  }

  // ---------------------------------------------------------------------------
  // The protocol
  // ---------------------------------------------------------------------------

  /**
    Where a thread is in `play` or `stop`; it holds the monitor while reading and leaving. The
    native call comes after the block: a thread that is starting or halting has still to make it.
   */
  datatype Place = Idle | Entering | Reading | Leaving(go: bool) | Starting | Halting

  /** What the main thread is doing with the window; `id` is the next helper to attach. */
  datatype Main =
    | Free
    | Attaching(id: nat, offers: seq<Offer>)
    | Deciding(id: nat, offers: seq<Offer>)     // in onSurfacesCreated, before its block
    | Replaying(id: nat, offers: seq<Offer>)    // calling play() from there

  datatype State = State(
    window: Window,
    playing: bool,
    requested: bool,
    native: bool,             // the native player was told to play last, not to stop
    monitor: Option<Thread>,
    places: map<Thread, Place>,
    main: Main
  )

  datatype Step =
    | CallPlay(t: Thread)
    | Enter(t: Thread)
    | Read(t: Thread)
    | Leave(t: Thread)
    | Stop(t: Thread)
    | NativePlay(t: Thread)
    | NativeStop(t: Thread)
    | Configure(id: nat, source: Source, offer: Offer, hasHolder: bool)
    | BeginAttach(offers: seq<Offer>)
    | AttachNext
    | Available(id: nat, offer: Offer)
    | Detach
    | Decide
    | Resume

  const NEW_PLAYER := State(NEW_WINDOW, false, false, false, None, map[], Free)

  function At(s: State, t: Thread): Place {
    if t in s.places then s.places[t] else Idle
  }

  /** The main thread is between two calls from the application. */
  predicate MainFree(s: State) {
    s.main.Free? && At(s, MAIN).Idle?
  }

  predicate Enabled(s: State, step: Step) {
    match step
    case CallPlay(t) => At(s, t).Idle? && (t == MAIN ==> MainFree(s))
    case Enter(t) => At(s, t).Entering? && s.monitor.None?
    case Read(t) => At(s, t).Reading?
    case Leave(t) => At(s, t).Leaving?
    case Stop(t) => At(s, t).Idle? && (t == MAIN ==> MainFree(s)) && s.monitor.None?
    case NativePlay(t) => At(s, t).Starting?
    case NativeStop(t) => At(s, t).Halting?
    case Configure(id, _, _, _) => MainFree(s) && id < ID_MAX
    case BeginAttach(offers) => MainFree(s) && |offers| == ID_MAX
    case AttachNext => s.main.Attaching? && |s.main.offers| == ID_MAX
    case Available(id, _) => MainFree(s) && id < ID_MAX && s.window.helpers[id].Some? && !s.window.state.INIT?
    case Detach => MainFree(s)
    case Decide => s.main.Deciding? && s.monitor.None?
    case Resume => s.main.Replaying? && At(s, MAIN).Idle?
  }

  /** A surface is offered to helper `id`; the callback runs when the window becomes ready. */
  function Offering(s: State, id: nat, offer: Offer, next: nat, offers: seq<Offer>): State
    requires id < ID_MAX && s.window.helpers[id].Some?
  {
    var (window, threw) := Offered(s.window, id, offer);
    s.(window := window,
       main := if threw then Free
               else if s.window.state.ATTACHED? && window.state.READY? then Deciding(next, offers)
               else Attaching(next, offers))
  }

  function Apply(s: State, step: Step): State {
    if !Enabled(s, step) then s else
    match step
    case CallPlay(t) => s.(places := s.places[t := Entering])
    case Enter(t) =>
      if s.playing
      then s.(monitor := Some(t), places := s.places[t := Leaving(true)])
      else s.(monitor := Some(t), places := s.places[t := Reading], requested := true)
    case Read(t) => s.(places := s.places[t := Leaving(!s.window.state.ATTACHED?)])
    case Leave(t) =>
      s.(monitor := None, places := s.places[t := if At(s, t).go then Starting else Idle],
         playing := s.playing || At(s, t).go)
    case Stop(t) => s.(requested := false, playing := false, places := s.places[t := Halting])
    case NativePlay(t) => s.(native := true, places := s.places[t := Idle])
    case NativeStop(t) => s.(native := false, places := s.places[t := Idle])
    case Configure(id, source, offer, hasHolder) =>
      s.(window := Configured(s.window, id, source, offer, hasHolder).0)
    case BeginAttach(offers) =>
      if s.window.state.INIT? && s.window.helpers[ID_VIDEO].Some?
      then s.(window := s.window.(state := ATTACHED), main := Attaching(0, offers))
      else s
    case AttachNext =>
      var id, offers := s.main.id, s.main.offers;
      if id >= ID_MAX then s.(main := Free)
      else if s.window.helpers[id].None? then s.(main := Attaching(id + 1, offers))
      else Offering(s, id, Own(s.window.helpers[id].value, offers[id]), id + 1, offers)
    case Available(id, offer) => Offering(s, id, offer, ID_MAX, [offer, offer])
    case Detach => s.(window := Detached(s.window))
    case Decide =>
      if !s.playing && s.requested
      then s.(main := Replaying(s.main.id, s.main.offers), places := s.places[MAIN := Entering])
      else s.(main := Attaching(s.main.id, s.main.offers))
    case Resume => s.(main := Attaching(s.main.id, s.main.offers))
  }

  function After(r: Basics.Run<Step>): State {
    match r
    case Start => NEW_PLAYER
    case Then(before, step) => Apply(After(before), step)
  }

  predicate Legal(r: Basics.Run<Step>) {
    r.Then? ==> Legal(r.before) && Enabled(After(r.before), r.last)
  }

  // ---------------------------------------------------------------------------
  // Invariant
  // ---------------------------------------------------------------------------

  /** A request that nothing would serve any more, with the surfaces ready. */
  predicate Pending(s: State) {
    s.window.state.READY? && s.requested && !s.playing
  }

  predicate Placed(s: State, t: Thread) {
    var p := At(s, t);
    && (p.Reading? || p.Leaving? ==> s.monitor == Some(t))
    && (p.Reading? || p == Leaving(false) ==> s.requested && !s.playing)
    && (p == Leaving(false) && s.window.state.READY? ==> s.main.Deciding?)
  }

  /** The main thread is about to serve the request, or the thread in the monitor is. */
  predicate Served(s: State) {
    || s.main.Deciding?
    || (s.main.Replaying? && At(s, MAIN).Entering?)
    || (s.monitor.Some? && (At(s, s.monitor.value).Reading? || At(s, s.monitor.value) == Leaving(true)))
  }

  predicate MainPlaced(s: State) {
    && (s.main.Deciding? || s.main.Replaying? ==> s.window.state.READY?)
    && (s.main.Attaching? || s.main.Deciding? ==> At(s, MAIN).Idle?)
    && (!s.main.Free? ==> |s.main.offers| == ID_MAX)
  }

  ghost predicate Inv(s: State) {
    && (s.monitor.Some? ==> At(s, s.monitor.value).Reading? || At(s, s.monitor.value).Leaving?)
    && (forall t: Thread :: Placed(s, t))
    && MainPlaced(s)
    && (Pending(s) ==> Served(s))
  }

  lemma PlayPreserves(s: State, step: Step)
    requires Inv(s) && Enabled(s, step)
    requires step.CallPlay? || step.Enter? || step.Read? || step.Leave? || step.Stop?
          || step.NativePlay? || step.NativeStop?
    ensures Inv(Apply(s, step))
  {
    var s' := Apply(s, step);
    assert Placed(s, step.t);
    forall t: Thread ensures Placed(s', t) {
      assert Placed(s, t);
    }
  }

  lemma OfferedStates(w: Window, id: nat, offer: Offer)
    requires id < ID_MAX && w.helpers[id].Some?
    ensures var (w', threw) := Offered(w, id, offer);
            w'.state == w.state || (w.state.ATTACHED? && w'.state.READY? && !threw)
  {
  }

  lemma WindowPreserves(s: State, step: Step)
    requires Inv(s) && Enabled(s, step)
    requires step.Configure? || step.BeginAttach? || step.AttachNext? || step.Available? || step.Detach?
    ensures Inv(Apply(s, step))
  {
    if step.Available? {
      OfferedStates(s.window, step.id, step.offer);
    } else if step.AttachNext? && s.main.id < ID_MAX && s.window.helpers[s.main.id].Some? {
      OfferedStates(s.window, s.main.id, Own(s.window.helpers[s.main.id].value, s.main.offers[s.main.id]));
    }
    var s' := Apply(s, step);
    forall t: Thread ensures Placed(s', t) {
      assert Placed(s, t);
    }
  }

  lemma CallbackPreserves(s: State, step: Step)
    requires Inv(s) && Enabled(s, step) && (step.Decide? || step.Resume?)
    ensures Inv(Apply(s, step))
  {
    var s' := Apply(s, step);
    forall t: Thread ensures Placed(s', t) {
      assert Placed(s, t);
    }
  }

  lemma {:induction false} Reachable(r: Basics.Run<Step>)
    requires Legal(r)
    ensures Inv(After(r))
  {
    match r
    case Start =>
    case Then(before, step) =>
      Reachable(before);
      match step {
        case Decide => CallbackPreserves(After(before), step);
        case Resume => CallbackPreserves(After(before), step);
        case CallPlay(_) => PlayPreserves(After(before), step);
        case Enter(_) => PlayPreserves(After(before), step);
        case Read(_) => PlayPreserves(After(before), step);
        case Leave(_) => PlayPreserves(After(before), step);
        case Stop(_) => PlayPreserves(After(before), step);
        case NativePlay(_) => PlayPreserves(After(before), step);
        case NativeStop(_) => PlayPreserves(After(before), step);
        case _ => WindowPreserves(After(before), step);
      }
  }

  /** Nobody is in the middle of an operation. */
  ghost predicate Quiescent(s: State) {
    s.main.Free? && forall t: Thread :: At(s, t).Idle?
  }

  /** Uninterrupted, the three steps of `play` are the synchronized block of the class above. */
  lemma PlayIsOneBlock(s: State, t: Thread)
    requires At(s, t).Entering? && s.monitor.None?
    ensures var waiting := s.window.state.ATTACHED?;
            var s1 := Apply(s, Enter(t));
            var s' := Apply(if s.playing then s1 else Apply(s1, Read(t)), Leave(t));
            && At(s', t) == (if s.playing || !waiting then Starting else Idle)
            && s'.monitor.None? && s'.window == s.window && s'.native == s.native
            && s'.playing == (s.playing || !waiting)
            && s'.requested == (s.requested || !s.playing)
  {
  }

  // ---------------------------------------------------------------------------
  // The window of the player is that of `Windows`
  // ---------------------------------------------------------------------------

  /** What the window will be when the attachment under way has ended. */
  function Outcome(s: State): Window {
    if s.main.Free? || |s.main.offers| != ID_MAX || s.main.id > ID_MAX then s.window
    else AttachedFrom(s.window, s.main.id, s.main.offers).0
  }

  /** The same calls, each attachment in one piece. */
  function Projected(r: Basics.Run<Step>): Basics.Run<Windows.Step> {
    match r
    case Start => Start
    case Then(before, step) =>
      match step
      case Configure(id, source, offer, hasHolder) =>
        Then(Projected(before), Windows.Step.Configure(id, source, offer, hasHolder))
      case BeginAttach(offers) => Then(Projected(before), Windows.Step.Attach(offers))
      case Available(id, offer) => Then(Projected(before), Windows.Step.Available(id, offer))
      case Detach => Then(Projected(before), Windows.Step.Detach)
      case _ => Projected(before)
  }

  lemma AttachGoesOn(s: State)
    requires Enabled(s, AttachNext) && s.main.id <= ID_MAX
    ensures Outcome(Apply(s, AttachNext)) == Outcome(s)
    ensures !Apply(s, AttachNext).main.Free? ==> Apply(s, AttachNext).main.id <= ID_MAX
  {
  }

  lemma OutcomeStep(s: State, step: Step)
    requires Inv(s) && Enabled(s, step) && (s.main.Free? || s.main.id <= ID_MAX)
    ensures var s' := Apply(s, step);
            && (s'.main.Free? || s'.main.id <= ID_MAX)
            && Outcome(s') ==
               match step
               case Configure(id, source, offer, hasHolder) => Configured(Outcome(s), id, source, offer, hasHolder).0
               case BeginAttach(offers) => Attached(Outcome(s), offers).0
               case Available(id, offer) => Offered(Outcome(s), id, offer).0
               case Detach => Detached(Outcome(s))
               case _ => Outcome(s)
  {
    if step.AttachNext? {
      AttachGoesOn(s);
    }
  }

  /** The player's steps, callbacks and parked calls in between included, leave the window as `Windows` has it. */
  lemma {:induction false} WindowIsThatOfWindows(r: Basics.Run<Step>)
    requires Legal(r)
    ensures Outcome(After(r)) == Windows.After(Projected(r)) && Windows.Legal(Projected(r))
    ensures After(r).main.Free? || After(r).main.id <= ID_MAX
    ensures After(r).main.Free? ==> After(r).window == Windows.After(Projected(r))
  {
    match r
    case Start =>
    case Then(before, step) =>
      WindowIsThatOfWindows(before);
      Reachable(before);
      OutcomeStep(After(before), step);
  }

  // ---------------------------------------------------------------------------
  // What every run keeps
  // ---------------------------------------------------------------------------

  /** No lost play request: at rest, a request that is not playing means that the surfaces are not ready. */
  lemma NoLostPlay(r: Basics.Run<Step>)
    requires Legal(r) && Quiescent(After(r))
    ensures After(r).requested && !After(r).playing ==> !After(r).window.state.READY?
  {
    Reachable(r);
  }

  /** The callback always finds the surfaces ready, so its `play` never defers again. */
  lemma CallbackPlays(r: Basics.Run<Step>)
    requires Legal(r) && (After(r).main.Deciding? || After(r).main.Replaying?)
    ensures After(r).window.state.READY? && At(After(r), MAIN) != Leaving(false)
  {
    Reachable(r);
    assert Placed(After(r), MAIN);
  }

  predicate NoStopSince(later: Basics.Run<Step>, earlier: Basics.Run<Step>)
    decreases later
  {
    later == earlier || (later.Then? && !later.last.Stop? && NoStopSince(later.before, earlier))
  }

  lemma RequestKept(s: State, step: Step)
    requires s.requested && Enabled(s, step) && !step.Stop?
    ensures Apply(s, step).requested
  {
  }

  lemma {:induction false} RequestStays(later: Basics.Run<Step>, earlier: Basics.Run<Step>)
    requires Legal(later) && NoStopSince(later, earlier) && After(earlier).requested
    ensures After(later).requested
  {
    if later == earlier {
    } else {
      RequestStays(later.before, earlier);
      RequestKept(After(later.before), later.last);
    }
  }

  /** A request is played once the surfaces are ready and all is at rest, unless it was stopped. */
  lemma RequestIsPlayed(later: Basics.Run<Step>, earlier: Basics.Run<Step>)
    requires Legal(later) && NoStopSince(later, earlier) && After(earlier).requested
    requires Quiescent(After(later)) && After(later).window.state.READY?
    ensures After(later).playing
  {
    RequestStays(later, earlier);
    NoLostPlay(later);
  }

  predicate NoPlaySince(later: Basics.Run<Step>, earlier: Basics.Run<Step>)
    decreases later
  {
    later == earlier || (later.Then? && !later.last.CallPlay? && NoPlaySince(later.before, earlier))
  }

  predicate InPlay(p: Place) {
    p.Entering? || p.Reading? || p.Leaving? || p.Starting?
  }

  /** No thread is in `play`. */
  ghost predicate NobodyPlays(s: State) {
    forall u: Thread :: !InPlay(At(s, u))
  }

  /** Stopped by `t`, natively too once its call has returned. */
  predicate Off(s: State, t: Thread) {
    !s.requested && !s.playing && (!At(s, t).Halting? ==> !s.native)
  }

  lemma StoppedStep(s: State, step: Step, t: Thread)
    requires NobodyPlays(s) && Off(s, t) && Enabled(s, step) && !step.CallPlay?
    ensures NobodyPlays(Apply(s, step)) && Off(Apply(s, step), t)
  {
    if step.Enter? || step.Read? || step.Leave? || step.NativePlay? {
      assert false;
    } else {
      forall u: Thread ensures !InPlay(At(Apply(s, step), u)) {
        assert !InPlay(At(s, u));
      }
    }
  }

  /** A `stop` while no thread is in `play` holds until the next call of `play`, and so does its native half. */
  lemma {:induction false} StopHolds(later: Basics.Run<Step>, earlier: Basics.Run<Step>, t: Thread)
    requires Legal(later) && NoPlaySince(later, Then(earlier, Stop(t))) && NobodyPlays(After(earlier))
    ensures NobodyPlays(After(later)) && Off(After(later), t)
  {
    if later == Then(earlier, Stop(t)) {
      forall u: Thread ensures !InPlay(At(After(later), u)) {
        assert !InPlay(At(After(earlier), u));
      }
    } else {
      StopHolds(later.before, earlier, t);
      StoppedStep(After(later.before), later.last, t);
    }
  }

  /** When `stop` runs, a thread in `play` is about to enter its block, or has its native call to make. */
  lemma StopOvertaken(before: Basics.Run<Step>, t: Thread, u: Thread)
    requires Legal(Then(before, Stop(t))) && InPlay(At(After(before), u))
    ensures var s := After(Then(before, Stop(t)));
            u != t && At(s, t).Halting? && s.monitor.None? && (At(s, u).Entering? || At(s, u).Starting?)
            && At(s, u) == At(After(before), u) && s.window == After(before).window && !s.playing
  {
    Reachable(before);
    assert Placed(After(before), u);
  }

  /** A thread that enters requests to play. */
  lemma EnterRequests(s: State, u: Thread)
    requires At(s, u).Entering? && s.monitor.None? && !s.playing
    ensures var s' := Apply(s, Enter(u));
            Enabled(s, Enter(u)) && s' == s.(monitor := Some(u), places := s.places[u := Reading], requested := true)
  {
  }

  /** The native call of `u` follows that of `t`. */
  lemma PlayAfterStop(r: Basics.Run<Step>, t: Thread, u: Thread) returns (later: Basics.Run<Step>)
    requires Legal(r) && At(After(r), t).Halting? && At(After(r), u).Starting?
    ensures Legal(later) && NoPlaySince(later, r)
    ensures After(later).native && At(After(later), t).Idle? && After(later).playing == After(r).playing
    ensures After(later).places == After(r).places[t := Idle][u := Idle] && After(later).main == After(r).main
  {
    var stopped := Then(r, NativeStop(t));
    later := Then(stopped, NativePlay(u));
    assert Legal(stopped) && NoPlaySince(stopped, r);
  }

  /** Without a new call of `play` nothing is requested or playing any more, natively neither. */
  ghost predicate StaysStopped(r: Basics.Run<Step>, t: Thread) {
    forall later :: NoPlaySince(later, r) && Legal(later) ==> Off(After(later), t)
  }

  /** A `stop` holds until the next call of `play` exactly when no thread was in `play`, the callback's included. */
  lemma StopHoldsIff(before: Basics.Run<Step>, t: Thread)
    requires Legal(Then(before, Stop(t)))
    ensures StaysStopped(Then(before, Stop(t)), t) <==> NobodyPlays(After(before))
  {
    var stopped := Then(before, Stop(t));
    if u: Thread :| InPlay(At(After(before), u)) {
      StopOvertaken(before, t, u);
      if At(After(stopped), u).Entering? {
        EnterRequests(After(stopped), u);
        var later := Then(stopped, Enter(u));
        assert After(later).requested;
        assert Legal(later) && NoPlaySince(later, stopped);
      } else {
        var later := PlayAfterStop(stopped, t, u);
        assert !Off(After(later), t);
      }
    } else {
      forall later | NoPlaySince(later, stopped) && Legal(later) ensures Off(After(later), t) {
        StopHolds(later, before, t);
      }
    }
  }

  lemma {:induction false} NoPlayTransitive(a: Basics.Run<Step>, b: Basics.Run<Step>, c: Basics.Run<Step>)
    requires NoPlaySince(a, b) && NoPlaySince(b, c)
    ensures NoPlaySince(a, c)
    decreases a
  {
    if a == b {
    } else {
      NoPlayTransitive(a.before, b, c);
    }
  }

  /** The block of `play` runs for `u`, and finds that no surface is waited for. */
  lemma EntersAndStarts(r: Basics.Run<Step>, u: Thread) returns (later: Basics.Run<Step>)
    requires Legal(r) && At(After(r), u).Entering? && After(r).monitor.None? && !After(r).window.state.ATTACHED?
    requires !After(r).playing
    ensures Legal(later) && NoPlaySince(later, r)
    ensures After(later).playing && At(After(later), u).Starting? && After(later).monitor.None?
    ensures After(later).main == After(r).main && forall t: Thread :: t != u ==> At(After(later), t) == At(After(r), t)
  {
    EnterRequests(After(r), u);
    var entered := Then(r, Enter(u));
    assert Legal(entered) && NoPlaySince(entered, r);
    var read := Then(entered, Read(u));
    assert Legal(read) && NoPlaySince(read, r) && At(After(read), u) == Leaving(true);
    later := Then(read, Leave(u));
  }

  /** Unless the surfaces are waited for, such a thread also plays again. */
  lemma StopUndone(before: Basics.Run<Step>, t: Thread, u: Thread) returns (later: Basics.Run<Step>)
    requires Legal(Then(before, Stop(t))) && InPlay(At(After(before), u))
    requires At(After(before), u).Starting? || !After(before).window.state.ATTACHED?
    ensures Legal(later) && NoPlaySince(later, Then(before, Stop(t)))
    ensures After(later).native && At(After(later), t).Idle?
    ensures After(later).playing <==> At(After(before), u).Entering?
  {
    StopOvertaken(before, t, u);
    var stopped := Then(before, Stop(t));
    var ready := stopped;
    if At(After(stopped), u).Entering? {
      ready := EntersAndStarts(stopped, u);
    }
    later := PlayAfterStop(ready, t, u);
    NoPlayTransitive(later, ready, stopped);
  }

  // ---------------------------------------------------------------------------
  // The flag and the native player
  // ---------------------------------------------------------------------------

  predicate CallsNative(p: Place) {
    p.Starting? || p.Halting?
  }

  /** `later` goes on from `earlier` with native calls only. */
  predicate OnlyNative(later: Basics.Run<Step>, earlier: Basics.Run<Step>)
    decreases later
  {
    later == earlier
    || (later.Then? && (later.last.NativePlay? || later.last.NativeStop?) && OnlyNative(later.before, earlier))
  }

  ghost predicate Settled(s: State) {
    forall t: Thread :: !CallsNative(At(s, t))
  }

  /** Every native call still to be made agrees with the flag; when there is none, the native player does. */
  ghost predicate Agreeable(s: State) {
    && (forall t: Thread :: (At(s, t).Starting? ==> s.playing) && (At(s, t).Halting? ==> !s.playing))
    && (Settled(s) ==> s.native == s.playing)
  }

  ghost predicate SettlesInAgreement(r: Basics.Run<Step>) {
    forall later :: OnlyNative(later, r) && Legal(later) && Settled(After(later)) ==>
      After(later).native == After(later).playing
  }

  function NativeCall(s: State, t: Thread): Step
    requires CallsNative(At(s, t))
  {
    if At(s, t).Starting? then NativePlay(t) else NativeStop(t)
  }

  lemma NativeStepAgrees(s: State, t: Thread)
    requires Agreeable(s) && CallsNative(At(s, t))
    ensures Agreeable(Apply(s, NativeCall(s, t)))
  {
    var s' := Apply(s, NativeCall(s, t));
    forall u: Thread ensures (At(s', u).Starting? ==> s'.playing) && (At(s', u).Halting? ==> !s'.playing) {
      assert At(s', u) == if u == t then Idle else At(s, u);
    }
  }

  lemma {:induction false} NativeAgrees(later: Basics.Run<Step>, earlier: Basics.Run<Step>)
    requires Legal(later) && OnlyNative(later, earlier) && Agreeable(After(earlier))
    ensures Agreeable(After(later))
  {
    if later == earlier {
    } else {
      NativeAgrees(later.before, earlier);
      NativeStepAgrees(After(later.before), later.last.t);
    }
  }

  function Callers(s: State, except: Thread): set<Thread> {
    set t | t in s.places && CallsNative(s.places[t]) && t != except
  }

  lemma {:induction false} OnlyNativeTransitive(a: Basics.Run<Step>, b: Basics.Run<Step>, c: Basics.Run<Step>)
    requires OnlyNative(a, b) && OnlyNative(b, c)
    ensures OnlyNative(a, c)
    decreases a
  {
    if a == b {
    } else {
      OnlyNativeTransitive(a.before, b, c);
    }
  }

  /** All native calls but that of `u` are made. */
  lemma {:induction false} OthersCall(r: Basics.Run<Step>, u: Thread) returns (later: Basics.Run<Step>)
    requires Legal(r)
    ensures Legal(later) && OnlyNative(later, r) && Callers(After(later), u) == {}
    ensures At(After(later), u) == At(After(r), u) && After(later).playing == After(r).playing
    decreases |Callers(After(r), u)|
  {
    var s := After(r);
    if Callers(s, u) == {} {
      later := r;
    } else {
      var t :| t in Callers(s, u);
      var next := Then(r, NativeCall(s, t));
      assert Callers(After(next), u) == Callers(s, u) - {t};
      later := OthersCall(next, u);
      OnlyNativeTransitive(later, next, r);
    }
  }

  /** A native call that contradicts the flag may come last. */
  lemma ContraryCallLast(r: Basics.Run<Step>, u: Thread) returns (later: Basics.Run<Step>)
    requires Legal(r) && CallsNative(At(After(r), u)) && (At(After(r), u).Starting? <==> !After(r).playing)
    ensures Legal(later) && OnlyNative(later, r) && Settled(After(later))
    ensures After(later).native != After(later).playing
  {
    var others := OthersCall(r, u);
    var s := After(others);
    later := Then(others, NativeCall(s, u));
    forall t: Thread ensures !CallsNative(At(After(later), t)) {
      assert t !in Callers(s, u);
    }
  }

  /**
    When all native calls under way are made, the native player does what the flag says, in
    whatever order they are made, exactly when each of them agrees with the flag.
   */
  lemma NativeAgreesIff(r: Basics.Run<Step>)
    requires Legal(r)
    ensures SettlesInAgreement(r) <==> Agreeable(After(r))
  {
    var s := After(r);
    if Agreeable(s) {
      forall later | OnlyNative(later, r) && Legal(later) && Settled(After(later))
        ensures After(later).native == After(later).playing
      {
        NativeAgrees(later, r);
      }
    } else if u: Thread :| CallsNative(At(s, u)) && (At(s, u).Starting? <==> !s.playing) {
      var later := ContraryCallLast(r, u);
    } else {
      assert OnlyNative(r, r) && Settled(s);
    }
  }

  const VIEW := Helper(FromSurfaceView, None)

  /** A surface view attached before its surface exists. */
  const WAITING := NEW_PLAYER.(window := Surfaces(ATTACHED, [Some(VIEW), None], [None, None], []))

  lemma AttachedRun() returns (r: Basics.Run<Step>)
    ensures Legal(r) && After(r) == WAITING
  {
    var none := Offer(7, false);
    var r1 := Then(Start, Step.Configure(ID_VIDEO, FromSurfaceView, none, false));
    assert Legal(r1) && After(r1) == NEW_PLAYER.(window := NEW_WINDOW.(helpers := [Some(VIEW), None]));
    var r2 := Then(r1, BeginAttach([none, none]));
    assert Legal(r2) && After(r2) == WAITING.(main := Attaching(0, [none, none]));
    var r3 := Then(r2, AttachNext);
    assert Legal(r3) && After(r3) == WAITING.(main := Attaching(1, [none, none]));
    var r4 := Then(r3, AttachNext);
    assert Legal(r4) && After(r4) == WAITING.(main := Attaching(2, [none, none]));
    r := Then(r4, AttachNext);
  }

  lemma ParkedRun() returns (r: Basics.Run<Step>)
    ensures Legal(r) && After(r) == WAITING.(places := map[1 := Idle], requested := true)
  {
    var r5 := AttachedRun();
    var r6 := Then(r5, CallPlay(1));
    assert Legal(r6) && After(r6) == WAITING.(places := map[1 := Entering]);
    var r7 := Then(r6, Enter(1));
    assert Legal(r7) && After(r7) == WAITING.(places := map[1 := Reading], requested := true, monitor := Some(1));
    var r8 := Then(r7, Read(1));
    assert Legal(r8)
        && After(r8) == WAITING.(places := map[1 := Leaving(false)], requested := true, monitor := Some(1));
    r := Then(r8, Leave(1));
  }

  /** A parked `play`, and then the surface: the callback is about to play. */
  lemma CallbackAboutToPlay() returns (r: Basics.Run<Step>)
    ensures Legal(r) && After(r).main.Replaying? && After(r).main.id == ID_MAX && At(After(r), MAIN).Entering?
    ensures After(r).window.state.READY? && After(r).monitor.None? && At(After(r), 1).Idle? && !After(r).playing
  {
    var parked := ParkedRun();
    var ready := Then(parked, Step.Available(ID_VIDEO, Offer(7, true)));
    assert Legal(ready) && After(ready).main.Deciding? && After(ready).requested;
    r := Then(ready, Decide);
  }

  /** The callback comes back, and the attachment under way ends. */
  lemma MainEnds(r: Basics.Run<Step>) returns (end: Basics.Run<Step>)
    requires Legal(r) && After(r).main.Replaying? && After(r).main.id == ID_MAX && At(After(r), MAIN).Idle?
    ensures Legal(end) && After(end) == After(r).(main := Free)
  {
    Reachable(r);
    var back := Then(r, Resume);
    assert Legal(back) && After(back) == After(r).(main := Attaching(ID_MAX, After(r).main.offers));
    end := Then(back, AttachNext);
  }

  /** A `play` parked for the surface, and played natively once it has come. */
  lemma ParkedPlayIsPlayed() returns (r: Basics.Run<Step>)
    ensures Legal(r) && After(r).playing && After(r).native && MainFree(After(r))
  {
    var decided := CallbackAboutToPlay();
    var started := EntersAndStarts(decided, MAIN);
    var played := Then(started, NativePlay(MAIN));
    assert Legal(played) && At(After(played), MAIN).Idle? && After(played).main == After(decided).main;
    r := MainEnds(played);
  }

  /** A `stop` between the decision of the callback and its `play` is undone. */
  lemma StopUndoneByCallback() returns (r: Basics.Run<Step>, later: Basics.Run<Step>)
    ensures Legal(r) && r.Then? && r.last == Stop(1) && !StaysStopped(r, 1)
    ensures After(r.before).main.Replaying? && !After(r).playing && !After(r).requested
    ensures Legal(later) && NoPlaySince(later, r) && After(later).playing && After(later).native
  {
    var decided := CallbackAboutToPlay();
    r := Then(decided, Stop(1));
    assert Legal(r) && InPlay(At(After(decided), MAIN));
    later := StopUndone(decided, 1, MAIN);
    StopHoldsIff(decided, 1);
  }

  /** Thread 1 has its native call to make, and thread 2 stops. */
  lemma StopBetweenBlockAndCall() returns (r: Basics.Run<Step>)
    ensures Legal(r) && !After(r).playing && After(r).main.Free?
    ensures At(After(r), 1).Starting? && At(After(r), 2).Halting?
    ensures forall t: Thread :: t !in {1, 2} ==> At(After(r), t).Idle?
  {
    var called := Then(Start, CallPlay(1));
    assert Legal(called) && After(called).places == map[1 := Entering];
    var started := EntersAndStarts(called, 1);
    assert At(After(called), 2).Idle? && At(After(started), 2).Idle?;
    r := Then(started, Stop(2));
    forall t: Thread | t !in {1, 2} ensures At(After(r), t).Idle? {
      assert At(After(called), t).Idle?;
    }
  }

  /** Then the native call of `play` may come after that of `stop`: at rest the player plays, and the flag is down. */
  lemma StopOvertakenNatively() returns (r: Basics.Run<Step>)
    ensures Legal(r) && Quiescent(After(r)) && After(r).native && !After(r).playing
  {
    var stopped := StopBetweenBlockAndCall();
    r := PlayAfterStop(stopped, 2, 1);
    forall t: Thread ensures At(After(r), t).Idle? {
      assert t !in {1, 2} ==> At(After(stopped), t).Idle?;
    }
  }
}
