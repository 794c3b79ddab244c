/**
  The surfaces of `AWindow.java`: views are configured, attached, become ready as their
  surfaces come, and are detached together. All of it runs on the main thread.
 */
module Windows {
  import opened Basics

  type Surface = nat

  const ID_VIDEO := 0
  const ID_SUBTITLES := 1
  const ID_MAX := 2

  datatype SurfacesState = INIT | ATTACHED | READY

  /** What a `SurfaceHelper` was made from. */
  datatype Source = FromSurfaceView | FromTextureView | FromSurface

  datatype Helper = Helper(source: Source, surface: Option<Surface>)

  datatype Notice = Created | Destroyed

  datatype Surfaces = Surfaces(
    state: SurfacesState,
    helpers: seq<Option<Helper>>,       // mSurfaceHelpers
    natives: seq<Option<Surface>>,      // mSurfaces
    notices: seq<Notice>                // calls of the surface callback, in order
  )

  /** A surface offered to a helper: valid or not. */
  datatype Offer = Offer(surface: Surface, valid: bool)

  type Window = w: Surfaces | |w.helpers| == ID_MAX == |w.natives|
    witness Surfaces(INIT, [None, None], [None, None], [])

  const NEW_WINDOW: Window := Surfaces(INIT, [None, None], [None, None], [])

  predicate IsReady(h: Helper) {
    !h.source.FromSurfaceView? || h.surface.Some?
  }

  predicate AllReady(w: Window) {
    && w.helpers[ID_VIDEO].Some? && IsReady(w.helpers[ID_VIDEO].value)
    && (w.helpers[ID_SUBTITLES].Some? ==> IsReady(w.helpers[ID_SUBTITLES].value))
  }

  // ---------------------------------------------------------------------------
  // The operations as functions; a flag tells whether the original throws
  // ---------------------------------------------------------------------------

  /** `setView` and `setSurface`; only a `FromSurface` helper starts with its surface. */
  function Configured(w: Window, id: nat, source: Source, offer: Offer, hasHolder: bool): (after: (Window, bool))
    requires id < ID_MAX
  {
    if !w.state.INIT? || (source.FromSurface? && !offer.valid && !hasHolder) then (w, true)
    else
      var helper := Helper(source, if source.FromSurface? then Some(offer.surface) else None);
      (w.(natives := if w.helpers[id].Some? then w.natives[id := None] else w.natives,
          helpers := w.helpers[id := Some(helper)]), false)
  }

  /** `onSurfaceCreated`. */
  function SurfaceCreated(w: Window): (Window, bool) {
    if !w.state.ATTACHED? || w.helpers[ID_VIDEO].None? then (w, true)
    else if AllReady(w) then (w.(state := READY, notices := w.notices + [Created]), false)
    else (w, false)
  }

  /** `SurfaceHelper.setSurface`, on attaching and when a surface becomes available. */
  function Offered(w: Window, id: nat, offer: Offer): (Window, bool)
    requires id < ID_MAX && w.helpers[id].Some?
  {
    if offer.valid && w.natives[id].None? then
      SurfaceCreated(w.(helpers := w.helpers[id := Some(w.helpers[id].value.(surface := Some(offer.surface)))],
                        natives := w.natives[id := Some(offer.surface)]))
    else (w, false)
  }

  /** On attaching, a helper made from a surface offers that one. */
  function Own(h: Helper, offer: Offer): Offer {
    if h.source.FromSurface? && h.surface.Some? then offer.(surface := h.surface.value) else offer
  }

  /** `attachViews` from helper `id` on. */
  function AttachedFrom(w: Window, id: nat, offers: seq<Offer>): (Window, bool)
    requires |offers| == ID_MAX && id <= ID_MAX
    decreases ID_MAX - id
  {
    if id == ID_MAX then (w, false)
    else if w.helpers[id].None? then AttachedFrom(w, id + 1, offers)
    else
      var (next, threw) := Offered(w, id, Own(w.helpers[id].value, offers[id]));
      if threw then (next, true) else AttachedFrom(next, id + 1, offers)
  }

  function Attached(w: Window, offers: seq<Offer>): (Window, bool)
    requires |offers| == ID_MAX
  {
    if !w.state.INIT? || w.helpers[ID_VIDEO].None? then (w, true)
    else AttachedFrom(w.(state := ATTACHED), 0, offers)
  }

  /** `detachViews`, also run when a surface is destroyed. */
  function Detached(w: Window): Window {
    if w.state.INIT? then w
    else Surfaces(INIT, [None, None],
                [if w.helpers[0].Some? then None else w.natives[0], if w.helpers[1].Some? then None else w.natives[1]],
                w.notices + [Destroyed])
  }

  class AWindow {
    var mSurfacesState: SurfacesState
    var mSurfaceHelpers: seq<Option<Helper>>
    var mSurfaces: seq<Option<Surface>>
    var notices: seq<Notice>

    predicate Valid()
      reads this
    {
      |mSurfaceHelpers| == ID_MAX == |mSurfaces|
    }

    function View(): Window
      requires Valid()
      reads this
    {
      Surfaces(mSurfacesState, mSurfaceHelpers, mSurfaces, notices)
    }

    constructor ()
      ensures Valid() && View() == NEW_WINDOW
    {
      mSurfacesState := INIT;
      mSurfaceHelpers := [None, None];
      mSurfaces := [None, None];
      notices := [];
    }

    method SetView(id: nat, source: Source, offer: Offer, hasHolder: bool) returns (threw: bool)
      requires Valid() && id < ID_MAX
      modifies this
      ensures Valid() && (View(), threw) == Configured(old(View()), id, source, offer, hasHolder)
      ensures threw <==> !mSurfacesState.INIT? || (source.FromSurface? && !offer.valid && !hasHolder)
      ensures !threw ==> mSurfaceHelpers == old(mSurfaceHelpers)[
                id := Some(Helper(source, if source.FromSurface? then Some(offer.surface) else None))]
      ensures !threw ==> mSurfaces == if old(mSurfaceHelpers)[id].Some? then old(mSurfaces)[id := None] else old(mSurfaces)
      ensures threw ==> unchanged(this)
    {
      if mSurfacesState != INIT {
        return true;
      }
      if source.FromSurface? && !offer.valid && !hasHolder {
        return true;
      }
      if mSurfaceHelpers[id].Some? {
        mSurfaces := mSurfaces[id := None];
      }
      mSurfaceHelpers := mSurfaceHelpers[
        id := Some(Helper(source, if source.FromSurface? then Some(offer.surface) else None))];
      threw := false;
    }

    method OnSurfaceCreated() returns (threw: bool)
      requires Valid()
      modifies this`mSurfacesState, this`notices
      ensures Valid() && (View(), threw) == SurfaceCreated(old(View()))
      ensures threw <==> !old(mSurfacesState).ATTACHED? || mSurfaceHelpers[ID_VIDEO].None?
      ensures !threw && (forall id :: 0 <= id < ID_MAX && mSurfaceHelpers[id].Some? ==>
                !mSurfaceHelpers[id].value.source.FromSurfaceView? || mSurfaceHelpers[id].value.surface.Some?) ==>
                mSurfacesState.READY? && notices == old(notices) + [Created]
    {
      if mSurfacesState != ATTACHED {
        return true;
      }
      var video, subtitles := mSurfaceHelpers[ID_VIDEO], mSurfaceHelpers[ID_SUBTITLES];
      if video.None? {
        return true;
      }
      if IsReady(video.value) && (subtitles.None? || IsReady(subtitles.value)) {
        mSurfacesState := READY;
        notices := notices + [Created];
      }
      threw := false;
    }

    method SetSurface(id: nat, offer: Offer) returns (threw: bool)
      requires Valid() && id < ID_MAX && mSurfaceHelpers[id].Some?
      modifies this
      ensures Valid() && (View(), threw) == Offered(old(View()), id, offer)
      ensures mSurfaces == if offer.valid && old(mSurfaces)[id].None? then old(mSurfaces)[id := Some(offer.surface)]
                           else old(mSurfaces)
    {
      threw := false;
      if offer.valid && mSurfaces[id].None? {
        mSurfaceHelpers := mSurfaceHelpers[id := Some(mSurfaceHelpers[id].value.(surface := Some(offer.surface)))];
        mSurfaces := mSurfaces[id := Some(offer.surface)];
        threw := OnSurfaceCreated();
      }
    }

    method AttachViews(offers: seq<Offer>) returns (threw: bool)
      requires Valid() && |offers| == ID_MAX
      modifies this
      ensures Valid() && (View(), threw) == Attached(old(View()), offers)
    {
      if mSurfacesState != INIT || mSurfaceHelpers[ID_VIDEO].None? {
        return true;
      }
      mSurfacesState := ATTACHED;
      ghost var begun := View();
      var id := 0;
      while id < ID_MAX
        invariant 0 <= id <= ID_MAX && Valid()
        invariant AttachedFrom(begun, 0, offers) == AttachedFrom(View(), id, offers)
      {
        if mSurfaceHelpers[id].Some? {
          threw := SetSurface(id, Own(mSurfaceHelpers[id].value, offers[id]));
          if threw {
            return;
          }
        }
        id := id + 1;
      }
      threw := false;
    }

    method DetachViews()
      requires Valid()
      modifies this
      ensures Valid() && View() == Detached(old(View()))
      ensures old(mSurfacesState).INIT? ==> unchanged(this)
      ensures !old(mSurfacesState).INIT? ==>
                mSurfacesState.INIT? && mSurfaceHelpers == [None, None] && notices == old(notices) + [Destroyed]
    {
      if mSurfacesState == INIT {
        return;
      }
      mSurfacesState := INIT;
      var id := 0;
      while id < ID_MAX
        invariant 0 <= id <= ID_MAX && Valid()
        invariant mSurfacesState == INIT && notices == old(notices)
        invariant forall k :: 0 <= k < id ==>
                    mSurfaceHelpers[k].None? &&
                    mSurfaces[k] == if old(mSurfaceHelpers[k]).Some? then None else old(mSurfaces[k])
        invariant forall k :: id <= k < ID_MAX ==>
                    mSurfaceHelpers[k] == old(mSurfaceHelpers[k]) && mSurfaces[k] == old(mSurfaces[k])
      {
        if mSurfaceHelpers[id].Some? {
          mSurfaces := mSurfaces[id := None];
        }
        mSurfaceHelpers := mSurfaceHelpers[id := None];
        id := id + 1;
      }
      notices := notices + [Destroyed];
    }
  }

  // ---------------------------------------------------------------------------
  // Runs
  // ---------------------------------------------------------------------------

  /** `Available` is the callback of a surface holder or texture; it may throw. */
  datatype Step =
    | Configure(id: nat, source: Source, offer: Offer, hasHolder: bool)
    | Attach(offers: seq<Offer>)
    | Available(id: nat, offer: Offer)
    | Detach

  predicate Enabled(w: Window, step: Step) {
    match step
    case Configure(id, _, _, _) => id < ID_MAX
    case Attach(offers) => |offers| == ID_MAX
    case Available(id, _) => id < ID_MAX && w.helpers[id].Some? && !w.state.INIT?
    case Detach => true
  }

  function Apply(w: Window, step: Step): Window {
    if !Enabled(w, step) then w else
    match step
    case Configure(id, source, offer, hasHolder) => Configured(w, id, source, offer, hasHolder).0
    case Attach(offers) => Attached(w, offers).0
    case Available(id, offer) => Offered(w, id, offer).0
    case Detach => Detached(w)
  }

  function After(r: Run<Step>): Window {
    match r
    case Start => NEW_WINDOW
    case Then(before, step) => Apply(After(before), step)
  }

  predicate Legal(r: Run<Step>) {
    r.Then? ==> Legal(r.before) && Enabled(After(r.before), r.last)
  }

  predicate Shape(w: Window) {
    && (forall id :: 0 <= id < ID_MAX && w.natives[id].Some? ==> w.helpers[id].Some? && !w.state.INIT?)
    && (forall id :: 0 <= id < ID_MAX && w.state.INIT? && w.helpers[id].Some? && w.helpers[id].value.source.FromSurfaceView?
          ==> w.helpers[id].value.surface.None?)
    && (!w.state.INIT? ==> w.helpers[ID_VIDEO].Some?)
    && (w.state.READY? ==> AllReady(w))
  }

  /** No second `Created` without a `Destroyed`, and the last notice tells whether the window is ready. */
  predicate NoticesMatch(w: Window) {
    && (w.state.READY? <==> w.notices != [] && w.notices[|w.notices| - 1].Created?)
    && (forall i :: 0 < i < |w.notices| && w.notices[i].Created? ==> w.notices[i - 1].Destroyed?)
  }

  predicate Inv(w: Window) {
    Shape(w) && NoticesMatch(w)
  }

  lemma CreatedPreserves(w: Window)
    requires Inv(w) && !w.state.INIT?
    ensures var w' := SurfaceCreated(w).0;
            Inv(w') && !w'.state.INIT? && multiset(w'.notices)[Destroyed] == multiset(w.notices)[Destroyed]
  {
  }

  lemma OfferPreserves(w: Window, id: nat, offer: Offer)
    requires id < ID_MAX && w.helpers[id].Some? && !w.state.INIT? && Inv(w)
    ensures var w' := Offered(w, id, offer).0;
            Inv(w') && !w'.state.INIT? && multiset(w'.notices)[Destroyed] == multiset(w.notices)[Destroyed]
  {
    if offer.valid && w.natives[id].None? {
      var helper := w.helpers[id].value.(surface := Some(offer.surface));
      var given := w.(helpers := w.helpers[id := Some(helper)], natives := w.natives[id := Some(offer.surface)]);
      assert Shape(given) && NoticesMatch(given);
      CreatedPreserves(given);
    }
  }

  lemma {:induction false} AttachPreserves(w: Window, id: nat, offers: seq<Offer>)
    requires |offers| == ID_MAX && id <= ID_MAX && !w.state.INIT? && Inv(w)
    ensures var w' := AttachedFrom(w, id, offers).0;
            Inv(w') && !w'.state.INIT? && multiset(w'.notices)[Destroyed] == multiset(w.notices)[Destroyed]
    decreases ID_MAX - id
  {
    if id == ID_MAX {
    } else {
      if w.helpers[id].Some? {
        var offer := Own(w.helpers[id].value, offers[id]);
        OfferPreserves(w, id, offer);
        AttachPreserves(Offered(w, id, offer).0, id + 1, offers);
      } else {
        AttachPreserves(w, id + 1, offers);
      }
    }
  }

  lemma Preserved(w: Window, step: Step)
    requires Inv(w) && Enabled(w, step)
    ensures Inv(Apply(w, step))
    ensures multiset(Apply(w, step).notices)[Destroyed]
         == multiset(w.notices)[Destroyed] + if !w.state.INIT? && Apply(w, step).state.INIT? then 1 else 0
  {
    match step
    case Configure(_, _, _, _) =>
    case Attach(offers) =>
      if w.state.INIT? && w.helpers[ID_VIDEO].Some? {
        AttachPreserves(w.(state := ATTACHED), 0, offers);
      }
    case Available(id, offer) => OfferPreserves(w, id, offer);
    case Detach =>
  }

  lemma {:induction false} Reachable(r: Run<Step>)
    requires Legal(r)
    ensures Inv(After(r))
  {
    if r.Start? {
    } else {
      Reachable(r.before);
      Preserved(After(r.before), r.last);
    }
  }

  /** Detached means that no native surface is left; ready means that every configured helper is. */
  lemma SurfacesFollowState(r: Run<Step>)
    requires Legal(r)
    ensures var w := After(r);
            && (w.state.INIT? ==> w.natives == [None, None])
            && (w.state.READY? ==> AllReady(w))
            && (!w.state.INIT? ==> w.helpers[ID_VIDEO].Some?)
  {
    Reachable(r);
  }

  // ---------------------------------------------------------------------------
  // Readiness is not missed
  // ---------------------------------------------------------------------------

  /** Attached, with a surface come and no helper to wait for: the window ought to be ready. */
  predicate Missed(w: Window) {
    w.state.ATTACHED? && (w.natives[0].Some? || w.natives[1].Some?) && AllReady(w)
  }

  /** Every native surface is that of its helper. */
  predicate Given(w: Window) {
    forall id :: 0 <= id < ID_MAX && w.natives[id].Some? ==>
      w.helpers[id].Some? && w.helpers[id].value.surface == w.natives[id]
  }

  lemma OfferIsUsed(w: Window, id: nat, offer: Offer)
    requires id < ID_MAX && w.helpers[id].Some? && w.helpers[ID_VIDEO].Some? && !Missed(w) && Given(w)
    ensures !Missed(Offered(w, id, offer).0) && Given(Offered(w, id, offer).0)
  {
  }

  lemma {:induction false} AttachUsesOffers(w: Window, id: nat, offers: seq<Offer>)
    requires |offers| == ID_MAX && id <= ID_MAX && w.helpers[ID_VIDEO].Some? && !Missed(w) && Given(w)
    ensures !Missed(AttachedFrom(w, id, offers).0) && Given(AttachedFrom(w, id, offers).0)
    decreases ID_MAX - id
  {
    if id == ID_MAX {
    } else if w.helpers[id].Some? {
      var offer := Own(w.helpers[id].value, offers[id]);
      OfferIsUsed(w, id, offer);
      AttachUsesOffers(Offered(w, id, offer).0, id + 1, offers);
    } else {
      AttachUsesOffers(w, id + 1, offers);
    }
  }

  lemma NotMissedStep(w: Window, step: Step)
    requires Inv(w) && Enabled(w, step) && !Missed(w) && Given(w)
    ensures !Missed(Apply(w, step)) && Given(Apply(w, step))
  {
    match step
    case Configure(_, _, _, _) =>
    case Attach(offers) =>
      if w.state.INIT? && w.helpers[ID_VIDEO].Some? {
        AttachUsesOffers(w.(state := ATTACHED), 0, offers);
      }
    case Available(id, offer) => OfferIsUsed(w, id, offer);
    case Detach =>
  }

  /**
    No run leaves a window attached once a surface has come and all its helpers are ready; each native
    surface is the one its helper was given.
   */
  lemma {:induction false} ReadinessIsNotMissed(r: Run<Step>)
    requires Legal(r)
    ensures !Missed(After(r)) && Given(After(r))
  {
    match r
    case Start =>
    case Then(before, step) =>
      ReadinessIsNotMissed(before);
      Reachable(before);
      NotMissedStep(After(before), step);
  }

  /** Attaching offers to the video helper, and unless that throws to the subtitles helper. */
  lemma AttachInTwo(w: Window, offers: seq<Offer>)
    requires |offers| == ID_MAX && w.helpers[ID_VIDEO].Some?
    ensures var (w1, t1) := Offered(w, ID_VIDEO, Own(w.helpers[ID_VIDEO].value, offers[ID_VIDEO]));
            AttachedFrom(w, 0, offers) ==
              if t1 || w1.helpers[ID_SUBTITLES].None? then (w1, t1)
              else Offered(w1, ID_SUBTITLES, Own(w1.helpers[ID_SUBTITLES].value, offers[ID_SUBTITLES]))
  {
    var (w1, t1) := Offered(w, 0, Own(w.helpers[0].value, offers[0]));
    assert AttachedFrom(w, 0, offers) == if t1 then (w1, true) else AttachedFrom(w1, 1, offers);
    if w1.helpers[1].Some? {
      var (w2, t2) := Offered(w1, 1, Own(w1.helpers[1].value, offers[1]));
      assert AttachedFrom(w1, 1, offers) == if t2 then (w2, true) else AttachedFrom(w2, 2, offers);
    } else {
      assert AttachedFrom(w1, 1, offers) == AttachedFrom(w1, 2, offers);
    }
  }

  /** A valid surface that comes to an attached helper without one reaches the native side. */
  lemma SurfaceReachesNative(r: Run<Step>, id: nat, offer: Offer)
    requires Legal(Then(r, Available(id, offer))) && id < ID_MAX
    ensures var w, w' := After(r), After(Then(r, Available(id, offer)));
            && w'.natives[id] == (if w.natives[id].None? && offer.valid then Some(offer.surface) else w.natives[id])
            && w'.natives[1 - id] == w.natives[1 - id]
  {
  }

  /** What attaching gives helper `id`: the valid surface it has, its own or that of its view. */
  function Gift(w: Window, offers: seq<Offer>, id: nat): Option<Surface>
    requires |offers| == ID_MAX && id < ID_MAX
  {
    if w.helpers[id].None? || !offers[id].valid then None
    else if w.helpers[id].value.source.FromSurface? && w.helpers[id].value.surface.Some?
    then w.helpers[id].value.surface
    else Some(offers[id].surface)
  }

  lemma OfferedGift(w: Window, offers: seq<Offer>, id: nat)
    requires |offers| == ID_MAX && id < ID_MAX && w.helpers[id].Some? && w.natives[id].None?
    ensures var w' := Offered(w, id, Own(w.helpers[id].value, offers[id])).0;
            && w'.natives == w.natives[id := Gift(w, offers, id)]
            && w'.helpers[1 - id] == w.helpers[1 - id]
  {
  }

  /** Attaching gives every helper its surface, even if it throws: the subtitles helper is the last. */
  lemma AttachGivesSurfaces(r: Run<Step>, offers: seq<Offer>)
    requires Legal(Then(r, Attach(offers)))
    requires After(r).state.INIT? && After(r).helpers[ID_VIDEO].Some?
    ensures var w, w' := After(r), After(Then(r, Attach(offers)));
            w'.natives == [Gift(w, offers, ID_VIDEO), Gift(w, offers, ID_SUBTITLES)]
  {
    Reachable(r);
    var w := After(r).(state := ATTACHED);
    AttachInTwo(w, offers);
    OfferedGift(w, offers, ID_VIDEO);
    var (w1, t1) := Offered(w, ID_VIDEO, Own(w.helpers[ID_VIDEO].value, offers[ID_VIDEO]));
    assert !t1;
    if w1.helpers[ID_SUBTITLES].Some? {
      OfferedGift(w1, offers, ID_SUBTITLES);
    }
  }

  /** Two surface views, attached before their surfaces exist, are ready when the second surface has come. */
  lemma BothSurfacesCome(video: Surface, subtitles: Surface) returns (r: Run<Step>)
    ensures Legal(r) && After(r).state.READY? && After(r).notices == [Created]
    ensures After(r).natives == [Some(video), Some(subtitles)]
  {
    var none := Offer(0, false);
    var r1 := Then(Start, Configure(ID_VIDEO, FromSurfaceView, none, false));
    var view := Some(Helper(FromSurfaceView, None));
    assert Legal(r1) && After(r1) == NEW_WINDOW.(helpers := [view, None]);
    var r2 := Then(r1, Configure(ID_SUBTITLES, FromSurfaceView, none, false));
    assert Legal(r2) && After(r2) == NEW_WINDOW.(helpers := [view, view]);
    var attached := NEW_WINDOW.(state := ATTACHED, helpers := [view, view]);
    var r3 := Then(r2, Attach([none, none]));
    assert AttachedFrom(attached, 2, [none, none]) == (attached, false);
    assert AttachedFrom(attached, 1, [none, none]) == (attached, false);
    assert Legal(r3) && After(r3) == attached;
    var r4 := Then(r3, Available(ID_VIDEO, Offer(video, true)));
    var given := attached.(helpers := [Some(Helper(FromSurfaceView, Some(video))), view], natives := [Some(video), None]);
    assert Legal(r4) && After(r4) == given;
    r := Then(r4, Available(ID_SUBTITLES, Offer(subtitles, true)));
  }

  /** Times the window went from attached or ready back to its initial state. */
  function Exits(r: Run<Step>): nat {
    if r.Start? then 0
    else Exits(r.before) + if !After(r.before).state.INIT? && After(r).state.INIT? then 1 else 0
  }

  /** Each time the window is left, one destroyed notice is given. */
  lemma {:induction false} OneDestroyedPerExit(r: Run<Step>)
    requires Legal(r)
    ensures multiset(After(r).notices)[Destroyed] == Exits(r)
  {
    if r.Start? {
    } else {
      OneDestroyedPerExit(r.before);
      Reachable(r.before);
      Preserved(After(r.before), r.last);
    }
  }

  /** Between two created notices there is a destroyed one. */
  lemma CreatedAlternates(r: Run<Step>, i: nat, j: nat)
    requires Legal(r) && i < j < |After(r).notices|
    requires After(r).notices[i].Created? && After(r).notices[j].Created?
    ensures exists k :: i < k < j && After(r).notices[k].Destroyed?
  {
    Reachable(r);
    assert After(r).notices[j - 1].Destroyed?;
  }

  /**
    `attachViews` throws when the window is not detached or has no video helper; otherwise
    exactly when the video surface is ready at once and so is that of a subtitles helper not
    made from a surface view.
   */
  lemma AttachThrowsIff(r: Run<Step>, offers: seq<Offer>)
    requires Legal(r) && |offers| == ID_MAX
    ensures var subtitles := After(r).helpers[ID_SUBTITLES];
            Attached(After(r), offers).1 <==>
              || !After(r).state.INIT? || After(r).helpers[ID_VIDEO].None?
              || (&& offers[ID_VIDEO].valid && offers[ID_SUBTITLES].valid
                  && subtitles.Some? && !subtitles.value.source.FromSurfaceView?)
  {
    Reachable(r);
    if After(r).state.INIT? && After(r).helpers[ID_VIDEO].Some? {
      AttachInTwo(After(r).(state := ATTACHED), offers);
    }
  }

  /** Video and subtitles configured with valid surfaces, and `attachViews` throws. */
  lemma ThrowingRun() returns (r: Run<Step>, offers: seq<Offer>)
    ensures Legal(r) && |offers| == ID_MAX
    ensures After(r).state.INIT? && After(r).helpers[ID_VIDEO].Some?
    ensures Attached(After(r), offers).1
  {
    var video, subtitles := Offer(1, true), Offer(2, true);
    var r1 := Then(Start, Configure(ID_VIDEO, FromSurface, video, false));
    assert Legal(r1) && After(r1).state.INIT? && After(r1).helpers == [Some(Helper(FromSurface, Some(1))), None];
    r := Then(r1, Configure(ID_SUBTITLES, FromSurface, subtitles, false));
    offers := [video, subtitles];
    assert Legal(r) && After(r).helpers[ID_SUBTITLES] == Some(Helper(FromSurface, Some(2)));
    AttachThrowsIff(r, offers);
  }
}
