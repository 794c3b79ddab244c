/**
  What the caches of a media hold in the runs of `MediaParse`, where a parse suppresses events
  and every getter of `Media.java` reads and caches in two separate blocks.
 */
module MediaCaches {
  import opened Basics
  import opened MediaParse

  // ---------------------------------------------------------------------------
  // Duration and state
  // ---------------------------------------------------------------------------

  /** An invalidation on its way to Java. */
  predicate Coming(s: State, e: Event) {
    e in s.pending || s.passed == Some(e)
  }

  /** Cached values, and those about to be cached, are the native ones or about to be invalidated. */
  predicate DurationFollows(s: State) {
    s.fields.status != PARSING ==>
      || Coming(s, DurationChanged)
      || (s.fields.duration in {UNKNOWN, s.nativeDuration}
          && forall t <- s.durationReads :: s.durationReads[t] == s.nativeDuration)
  }

  predicate StateFollows(s: State) {
    s.fields.status != PARSING ==>
      || Coming(s, StateChanged)
      || (s.fields.state in {UNKNOWN, s.nativeState}
          && forall t <- s.stateReads :: s.stateReads[t] == s.nativeState)
  }

  /** The step empties a cache between the two blocks of a getter that will fill it. */
  predicate CutsRead(s: State, step: Step) {
    var parsed := step.PostParse? || (step.Deliver? && s.passed == Some(ParsedChanged));
    || ((parsed || (step.Deliver? && s.passed == Some(DurationChanged))) && s.durationReads != map[])
    || ((parsed || (step.Deliver? && s.passed == Some(StateChanged))) && s.stateReads != map[])
  }

  ghost predicate NoReadCut(start: State, r: Basics.Run<Step>) {
    r.Then? ==> NoReadCut(start, r.before) && !CutsRead(After(start, r.before), r.last)
  }

  lemma ComingMoves(s: State, step: Step, e: Event)
    requires Inv(s) && Enabled(s, step) && (e.DurationChanged? || e.StateChanged?)
    requires Coming(s, e) && s.fields.status != PARSING
    ensures Coming(Apply(s, step), e) || (step.Deliver? && s.passed == Some(e))
  {
    if step.Filter? {
      RemovedEvent(s.pending, step.i, e);
    } else if step.NewDuration? || step.NewState? || step.NewMeta? || step.ParseEnds? {
      SentEvent(s.pending, Apply(s, step).pending[|s.pending|], e);
    }
  }

  /** The step that ends a parse leaves the caches empty, and no getter between its blocks. */
  lemma ParseEndsEmpty(s: State, step: Step)
    requires Enabled(s, step) && s.fields.status == PARSING && !CutsRead(s, step)
    ensures var s' := Apply(s, step);
            s'.fields.status == PARSING
            || (&& s'.fields.duration == UNKNOWN && s'.durationReads == map[]
                && s'.fields.state == UNKNOWN && s'.stateReads == map[])
  {
    StatusBits(s.fields, if s.passed.Some? then s.passed.value else DurationChanged);
  }

  lemma DurationComing(s: State, step: Step)
    requires Inv(s) && Enabled(s, step) && !CutsRead(s, step)
    requires s.fields.status != PARSING && Coming(s, DurationChanged)
    ensures DurationFollows(Apply(s, step))
  {
    ComingMoves(s, step, DurationChanged);
    if step.Deliver? {
      StatusBits(s.fields, s.passed.value);
    }
  }

  lemma DurationSettled(s: State, step: Step)
    requires Enabled(s, step) && s.fields.status in {INIT, PARSED} && DurationFollows(s) && !Coming(s, DurationChanged)
    ensures DurationFollows(Apply(s, step))
  {
    StatusBits(s.fields, if s.passed.Some? then s.passed.value else DurationChanged);
  }

  lemma DurationPreserved(s: State, step: Step)
    requires Inv(s) && Enabled(s, step) && DurationFollows(s) && !CutsRead(s, step)
    ensures DurationFollows(Apply(s, step))
  {
    if s.fields.status == PARSING {
      ParseEndsEmpty(s, step);
    } else if Coming(s, DurationChanged) {
      DurationComing(s, step);
    } else {
      DurationSettled(s, step);
    }
  }

  lemma StateComing(s: State, step: Step)
    requires Inv(s) && Enabled(s, step) && !CutsRead(s, step)
    requires s.fields.status != PARSING && Coming(s, StateChanged)
    ensures StateFollows(Apply(s, step))
  {
    ComingMoves(s, step, StateChanged);
    if step.Deliver? {
      StatusBits(s.fields, s.passed.value);
    }
  }

  lemma StateSettled(s: State, step: Step)
    requires Enabled(s, step) && s.fields.status in {INIT, PARSED} && StateFollows(s) && !Coming(s, StateChanged)
    ensures StateFollows(Apply(s, step))
  {
    StatusBits(s.fields, if s.passed.Some? then s.passed.value else DurationChanged);
  }

  lemma StatePreserved(s: State, step: Step)
    requires Inv(s) && Enabled(s, step) && StateFollows(s) && !CutsRead(s, step)
    ensures StateFollows(Apply(s, step))
  {
    if s.fields.status == PARSING {
      ParseEndsEmpty(s, step);
    } else if Coming(s, StateChanged) {
      StateComing(s, step);
    } else {
      StateSettled(s, step);
    }
  }

  lemma {:induction false} CachesFollow(start: State, r: Basics.Run<Step>)
    requires IsNew(start) && Legal(start, r) && NoReadCut(start, r)
    ensures DurationFollows(After(start, r)) && StateFollows(After(start, r))
  {
    if r.Start? {
    } else {
      CachesFollow(start, r.before);
      Reachable(start, r.before);
      DurationPreserved(After(start, r.before), r.last);
      StatePreserved(After(start, r.before), r.last);
    }
  }

  /** No parse in progress and no event on its way. */
  predicate AtRest(s: State) {
    s.fields.status != PARSING && s.pending == [] && s.passed.None?
  }

  predicate Coherent(s: State) {
    s.fields.duration in {UNKNOWN, s.nativeDuration} && s.fields.state in {UNKNOWN, s.nativeState}
  }

  /** What the getters under way are about to cache is current. */
  predicate ReadsCurrent(s: State) {
    && (forall t <- s.durationReads :: s.durationReads[t] in {UNKNOWN, s.nativeDuration})
    && (forall t <- s.stateReads :: s.stateReads[t] in {UNKNOWN, s.nativeState})
  }

  /**
    Whenever no parse is in progress and no event is on its way, the cached duration and
    state are empty or those of the native media, whatever events the parse suppressed,
    provided no cache was emptied in the middle of a getter.
   */
  lemma CachesCoherent(start: State, r: Basics.Run<Step>)
    requires IsNew(start) && Legal(start, r) && NoReadCut(start, r) && AtRest(After(start, r))
    ensures Coherent(After(start, r)) && ReadsCurrent(After(start, r))
  {
    CachesFollow(start, r);
  }

  /** With the flags down the only event pending goes through. */
  lemma GoesThrough(s: State, w: Thread)
    requires s.pending == [DurationChanged] && s.passed.None? && !Up(s.flags)
    ensures Enabled(s, Filter(0, w))
    ensures Apply(s, Filter(0, w)) == s.(pending := [], passed := Some(DurationChanged))
  {
    assert Filtered(s.flags, DurationChanged) == (s.flags, true);
  }

  lemma ReadBeforeChange() returns (r: Basics.Run<Step>)
    ensures Legal(Created(0, 0), r)
    ensures After(Created(0, 0), r)
         == Created(0, 0).(durationReads := map[1 := 0], nativeDuration := 7, passed := Some(DurationChanged))
  {
    var start := Created(0, 0);
    var r1 := Then(Start, ReadDuration(1));
    assert After(start, r1) == start.(durationReads := map[1 := 0]);
    var r2 := Then(r1, NewDuration(7));
    assert After(start, r2) == start.(durationReads := map[1 := 0], nativeDuration := 7, pending := [DurationChanged]);
    GoesThrough(After(start, r2), 1);
    r := Then(r2, Filter(0, 1));
  }

  /** Otherwise a getter caches the old duration for good. */
  lemma CutReadGoesStale() returns (r: Basics.Run<Step>)
    ensures var start, s := Created(0, 0), After(Created(0, 0), r);
            && IsNew(start) && Legal(start, r) && !NoReadCut(start, r)
            && s.fields.status == INIT && s.pending == [] && s.passed.None?
            && s.fields.duration == 0 && s.nativeDuration == 7
  {
    var start := Created(0, 0);
    var r3 := ReadBeforeChange();
    assert 1 in After(start, r3).durationReads;
    assert CutsRead(After(start, r3), Deliver);
    var r4 := Then(r3, Deliver);
    assert After(start, r4) == start.(durationReads := map[1 := 0], nativeDuration := 7, received := [DurationChanged]);
    r := Then(r4, CacheDuration(1));
    assert Legal(start, r4) && !NoReadCut(start, r4);
  }

  // ---------------------------------------------------------------------------
  // Metas
  // ---------------------------------------------------------------------------

  /** The cached meta, if there is one, is the native one. */
  predicate MetaCoherent(s: State, id: int) {
    id in s.fields.metas ==> id in s.nativeMetas && s.fields.metas[id] == s.nativeMetas[id]
  }

  /** So is the one that a getter is about to cache. */
  predicate MetaCurrent(s: State, read: MetaRead) {
    read.text.Some? ==> read.id in s.nativeMetas && read.text.value == s.nativeMetas[read.id]
  }

  predicate MetaFollows(s: State, id: int) {
    || Coming(s, MetaChanged(id))
    || (MetaCoherent(s, id) && forall t <- s.metaReads :: s.metaReads[t].id == id ==> MetaCurrent(s, s.metaReads[t]))
  }

  /** The step suppresses the change of the meta, or empties its cache in the middle of a getter of it. */
  ghost predicate LosesMeta(s: State, step: Step, id: int) {
    Enabled(s, step) &&
    if step.Filter? then s.pending[step.i] == MetaChanged(id) && !Filtered(s.flags, MetaChanged(id)).1
    else step.Deliver? && s.passed == Some(MetaChanged(id)) && exists t <- s.metaReads :: s.metaReads[t].id == id
  }

  ghost predicate NoMetaLost(start: State, r: Basics.Run<Step>, id: int) {
    r.Then? ==> NoMetaLost(start, r.before, id) && !LosesMeta(After(start, r.before), r.last, id)
  }

  lemma MetaFiltered(s: State, i: nat, w: Thread, id: int)
    requires Enabled(s, Filter(i, w)) && !LosesMeta(s, Filter(i, w), id) && MetaFollows(s, id)
    ensures MetaFollows(Apply(s, Filter(i, w)), id)
  {
    RemovedEvent(s.pending, i, MetaChanged(id));
  }

  /** What the native media sends is added behind what is pending. */
  lemma MetaSent(s: State, step: Step, id: int)
    requires step.NewDuration? || step.NewState? || step.NewMeta? || step.ParseEnds?
    requires Enabled(s, step) && MetaFollows(s, id)
    ensures MetaFollows(Apply(s, step), id)
  {
    var s' := Apply(s, step);
    SentEvent(s.pending, s'.pending[|s.pending|], MetaChanged(id));
    if !Coming(s', MetaChanged(id)) {
      assert s'.fields == s.fields && s'.metaReads == s.metaReads;
      assert id in s'.nativeMetas <==> id in s.nativeMetas;
    }
  }

  lemma MetaDelivered(s: State, id: int)
    requires 0 <= id < META_MAX && Enabled(s, Deliver) && !LosesMeta(s, Deliver, id) && MetaFollows(s, id)
    ensures MetaFollows(Apply(s, Deliver), id)
  {
    var s' := Apply(s, Deliver);
    assert s'.metaReads == s.metaReads && s'.nativeMetas == s.nativeMetas && s'.pending == s.pending;
    if s.passed == Some(MetaChanged(id)) {
      assert id !in s'.fields.metas;
    } else {
      assert id in s'.fields.metas ==> id in s.fields.metas && s'.fields.metas[id] == s.fields.metas[id];
    }
  }

  lemma MetaIsRead(s: State, step: Step, id: int)
    requires Enabled(s, step) && Reads(step) && MetaFollows(s, id)
    ensures MetaFollows(Apply(s, step), id)
  {
    ReadStep(s, step);
  }

  /** The steps of the threads that parse touch no meta. */
  lemma ParseTouchesNoMeta(s: State, step: Step)
    requires Enabled(s, step)
    requires step.Call? || step.SetFlag? || step.StartOk? || step.StartFail? || step.StartReturn?
          || step.Check? || step.WakeUp? || step.PostParse?
    ensures var s' := Apply(s, step);
            && s'.fields.metas == s.fields.metas && s'.nativeMetas == s.nativeMetas && s'.metaReads == s.metaReads
            && s'.pending == s.pending && s'.passed == s.passed
  {
  }

  lemma MetaStep(s: State, step: Step, id: int)
    requires 0 <= id < META_MAX && Enabled(s, step) && !LosesMeta(s, step, id) && MetaFollows(s, id)
    ensures MetaFollows(Apply(s, step), id)
  {
    if step.Filter? {
      MetaFiltered(s, step.i, step.woken, id);
    } else if step.Deliver? {
      MetaDelivered(s, id);
    } else if step.NewDuration? || step.NewState? || step.NewMeta? || step.ParseEnds? {
      MetaSent(s, step, id);
    } else if Reads(step) {
      MetaIsRead(s, step, id);
    } else {
      ParseTouchesNoMeta(s, step);
    }
  }

  /** As long as no change of a meta is lost, its cache is empty or coherent, or the change is on its way. */
  lemma {:induction false} MetaKeepsUp(start: State, r: Basics.Run<Step>, id: int)
    requires IsNew(start) && Legal(start, r) && 0 <= id < META_MAX && NoMetaLost(start, r, id)
    ensures MetaFollows(After(start, r), id)
  {
    match r
    case Start =>
    case Then(before, step) =>
      MetaKeepsUp(start, before, id);
      MetaStep(After(start, before), step, id);
  }

  ghost predicate CachesMeta(s: State, step: Step, id: int) {
    step.CacheMeta? && step.t in s.metaReads && s.metaReads[step.t].id == id
  }

  /** `later` goes on from `earlier`, and no getter of the meta completes. */
  ghost predicate Uncached(start: State, later: Basics.Run<Step>, earlier: Basics.Run<Step>, id: int)
    decreases later
  {
    || later == earlier
    || (later.Then? && !CachesMeta(After(start, later.before), later.last, id)
        && Uncached(start, later.before, earlier, id))
  }

  lemma {:induction false} UncachedExtends(start: State, later: Basics.Run<Step>, earlier: Basics.Run<Step>, id: int)
    requires Uncached(start, later, earlier, id)
    ensures Extends(later, earlier)
    decreases later
  {
    if later == earlier {
    } else {
      UncachedExtends(start, later.before, earlier, id);
    }
  }

  /** The change is still under way, or the cache is empty. */
  predicate Emptying(s: State, id: int) {
    id !in s.fields.metas || Coming(s, MetaChanged(id))
  }

  lemma FilterEmpties(s: State, i: nat, w: Thread, id: int)
    requires Enabled(s, Filter(i, w)) && !Up(s.flags) && id != META_ARTWORK_URL && Emptying(s, id)
    ensures Emptying(Apply(s, Filter(i, w)), id)
  {
    RemovedEvent(s.pending, i, MetaChanged(id));
    if s.pending[i] == MetaChanged(id) {
      assert Filtered(s.flags, MetaChanged(id)).1;
    }
  }

  lemma StepEmpties(s: State, step: Step, id: int)
    requires 0 <= id < META_MAX && id != META_ARTWORK_URL
    requires Enabled(s, step) && !CachesMeta(s, step, id) && !Up(s.flags) && Emptying(s, id)
    ensures Emptying(Apply(s, step), id)
  {
    if step.Filter? {
      FilterEmpties(s, step.i, step.woken, id);
    } else if step.NewDuration? || step.NewState? || step.NewMeta? || step.ParseEnds? {
      SentEvent(s.pending, Apply(s, step).pending[|s.pending|], MetaChanged(id));
    }
  }

  lemma OverIsDown(s: State, earlier: Phase)
    requires Inv(s) && Over(earlier) && Stage(earlier) <= Stage(s.phase)
    ensures !Up(s.flags)
  {
    UpIffStage(s);
  }

  /** Once its parsed event was handled, a media never has a flag up again. */
  lemma DownForEver(start: State, later: Basics.Run<Step>, earlier: Basics.Run<Step>)
    requires IsNew(start) && Legal(start, later) && Extends(later, earlier) && Over(After(start, earlier).phase)
    ensures !Up(After(start, later).flags)
  {
    StagesGrow(start, later, earlier);
    Reachable(start, later);
    OverIsDown(After(start, later), After(start, earlier).phase);
  }

  lemma {:induction false} KeepsEmptying(start: State, later: Basics.Run<Step>, earlier: Basics.Run<Step>, id: int)
    requires IsNew(start) && Legal(start, later) && Uncached(start, later, earlier, id)
    requires 0 <= id < META_MAX && id != META_ARTWORK_URL
    requires Over(After(start, earlier).phase) && Emptying(After(start, earlier), id)
    ensures Emptying(After(start, later), id)
  {
    if later == earlier {
    } else {
      KeepsEmptying(start, later.before, earlier, id);
      UncachedExtends(start, later.before, earlier, id);
      DownForEver(start, later.before, earlier);
      StepEmpties(After(start, later.before), later.last, id);
    }
  }

  lemma {:induction false} UncachedTransitive(
      start: State, a: Basics.Run<Step>, b: Basics.Run<Step>, c: Basics.Run<Step>, id: int)
    requires Uncached(start, a, b, id) && Uncached(start, b, c, id)
    ensures Uncached(start, a, c, id)
    decreases a
  {
    if a == b {
    } else {
      UncachedTransitive(start, a.before, b, c, id);
    }
  }

  /** The filter suppresses this event, whatever thread it would wake. */
  lemma Suppressed(s: State, i: nat, id: int)
    requires i < |s.pending| && s.pending[i] == MetaChanged(id) && s.passed.None?
    requires Up(s.flags) || id == META_ARTWORK_URL
    ensures Enabled(s, Filter(i, 0))
    ensures Apply(s, Filter(i, 0)) == s.(pending := s.pending[..i] + s.pending[i+1..])
  {
    assert Filtered(s.flags, s.pending[i]) == (s.flags, false);
  }

  /** All changes of the meta are suppressed, one by one. */
  lemma {:induction false} SuppressAll(start: State, r: Basics.Run<Step>, id: int) returns (later: Basics.Run<Step>)
    requires Legal(start, r) && After(start, r).passed.None? && (Up(After(start, r).flags) || id == META_ARTWORK_URL)
    ensures Legal(start, later) && Uncached(start, later, r, id)
    ensures After(start, later).fields == After(start, r).fields && !Coming(After(start, later), MetaChanged(id))
    decreases |After(start, r).pending|
  {
    var s := After(start, r);
    if MetaChanged(id) !in s.pending {
      later := r;
    } else {
      var i :| 0 <= i < |s.pending| && s.pending[i] == MetaChanged(id);
      Suppressed(s, i, id);
      var next := Then(r, Filter(i, 0));
      assert Uncached(start, next, r, id);
      later := SuppressAll(start, next, id);
      UncachedTransitive(start, later, next, r, id);
    }
  }

  lemma FreshClaims(s: State)
    requires Inv(s) && s.phase.Fresh?
    ensures var step := Step.Call(0, true);
            && Enabled(s, step) && Apply(s, step).phase == Taken(0, true) && At(Apply(s, step), 0) == Claiming(true)
            && Apply(s, step).passed == s.passed && Apply(s, step).fields.metas == s.fields.metas
  {
    StatusBits(s.fields, DurationChanged);
    assert !Busy(At(s, 0));
  }

  lemma TakenRaises(s: State, t: Thread)
    requires At(s, t).Claiming?
    ensures Enabled(s, SetFlag(t)) && Up(Apply(s, SetFlag(t)).flags)
    ensures Apply(s, SetFlag(t)).passed == s.passed && Apply(s, SetFlag(t)).fields == s.fields
  {
  }

  /** Before its parsed event was handled, a media can have a flag up, or be given one. */
  lemma FlagCanGoUp(start: State, r: Basics.Run<Step>, id: int) returns (later: Basics.Run<Step>)
    requires IsNew(start) && Legal(start, r) && !Over(After(start, r).phase) && After(start, r).passed.None?
    ensures Legal(start, later) && Uncached(start, later, r, id)
    ensures Up(After(start, later).flags) && After(start, later).passed.None?
    ensures After(start, later).fields.metas == After(start, r).fields.metas
  {
    Reachable(start, r);
    var claimed := r;
    if After(start, r).phase.Fresh? {
      FreshClaims(After(start, r));
      claimed := Then(r, Step.Call(0, true));
    }
    later := claimed;
    if After(start, claimed).phase.Taken? {
      var t := After(start, claimed).phase.who;
      TakenRaises(After(start, claimed), t);
      later := Then(claimed, SetFlag(t));
    }
  }

  /** What is past the filter is delivered, unless it is the change of this meta. */
  lemma PassedIsDelivered(start: State, r: Basics.Run<Step>, id: int) returns (later: Basics.Run<Step>)
    requires IsNew(start) && Legal(start, r) && id in After(start, r).fields.metas
    requires After(start, r).passed != Some(MetaChanged(id))
    ensures Legal(start, later) && Uncached(start, later, r, id) && After(start, later).passed.None?
    ensures id in After(start, later).fields.metas
    ensures Over(After(start, later).phase) <==> Over(After(start, r).phase)
  {
    var s := After(start, r);
    if s.passed.None? {
      later := r;
    } else {
      later := Then(r, Deliver);
      Reachable(start, r);
      PhaseMoves(s, Deliver);
    }
  }

  /** The change is lost, and the old value stays. */
  lemma ChangeIsLost(start: State, r: Basics.Run<Step>, id: int) returns (later: Basics.Run<Step>)
    requires IsNew(start) && Legal(start, r) && id in After(start, r).fields.metas
    requires After(start, r).passed != Some(MetaChanged(id))
    requires !Over(After(start, r).phase) || id == META_ARTWORK_URL
    ensures Legal(start, later) && Uncached(start, later, r, id)
    ensures id in After(start, later).fields.metas && !Coming(After(start, later), MetaChanged(id))
  {
    var delivered := PassedIsDelivered(start, r, id);
    var ready := delivered;
    if id != META_ARTWORK_URL {
      ready := FlagCanGoUp(start, delivered, id);
    }
    later := SuppressAll(start, ready, id);
    UncachedTransitive(start, ready, delivered, r, id);
    UncachedTransitive(start, later, ready, r, id);
  }

  /** However the run goes on, the cache of the meta is empty once no change of it is under way. */
  ghost predicate EmptiedByChange(start: State, r: Basics.Run<Step>, id: int) {
    forall later :: Uncached(start, later, r, id) && Legal(start, later) ==> Emptying(After(start, later), id)
  }

  /**
    The change of a cached meta, sent and not yet filtered, is certain to empty its cache exactly
    when the parsed event of the media was handled before, and the meta is not the artwork.
   */
  lemma MetaChangeEmptiesIff(start: State, r: Basics.Run<Step>, id: int)
    requires IsNew(start) && Legal(start, r) && 0 <= id < META_MAX && id in After(start, r).fields.metas
    requires MetaChanged(id) in After(start, r).pending && After(start, r).passed != Some(MetaChanged(id))
    ensures EmptiedByChange(start, r, id) <==> Over(After(start, r).phase) && id != META_ARTWORK_URL
  {
    if Over(After(start, r).phase) && id != META_ARTWORK_URL {
      forall later | Uncached(start, later, r, id) && Legal(start, later) ensures Emptying(After(start, later), id) {
        KeepsEmptying(start, later, r, id);
      }
    } else {
      var later := ChangeIsLost(start, r, id);
      assert !Emptying(After(start, later), id);
    }
  }

  lemma MetaIsCached(start: State, r: Basics.Run<Step>, id: int) returns (later: Basics.Run<Step>)
    requires Legal(start, r) && 0 <= id < META_MAX && id in After(start, r).nativeMetas
    requires After(start, r).metaReads == map[]
    ensures Legal(start, later)
    ensures var s := After(start, r);
            After(start, later) == s.(fields := s.fields.(metas := s.fields.metas[id := s.nativeMetas[id]]))
  {
    var s := After(start, r);
    var read := Then(r, ReadMeta(2, id));
    assert Legal(start, read);
    assert After(start, read) == s.(metaReads := map[2 := MetaRead(id, Some(s.nativeMetas[id]))]);
    later := Then(read, Step.CacheMeta(2));
    assert map[2 := MetaRead(id, Some(s.nativeMetas[id]))] - {2} == s.metaReads;
  }

  /** Thread 2 has cached an old meta, and its change is sent. */
  lemma MetaChangeSent(id: int) returns (start: State, r: Basics.Run<Step>)
    requires 0 <= id < META_MAX
    ensures IsNew(start) && Legal(start, r)
    ensures After(start, r) == start.(fields := NEW_MEDIA.(metas := map[id := "old"]),
                                      nativeMetas := map[id := "new"], pending := [MetaChanged(id)])
  {
    start := Created(0, 0).(nativeMetas := map[id := "old"]);
    var cached := MetaIsCached(start, Start, id);
    r := Then(cached, NewMeta(id, "new"));
    assert map[id := "old"][id := "new"] == map[id := "new"];
  }

  /** At rest, with an old meta cached. */
  predicate StaleMeta(s: State, id: int) {
    AtRest(s) && id in s.fields.metas && id in s.nativeMetas && s.fields.metas[id] != s.nativeMetas[id]
  }

  /** A run that ends at rest with an old artwork cached. */
  lemma StaleArtwork() returns (start: State, r: Basics.Run<Step>)
    ensures IsNew(start) && Legal(start, r) && StaleMeta(After(start, r), META_ARTWORK_URL)
  {
    var sent;
    start, sent := MetaChangeSent(META_ARTWORK_URL);
    Suppressed(After(start, sent), 0, META_ARTWORK_URL);
    r := Then(sent, Filter(0, 0));
  }

  /** The change is sent with the flags down, and filtered after a parse has begun. */
  lemma ChangeSuppressed(id: int) returns (start: State, r: Basics.Run<Step>)
    requires 0 <= id < META_MAX
    ensures IsNew(start) && Legal(start, r)
    ensures After(start, r) == start.(fields := NEW_MEDIA.(status := PARSING, metas := map[id := "old"]),
                                      nativeMetas := map[id := "new"], flags := Flags(true, false),
                                      places := map[1 := Starting(true)], phase := Flagged(1, true))
  {
    var sent;
    start, sent := MetaChangeSent(id);
    var s := After(start, sent);
    StatusBits(s.fields, DurationChanged);
    var called := Then(sent, Call(1, true));
    assert Legal(start, called) && After(start, called)
        == s.(fields := s.fields.(status := PARSING), places := map[1 := Claiming(true)], phase := Taken(1, true));
    var flagged := Then(called, SetFlag(1));
    var s2 := After(start, flagged);
    assert Legal(start, flagged) && s2.places == map[1 := Starting(true)];
    Suppressed(s2, 0, id);
    r := Then(flagged, Filter(0, 0));
  }

  lemma ParsedFiltered(s: State)
    requires s.places == map[1 := Started(true)] && s.pending == [ParsedChanged] && s.passed.None?
    requires s.flags == Flags(true, false)
    ensures Enabled(s, Filter(0, 1))
    ensures var s' := Apply(s, Filter(0, 1));
            && s'.places == s.places && s'.pending == [] && s'.passed.None? && s'.flags == Flags(false, false)
            && s'.fields == s.fields && s'.nativeMetas == s.nativeMetas
  {
    assert forall t: Thread :: !At(s, t).Sleeping?;
    assert Filtered(s.flags, ParsedChanged) == (Flags(false, false), false);
  }

  /** The start call of a synchronous parse returns, and then `parse` does; the metas stay. */
  lemma ParseReturns(start: State, r: Basics.Run<Step>) returns (end: Basics.Run<Step>)
    requires Legal(start, r)
    requires var s := After(start, r);
             && At(s, 1) == Started(true) && s.pending == [] && s.passed.None?
             && !s.flags.sync && s.fields.status == PARSING
    ensures Legal(start, end) && AtRest(After(start, end)) && After(start, end).fields.status == PARSED
    ensures After(start, end).fields.metas == After(start, r).fields.metas
    ensures After(start, end).nativeMetas == After(start, r).nativeMetas
  {
    var s := After(start, r);
    StatusBits(s.fields, DurationChanged);
    var returned := Then(r, StartReturn(1));
    assert After(start, returned) == s.(places := s.places[1 := Checking]);
    var checked := Then(returned, Check(1));
    assert After(start, checked) == s.(places := s.places[1 := Checking][1 := Ending]);
    end := Then(checked, Step.PostParse(1));
  }

  lemma ParseStarts(s: State)
    requires s.places == map[1 := Starting(true)] && s.running == 0
    ensures Enabled(s, StartOk(1))
    ensures Apply(s, StartOk(1)) == s.(places := map[1 := Started(true)], running := 1, starts := s.starts + 1,
                                       phase := Running(1, true))
  {
    assert s.places[1 := Started(true)] == map[1 := Started(true)];
  }

  lemma StartsAndEnds(start: State, r: Basics.Run<Step>) returns (end: Basics.Run<Step>)
    requires Legal(start, r) && After(start, r).places == map[1 := Starting(true)] && After(start, r).running == 0
    requires After(start, r).pending == []
    ensures Legal(start, end)
    ensures var s, s' := After(start, r), After(start, end);
            && s'.places == map[1 := Started(true)] && s'.pending == [ParsedChanged] && s'.passed == s.passed
            && s'.flags == s.flags && s'.fields == s.fields && s'.nativeMetas == s.nativeMetas
  {
    ParseStarts(After(start, r));
    var started := Then(r, StartOk(1));
    assert Legal(start, started);
    end := Then(started, ParseEnds);
  }

  /** A run with one whole parse that ends at rest with an old meta cached. */
  lemma StaleAfterParse(id: int) returns (start: State, r: Basics.Run<Step>)
    requires 0 <= id < META_MAX
    ensures IsNew(start) && Legal(start, r) && StaleMeta(After(start, r), id)
    ensures After(start, r).fields.status == PARSED
  {
    var suppressed;
    start, suppressed := ChangeSuppressed(id);
    var ended := StartsAndEnds(start, suppressed);
    ParsedFiltered(After(start, ended));
    r := ParseReturns(start, Then(ended, Filter(0, 1)));
  }

  // ---------------------------------------------------------------------------
  // Getters
  // ---------------------------------------------------------------------------

  predicate AllCoherent(s: State) {
    Coherent(s) && forall id <- s.fields.metas :: MetaCoherent(s, id)
  }

  predicate AllCurrent(s: State) {
    ReadsCurrent(s) && forall t <- s.metaReads :: MetaCurrent(s, s.metaReads[t])
  }

  /** `later` goes on from `earlier` with getters only. */
  predicate OnlyGetters(later: Basics.Run<Step>, earlier: Basics.Run<Step>)
    decreases later
  {
    later == earlier || (later.Then? && Reads(later.last) && OnlyGetters(later.before, earlier))
  }

  lemma GetterStep(s: State, step: Step)
    requires Reads(step) && Enabled(s, step) && AllCoherent(s) && AllCurrent(s)
    ensures AllCoherent(Apply(s, step)) && AllCurrent(Apply(s, step))
  {
  }

  lemma {:induction false} GettersKeep(start: State, later: Basics.Run<Step>, earlier: Basics.Run<Step>)
    requires Legal(start, later) && OnlyGetters(later, earlier)
    requires AllCoherent(After(start, earlier)) && AllCurrent(After(start, earlier))
    ensures AllCoherent(After(start, later)) && AllCurrent(After(start, later))
  {
    if later == earlier {
    } else {
      GettersKeep(start, later.before, earlier);
      GetterStep(After(start, later.before), later.last);
    }
  }

  lemma OldDurationIsCached(s: State, t: Thread)
    requires t in s.durationReads && s.durationReads[t] !in {UNKNOWN, s.nativeDuration}
    ensures Enabled(s, Step.CacheDuration(t)) && !Coherent(Apply(s, Step.CacheDuration(t)))
  {
  }

  lemma OldStateIsCached(s: State, t: Thread)
    requires t in s.stateReads && s.stateReads[t] !in {UNKNOWN, s.nativeState}
    ensures Enabled(s, Step.CacheState(t)) && !Coherent(Apply(s, Step.CacheState(t)))
  {
  }

  lemma OldMetaIsCached(s: State, t: Thread)
    requires t in s.metaReads && !MetaCurrent(s, s.metaReads[t])
    ensures var s' := Apply(s, Step.CacheMeta(t));
            && Enabled(s, Step.CacheMeta(t))
            && s.metaReads[t].id in s'.fields.metas && !MetaCoherent(s', s.metaReads[t].id)
  {
  }

  /** A read that is no longer current leaves its value in the cache. */
  lemma OldReadIsCached(start: State, r: Basics.Run<Step>) returns (later: Basics.Run<Step>)
    requires Legal(start, r) && !AllCurrent(After(start, r))
    ensures Legal(start, later) && OnlyGetters(later, r) && !AllCoherent(After(start, later))
    ensures AtRest(After(start, r)) ==> AtRest(After(start, later))
  {
    var s := After(start, r);
    var step;
    if t :| t in s.durationReads && s.durationReads[t] !in {UNKNOWN, s.nativeDuration} {
      OldDurationIsCached(s, t);
      step := Step.CacheDuration(t);
    } else if u :| u in s.stateReads && s.stateReads[u] !in {UNKNOWN, s.nativeState} {
      OldStateIsCached(s, u);
      step := Step.CacheState(u);
    } else {
      var v :| v in s.metaReads && !MetaCurrent(s, s.metaReads[v]);
      OldMetaIsCached(s, v);
      step := Step.CacheMeta(v);
    }
    ReadStep(s, step);
    later := Then(r, step);
  }

  ghost predicate CoherentFrom(start: State, r: Basics.Run<Step>) {
    forall later :: OnlyGetters(later, r) && Legal(start, later) ==> AllCoherent(After(start, later))
  }

  /** The caches stay coherent whatever getters do exactly when they are and the reads under way are current. */
  lemma CoherentIff(start: State, r: Basics.Run<Step>)
    requires Legal(start, r)
    ensures CoherentFrom(start, r) <==> AllCoherent(After(start, r)) && AllCurrent(After(start, r))
  {
    if AllCoherent(After(start, r)) && AllCurrent(After(start, r)) {
      forall later | OnlyGetters(later, r) && Legal(start, later) ensures AllCoherent(After(start, later)) {
        GettersKeep(start, later, r);
      }
    } else if !AllCurrent(After(start, r)) {
      var later := OldReadIsCached(start, r);
    } else {
      assert OnlyGetters(r, r);
    }
  }
}
