/**
  Parsing a media: the status bits of `Media.java` above the flags and the condition
  variable of `libvlcjni-media.c`, which also decide what events reach Java.
 */
module MediaParse {
  import opened Basics

  type Thread = nat

  const INIT: bv32 := 0x00
  const PARSING: bv32 := 0x01
  const PARSED: bv32 := 0x02

  /** The empty value of the caches. */
  const UNKNOWN := -1

  const META_MAX := 25
  const META_ARTWORK_URL := 15

  datatype Event = MetaChanged(id: int) | DurationChanged | StateChanged | ParsedChanged

  // ---------------------------------------------------------------------------
  // Media.java
  // ---------------------------------------------------------------------------

  /** The status and the caches; `tracks` stands for the array of tracks. */
  datatype Fields = Fields(
    status: bv32,
    duration: int,
    state: int,
    kind: int,
    tracks: Option<nat>,
    metas: map<int, string>
  )

  /** What the native media answers for a meta, if it has it. */
  datatype MetaRead = MetaRead(id: int, text: Option<string>)

  /** Java's null is the absence of a key. */
  function Remembered(metas: map<int, string>, read: MetaRead): map<int, string> {
    if read.text.Some? then metas[read.id := read.text.value] else metas - {read.id}
  }

  const NEW_MEDIA := Fields(INIT, UNKNOWN, UNKNOWN, UNKNOWN, None, map[])

  /** The synchronized block of `parse` and `parseAsync`; the flag says whether to go on. */
  function Claimed(f: Fields): (Fields, bool) {
    if f.status & (PARSED | PARSING) == 0 then (f.(status := f.status | PARSING), true) else (f, false)
  }

  function AfterParse(f: Fields): Fields {
    if f.status & PARSED != 0 then f
    else f.(status := (f.status & !PARSING) | PARSED,
            duration := UNKNOWN, state := UNKNOWN, kind := UNKNOWN, tracks := None)
  }

  function Received(f: Fields, e: Event): Fields {
    match e
    case MetaChanged(id) => if 0 <= id < META_MAX then f.(metas := f.metas - {id}) else f
    case DurationChanged => f.(duration := UNKNOWN)
    case ParsedChanged => AfterParse(f)
    case StateChanged => f.(state := UNKNOWN)
  }

  class Media {
    var mParseStatus: bv32
    var mDuration: int
    var mState: int
    var mType: int
    var mNativeTracks: Option<nat>
    var mNativeMetas: map<int, string>

    function View(): Fields
      reads this
    {
      Fields(mParseStatus, mDuration, mState, mType, mNativeTracks, mNativeMetas)
    }

    constructor ()
      ensures View() == NEW_MEDIA
    {
      mParseStatus, mDuration, mState, mType := INIT, UNKNOWN, UNKNOWN, UNKNOWN;
      mNativeTracks, mNativeMetas := None, map[];
    }

    method BeginParse() returns (parse: bool)
      modifies this
      ensures (View(), parse) == Claimed(old(View()))
      ensures old(mParseStatus) == INIT ==> parse && mParseStatus == PARSING
      ensures old(mParseStatus) == PARSING || old(mParseStatus) == PARSED ==>
                !parse && mParseStatus == old(mParseStatus)
    {
      parse := false;
      if mParseStatus & (PARSED | PARSING) == 0 {
        mParseStatus := mParseStatus | PARSING;
        parse := true;
      }
    }

    method PostParse()
      modifies this
      ensures View() == AfterParse(old(View()))
      ensures old(mParseStatus) == PARSED ==> unchanged(this)
      ensures old(mParseStatus) == PARSING ==>
                && mParseStatus == PARSED && mDuration == mState == mType == UNKNOWN && mNativeTracks.None?
                && mNativeMetas == old(mNativeMetas)
    {
      if mParseStatus & PARSED != 0 {
        return;
      }
      mParseStatus := mParseStatus & !PARSING;
      mParseStatus := mParseStatus | PARSED;
      mNativeTracks := None;
      mDuration := UNKNOWN;
      mState := UNKNOWN;
      mType := UNKNOWN;
    }

    method OnEventNative(e: Event)
      modifies this
      ensures View() == Received(old(View()), e)
      ensures e.DurationChanged? ==> mDuration == UNKNOWN && mState == old(mState)
      ensures e.StateChanged? ==> mState == UNKNOWN && mDuration == old(mDuration)
      ensures e.MetaChanged? ==> mNativeMetas == if 0 <= e.id < 25 then old(mNativeMetas) - {e.id} else old(mNativeMetas)
      ensures !e.MetaChanged? ==> mNativeMetas == old(mNativeMetas)
      ensures !e.ParsedChanged? ==> mParseStatus == old(mParseStatus)
    {
      match e {
        case MetaChanged(id) =>
          if 0 <= id < META_MAX {
            mNativeMetas := mNativeMetas - {id};
          }
        case DurationChanged => mDuration := UNKNOWN;
        case ParsedChanged => PostParse();
        case StateChanged => mState := UNKNOWN;
      }
    }

    /** The first block of `getDuration`; None tells to ask the native media. */
    method CachedDuration(released: bool) returns (duration: Option<int>)
      ensures duration == if mDuration != UNKNOWN then Some(mDuration) else if released then Some(0) else None
    {
      if mDuration != UNKNOWN {
        return Some(mDuration);
      }
      duration := if released then Some(0) else None;
    }

    /** Its second block, with what the native media answered meanwhile. */
    method CacheDuration(native: int) returns (duration: int)
      modifies this`mDuration
      ensures duration == native && View() == old(View()).(duration := native)
    {
      mDuration := native;
      duration := mDuration;
    }

    /** The first block of `getMeta`; None tells to ask the native media. */
    method CachedMeta(id: int, released: bool) returns (text: Option<Option<string>>)
      ensures text.None? <==> 0 <= id < META_MAX && id !in mNativeMetas && !released
      ensures text.Some? && text.value.Some? <==> 0 <= id < META_MAX && id in mNativeMetas
      ensures text.Some? && text.value.Some? ==> text.value.value == mNativeMetas[id]
    {
      if id < 0 || id >= META_MAX {
        return Some(None);
      }
      if id in mNativeMetas {
        return Some(Some(mNativeMetas[id]));
      }
      text := if released then Some(None) else None;
    }

    /** Its second block. */
    method CacheMeta(read: MetaRead) returns (text: Option<string>)
      modifies this`mNativeMetas
      ensures text == read.text && View() == old(View()).(metas := Remembered(old(mNativeMetas), read))
      ensures read.text.Some? ==> mNativeMetas == old(mNativeMetas)[read.id := read.text.value]
      ensures read.text.None? ==> mNativeMetas == old(mNativeMetas) - {read.id}
    {
      mNativeMetas := if read.text.Some? then mNativeMetas[read.id := read.text.value] else mNativeMetas - {read.id};
      text := read.text;
    }

    /** An uninterrupted call; `native` is what the native media answers if it is asked. */
    method GetDuration(released: bool, native: int) returns (duration: int)
      modifies this`mDuration
      ensures duration == if old(mDuration) != UNKNOWN then old(mDuration) else if released then 0 else native
      ensures View() == old(View()).(duration := if released then old(mDuration) else duration)
    {
      var cached := CachedDuration(released);
      if cached.Some? {
        return cached.value;
      }
      duration := CacheDuration(native);
    }
  }

  // ---------------------------------------------------------------------------
  // libvlcjni-media.c
  // ---------------------------------------------------------------------------

  datatype Flags = Flags(sync: bool, async: bool)

  predicate Up(f: Flags) { f.sync || f.async }

  /** `Media_event_cb`: the flags it leaves and whether the event goes on to Java. */
  function Filtered(f: Flags, e: Event): (Flags, bool) {
    if e.ParsedChanged? then (Flags(false, false), !f.sync)
    else (f, !Up(f) && e != MetaChanged(META_ARTWORK_URL))
  }

  class MediaSys {
    var b_parsing_sync: bool
    var b_parsing_async: bool

    function View(): Flags
      reads this
    {
      Flags(b_parsing_sync, b_parsing_async)
    }

    method EventCb(e: Event) returns (dispatch: bool, signalled: bool)
      modifies this
      ensures (View(), dispatch) == Filtered(old(View()), e)
      ensures signalled <==> e.ParsedChanged?
      ensures e.ParsedChanged? ==> !b_parsing_sync && !b_parsing_async && (dispatch <==> !old(b_parsing_sync))
      ensures !e.ParsedChanged? ==>
                && b_parsing_sync == old(b_parsing_sync) && b_parsing_async == old(b_parsing_async)
                && (dispatch <==> !b_parsing_sync && !b_parsing_async && e != MetaChanged(15))
    {
      dispatch, signalled := true, false;
      if e.ParsedChanged? {
        if b_parsing_sync {
          dispatch := false;
        }
        b_parsing_sync := false;
        b_parsing_async := false;
        signalled := true;
      }
      if b_parsing_sync || b_parsing_async {
        dispatch := false;
      }
      if !dispatch {
        return;
      }
      if e.MetaChanged? && e.id == META_ARTWORK_URL {
        dispatch := false;
      }
    }
  }

  // ---------------------------------------------------------------------------
  // The protocol
  // ---------------------------------------------------------------------------

  /** Where a thread is in `parse` (sync) or `parseAsync`. */
  datatype Place =
    | Idle
    | Claiming(sync: bool)      // claimed the parse, native flag not set yet
    | Starting(sync: bool)      // flag set, start not attempted yet
    | Started(sync: bool)       // start succeeded, its call has not returned
    | Checking                  // about to test the flag, with the native lock
    | Sleeping                  // in pthread_cond_wait
    | Ending                    // nativeParse returned true, postParse still to run
    | Returned(result: bool)

  /** How far the one parse of this media has got; recorded for the proofs, read by no step. */
  datatype Phase =
    | Fresh
    | Taken(who: Thread, sync: bool)
    | Flagged(who: Thread, sync: bool)
    | Running(who: Thread, sync: bool)
    | Announced(who: Thread, sync: bool)   // its ParsedChanged went through the filter
    | Complete(who: Thread, sync: bool)
    | Failed(who: Thread, sync: bool)

  datatype State = State(
    fields: Fields,
    flags: Flags,
    places: map<Thread, Place>,
    pending: seq<Event>,       // sent by libvlc, not yet in the callback
    passed: Option<Event>,     // let through by the filter, not yet in Java
    running: nat,              // native parses that have not sent ParsedChanged
    starts: nat,               // native parses ever started
    nativeDuration: int,
    nativeState: int,
    nativeMetas: map<int, string>,
    received: seq<Event>,      // what reached Java
    durationReads: map<Thread, int>,   // native durations read by getters and not yet cached
    stateReads: map<Thread, int>,
    metaReads: map<Thread, MetaRead>,
    phase: Phase
  )

  datatype Step =
    | Call(t: Thread, sync: bool)
    | SetFlag(t: Thread)
    | StartOk(t: Thread)
    | StartFail(t: Thread)
    | StartReturn(t: Thread)
    | Check(t: Thread)
    | WakeUp(t: Thread)
    | PostParse(t: Thread)
    | NewDuration(value: int)
    | NewState(value: int)
    | NewMeta(id: int, text: string)
    | ParseEnds
    | Filter(i: nat, woken: Thread)
    | Deliver
    | ReadDuration(t: Thread)   // a getter that found no cached duration, however long ago, asks the native media
    | CacheDuration(t: Thread)  // its second synchronized block
    | ReadState(t: Thread)
    | CacheState(t: Thread)
    | ReadMeta(t: Thread, id: int)
    | CacheMeta(t: Thread)

  function At(s: State, t: Thread): Place {
    if t in s.places then s.places[t] else Idle
  }

  function Created(duration: int, state: int): State {
    State(NEW_MEDIA, Flags(false, false), map[], [], None, 0, 0,
          duration, state, map[], [], map[], map[], map[], Fresh)
  }

  /** `pthread_cond_signal` wakes a sleeper when there is one; `ParsedChanged` needs a started parse. */
  ghost predicate Enabled(s: State, step: Step) {
    match step
    case Call(t, _) => At(s, t).Idle? || At(s, t).Returned?
    case SetFlag(t) => At(s, t).Claiming?
    case StartOk(t) => At(s, t).Starting?
    case StartFail(t) => At(s, t).Starting?
    case StartReturn(t) => At(s, t).Started?
    case Check(t) => At(s, t).Checking?
    case WakeUp(t) => At(s, t).Sleeping?
    case PostParse(t) => At(s, t).Ending?
    case ParseEnds => s.running > 0
    case Filter(i, w) =>
      && i < |s.pending| && s.passed.None?
      && (s.pending[i].ParsedChanged? ==>
            At(s, w).Sleeping? || forall t: Thread :: !At(s, t).Sleeping?)
    case Deliver => s.passed.Some?
    case CacheDuration(t) => t in s.durationReads
    case CacheState(t) => t in s.stateReads
    case ReadMeta(_, id) => 0 <= id < META_MAX
    case CacheMeta(t) => t in s.metaReads
    case _ => true
  }

  function Move(s: State, t: Thread, p: Place): State {
    s.(places := s.places[t := p])
  }

  function Send(s: State, e: Event): State {
    s.(pending := s.pending + [e])
  }

  function ThroughFilter(s: State, i: nat, woken: Thread): State
    requires i < |s.pending|
  {
    var e := s.pending[i];
    var (flags, dispatch) := Filtered(s.flags, e);
    var out := s.(pending := s.pending[..i] + s.pending[i+1..], flags := flags,
                  passed := if dispatch then Some(e) else None);
    if !e.ParsedChanged? then out
    else
      var awake := if At(s, woken).Sleeping? then Move(out, woken, Checking) else out;
      awake.(phase := if s.phase.Running? then Announced(s.phase.who, s.phase.sync) else s.phase)
  }

  function Completed(p: Phase): Phase {
    if p.Announced? then Complete(p.who, p.sync) else p
  }

  ghost function Apply(s: State, step: Step): State {
    if !Enabled(s, step) then s else
    match step
    case Call(t, sync) =>
      var (fields, parse) := Claimed(s.fields);
      if parse
      then Move(s, t, Claiming(sync)).(fields := fields, phase := Taken(t, sync))
      else Move(s, t, Returned(false))
    case SetFlag(t) =>
      var sync := At(s, t).sync;
      Move(s, t, Starting(sync)).(
        flags := if sync then s.flags.(sync := true) else s.flags.(async := true),
        phase := Flagged(t, sync))
    case StartOk(t) =>
      var sync := At(s, t).sync;
      Move(s, t, Started(sync)).(running := s.running + 1, starts := s.starts + 1, phase := Running(t, sync))
    case StartFail(t) => Move(s, t, Returned(false)).(phase := Failed(t, At(s, t).sync))
    case StartReturn(t) => Move(s, t, if At(s, t).sync then Checking else Returned(true))
    case Check(t) => Move(s, t, if s.flags.sync then Sleeping else Ending)
    case WakeUp(t) => Move(s, t, Checking)
    case PostParse(t) =>
      Move(s, t, Returned(true)).(fields := AfterParse(s.fields), phase := Completed(s.phase))
    case NewDuration(v) => Send(s.(nativeDuration := v), DurationChanged)
    case NewState(v) => Send(s.(nativeState := v), StateChanged)
    case NewMeta(id, text) => Send(s.(nativeMetas := s.nativeMetas[id := text]), MetaChanged(id))
    case ParseEnds => Send(s.(running := s.running - 1), ParsedChanged)
    case Filter(i, w) => ThroughFilter(s, i, w)
    case Deliver =>
      s.(fields := Received(s.fields, s.passed.value), passed := None,
         received := s.received + [s.passed.value],
         phase := if s.passed.value.ParsedChanged? then Completed(s.phase) else s.phase)
    case ReadDuration(t) => s.(durationReads := s.durationReads[t := s.nativeDuration])
    case CacheDuration(t) =>
      s.(fields := s.fields.(duration := s.durationReads[t]), durationReads := s.durationReads - {t})
    case ReadState(t) => s.(stateReads := s.stateReads[t := s.nativeState])
    case CacheState(t) => s.(fields := s.fields.(state := s.stateReads[t]), stateReads := s.stateReads - {t})
    case ReadMeta(t, id) =>
      s.(metaReads := s.metaReads[t := MetaRead(id, if id in s.nativeMetas then Some(s.nativeMetas[id]) else None)])
    case CacheMeta(t) =>
      s.(fields := s.fields.(metas := Remembered(s.fields.metas, s.metaReads[t])), metaReads := s.metaReads - {t})
  }

  ghost function After(start: State, r: Basics.Run<Step>): State {
    match r
    case Start => start
    case Then(before, step) => Apply(After(start, before), step)
  }

  ghost predicate Legal(start: State, r: Basics.Run<Step>) {
    r.Then? ==> Legal(start, r.before) && Enabled(After(start, r.before), r.last)
  }

  ghost predicate IsNew(s: State) {
    s == Created(s.nativeDuration, s.nativeState).(nativeMetas := s.nativeMetas)
  }

  // ---------------------------------------------------------------------------
  // Invariant
  // ---------------------------------------------------------------------------

  /** A place past the claim; only the claiming thread is ever at one. */
  predicate Busy(p: Place) {
    !p.Idle? && !p.Returned?
  }

  /** `ParsedChanged` events sent and not yet filtered. */
  function Announcements(events: seq<Event>): nat {
    multiset(events)[ParsedChanged]
  }

  predicate FlagsOf(f: Flags, sync: bool) {
    f == Flags(sync, !sync)
  }

  /** What each phase says of the status, the flags, the native parse and the claiming thread. */
  ghost predicate PhaseHolds(s: State) {
    var down := !Up(s.flags);
    var outstanding := s.running + Announcements(s.pending);
    var announcing := s.passed == Some(ParsedChanged);
    match s.phase
    case Fresh => s.fields.status == INIT && down && s.starts == 0 && outstanding == 0 && !announcing
    case Taken(t, sync) =>
      s.fields.status == PARSING && down && s.starts == 0 && outstanding == 0 && !announcing && At(s, t) == Claiming(sync)
    case Flagged(t, sync) =>
      s.fields.status == PARSING && FlagsOf(s.flags, sync) && s.starts == 0 && outstanding == 0 && !announcing
      && At(s, t) == Starting(sync)
    case Running(t, sync) =>
      s.fields.status == PARSING && FlagsOf(s.flags, sync) && s.starts == 1 && outstanding == 1 && !announcing
      && (if sync then At(s, t) == Started(true) || At(s, t).Checking? || At(s, t).Sleeping?
          else At(s, t) == Started(false) || !Busy(At(s, t)))
    case Announced(t, sync) =>
      s.fields.status == PARSING && down && s.starts == 1 && outstanding == 0 && (announcing <==> !sync)
      && (if sync then At(s, t) == Started(true) || At(s, t).Checking? || At(s, t).Ending?
          else At(s, t) == Started(false) || !Busy(At(s, t)))
    case Complete(t, sync) =>
      s.fields.status == PARSED && down && s.starts == 1 && outstanding == 0 && !announcing
      && (!Busy(At(s, t)) || (!sync && At(s, t) == Started(false)))
    case Failed(t, sync) =>
      s.fields.status == PARSING && FlagsOf(s.flags, sync) && s.starts == 0 && outstanding == 0 && !announcing
      && !Busy(At(s, t))
  }

  ghost predicate OneClaimant(s: State) {
    forall t: Thread | Busy(At(s, t)) :: !s.phase.Fresh? && t == s.phase.who
  }

  ghost predicate Inv(s: State) {
    PhaseHolds(s) && OneClaimant(s)
  }

  lemma StatusBits(f: Fields, e: Event)
    ensures f.status == INIT ==> Claimed(f) == (f.(status := PARSING), true)
    ensures f.status == PARSING || f.status == PARSED ==> Claimed(f) == (f, false)
    ensures f.status == PARSING ==>
              AfterParse(f) == f.(status := PARSED, duration := UNKNOWN, state := UNKNOWN, kind := UNKNOWN, tracks := None)
    ensures !e.ParsedChanged? ==> Received(f, e).status == f.status
  {
  }

  /** Where events wait changes nothing else. */
  lemma RemovedEvent(events: seq<Event>, i: nat, e: Event)
    requires i < |events|
    ensures var rest := events[..i] + events[i+1..];
            && Announcements(events) == Announcements(rest) + (if events[i].ParsedChanged? then 1 else 0)
            && (e in events <==> e == events[i] || e in rest)
  {
    var rest := events[..i] + events[i+1..];
    assert events == events[..i] + [events[i]] + events[i+1..];
    assert multiset(events) == multiset(rest) + multiset{events[i]};
    assert e in multiset(events) <==> e == events[i] || e in multiset(rest);
  }

  lemma SentEvent(events: seq<Event>, sent: Event, e: Event)
    ensures Announcements(events + [sent]) == Announcements(events) + (if sent.ParsedChanged? then 1 else 0)
    ensures e in events + [sent] <==> e == sent || e in events
  {
  }

  lemma ThreadStepPreserves(s: State, step: Step)
    requires Inv(s) && Enabled(s, step)
    requires step.Call? || step.SetFlag? || step.StartOk? || step.StartFail? || step.StartReturn?
          || step.Check? || step.WakeUp? || step.PostParse?
    ensures Inv(Apply(s, step))
  {
    StatusBits(s.fields, DurationChanged);
    var s' := Apply(s, step);
    assert Busy(At(s, step.t)) || step.Call?;
    forall t: Thread | Busy(At(s', t)) ensures !s'.phase.Fresh? && t == s'.phase.who {
      assert Busy(At(s, t)) || t == step.t;
    }
  }

  lemma SendPreserves(s: State, step: Step)
    requires Inv(s) && Enabled(s, step)
    requires step.NewDuration? || step.NewState? || step.NewMeta? || step.ParseEnds?
    ensures Inv(Apply(s, step))
  {
    var s' := Apply(s, step);
    SentEvent(s.pending, s'.pending[|s.pending|], ParsedChanged);
    forall t: Thread | Busy(At(s', t)) ensures !s'.phase.Fresh? && t == s'.phase.who {
      assert Busy(At(s, t));
    }
  }

  lemma FilterKeepsClaimant(s: State, i: nat, w: Thread)
    requires Inv(s) && Enabled(s, Filter(i, w))
    ensures OneClaimant(Apply(s, Filter(i, w)))
  {
    var s' := Apply(s, Filter(i, w));
    assert s.phase.Fresh? <==> s'.phase.Fresh?;
    forall t: Thread | Busy(At(s', t)) ensures !s'.phase.Fresh? && t == s'.phase.who {
      assert Busy(At(s, t));
    }
  }

  lemma FilterKeepsPhase(s: State, i: nat, w: Thread)
    requires Inv(s) && Enabled(s, Filter(i, w)) && !s.pending[i].ParsedChanged?
    ensures PhaseHolds(Apply(s, Filter(i, w)))
  {
    RemovedEvent(s.pending, i, ParsedChanged);
    assert Filtered(s.flags, s.pending[i]).0 == s.flags;
  }

  lemma ParsedChangesPhase(s: State, i: nat, w: Thread)
    requires Inv(s) && Enabled(s, Filter(i, w)) && s.pending[i].ParsedChanged?
    ensures PhaseHolds(Apply(s, Filter(i, w)))
  {
    RemovedEvent(s.pending, i, ParsedChanged);
    assert s.phase.Running?;
  }

  lemma FilterPreserves(s: State, i: nat, w: Thread)
    requires Inv(s) && Enabled(s, Filter(i, w))
    ensures Inv(Apply(s, Filter(i, w)))
  {
    FilterKeepsClaimant(s, i, w);
    if s.pending[i].ParsedChanged? {
      ParsedChangesPhase(s, i, w);
    } else {
      FilterKeepsPhase(s, i, w);
    }
  }

  lemma DeliverPreserves(s: State)
    requires Inv(s) && Enabled(s, Deliver)
    ensures Inv(Apply(s, Deliver))
  {
    StatusBits(s.fields, s.passed.value);
    var s' := Apply(s, Deliver);
    forall t: Thread | Busy(At(s', t)) ensures !s'.phase.Fresh? && t == s'.phase.who {
      assert Busy(At(s, t));
    }
  }

  predicate Reads(step: Step) {
    || step.ReadDuration? || step.CacheDuration? || step.ReadState? || step.CacheState?
    || step.ReadMeta? || step.CacheMeta?
  }

  /** Getters change the caches and nothing else. */
  lemma ReadStep(s: State, step: Step)
    requires Enabled(s, step) && Reads(step)
    ensures var s' := Apply(s, step);
            && s'.fields.status == s.fields.status && s'.flags == s.flags && s'.places == s.places
            && s'.pending == s.pending && s'.passed == s.passed && s'.running == s.running && s'.starts == s.starts
            && s'.phase == s.phase && s'.nativeDuration == s.nativeDuration && s'.nativeState == s.nativeState
            && s'.received == s.received
  {
  }

  lemma ReadPreserves(s: State, step: Step)
    requires Inv(s) && Enabled(s, step) && Reads(step)
    ensures Inv(Apply(s, step))
  {
    ReadStep(s, step);
    var s' := Apply(s, step);
    forall t: Thread | Busy(At(s', t)) ensures !s'.phase.Fresh? && t == s'.phase.who {
      assert Busy(At(s, t));
    }
  }

  lemma {:induction false} Reachable(start: State, r: Basics.Run<Step>)
    requires IsNew(start) && Legal(start, r)
    ensures Inv(After(start, r))
  {
    match r
    case Start =>
    case Then(before, step) =>
      var s := After(start, before);
      Reachable(start, before);
      if step.Filter? {
        FilterPreserves(s, step.i, step.woken);
      } else if step.Deliver? {
        DeliverPreserves(s);
      } else if Reads(step) {
        ReadPreserves(s, step);
      } else if step.NewDuration? || step.NewState? || step.NewMeta? || step.ParseEnds? {
        SendPreserves(s, step);
      } else {
        ThreadStepPreserves(s, step);
      }
  }

  // ---------------------------------------------------------------------------
  // What every run keeps
  // ---------------------------------------------------------------------------

  /** However many threads call `parse` and `parseAsync`, one native parse is started at most. */
  lemma OneParse(start: State, r: Basics.Run<Step>, t: Thread, u: Thread)
    requires IsNew(start) && Legal(start, r)
    ensures var s := After(start, r);
            && s.starts <= 1
            && !(s.flags.sync && s.flags.async)
            && s.fields.status in {INIT, PARSING, PARSED}
            && (Busy(At(s, t)) && Busy(At(s, u)) ==> t == u)
  {
    Reachable(start, r);
  }

  ghost predicate FiltersParsed(s: State, step: Step) {
    Enabled(s, step) && step.Filter? && s.pending[step.i].ParsedChanged?
  }

  /** `ParsedChanged` events that went through the filter. */
  ghost function Handled(start: State, r: Basics.Run<Step>): nat {
    if r.Start? then 0 else
    var s := After(start, r.before);
    Handled(start, r.before)
    + if FiltersParsed(s, r.last) then 1 else 0
  }

  predicate Over(p: Phase) {
    p.Announced? || p.Complete?
  }

  /** The step takes the parse from one phase to the next. */
  ghost predicate Moves(s: State, step: Step, to: Phase) {
    match s.phase
    case Fresh => step.Call? && to.Taken?
    case Taken(_, _) => step.SetFlag? && to.Flagged?
    case Flagged(_, _) => (step.StartOk? && to.Running?) || (step.StartFail? && to.Failed?)
    case Running(_, sync) => FiltersParsed(s, step) && to.Announced? && to.sync == sync
    case Announced(_, sync) => (step.PostParse? || step.Deliver?) && to.Complete? && to.sync == sync
    case _ => false
  }

  lemma FilterMoves(s: State, step: Step)
    requires Inv(s) && Enabled(s, step) && step.Filter?
    ensures if FiltersParsed(s, step) then Moves(s, step, Apply(s, step).phase) else Apply(s, step).phase == s.phase
  {
    RemovedEvent(s.pending, step.i, ParsedChanged);
  }

  /** Only the steps of the parse change its phase, one phase at a time. */
  lemma StepMoves(s: State, step: Step)
    requires Inv(s) && Enabled(s, step)
    ensures Apply(s, step).phase == s.phase || Moves(s, step, Apply(s, step).phase)
    ensures FiltersParsed(s, step) ==> s.phase.Running? && Apply(s, step).phase.Announced?
    ensures step.StartFail? ==> s.phase.Flagged? && Apply(s, step).phase.Failed?
  {
    if step.Filter? {
      FilterMoves(s, step);
    } else if step.SetFlag? || step.StartOk? || step.StartFail? {
      assert Busy(At(s, step.t));
    }
  }

  lemma PhaseMoves(s: State, step: Step)
    requires Inv(s) && Enabled(s, step)
    ensures Over(Apply(s, step).phase) <==> Over(s.phase) || FiltersParsed(s, step)
    ensures !(Over(s.phase) && FiltersParsed(s, step))
    ensures s.phase.Complete? ==> Apply(s, step).phase == s.phase
    ensures Apply(s, step).phase.Failed? <==> s.phase.Failed? || step.StartFail?
  {
    StepMoves(s, step);
  }

  lemma {:induction false} HandledOnce(start: State, r: Basics.Run<Step>)
    requires IsNew(start) && Legal(start, r)
    ensures Handled(start, r) == if Over(After(start, r).phase) then 1 else 0
  {
    if r.Start? {
    } else {
      HandledOnce(start, r.before);
      Reachable(start, r.before);
      PhaseMoves(After(start, r.before), r.last);
    }
  }

  /**
    No lost wake-up: a thread still blocked in `parse` has its event still to come,
    sent or about to be sent, even if the event fires before the start call returns.
   */
  lemma NoLostWakeUp(start: State, r: Basics.Run<Step>, t: Thread)
    requires IsNew(start) && Legal(start, r) && At(After(start, r), t).Sleeping?
    ensures Handled(start, r) == 0
    ensures After(start, r).running + Announcements(After(start, r).pending) == 1
  {
    Reachable(start, r);
    HandledOnce(start, r);
    assert Busy(At(After(start, r), t));
  }

  /** `parse` is about to return true only when its event was handled, exactly once. */
  lemma TrueOnlyAfterEvent(start: State, r: Basics.Run<Step>, t: Thread)
    requires IsNew(start) && Legal(start, r) && At(After(start, r), t).Ending?
    ensures Handled(start, r) == 1 && After(start, r).starts == 1 && !Up(After(start, r).flags)
  {
    Reachable(start, r);
    HandledOnce(start, r);
    assert Busy(At(After(start, r), t));
  }

  lemma DeliveryStep(s: State, step: Step)
    requires Inv(s) && Enabled(s, step)
    ensures var s' := Apply(s, step);
            if step.Deliver? then
              && s'.received == s.received + [s.passed.value]
              && (s.passed.value.ParsedChanged? ==> s'.phase.Complete? && !s'.phase.sync)
            else s'.received == s.received
  {
  }

  /** The `ParsedChanged` of a synchronous parse never reaches Java. */
  lemma {:induction false} SyncEventStaysNative(start: State, r: Basics.Run<Step>)
    requires IsNew(start) && Legal(start, r)
    ensures var s := After(start, r);
            ParsedChanged in s.received ==> s.phase.Complete? && !s.phase.sync
  {
    if r.Start? {
    } else {
      SyncEventStaysNative(start, r.before);
      Reachable(start, r.before);
      PhaseMoves(After(start, r.before), r.last);
      DeliveryStep(After(start, r.before), r.last);
    }
  }

  function Stage(p: Phase): nat {
    match p
    case Fresh => 0
    case Taken(_, _) => 1
    case Flagged(_, _) => 2
    case Running(_, _) => 3
    case Failed(_, _) => 3
    case Announced(_, _) => 4
    case Complete(_, _) => 5
  }

  lemma StageGrows(s: State, step: Step)
    requires Inv(s) && Enabled(s, step)
    ensures Stage(s.phase) <= Stage(Apply(s, step).phase)
    ensures s.phase.Failed? ==> Apply(s, step).phase == s.phase
  {
    StepMoves(s, step);
  }

  lemma {:induction false} StagesGrow(start: State, later: Basics.Run<Step>, earlier: Basics.Run<Step>)
    requires IsNew(start) && Legal(start, later) && Extends(later, earlier)
    ensures Legal(start, earlier)
    ensures Stage(After(start, earlier).phase) <= Stage(After(start, later).phase)
    ensures After(start, earlier).phase.Failed? ==> After(start, later).phase == After(start, earlier).phase
  {
    if later == earlier {
    } else {
      StagesGrow(start, later.before, earlier);
      Reachable(start, later.before);
      StageGrows(After(start, later.before), later.last);
    }
  }

  lemma UpIffStage(s: State)
    requires Inv(s)
    ensures Up(s.flags) <==> Stage(s.phase) in {2, 3}
  {
  }

  lemma UpIsSilent(f: Flags, e: Event)
    requires Up(f) && Up(Filtered(f, e).0)
    ensures !Filtered(f, e).1
  {
  }

  lemma FilterIsSilent(s: State, i: nat, w: Thread)
    requires Enabled(s, Filter(i, w)) && Up(s.flags) && Up(Apply(s, Filter(i, w)).flags)
    ensures Apply(s, Filter(i, w)).passed.None? && Apply(s, Filter(i, w)).received == s.received
  {
    assert Apply(s, Filter(i, w)).flags == Filtered(s.flags, s.pending[i]).0;
    UpIsSilent(s.flags, s.pending[i]);
  }

  lemma SilentStep(s: State, step: Step)
    requires Enabled(s, step) && s.passed.None?
    requires Up(s.flags) && Up(Apply(s, step).flags)
    ensures Apply(s, step).passed.None? && Apply(s, step).received == s.received
  {
    if step.Filter? {
      FilterIsSilent(s, step.i, step.woken);
    }
  }

  /** Up at two moments, a flag is up in between. */
  lemma FlagStaysUp(start: State, later: Basics.Run<Step>, earlier: Basics.Run<Step>)
    requires IsNew(start) && Legal(start, later) && later != earlier && Extends(later, earlier)
    requires Up(After(start, earlier).flags) && Up(After(start, later).flags)
    ensures Up(After(start, later.before).flags)
  {
    var s := After(start, later.before);
    StagesGrow(start, later.before, earlier);
    Reachable(start, earlier);
    Reachable(start, later.before);
    Reachable(start, later);
    UpIffStage(After(start, earlier));
    UpIffStage(s);
    UpIffStage(After(start, later));
    StageGrows(s, later.last);
  }

  /** While the native flag is up no event reaches Java, if none had gone through the filter before. */
  lemma {:induction false} SilentWhileFlagUp(start: State, later: Basics.Run<Step>, earlier: Basics.Run<Step>)
    requires IsNew(start) && Legal(start, later) && Extends(later, earlier)
    requires Up(After(start, earlier).flags) && Up(After(start, later).flags)
    requires After(start, earlier).passed.None?
    ensures After(start, later).received == After(start, earlier).received
    ensures After(start, later).passed.None?
  {
    if later == earlier {
    } else {
      FlagStaysUp(start, later, earlier);
      SilentWhileFlagUp(start, later.before, earlier);
      SilentStep(After(start, later.before), later.last);
    }
  }

  /** Nothing more reaches Java before the flags are down. */
  ghost predicate SilentFrom(start: State, r: Basics.Run<Step>) {
    forall later :: Extends(later, r) && Legal(start, later) && Up(After(start, later).flags) ==>
      After(start, later).received == After(start, r).received
  }

  /** With a flag up, Java hears nothing until it is down exactly when no event is past the filter. */
  lemma SilentIff(start: State, r: Basics.Run<Step>)
    requires IsNew(start) && Legal(start, r) && Up(After(start, r).flags)
    ensures SilentFrom(start, r) <==> After(start, r).passed.None?
  {
    var s := After(start, r);
    if s.passed.None? {
      forall later | Extends(later, r) && Legal(start, later) && Up(After(start, later).flags)
        ensures After(start, later).received == s.received
      {
        SilentWhileFlagUp(start, later, r);
      }
    } else {
      var later := Then(r, Deliver);
      assert Extends(later, r) && Legal(start, later);
      assert After(start, later).flags == s.flags && After(start, later).received != s.received;
    }
  }

  /** An event let through just before the flag is set is delivered while the parse is on. */
  lemma EventOvertakesFlag() returns (r: Basics.Run<Step>)
    ensures var start := Created(0, 0);
            && IsNew(start) && Legal(start, r)
            && Up(After(start, r).flags) && After(start, r).received == [DurationChanged]
            && Up(After(start, r.before).flags) && After(start, r.before).received == []
            && !SilentFrom(start, r.before)
  {
    var start := Created(0, 0);
    StatusBits(start.fields, DurationChanged);
    var r1 := Then(Start, NewDuration(7));
    var r2 := Then(r1, Filter(0, 1));
    assert After(start, r1).pending == [DurationChanged];
    var r3 := Then(r2, Call(1, true));
    assert After(start, r2).passed == Some(DurationChanged);
    assert At(After(start, r2), 1).Idle?;
    var r4 := Then(r3, SetFlag(1));
    assert After(start, r3).passed == Some(DurationChanged) && At(After(start, r3), 1) == Claiming(true);
    assert After(start, r4).passed == Some(DurationChanged);
    r := Then(r4, Deliver);
    assert Extends(r, r4);
  }

  /** The start of a native parse failed at some point of the run. */
  predicate StartFailed(r: Basics.Run<Step>) {
    r.Then? && (r.last.StartFail? || StartFailed(r.before))
  }

  lemma {:induction false} FailureIsRecorded(start: State, r: Basics.Run<Step>)
    requires IsNew(start) && Legal(start, r)
    ensures After(start, r).phase.Failed? <==> StartFailed(r)
  {
    if r.Start? {
    } else {
      FailureIsRecorded(start, r.before);
      Reachable(start, r.before);
      PhaseMoves(After(start, r.before), r.last);
    }
  }

  ghost predicate Quiet(s: State) {
    s.running == 0 && s.pending == [] && s.passed.None? && forall t: Thread :: !Busy(At(s, t))
  }

  /** At rest a media is left "parsing" exactly when the start of its parse failed. */
  lemma StuckIffStartFailed(start: State, r: Basics.Run<Step>)
    requires IsNew(start) && Legal(start, r) && Quiet(After(start, r))
    ensures After(start, r).fields.status == PARSING <==> StartFailed(r)
  {
    Reachable(start, r);
    FailureIsRecorded(start, r);
  }

  /** A run that ends at rest with the start failed. */
  lemma StuckRun() returns (r: Basics.Run<Step>)
    ensures var start := Created(0, 0);
            && IsNew(start) && Legal(start, r) && Quiet(After(start, r)) && StartFailed(r)
            && After(start, r).fields.status == PARSING
  {
    var start := Created(0, 0);
    StatusBits(start.fields, DurationChanged);
    var r1 := Then(Start, Call(1, true));
    assert Legal(start, r1) && At(After(start, r1), 1) == Claiming(true);
    var r2 := Then(r1, SetFlag(1));
    assert Legal(start, r2) && At(After(start, r2), 1) == Starting(true);
    r := Then(r2, StartFail(1));
  }

  /** After a failed start the media is never parsed. */
  lemma FailedStartIsFinal(start: State, later: Basics.Run<Step>, earlier: Basics.Run<Step>)
    requires IsNew(start) && Legal(start, later) && Extends(later, earlier) && StartFailed(earlier)
    ensures After(start, later).starts == 0 && After(start, later).fields.status == PARSING
    ensures Up(After(start, later).flags)
  {
    StagesGrow(start, later, earlier);
    FailureIsRecorded(start, earlier);
    Reachable(start, later);
  }

  ghost predicate SilentForEver(start: State, r: Basics.Run<Step>) {
    forall later :: Extends(later, r) && Legal(start, later) ==>
      After(start, later).received == After(start, r).received
  }

  /** From a failed start on, no event reaches Java any more exactly when none is past the filter. */
  lemma FailedStartSilentIff(start: State, r: Basics.Run<Step>)
    requires IsNew(start) && Legal(start, r) && StartFailed(r)
    ensures SilentForEver(start, r) <==> After(start, r).passed.None?
  {
    FailedStartIsFinal(start, r, r);
    SilentIff(start, r);
    forall later | Extends(later, r) && Legal(start, later) ensures Up(After(start, later).flags) {
      FailedStartIsFinal(start, later, r);
    }
  }

  // ---------------------------------------------------------------------------
  // The answers of parse and parseAsync
  // ---------------------------------------------------------------------------

  predicate NoCall(r: Basics.Run<Step>) {
    r.Then? ==> !r.last.Call? && NoCall(r.before)
  }

  /** The latest call of the thread was the first call of any thread. */
  predicate CalledFirst(r: Basics.Run<Step>, t: Thread) {
    r.Then? &&
    if r.last.Call? && r.last.t == t then NoCall(r.before) else CalledFirst(r.before, t)
  }

  /** The start of a native parse succeeded at some point of the run. */
  predicate StartSucceeded(r: Basics.Run<Step>) {
    r.Then? && (r.last.StartOk? || StartSucceeded(r.before))
  }

  lemma FreshStep(s: State, step: Step)
    requires Inv(s) && Enabled(s, step)
    ensures Apply(s, step).phase.Fresh? <==> s.phase.Fresh? && !step.Call?
    ensures Apply(s, step).starts == s.starts + if step.StartOk? then 1 else 0
  {
    StepMoves(s, step);
    if step.Call? {
      StatusBits(s.fields, DurationChanged);
    }
  }

  lemma {:induction false} CallsAreRecorded(start: State, r: Basics.Run<Step>)
    requires IsNew(start) && Legal(start, r)
    ensures After(start, r).phase.Fresh? <==> NoCall(r)
    ensures After(start, r).starts == 1 <==> StartSucceeded(r)
  {
    match r
    case Start =>
    case Then(before, step) =>
      CallsAreRecorded(start, before);
      Reachable(start, before);
      Reachable(start, r);
      FreshStep(After(start, before), step);
  }

  /** Where a thread may be, given whether its latest call was the first of all. */
  ghost predicate Answering(s: State, t: Thread, first: bool) {
    var p := At(s, t);
    && (first ==> !s.phase.Fresh? && t == s.phase.who && !p.Idle?)
    && (Busy(p) ==> first)
    && (p == Returned(true) ==> first && s.starts == 1 && (s.phase.sync ==> s.phase.Complete?))
    && (p == Returned(false) && first ==> s.phase.Failed?)
  }

  lemma OwnAnswer(s: State, step: Step, first: bool)
    requires step.SetFlag? || step.StartOk? || step.StartFail? || step.StartReturn?
          || step.Check? || step.WakeUp? || step.PostParse?
    requires Inv(s) && Enabled(s, step) && Answering(s, step.t, first)
    ensures Answering(Apply(s, step), step.t, first)
  {
    StepMoves(s, step);
  }

  lemma CallAnswer(s: State, step: Step)
    requires Inv(s) && Enabled(s, step) && step.Call?
    ensures Answering(Apply(s, step), step.t, s.phase.Fresh?)
  {
    StatusBits(s.fields, DurationChanged);
  }

  lemma EventAnswer(s: State, step: Step, t: Thread, first: bool)
    requires Inv(s) && Enabled(s, step) && Answering(s, t, first) && (step.Filter? || step.Deliver?)
    ensures Answering(Apply(s, step), t, first)
  {
    StepMoves(s, step);
  }

  lemma SendAnswer(s: State, step: Step, t: Thread, first: bool)
    requires Enabled(s, step) && Answering(s, t, first)
    requires step.NewDuration? || step.NewState? || step.NewMeta? || step.ParseEnds?
    ensures Answering(Apply(s, step), t, first)
  {
    var s' := Apply(s, step);
    assert s'.places == s.places && s'.phase == s.phase && s'.starts == s.starts;
  }

  lemma ReadAnswer(s: State, step: Step, t: Thread, first: bool)
    requires Enabled(s, step) && Answering(s, t, first) && Reads(step)
    ensures Answering(Apply(s, step), t, first)
  {
    ReadStep(s, step);
  }

  /** The steps of one thread leave the places of the others, and the phase unless it is theirs. */
  lemma NeighbourAnswer(s: State, step: Step, t: Thread, first: bool)
    requires Inv(s) && Enabled(s, step) && Answering(s, t, first)
    requires step.Call? || step.SetFlag? || step.StartOk? || step.StartFail? || step.StartReturn?
          || step.Check? || step.WakeUp? || step.PostParse?
    requires step.t != t
    ensures Answering(Apply(s, step), t, first)
  {
    StepMoves(s, step);
    if step.Call? {
      StatusBits(s.fields, DurationChanged);
    } else {
      assert Busy(At(s, step.t));
    }
  }

  lemma {:induction false} AnswersFollowCalls(start: State, r: Basics.Run<Step>, t: Thread)
    requires IsNew(start) && Legal(start, r)
    ensures Answering(After(start, r), t, CalledFirst(r, t))
  {
    match r
    case Start =>
    case Then(before, step) =>
      var s := After(start, before);
      AnswersFollowCalls(start, before, t);
      Reachable(start, before);
      if step.Call? && step.t == t {
        CallsAreRecorded(start, before);
        CallAnswer(s, step);
      } else if step.Filter? || step.Deliver? {
        EventAnswer(s, step, t, CalledFirst(before, t));
      } else if Reads(step) {
        ReadAnswer(s, step, t, CalledFirst(before, t));
      } else if step.NewDuration? || step.NewState? || step.NewMeta? || step.ParseEnds? {
        SendAnswer(s, step, t, CalledFirst(before, t));
      } else if step.t == t {
        OwnAnswer(s, step, CalledFirst(before, t));
      } else {
        NeighbourAnswer(s, step, t, CalledFirst(before, t));
      }
  }

  predicate HasCalled(r: Basics.Run<Step>, t: Thread) {
    r.Then? && ((r.last.Call? && r.last.t == t) || HasCalled(r.before, t))
  }

  /** No step makes a thread idle. */
  lemma WhoMoves(s: State, step: Step, t: Thread)
    requires Enabled(s, step)
    ensures At(Apply(s, step), t) == At(s, t) || !At(Apply(s, step), t).Idle?
  {
  }

  lemma NotIdleStep(s: State, step: Step, t: Thread)
    requires Enabled(s, step) && (!At(s, t).Idle? || (step.Call? && step.t == t))
    ensures !At(Apply(s, step), t).Idle?
  {
    WhoMoves(s, step, t);
  }

  lemma {:induction false} CallersAreNotIdle(start: State, r: Basics.Run<Step>, t: Thread)
    requires Legal(start, r) && HasCalled(r, t)
    ensures !At(After(start, r), t).Idle?
  {
    var before, step := r.before, r.last;
    if HasCalled(before, t) {
      CallersAreNotIdle(start, before, t);
    } else {
      assert step.Call? && step.t == t;
    }
    NotIdleStep(After(start, before), step, t);
  }

  /** Every call but the first of all answers false at once. */
  lemma LaterCallsAnswerFalse(start: State, r: Basics.Run<Step>, t: Thread)
    requires IsNew(start) && Legal(start, r) && HasCalled(r, t) && !CalledFirst(r, t)
    ensures At(After(start, r), t) == Returned(false)
  {
    AnswersFollowCalls(start, r, t);
    CallersAreNotIdle(start, r, t);
  }

  /**
    A call has answered true exactly when it was the first call of all and its native start succeeded;
    a synchronous one only after its parse is complete.
   */
  lemma TrueIff(start: State, r: Basics.Run<Step>, t: Thread)
    requires IsNew(start) && Legal(start, r) && At(After(start, r), t).Returned?
    ensures At(After(start, r), t).result <==> CalledFirst(r, t) && StartSucceeded(r)
    ensures At(After(start, r), t).result ==>
              var phase := After(start, r).phase;
              !phase.Fresh? && t == phase.who && (phase.sync ==> phase.Complete? && Handled(start, r) == 1)
  {
    AnswersFollowCalls(start, r, t);
    CallsAreRecorded(start, r);
    Reachable(start, r);
    HandledOnce(start, r);
  }

  // ---------------------------------------------------------------------------
  // Progress
  // ---------------------------------------------------------------------------

  /** `later` goes on from `earlier` without any new call and without a getter. */
  predicate Continues(later: Basics.Run<Step>, earlier: Basics.Run<Step>)
    decreases later
  {
    later == earlier
    || (later.Then? && !later.last.Call? && !Reads(later.last) && Continues(later.before, earlier))
  }

  /** The event a sleeper waits for is sent. */
  lemma AnnouncementSent(start: State, r: Basics.Run<Step>, t: Thread) returns (sent: Basics.Run<Step>)
    requires IsNew(start) && Legal(start, r) && At(After(start, r), t).Sleeping?
    ensures Legal(start, sent) && Continues(sent, r) && At(After(start, sent), t).Sleeping?
    ensures ParsedChanged in After(start, sent).pending
  {
    NoLostWakeUp(start, r, t);
    var s := After(start, r);
    if s.running > 0 {
      sent := Then(r, ParseEnds);
      SentEvent(s.pending, ParsedChanged, ParsedChanged);
    } else {
      sent := r;
    }
  }

  /** The callback is free to take it. */
  lemma AnnouncementComes(start: State, r: Basics.Run<Step>, t: Thread) returns (end: Basics.Run<Step>, i: nat)
    requires IsNew(start) && Legal(start, r) && At(After(start, r), t).Sleeping?
    ensures Legal(start, end) && Continues(end, r) && At(After(start, end), t).Sleeping?
    ensures Enabled(After(start, end), Filter(i, t)) && After(start, end).pending[i] == ParsedChanged
  {
    var sent := AnnouncementSent(start, r, t);
    var s := After(start, sent);
    i :| 0 <= i < |s.pending| && s.pending[i] == ParsedChanged;
    end := if s.passed.Some? then Then(sent, Deliver) else sent;
  }

  lemma AnnouncementWakes(s: State, i: nat, t: Thread)
    requires Enabled(s, Filter(i, t)) && s.pending[i] == ParsedChanged && At(s, t).Sleeping?
    ensures At(Apply(s, Filter(i, t)), t).Checking? && Apply(s, Filter(i, t)).flags == Flags(false, false)
  {
    assert Filtered(s.flags, s.pending[i]).0 == Flags(false, false);
  }

  lemma CheckEnds(s: State, t: Thread)
    requires At(s, t).Checking? && !s.flags.sync
    ensures Enabled(s, Check(t)) && Apply(s, Check(t)) == s.(places := s.places[t := Ending])
  {
  }

  lemma PostParseReturns(s: State, t: Thread)
    requires At(s, t).Ending?
    ensures Enabled(s, Step.PostParse(t)) && At(Apply(s, Step.PostParse(t)), t) == Returned(true)
  {
  }

  /** A woken thread finds the flag down, and returns. */
  lemma WokenReturns(start: State, r: Basics.Run<Step>, t: Thread) returns (end: Basics.Run<Step>)
    requires Legal(start, r) && At(After(start, r), t).Checking? && !After(start, r).flags.sync
    ensures Legal(start, end) && Continues(end, r) && At(After(start, end), t) == Returned(true)
  {
    var checked := Then(r, Check(t));
    CheckEnds(After(start, r), t);
    assert Legal(start, checked) && Continues(checked, r);
    PostParseReturns(After(start, checked), t);
    end := Then(checked, Step.PostParse(t));
  }

  lemma {:induction false} ContinuesTransitive(a: Basics.Run<Step>, b: Basics.Run<Step>, c: Basics.Run<Step>)
    requires Continues(a, b) && Continues(b, c)
    ensures Continues(a, c)
    decreases a
  {
    if a == b {
    } else {
      ContinuesTransitive(a.before, b, c);
    }
  }

  /** A thread blocked in `parse` can always be brought to return true, without any new call. */
  lemma SleeperReturns(start: State, r: Basics.Run<Step>, t: Thread) returns (end: Basics.Run<Step>)
    requires IsNew(start) && Legal(start, r) && At(After(start, r), t).Sleeping?
    ensures Legal(start, end) && Continues(end, r) && At(After(start, end), t) == Returned(true)
  {
    var ready, i := AnnouncementComes(start, r, t);
    AnnouncementWakes(After(start, ready), i, t);
    var woken := Then(ready, Filter(i, t));
    assert Legal(start, woken) && Continues(woken, r);
    end := WokenReturns(start, woken, t);
    ContinuesTransitive(end, woken, r);
  }

  lemma StartCallReturns(s: State, t: Thread)
    requires At(s, t).Started?
    ensures var step := StartReturn(t);
            Enabled(s, step)
            && Apply(s, step) == s.(places := s.places[t := if At(s, t).sync then Checking else Returned(true)])
  {
  }

  lemma CheckSleeps(s: State, t: Thread)
    requires At(s, t).Checking? && s.flags.sync
    ensures Enabled(s, Check(t)) && Apply(s, Check(t)) == s.(places := s.places[t := Sleeping])
  {
  }

  /** So can any thread whose native start succeeded. */
  lemma StartedReturns(start: State, r: Basics.Run<Step>, t: Thread) returns (end: Basics.Run<Step>)
    requires IsNew(start) && Legal(start, r) && At(After(start, r), t).Started?
    ensures Legal(start, end) && Continues(end, r) && At(After(start, end), t) == Returned(true)
  {
    var s := After(start, r);
    var back := Then(r, StartReturn(t));
    StartCallReturns(s, t);
    assert Legal(start, back) && Continues(back, r);
    if !At(s, t).sync {
      end := back;
    } else if !s.flags.sync {
      end := WokenReturns(start, back, t);
      ContinuesTransitive(end, back, r);
    } else {
      var asleep := Then(back, Check(t));
      CheckSleeps(After(start, back), t);
      assert Legal(start, asleep) && Continues(asleep, r);
      end := SleeperReturns(start, asleep, t);
      ContinuesTransitive(end, asleep, r);
    }
  }
}
