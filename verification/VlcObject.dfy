/**
  `VLCObject.java` and the callback half of `libvlcjni-vlcobject.c`: a native object
  shared by any number of threads, kept alive by a reference count, whose native
  events are queued for a listener.
 */
module VlcObject {
  import opened Basics

  type Thread = nat
  type Listener = nat

  const MAIN_LOOPER: nat := 0

  /** An `EventRunnable`: the listener in place when it was posted, and its event. */
  datatype Posted = Posted(listener: Listener, event: nat)

  /** The Java fields, with the messages waiting in the handler's queue. */
  datatype Fields = Fields(refCount: nat, listener: Option<Listener>, handler: Option<nat>, queue: seq<Posted>)

  function Retained(f: Fields): Fields {
    if f.refCount > 0 then f.(refCount := f.refCount + 1) else f
  }

  function Listening(f: Fields, listener: Option<Listener>, handler: Option<nat>): Fields {
    Fields(f.refCount, listener,
           if listener.None? then None
           else if f.handler.Some? then f.handler
           else if handler.Some? then handler
           else Some(MAIN_LOOPER),
           if f.handler.Some? then [] else f.queue)
  }

  /** The first synchronized block of `release`. */
  function Dropped(f: Fields): Fields {
    if f.refCount == 0 then f
    else if f.refCount == 1 then Listening(f.(refCount := 0), None, None)
    else f.(refCount := f.refCount - 1)
  }

  /** `dispatchEventFromNative`; `event` is what `onEventNative` returns when it is called. */
  function Dispatched(f: Fields, event: Option<nat>): Fields {
    if f.refCount > 0 && event.Some? && f.listener.Some? && f.handler.Some?
    then f.(queue := f.queue + [Posted(f.listener.value, event.value)])
    else f
  }

  /** The object itself; each method is one synchronized block of the original. */
  class VLCObject {
    var mEventListener: Option<Listener>
    var mHandler: Option<nat>
    var mNativeRefCount: nat
    var messages: seq<Posted>

    function View(): Fields
      reads this
    {
      Fields(mNativeRefCount, mEventListener, mHandler, messages)
    }

    constructor ()
      ensures View() == Fields(1, None, None, [])
    {
      mEventListener, mHandler, mNativeRefCount, messages := None, None, 1, [];
    }

    method Retain() returns (ok: bool)
      modifies this
      ensures View() == Retained(old(View()))
      ensures ok <==> old(mNativeRefCount) > 0
      ensures mNativeRefCount == old(mNativeRefCount) + if ok then 1 else 0
      ensures mEventListener == old(mEventListener) && mHandler == old(mHandler) && messages == old(messages)
    {
      if mNativeRefCount > 0 {
        mNativeRefCount := mNativeRefCount + 1;
        ok := true;
      } else {
        ok := false;
      }
    }

    method SetEventListener(listener: Option<Listener>, handler: Option<nat>)
      modifies this
      ensures View() == Listening(old(View()), listener, handler)
      ensures mNativeRefCount == old(mNativeRefCount) && mEventListener == listener
      ensures listener.None? ==> mHandler.None?
      ensures listener.Some? && old(mHandler).Some? ==> mHandler == old(mHandler)
      ensures listener.Some? && old(mHandler).None? ==>
                mHandler == if handler.Some? then handler else Some(MAIN_LOOPER)
      ensures messages == if old(mHandler).Some? then [] else old(messages)
    {
      if mHandler.Some? {
        messages := [];
      }
      mEventListener := listener;
      if mEventListener.None? {
        mHandler := None;
      } else if mHandler.None? {
        mHandler := if handler.Some? then handler else Some(MAIN_LOOPER);
      }
    }

    /** Tells whether the caller must now detach the events and free the native object. */
    method BeginRelease() returns (last: bool)
      modifies this
      ensures View() == Dropped(old(View()))
      ensures last <==> old(mNativeRefCount) == 1
      ensures mNativeRefCount == if old(mNativeRefCount) > 0 then old(mNativeRefCount) - 1 else 0
      ensures last ==> mEventListener.None? && mHandler.None?
      ensures !last ==> mEventListener == old(mEventListener) && mHandler == old(mHandler) && messages == old(messages)
    {
      var refCount: int := -1;
      if mNativeRefCount == 0 {
        return false;
      }
      if mNativeRefCount > 0 {
        mNativeRefCount := mNativeRefCount - 1;
        refCount := mNativeRefCount;
      }
      if refCount == 0 {
        SetEventListener(None, None);
      }
      last := refCount == 0;
    }

    method DispatchEventFromNative(event: Option<nat>) returns (handled: bool)
      modifies this
      ensures View() == Dispatched(old(View()), event)
      ensures handled <==> old(mNativeRefCount) > 0
      ensures handled && event.Some? && mEventListener.Some? && mHandler.Some? ==>
                messages == old(messages) + [Posted(mEventListener.value, event.value)]
      ensures !(handled && event.Some? && mEventListener.Some? && mHandler.Some?) ==> messages == old(messages)
    {
      if mNativeRefCount == 0 {
        return false;
      }
      handled := true;
      if event.Some? && mEventListener.Some? && mHandler.Some? {
        messages := messages + [Posted(mEventListener.value, event.value)];
      }
    }
  }

  // ---------------------------------------------------------------------------
  // The protocol: interleaved threads, the Java monitor and the event-manager lock
  // ---------------------------------------------------------------------------

  /** What a thread does inside the monitor. */
  datatype Op =
    | Retain
    | Release
    | Listen(listener: Option<Listener>, handler: Option<nat>)
    | Dispatch(event: Option<nat>)
    | ReleaseNative

  /** Where a thread is. `Dispatch` waits and runs with the event-manager lock held. */
  datatype Place =
    | Idle
    | Waiting(op: Op)
    | Inside(op: Op)
    | Detaching(left: seq<int>)
    | Filtering
    | Leaving

  datatype State = State(
    fields: Fields,
    places: map<Thread, Place>,
    monitor: Option<Thread>,
    eventLock: Option<Thread>,
    table: seq<int>,          // the event table given to attachEvents
    registered: set<int>,     // events this object is still attached to
    handled: nat,             // calls of onEventNative
    started: seq<Posted>,     // queued events that began to run
    freed: nat                // calls of onReleaseNative
  )

  datatype Step =
    | Begin(t: Thread, op: Op)
    | Fire(t: Thread, eventType: int)
    | Reject(t: Thread)
    | Accept(t: Thread, event: Option<nat>)
    | Enter(t: Thread)
    | Run(t: Thread)
    | Return(t: Thread)
    | DetachOne(t: Thread)
    | DetachEnd(t: Thread)
    | StartEvent

  function At(s: State, t: Thread): Place {
    if t in s.places then s.places[t] else Idle
  }

  function Created(table: seq<int>): State {
    State(Fields(1, None, None, []), map[], None, None, table, set e | e in table, 0, [], 0)
  }

  predicate Enabled(s: State, step: Step) {
    match step
    case Begin(t, op) => At(s, t).Idle? && (op.Retain? || op.Release? || op.Listen?)
    case Fire(t, e) => At(s, t).Idle? && s.eventLock.None? && e in s.registered
    case Reject(t) => At(s, t).Filtering?
    case Accept(t, _) => At(s, t).Filtering?
    case Enter(t) => At(s, t).Waiting? && s.monitor.None?
    case Run(t) => At(s, t).Inside?
    case Return(t) => At(s, t).Leaving?
    case DetachOne(t) => At(s, t).Detaching? && At(s, t).left != [] && s.eventLock.None?
    case DetachEnd(t) => At(s, t).Detaching? && At(s, t).left == []
    case StartEvent => s.fields.queue != []
  }

  function Move(s: State, t: Thread, p: Place): State {
    s.(places := s.places[t := p])
  }

  /** The body of a synchronized block, up to and including leaving the monitor. */
  function RunOp(s: State, t: Thread, op: Op): State {
    var out := s.(monitor := None);
    match op
    case Retain => Move(out, t, Idle).(fields := Retained(s.fields))
    case Release =>
      Move(out, t, if s.fields.refCount == 1 then Detaching(s.table) else Idle).(fields := Dropped(s.fields))
    case Listen(l, h) => Move(out, t, Idle).(fields := Listening(s.fields, l, h))
    case Dispatch(e) =>
      Move(out, t, Leaving).(fields := Dispatched(s.fields, e),
                             handled := s.handled + if s.fields.refCount > 0 then 1 else 0)
    case ReleaseNative => Move(out, t, Idle).(freed := s.freed + 1)
  }

  function Apply(s: State, step: Step): State {
    if !Enabled(s, step) then s else
    match step
    case Begin(t, op) => Move(s, t, Waiting(op))
    case Fire(t, _) => Move(s, t, Filtering).(eventLock := Some(t))
    case Reject(t) => Move(s, t, Idle).(eventLock := None)
    case Accept(t, e) => Move(s, t, Waiting(Dispatch(e)))
    case Enter(t) => Move(s, t, Inside(At(s, t).op)).(monitor := Some(t))
    case Run(t) => RunOp(s, t, At(s, t).op)
    case Return(t) => Move(s, t, Idle).(eventLock := None)
    case DetachOne(t) =>
      Move(s, t, Detaching(At(s, t).left[1..])).(registered := s.registered - {At(s, t).left[0]})
    case DetachEnd(t) => Move(s, t, Waiting(ReleaseNative))
    case StartEvent =>
      s.(fields := s.fields.(queue := s.fields.queue[1..]), started := s.started + [s.fields.queue[0]])
  }

  function After(table: seq<int>, r: Basics.Run<Step>): State {
    match r
    case Start => Created(table)
    case Then(before, step) => Apply(After(table, before), step)
  }

  predicate Legal(table: seq<int>, r: Basics.Run<Step>) {
    r.Then? ==> Legal(table, r.before) && Enabled(After(table, r.before), r.last)
  }

  /** In `VLCJniObject_eventCallback`, or in the Java code it calls. */
  predicate InCallback(p: Place) {
    p.Filtering? || p.Leaving? || ((p.Waiting? || p.Inside?) && p.op.Dispatch?)
  }

  /** Dropped the last reference and has still to detach or to free. */
  predicate Finishing(p: Place) {
    p.Detaching? || ((p.Waiting? || p.Inside?) && p.op.ReleaseNative?)
  }

  /** A thread inside the monitor holds it, one in a callback holds the event lock, and only `who` is finishing. */
  predicate Placed(s: State, who: Thread, t: Thread) {
    var p := At(s, t);
    && (p.Inside? ==> s.monitor == Some(t))
    && (InCallback(p) ==> s.eventLock == Some(t))
    && (Finishing(p) ==> t == who && s.fields.refCount == 0 && s.freed == 0)
  }

  predicate QueueFollowsListener(f: Fields) {
    && (f.handler.Some? <==> f.listener.Some?)
    && (f.queue != [] ==> f.refCount > 0 && f.listener.Some?)
    && (forall i :: 0 <= i < |f.queue| ==> Some(f.queue[i].listener) == f.listener)
  }

  predicate Registrations(s: State, who: Thread) {
    && s.registered <= (set e | e in s.table)
    && (s.registered == {} ==> s.eventLock.None?)
    && (s.fields.refCount > 0 ==> s.registered == (set e | e in s.table) && s.freed == 0)
    && (s.fields.refCount == 0 ==>
          if s.freed == 0 then
            Finishing(At(s, who)) &&
            forall e | e in s.registered :: At(s, who).Detaching? && e in At(s, who).left
          else s.freed == 1 && s.registered == {})
  }

  ghost predicate InvFor(s: State, who: Thread) {
    && (s.monitor.Some? ==> At(s, s.monitor.value).Inside?)
    && (s.eventLock.Some? ==> InCallback(At(s, s.eventLock.value)))
    && QueueFollowsListener(s.fields)
    && Registrations(s, who)
    && (forall t: Thread :: Placed(s, who, t))
  }

  /** The block after which one thread alone goes on to detach and free, or has freed. */
  lemma EndPreserves(s: State, who: Thread, t: Thread) returns (who': Thread)
    requires InvFor(s, who) && At(s, t).Inside? && (At(s, t).op.Release? || At(s, t).op.ReleaseNative?)
    ensures InvFor(Apply(s, Step.Run(t)), who')
  {
    assert Placed(s, who, t);
    who' := if At(s, t).op.Release? && s.fields.refCount == 1 then t else who;
    if At(s, t).op.ReleaseNative? {
      assert forall e :: e !in s.registered;
    }
    var s' := Apply(s, Step.Run(t));
    forall u: Thread ensures Placed(s', who', u) {
      assert Placed(s, who, u);
    }
  }

  lemma RunPreserves(s: State, who: Thread, t: Thread)
    requires InvFor(s, who) && At(s, t).Inside?
    requires At(s, t).op.Retain? || At(s, t).op.Listen? || At(s, t).op.Dispatch?
    ensures InvFor(Apply(s, Step.Run(t)), who)
  {
    assert Placed(s, who, t);
    var s' := Apply(s, Step.Run(t));
    forall u: Thread ensures Placed(s', who, u) {
      assert Placed(s, who, u);
    }
  }

  lemma Preserved(s: State, who: Thread, step: Step) returns (who': Thread)
    requires InvFor(s, who) && Enabled(s, step)
    ensures InvFor(Apply(s, step), who')
  {
    who' := who;
    if step.Run? {
      if At(s, step.t).op.Release? || At(s, step.t).op.ReleaseNative? {
        who' := EndPreserves(s, who, step.t);
      } else {
        RunPreserves(s, who, step.t);
      }
    } else {
      var s' := Apply(s, step);
      if !step.StartEvent? {
        assert Placed(s, who, step.t);
      }
      forall u: Thread ensures Placed(s', who', u) {
        assert Placed(s, who, u);
      }
    }
  }

  lemma {:induction false} Reachable(table: seq<int>, r: Basics.Run<Step>) returns (who: Thread)
    requires Legal(table, r)
    ensures InvFor(After(table, r), who)
  {
    match r
    case Start => who := 0;
    case Then(before, step) =>
      var w := Reachable(table, before);
      who := Preserved(After(table, before), w, step);
  }

  /**
    The native object is freed at most once, and only once the count is zero and every event
    is detached; from then on no callback is anywhere in the native or the Java half.
   */
  lemma FreedOnceAfterDetach(table: seq<int>, r: Basics.Run<Step>, t: Thread)
    requires Legal(table, r)
    ensures var s := After(table, r);
            && s.freed <= 1
            && (s.freed == 1 ==> s.fields.refCount == 0 && s.registered == {} && !InCallback(At(s, t)))
  {
    var who := Reachable(table, r);
    assert Placed(After(table, r), who, t);
  }

  /** Only one thread detaches and frees, whatever the number of concurrent calls of `release`. */
  lemma OneThreadFinishes(table: seq<int>, r: Basics.Run<Step>, t: Thread, u: Thread)
    requires Legal(table, r)
    requires Finishing(At(After(table, r), t)) && Finishing(At(After(table, r), u))
    ensures t == u && After(table, r).fields.refCount == 0 && After(table, r).freed == 0
  {
    var who := Reachable(table, r);
    assert Placed(After(table, r), who, t) && Placed(After(table, r), who, u);
  }

  lemma StepAfterZero(s: State, who: Thread, step: Step)
    requires InvFor(s, who) && s.fields.refCount == 0 && Enabled(s, step)
    ensures var s' := Apply(s, step);
            s'.fields.refCount == 0 && s'.handled == s.handled && s'.started == s.started
  {
  }

  /** Zero is final: no `retain` revives the object, no event reaches it, no queued event starts. */
  lemma {:induction false} NothingAfterZero(table: seq<int>, later: Basics.Run<Step>, earlier: Basics.Run<Step>)
    requires Legal(table, later) && Extends(later, earlier)
    requires After(table, earlier).fields.refCount == 0
    ensures After(table, later).fields.refCount == 0
    ensures After(table, later).handled == After(table, earlier).handled
    ensures After(table, later).started == After(table, earlier).started
  {
    if later == earlier {
    } else {
      NothingAfterZero(table, later.before, earlier);
      var who := Reachable(table, later.before);
      StepAfterZero(After(table, later.before), who, later.last);
    }
  }

  /** An event that starts goes to the listener in place now, never to one that was replaced. */
  lemma StartsOnCurrentListener(table: seq<int>, r: Basics.Run<Step>)
    requires Legal(table, r) && Enabled(After(table, r), StartEvent)
    ensures var s := After(table, r);
            && s.fields.refCount > 0
            && Some(s.fields.queue[0].listener) == s.fields.listener
  {
    var who := Reachable(table, r);
  }

  // ---------------------------------------------------------------------------
  // The fields, told from the steps of the run
  // ---------------------------------------------------------------------------

  /** The block that the step runs, if it runs one. */
  function Ran(s: State, step: Step): Option<Op> {
    if step.Run? && At(s, step.t).Inside? then Some(At(s, step.t).op) else None
  }

  /** What the thread was last asked to do: by its caller, or by an event that the filter let through. */
  function Asked(r: Basics.Run<Step>, t: Thread): Option<Op> {
    match r
    case Start => None
    case Then(before, step) =>
      if step.Begin? && step.t == t then Some(step.op)
      else if step.Accept? && step.t == t then Some(Dispatch(step.event))
      else Asked(before, t)
  }

  lemma AskedStep(s: State, step: Step, t: Thread)
    requires Enabled(s, step)
    ensures var p, p' := At(s, t), At(Apply(s, step), t);
            (p'.Waiting? || p'.Inside?) && !p'.op.ReleaseNative? ==>
              || (step.Begin? && step.t == t && p'.op == step.op)
              || (step.Accept? && step.t == t && p'.op == Dispatch(step.event))
              || (!(step.Begin? && step.t == t) && !(step.Accept? && step.t == t)
                  && (p.Waiting? || p.Inside?) && p.op == p'.op)
  {
  }

  /** A thread waits for, and runs, the block it was asked for. */
  lemma {:induction false} RunsWhatWasAsked(table: seq<int>, r: Basics.Run<Step>, t: Thread)
    requires Legal(table, r)
    ensures var p := At(After(table, r), t);
            p.Waiting? || p.Inside? ==> p.op.ReleaseNative? || Asked(r, t) == Some(p.op)
  {
    match r
    case Start =>
    case Then(before, step) =>
      RunsWhatWasAsked(table, before, t);
      AskedStep(After(table, before), step, t);
  }

  /** One reference for the object's maker, one more for each retain, one less for each release. */
  function Balance(table: seq<int>, r: Basics.Run<Step>): int {
    match r
    case Start => 1
    case Then(before, step) =>
      var op := Ran(After(table, before), step);
      Balance(table, before) + if op == Some(Retain) then 1 else if op == Some(Release) then -1 else 0
  }

  /** The references were used up at some moment of the run. */
  predicate Spent(table: seq<int>, r: Basics.Run<Step>) {
    Balance(table, r) == 0 || (r.Then? && Spent(table, r.before))
  }

  lemma CountStep(s: State, step: Step)
    requires Enabled(s, step)
    ensures var n, n', op := s.fields.refCount, Apply(s, step).fields.refCount, Ran(s, step);
            if n == 0 then n' == 0
            else n' == n + if op == Some(Retain) then 1 else if op == Some(Release) then -1 else 0
  {
  }

  /** The count is the balance of the retains and releases that ran, until that is zero; then it is zero for ever. */
  lemma {:induction false} CountIsBalance(table: seq<int>, r: Basics.Run<Step>)
    requires Legal(table, r)
    ensures After(table, r).fields.refCount == if Spent(table, r) then 0 else Balance(table, r)
    ensures !Spent(table, r) ==> Balance(table, r) > 0
  {
    match r
    case Start =>
    case Then(before, step) =>
      CountIsBalance(table, before);
      CountStep(After(table, before), step);
  }

  /** Calls of `onEventNative`: one for each event that reaches the object before its references are used up. */
  function Dispatches(table: seq<int>, r: Basics.Run<Step>): nat {
    match r
    case Start => 0
    case Then(before, step) =>
      var op := Ran(After(table, before), step);
      Dispatches(table, before) + if op.Some? && op.value.Dispatch? && !Spent(table, before) then 1 else 0
  }

  lemma HandledStep(s: State, step: Step)
    requires Enabled(s, step)
    ensures var op := Ran(s, step);
            Apply(s, step).handled
            == s.handled + if op.Some? && op.value.Dispatch? && s.fields.refCount > 0 then 1 else 0
  {
  }

  lemma {:induction false} HandledIsDispatched(table: seq<int>, r: Basics.Run<Step>)
    requires Legal(table, r)
    ensures After(table, r).handled == Dispatches(table, r)
  {
    match r
    case Start =>
    case Then(before, step) =>
      HandledIsDispatched(table, before);
      CountIsBalance(table, before);
      HandledStep(After(table, before), step);
  }

  /** The listener of the latest call, until the last reference is given up. */
  function ListenerOf(table: seq<int>, r: Basics.Run<Step>): Option<Listener> {
    match r
    case Start => None
    case Then(before, step) =>
      var op := Ran(After(table, before), step);
      if op.Some? && op.value.Listen? then op.value.listener
      else if Spent(table, r) && !Spent(table, before) then None
      else ListenerOf(table, before)
  }

  /** The handler of the first call since there was no listener; the main one by default. */
  function HandlerOf(table: seq<int>, r: Basics.Run<Step>): Option<nat> {
    match r
    case Start => None
    case Then(before, step) =>
      var op, now := Ran(After(table, before), step), HandlerOf(table, before);
      if ListenerOf(table, r).None? then None
      else if now.None? && op.Some? && op.value.Listen? then
        (if op.value.handler.Some? then op.value.handler else Some(MAIN_LOOPER))
      else now
  }

  lemma ListenStep(s: State, step: Step)
    requires Enabled(s, step) && (s.fields.handler.Some? <==> s.fields.listener.Some?)
    ensures var f, f', op := s.fields, Apply(s, step).fields, Ran(s, step);
            if op.Some? && op.value.Listen? then
              && f'.listener == op.value.listener
              && f'.handler == (if f'.listener.None? then None else if f.handler.Some? then f.handler
                                else if op.value.handler.Some? then op.value.handler else Some(MAIN_LOOPER))
            else if op == Some(Release) && f.refCount == 1 then f'.listener.None? && f'.handler.None?
            else f'.listener == f.listener && f'.handler == f.handler
  {
  }

  lemma {:induction false} ListenerIsLatest(table: seq<int>, r: Basics.Run<Step>)
    requires Legal(table, r)
    ensures After(table, r).fields.listener == ListenerOf(table, r)
    ensures After(table, r).fields.handler == HandlerOf(table, r)
  {
    match r
    case Start =>
    case Then(before, step) =>
      ListenerIsLatest(table, before);
      var who := Reachable(table, before);
      CountIsBalance(table, before);
      CountIsBalance(table, r);
      ListenStep(After(table, before), step);
  }

  /** The events to deliver, in order: those that `onEventNative` returns while the object is alive and has a listener. */
  function Posts(table: seq<int>, r: Basics.Run<Step>): seq<Posted> {
    match r
    case Start => []
    case Then(before, step) =>
      var op, listener := Ran(After(table, before), step), ListenerOf(table, before);
      Posts(table, before) +
        if op.Some? && op.value.Dispatch? && op.value.event.Some? && !Spent(table, before) && listener.Some?
        then [Posted(listener.value, op.value.event.value)] else []
  }

  /** The step takes the queued events back. */
  predicate Clears(s: State, step: Step) {
    var op := Ran(s, step);
    op.Some? && (op.value.Listen? || (op.value.Release? && s.fields.refCount == 1))
  }

  lemma PostStep(s: State, step: Step)
    requires Enabled(s, step) && QueueFollowsListener(s.fields) && !Clears(s, step)
    ensures var s', op, l := Apply(s, step), Ran(s, step), s.fields.listener;
            s'.started + s'.fields.queue == s.started + s.fields.queue +
              if op.Some? && op.value.Dispatch? && op.value.event.Some? && s.fields.refCount > 0 && l.Some?
              then [Posted(l.value, op.value.event.value)] else []
  {
    if step.StartEvent? {
      assert s.fields.queue == [s.fields.queue[0]] + s.fields.queue[1..];
    }
  }

  predicate KeptSince(table: seq<int>, later: Basics.Run<Step>, earlier: Basics.Run<Step>)
    decreases later
  {
    || later == earlier
    || (later.Then? && !Clears(After(table, later.before), later.last) && KeptSince(table, later.before, earlier))
  }

  /**
    As long as the listener is not replaced and the object not released, the events started and
    queued grow by exactly the events to deliver, in their order: none is lost, doubled or invented.
   */
  lemma {:induction false} EventsAreKept(table: seq<int>, later: Basics.Run<Step>, earlier: Basics.Run<Step>)
    requires Legal(table, later) && KeptSince(table, later, earlier)
    ensures Posts(table, earlier) <= Posts(table, later)
    ensures After(table, later).started + After(table, later).fields.queue
         == After(table, earlier).started + After(table, earlier).fields.queue
            + Posts(table, later)[|Posts(table, earlier)|..]
  {
    if later == earlier {
    } else {
      var before, step := later.before, later.last;
      EventsAreKept(table, before, earlier);
      var who := Reachable(table, before);
      CountIsBalance(table, before);
      ListenerIsLatest(table, before);
      PostStep(After(table, before), step);
      assert Posts(table, before) <= Posts(table, later);
    }
  }

  // ---------------------------------------------------------------------------
  // Progress
  // ---------------------------------------------------------------------------

  /** A step by which a thread goes on with what it has begun. */
  predicate Progress(step: Step) {
    !step.Begin? && !step.Fire? && !step.StartEvent?
  }

  /** What the native filters decide: None to reject the event, Some to hand it to Java. */
  type Verdict = State -> Option<Option<nat>>

  /** The step that unblocks `t`: its own, or that of the thread holding the lock it waits for. */
  function NextStep(s: State, t: Thread, verdict: Verdict): Step {
    if s.monitor.Some? then Step.Run(s.monitor.value)
    else if s.eventLock.Some? then
      var u := s.eventLock.value;
      if At(s, u).Filtering? then (if verdict(s).None? then Reject(u) else Accept(u, verdict(s).value))
      else if At(s, u).Leaving? then Return(u)
      else Enter(u)
    else if At(s, t).Waiting? then Enter(t)
    else if At(s, t).Detaching? && At(s, t).left != [] then DetachOne(t)
    else DetachEnd(t)
  }

  /**
    No reachable state is a deadlock: as long as one thread is inside an operation, some thread
    can go on, although callbacks take the monitor while they hold the event lock.
   */
  lemma NoDeadlock(table: seq<int>, r: Basics.Run<Step>, t: Thread, verdict: Verdict)
    requires Legal(table, r) && !At(After(table, r), t).Idle?
    ensures var step := NextStep(After(table, r), t, verdict);
            Progress(step) && Enabled(After(table, r), step)
  {
    var s := After(table, r);
    var who := Reachable(table, r);
    assert Placed(s, who, t);
    if s.eventLock.Some? {
      assert Placed(s, who, s.eventLock.value);
    }
  }

  /** Steps a thread at `p` has at most left before it is idle. */
  function Rank(table: seq<int>, p: Place): nat {
    match p
    case Idle => 0
    case Leaving => 1
    case Inside(op) =>
      (match op case Release => 4 + |table| case Dispatch(_) => 2 case _ => 1)
    case Waiting(op) =>
      (match op case Release => 5 + |table| case Dispatch(_) => 3 case _ => 2)
    case Detaching(left) => 3 + |left|
    case Filtering => 4
  }

  /** The ranks of `t` and of the threads it may have to wait for. */
  function Burden(s: State, t: Thread): nat {
    Rank(s.table, At(s, t))
    + (if s.eventLock.Some? && s.eventLock != Some(t) then Rank(s.table, At(s, s.eventLock.value)) else 0)
    + (if s.monitor.Some? && s.monitor != Some(t) && s.monitor != s.eventLock
       then Rank(s.table, At(s, s.monitor.value)) else 0)
  }

  /** The thread in the monitor leaves it. */
  lemma RunShrinks(s: State, who: Thread, t: Thread)
    requires InvFor(s, who) && !At(s, t).Idle? && s.monitor.Some?
    ensures var s' := Apply(s, Step.Run(s.monitor.value)); s'.table == s.table && Burden(s', t) < Burden(s, t)
  {
    assert Placed(s, who, t) && Placed(s, who, s.monitor.value);
    if s.eventLock.Some? {
      assert Placed(s, who, s.eventLock.value);
    }
  }

  /** The callback goes on, or the thread itself. */
  lemma MoveShrinks(s: State, who: Thread, t: Thread, verdict: Verdict)
    requires InvFor(s, who) && !At(s, t).Idle? && s.monitor.None? && Enabled(s, NextStep(s, t, verdict))
    ensures var s' := Apply(s, NextStep(s, t, verdict)); s'.table == s.table && Burden(s', t) < Burden(s, t)
  {
    assert Placed(s, who, t);
    if s.eventLock.Some? {
      assert Placed(s, who, s.eventLock.value);
    }
  }

  /** `later` goes on from `earlier` without any new call or event, and as the filters decide. */
  predicate Continues(table: seq<int>, verdict: Verdict, later: Basics.Run<Step>, earlier: Basics.Run<Step>)
    decreases later
  {
    || later == earlier
    || (&& later.Then? && Progress(later.last)
        && (later.last.Reject? ==> verdict(After(table, later.before)).None?)
        && (later.last.Accept? ==> verdict(After(table, later.before)) == Some(later.last.event))
        && Continues(table, verdict, later.before, earlier))
  }

  lemma {:induction false} ContinuesTransitive(
      table: seq<int>, verdict: Verdict, a: Basics.Run<Step>, b: Basics.Run<Step>, c: Basics.Run<Step>)
    requires Continues(table, verdict, a, b) && Continues(table, verdict, b, c)
    ensures Continues(table, verdict, a, c)
    decreases a
  {
    if a == b {
    } else {
      ContinuesTransitive(table, verdict, a.before, b, c);
    }
  }

  /** Whatever the filters decide, every operation in progress can be brought to its end by the threads already running. */
  lemma {:induction false} EveryOperationCanComplete(table: seq<int>, r: Basics.Run<Step>, t: Thread, verdict: Verdict)
    returns (end: Basics.Run<Step>)
    requires Legal(table, r)
    ensures Legal(table, end) && Continues(table, verdict, end, r) && At(After(table, end), t).Idle?
    decreases Burden(After(table, r), t)
  {
    var s := After(table, r);
    if At(s, t).Idle? {
      end := r;
    } else {
      NoDeadlock(table, r, t, verdict);
      var who := Reachable(table, r);
      if s.monitor.Some? {
        RunShrinks(s, who, t);
      } else {
        MoveShrinks(s, who, t, verdict);
      }
      var next := Then(r, NextStep(s, t, verdict));
      end := EveryOperationCanComplete(table, next, t, verdict);
      ContinuesTransitive(table, verdict, end, next, r);
    }
  }

  // ---------------------------------------------------------------------------
  // A whole life
  // ---------------------------------------------------------------------------

  /** An object attached to one event. */
  const TABLE := [5]

  /** A thread goes through the monitor. */
  lemma BlockRuns(r: Basics.Run<Step>, t: Thread) returns (end: Basics.Run<Step>)
    requires Legal(TABLE, r) && At(After(TABLE, r), t).Waiting? && After(TABLE, r).monitor.None?
    ensures Legal(TABLE, end)
    ensures var s := After(TABLE, r);
            After(TABLE, end) == RunOp(s.(places := s.places[t := Inside(At(s, t).op)], monitor := Some(t)), t, At(s, t).op)
  {
    var entered := Then(r, Enter(t));
    assert Legal(TABLE, entered);
    end := Then(entered, Step.Run(t));
  }

  /** Thread 1 listens. */
  lemma ListenerSet() returns (r: Basics.Run<Step>)
    ensures Legal(TABLE, r)
    ensures After(TABLE, r) == Created(TABLE).(fields := Fields(1, Some(9), Some(MAIN_LOOPER), []), places := map[1 := Idle])
  {
    var begun := Then(Start, Begin(1, Listen(Some(9), None)));
    assert Legal(TABLE, begun) && After(TABLE, begun).places == map[1 := Waiting(Listen(Some(9), None))];
    r := BlockRuns(begun, 1);
    assert map[1 := Waiting(Listen(Some(9), None))][1 := Inside(Listen(Some(9), None))][1 := Idle] == map[1 := Idle];
  }

  /** Its event fires in thread 2, and is accepted. */
  lemma EventAccepted() returns (r: Basics.Run<Step>)
    ensures Legal(TABLE, r)
    ensures After(TABLE, r)
         == Created(TABLE).(fields := Fields(1, Some(9), Some(MAIN_LOOPER), []), eventLock := Some(2),
                            places := map[1 := Idle, 2 := Waiting(Dispatch(Some(3)))])
  {
    var listening := ListenerSet();
    var fired := Then(listening, Fire(2, 5));
    assert Legal(TABLE, fired) && After(TABLE, fired).places == map[1 := Idle, 2 := Filtering];
    r := Then(fired, Accept(2, Some(3)));
  }

  /** It is posted, and delivered. */
  lemma EventDelivered() returns (r: Basics.Run<Step>)
    ensures Legal(TABLE, r)
    ensures var s := After(TABLE, r);
            && s.fields == Fields(1, Some(9), Some(MAIN_LOOPER), []) && s.started == [Posted(9, 3)]
            && At(s, 1).Idle? && At(s, 3).Idle? && s.monitor.None? && s.eventLock.None?
            && s.registered == {5} && s.freed == 0 && s.table == TABLE
  {
    var accepted := EventAccepted();
    var posted := BlockRuns(accepted, 2);
    var s := After(TABLE, posted);
    assert s.fields.queue == [Posted(9, 3)] && s.places == map[1 := Idle, 2 := Leaving];
    var returned := Then(posted, Return(2));
    assert Legal(TABLE, returned) && At(After(TABLE, returned), 1).Idle? && At(After(TABLE, returned), 3).Idle?;
    r := Then(returned, StartEvent);
  }

  /** Then thread 3 retains and releases it; the first reference is left. */
  lemma RetainedAndReleased() returns (r: Basics.Run<Step>)
    ensures Legal(TABLE, r)
    ensures var s := After(TABLE, r);
            && s.fields == Fields(1, Some(9), Some(MAIN_LOOPER), []) && s.started == [Posted(9, 3)]
            && At(s, 1).Idle? && s.monitor.None? && s.eventLock.None? && s.registered == {5} && s.freed == 0
            && s.table == TABLE
  {
    var delivered := EventDelivered();
    var begun := Then(delivered, Begin(3, Retain));
    assert Legal(TABLE, begun) && At(After(TABLE, begun), 3) == Waiting(Retain) && At(After(TABLE, begun), 1).Idle?;
    var retained := BlockRuns(begun, 3);
    assert After(TABLE, retained).fields.refCount == 2;
    assert At(After(TABLE, retained), 3).Idle? && At(After(TABLE, retained), 1).Idle?;
    var again := Then(retained, Begin(3, Release));
    assert Legal(TABLE, again) && At(After(TABLE, again), 3) == Waiting(Release) && At(After(TABLE, again), 1).Idle?;
    r := BlockRuns(again, 3);
  }

  /** An object that delivers an event, and is then released, detached and freed. */
  lemma WholeLife() returns (r: Basics.Run<Step>)
    ensures Legal(TABLE, r)
    ensures After(TABLE, r).started == [Posted(9, 3)] && After(TABLE, r).freed == 1
    ensures After(TABLE, r).fields == Fields(0, None, None, []) && After(TABLE, r).registered == {}
  {
    var delivered := RetainedAndReleased();
    var begun := Then(delivered, Begin(1, Release));
    assert Legal(TABLE, begun) && At(After(TABLE, begun), 1) == Waiting(Release);
    var released := BlockRuns(begun, 1);
    assert At(After(TABLE, released), 1) == Detaching(TABLE) && After(TABLE, released).eventLock.None?;
    var detached := Then(released, DetachOne(1));
    assert Legal(TABLE, detached) && At(After(TABLE, detached), 1) == Detaching([]);
    assert After(TABLE, detached).registered == {};
    var ended := Then(detached, DetachEnd(1));
    assert Legal(TABLE, ended) && At(After(TABLE, ended), 1) == Waiting(ReleaseNative);
    r := BlockRuns(ended, 1);
  }
}
