/**
  Whole histories of a media list before its own release: native insertions and deletions,
  queued events, and clients that retain and release its media (`MediaList.java` above the
  counts of `VLCObject.java`).
 */
module MediaListRuns {
  import opened Basics
  import opened MediaLists

  type Id = nat
  type Item = nat
  type Slots = seq<Option<Id>>

  /** The events of a list in the handler's queue; only `Added` holds a reference. */
  datatype Queued = Added(media: Id) | Deleted(removed: Option<Id>)

  datatype Shape = Shape(native: seq<Item>, slots: Slots, count: nat)

  /** The mirror has as many live slots as the native list has items. */
  type Mirror = m: Shape | |m.native| == m.count <= |m.slots| witness Shape([], [], 0)

  datatype State = State(
    mirror: Mirror,
    itemOf: map<Id, Item>,     // every media made so far, with the native media it wraps
    refs: multiset<Id>,        // mNativeRefCount of each media
    held: multiset<Id>,        // references taken by clients
    lost: multiset<Id>,        // references of events dropped without being run
    listening: bool,
    queue: seq<Queued>,
    running: Option<Queued>,
    insertions: nat,
    deletions: nat,
    outsideReads: nat,         // reads of `valueAt` past the end of the array
    outside: Option<Id>        // what the last of them returned
  )

  datatype Step =
    | ItemAdded(index: nat, item: Item, id: Id, beyond: Option<Id>)
    | ItemDeleted(index: nat)
    | StartEvent
    | EndEvent
    | GetMediaAt(index: nat)
    | Retain(id: Id)
    | Release(id: Id)
    | SetListener(on: bool)

  /** The media in a stretch of the array, empty slots left out. */
  function Somes(slots: Slots): seq<Id> {
    if slots == [] then []
    else Somes(slots[..|slots|-1]) + if slots[|slots|-1].Some? then [slots[|slots|-1].value] else []
  }

  function Live(m: Mirror): seq<Id> {
    Somes(m.slots[..m.count])
  }

  function Kept(e: Queued): multiset<Id> {
    if e.Added? then multiset{e.media} else multiset{}
  }

  function AllKept(queue: seq<Queued>): multiset<Id> {
    if queue == [] then multiset{} else Kept(queue[0]) + AllKept(queue[1..])
  }

  function RunningKept(s: State): multiset<Id> {
    if s.running.Some? then Kept(s.running.value) else multiset{}
  }

  predicate Enabled(s: State, step: Step) {
    match step
    case ItemAdded(index, _, id, _) => index <= |s.mirror.native| && id !in s.itemOf
    case ItemDeleted(index) => index < |s.mirror.native|
    case StartEvent => s.running.None? && s.queue != []
    case EndEvent => s.running.Some?
    case GetMediaAt(index) => index < s.mirror.count && s.mirror.slots[index].Some?
    case Retain(id) => id in s.itemOf
    case Release(id) => id in s.held
    case SetListener(_) => true
  }

  /** Hands an event to the handler, or drops it when nobody listens. */
  function Post(s: State, e: Queued): State {
    if s.listening then s.(queue := s.queue + [e]) else s.(lost := s.lost + Kept(e))
  }

  /** A client retains a media, which fails once its count is zero. */
  function Taken(s: State, id: Id): State {
    if id in s.refs then s.(refs := s.refs + multiset{id}, held := s.held + multiset{id}) else s
  }

  function Given(s: State, id: Id): State {
    s.(refs := s.refs - multiset{id}, held := s.held - multiset{id})
  }

  /** An insertion before its event is posted: the media has the references of the list and of the event. */
  function Grown(s: State, index: nat, item: Item, id: Id, beyond: Option<Id>): State
    requires index <= s.mirror.count
  {
    var m, out := s.mirror, s.mirror.count == |s.mirror.slots|;
    s.(mirror := Shape(Inserted(m.native, index, item),
                       SlotsAfterInsert(m.slots, m.count, index, Some(id), beyond), m.count + 1),
       itemOf := s.itemOf[id := item],
       refs := s.refs + multiset{id, id},
       insertions := s.insertions + 1,
       outsideReads := s.outsideReads + if out then 1 else 0,
       outside := if out then beyond else s.outside)
  }

  function Shrunk(s: State, index: nat): State
    requires index < s.mirror.count
  {
    var m, media := s.mirror, s.mirror.slots[index];
    s.(mirror := Shape(Removed(m.native, index), SlotsAfterRemove(m.slots, m.count, index), m.count - 1),
       refs := if media.Some? then s.refs - multiset{media.value} else s.refs,
       deletions := s.deletions + 1)
  }

  function Apply(s: State, step: Step): State {
    if !Enabled(s, step) then s else
    match step
    case ItemAdded(index, item, id, beyond) => Post(Grown(s, index, item, id, beyond), Added(id))
    case ItemDeleted(index) => Post(Shrunk(s, index), Deleted(s.mirror.slots[index]))
    case StartEvent => s.(running := Some(s.queue[0]), queue := s.queue[1..])
    case EndEvent => s.(running := None, refs := s.refs - RunningKept(s))
    case GetMediaAt(index) => Taken(s, s.mirror.slots[index].value)
    case Retain(id) => Taken(s, id)
    case Release(id) => Given(s, id)
    case SetListener(on) =>
      s.(listening := on, queue := if s.listening then [] else s.queue,
         lost := s.lost + if s.listening then AllKept(s.queue) else multiset{})
  }

  /** A list just made by `init`: one new media, with one reference, for each native item. */
  predicate IsNew(s: State) {
    var m := s.mirror;
    && |m.slots| == m.count
    && (forall k :: 0 <= k < m.count ==>
          m.slots[k].Some? && m.slots[k].value in s.itemOf && s.itemOf[m.slots[k].value] == m.native[k])
    && (forall j, k :: 0 <= j < k < m.count ==> m.slots[j] != m.slots[k])
    && s.refs == multiset(Live(m))
    && s.held == s.lost == multiset{} && !s.listening && s.queue == [] && s.running.None?
    && s.insertions == s.deletions == s.outsideReads == 0
  }

  function After(start: State, r: Basics.Run<Step>): State {
    match r
    case Start => start
    case Then(before, step) => Apply(After(start, before), step)
  }

  predicate Legal(start: State, r: Basics.Run<Step>) {
    r.Then? ==> Legal(start, r.before) && Enabled(After(start, r.before), r.last)
  }

  // ---------------------------------------------------------------------------
  // Invariant
  // ---------------------------------------------------------------------------

  /** Slot by slot, the live media wrap the native items. */
  predicate Mirrors(s: State) {
    var m := s.mirror;
    forall k :: 0 <= k < m.count ==>
      m.slots[k].Some? && m.slots[k].value in s.itemOf && s.itemOf[m.slots[k].value] == m.native[k]
  }

  /** Who holds references to a media: the list, queued and running events, clients, dropped events. */
  function Holders(s: State, id: Id): nat {
    multiset(Live(s.mirror))[id] + AllKept(s.queue)[id] + RunningKept(s)[id] + s.held[id] + s.lost[id]
  }

  predicate BalancedFor(s: State, id: Id) {
    && s.refs[id] == Holders(s, id)
    && (id !in s.itemOf ==> s.refs[id] == 0)
    && multiset(Live(s.mirror))[id] <= 1
  }

  ghost predicate Balanced(s: State) {
    (s.queue != [] ==> s.listening) && forall id: Id :: BalancedFor(s, id)
  }

  /** The slots past the live ones. */
  predicate TailShape(s: State) {
    var m := s.mirror;
    && s.outsideReads <= 1
    && (s.insertions + s.deletions > 0 <==> m.count < |m.slots|)
    && (s.insertions + s.deletions == 0 ==> s.outsideReads == 0)
    && (s.deletions > 0 ==> m.slots[m.count].Some?)
    && (s.deletions == 0 && s.insertions > 0 ==>
          |m.slots| == m.count + 1 && m.slots[m.count] == s.outside)
  }

  ghost predicate Inv(s: State) {
    Mirrors(s) && Balanced(s) && TailShape(s)
  }

  lemma {:induction false} SomesConcat(a: Slots, b: Slots)
    ensures Somes(a + b) == Somes(a) + Somes(b)
  {
    if b == [] {
      assert a + b == a;
    } else {
      SomesConcat(a, b[..|b|-1]);
      assert (a + b)[..|a + b|-1] == a + b[..|b|-1];
    }
  }

  lemma {:induction false} AllKeptPush(queue: seq<Queued>, e: Queued)
    ensures AllKept(queue + [e]) == AllKept(queue) + Kept(e)
  {
    if queue == [] {
      assert queue + [e] == [e];
    } else {
      AllKeptPush(queue[1..], e);
      assert (queue + [e])[1..] == queue[1..] + [e];
    }
  }

  lemma InsertedLive(m: Mirror, index: nat, item: Item, id: Id, beyond: Option<Id>)
    requires index <= m.count
    ensures var slots := SlotsAfterInsert(m.slots, m.count, index, Some(id), beyond);
            && multiset(Somes(slots[..m.count + 1])) == multiset(Live(m)) + multiset{id}
  {
    var slots := SlotsAfterInsert(m.slots, m.count, index, Some(id), beyond);
    var a, b := m.slots[..index], m.slots[index..m.count];
    assert slots[..m.count + 1] == a + [Some(id)] + b;
    assert m.slots[..m.count] == a + b;
    SomesConcat(a + [Some(id)], b);
    SomesConcat(a, [Some(id)]);
    SomesConcat(a, b);
    assert Somes([Some(id)]) == [id];
  }

  lemma RemovedLive(m: Mirror, index: nat)
    requires index < m.count && m.slots[index].Some?
    ensures var slots := SlotsAfterRemove(m.slots, m.count, index);
            multiset(Live(m)) == multiset(Somes(slots[..m.count - 1])) + multiset{m.slots[index].value}
  {
    var slots := SlotsAfterRemove(m.slots, m.count, index);
    var a, x, b := m.slots[..index], m.slots[index], m.slots[index+1..m.count];
    assert slots[..m.count - 1] == a + b;
    assert m.slots[..m.count] == a + [x] + b;
    SomesConcat(a + [x], b);
    SomesConcat(a, [x]);
    SomesConcat(a, b);
    assert Somes([x]) == [x.value];
  }

  lemma AddKeepsSlots(s: State, index: nat, item: Item, id: Id, beyond: Option<Id>)
    requires Mirrors(s) && TailShape(s) && index <= s.mirror.count && id !in s.itemOf
    ensures Mirrors(Grown(s, index, item, id, beyond)) && TailShape(Grown(s, index, item, id, beyond))
  {
  }

  lemma DeleteKeepsSlots(s: State, index: nat)
    requires Mirrors(s) && TailShape(s) && index < s.mirror.count
    ensures Mirrors(Shrunk(s, index)) && TailShape(Shrunk(s, index))
  {
  }

  /** Steps that leave the array alone. */
  predicate OffArray(step: Step) {
    || step.StartEvent? || step.EndEvent? || step.GetMediaAt?
    || step.Retain? || step.Release? || step.SetListener?
  }

  /** The array, the native list and what is recorded about them are the same. */
  predicate SameList(s: State, s': State) {
    && s'.mirror == s.mirror && s'.itemOf == s.itemOf && s'.outside == s.outside
    && s'.insertions == s.insertions && s'.deletions == s.deletions && s'.outsideReads == s.outsideReads
  }

  lemma EventStep(s: State, step: Step)
    requires Enabled(s, step) && (step.StartEvent? || step.EndEvent? || step.SetListener?)
    ensures SameList(s, Apply(s, step))
  {
  }

  lemma ClientStep(s: State, step: Step)
    requires Enabled(s, step) && (step.GetMediaAt? || step.Retain? || step.Release?)
    ensures SameList(s, Apply(s, step))
  {
  }

  lemma OtherSteps(s: State, step: Step)
    requires OffArray(step) && Enabled(s, step)
    ensures SameList(s, Apply(s, step))
  {
    if step.StartEvent? || step.EndEvent? || step.SetListener? {
      EventStep(s, step);
    } else {
      ClientStep(s, step);
    }
  }

  lemma PostHolders(s: State, e: Queued, id: Id)
    ensures Holders(Post(s, e), id) == Holders(s, id) + Kept(e)[id]
    ensures Post(s, e).(queue := s.queue, lost := s.lost) == s
  {
    AllKeptPush(s.queue, e);
  }

  lemma GrownLive(s: State, index: nat, item: Item, added: Id, beyond: Option<Id>)
    requires index <= s.mirror.count
    ensures multiset(Live(Grown(s, index, item, added, beyond).mirror)) == multiset(Live(s.mirror)) + multiset{added}
  {
    InsertedLive(s.mirror, index, item, added, beyond);
  }

  lemma GrownHolders(s: State, index: nat, item: Item, added: Id, beyond: Option<Id>, id: Id)
    requires index <= s.mirror.count
    ensures var s', more := Grown(s, index, item, added, beyond), if id == added then 1 else 0;
            && Holders(s', id) == Holders(s, id) + more
            && multiset(Live(s'.mirror))[id] == multiset(Live(s.mirror))[id] + more
            && s'.refs[id] == s.refs[id] + 2 * more
  {
    GrownLive(s, index, item, added, beyond);
  }

  lemma ShrunkHolders(s: State, index: nat, id: Id)
    requires index < s.mirror.count && s.mirror.slots[index].Some?
    ensures var s', less := Shrunk(s, index), if Some(id) == s.mirror.slots[index] then 1 else 0;
            && Holders(s', id) == Holders(s, id) - less
            && multiset(Live(s'.mirror))[id] == multiset(Live(s.mirror))[id] - less
            && (s.refs[id] >= less ==> s'.refs[id] == s.refs[id] - less)
  {
    RemovedLive(s.mirror, index);
  }

  lemma AddBalances(s: State, index: nat, item: Item, added: Id, beyond: Option<Id>, id: Id)
    requires BalancedFor(s, id) && index <= s.mirror.count && added !in s.itemOf
    ensures BalancedFor(Post(Grown(s, index, item, added, beyond), Added(added)), id)
  {
    GrownHolders(s, index, item, added, beyond, id);
    PostHolders(Grown(s, index, item, added, beyond), Added(added), id);
  }

  lemma DeleteBalances(s: State, index: nat, id: Id)
    requires BalancedFor(s, id) && index < s.mirror.count && s.mirror.slots[index].Some?
    ensures BalancedFor(Post(Shrunk(s, index), Deleted(s.mirror.slots[index])), id)
  {
    ShrunkHolders(s, index, id);
    PostHolders(Shrunk(s, index), Deleted(s.mirror.slots[index]), id);
  }

  lemma EventBalances(s: State, step: Step, id: Id)
    requires Balanced(s) && (step.StartEvent? || step.EndEvent? || step.SetListener?) && Enabled(s, step)
    ensures BalancedFor(Apply(s, step), id)
  {
    assert BalancedFor(s, id);
    if step.StartEvent? {
      assert AllKept(s.queue) == Kept(s.queue[0]) + AllKept(s.queue[1..]);
    } else if step.SetListener? {
      assert AllKept([]) == multiset{};
    }
  }

  lemma TakeBalances(s: State, taken: Id, id: Id)
    requires BalancedFor(s, id)
    ensures BalancedFor(Taken(s, taken), id)
  {
  }

  lemma OneLess(m: multiset<Id>, x: Id, y: Id)
    requires x in m
    ensures (m - multiset{x})[y] == if x == y then m[y] - 1 else m[y]
  {
  }

  lemma GiveBalances(s: State, given: Id, id: Id)
    requires given in s.held && BalancedFor(s, id) && BalancedFor(s, given)
    ensures BalancedFor(Given(s, given), id)
  {
    OneLess(s.held, given, id);
    OneLess(s.refs, given, id);
  }

  lemma QueueNeedsListener(s: State, step: Step)
    requires Enabled(s, step) && (s.queue != [] ==> s.listening)
    ensures Apply(s, step).queue != [] ==> Apply(s, step).listening
  {
  }

  lemma Preserved(s: State, step: Step)
    requires Inv(s) && Enabled(s, step)
    ensures Inv(Apply(s, step))
  {
    if step.ItemAdded? {
      AddKeepsSlots(s, step.index, step.item, step.id, step.beyond);
    } else if step.ItemDeleted? {
      DeleteKeepsSlots(s, step.index);
    } else {
      OtherSteps(s, step);
    }
    QueueNeedsListener(s, step);
    forall id: Id ensures BalancedFor(Apply(s, step), id) {
      assert BalancedFor(s, id);
      match step {
        case ItemAdded(index, item, added, beyond) => AddBalances(s, index, item, added, beyond, id);
        case ItemDeleted(index) => DeleteBalances(s, index, id);
        case StartEvent => EventBalances(s, step, id);
        case EndEvent => EventBalances(s, step, id);
        case SetListener(_) => EventBalances(s, step, id);
        case GetMediaAt(index) => TakeBalances(s, s.mirror.slots[index].value, id);
        case Retain(taken) => TakeBalances(s, taken, id);
        case Release(given) => assert BalancedFor(s, given); GiveBalances(s, given, id);
      }
    }
  }

  lemma {:induction false} SomesAreSlots(slots: Slots, id: Id)
    requires id in Somes(slots)
    ensures exists k :: 0 <= k < |slots| && slots[k] == Some(id)
  {
    var last := |slots| - 1;
    if slots[last] == Some(id) {
    } else {
      SomesAreSlots(slots[..last], id);
      var k :| 0 <= k < last && slots[..last][k] == Some(id);
      assert slots[k] == Some(id);
    }
  }

  lemma {:induction false} DistinctSlots(slots: Slots, id: Id)
    requires forall j, k :: 0 <= j < k < |slots| ==> slots[j] != slots[k]
    ensures multiset(Somes(slots))[id] <= 1
  {
    if slots == [] {
    } else {
      var last := |slots| - 1;
      var rest := Somes(slots[..last]);
      DistinctSlots(slots[..last], id);
      if slots[last] == Some(id) {
        if id in rest {
          SomesAreSlots(slots[..last], id);
          assert false;
        }
        assert id !in multiset(rest);
      }
    }
  }

  lemma NewHolds(s: State)
    requires IsNew(s)
    ensures Inv(s)
  {
    forall id: Id ensures BalancedFor(s, id) {
      assert s.mirror.slots[..s.mirror.count] == s.mirror.slots;
      DistinctSlots(s.mirror.slots, id);
      if id in Live(s.mirror) {
        SomesAreSlots(s.mirror.slots, id);
      }
    }
  }

  lemma {:induction false} Reachable(start: State, r: Basics.Run<Step>)
    requires IsNew(start) && Legal(start, r)
    ensures Inv(After(start, r))
  {
    match r
    case Start => NewHolds(start);
    case Then(before, step) =>
      Reachable(start, before);
      Preserved(After(start, before), step);
  }

  // ---------------------------------------------------------------------------
  // What every run keeps
  // ---------------------------------------------------------------------------

  lemma LiveHas(m: Mirror, k: nat)
    requires k < m.count && m.slots[k].Some?
    ensures m.slots[k].value in Live(m)
  {
    var a, b := m.slots[..k], m.slots[k+1..m.count];
    assert m.slots[..m.count] == a + [m.slots[k]] + b;
    SomesConcat(a + [m.slots[k]], b);
    SomesConcat(a, [m.slots[k]]);
  }

  /** After any run the live media wrap the native list, item by item, and none has been released. */
  lemma MirrorsNativeList(start: State, r: Basics.Run<Step>, k: nat)
    requires IsNew(start) && Legal(start, r) && k < |After(start, r).mirror.native|
    ensures var s := After(start, r);
            && s.mirror.count == |s.mirror.native|
            && s.mirror.slots[k].Some?
            && s.mirror.slots[k].value in s.itemOf
            && s.itemOf[s.mirror.slots[k].value] == s.mirror.native[k]
            && s.refs[s.mirror.slots[k].value] > 0
  {
    Reachable(start, r);
    var s := After(start, r);
    var id := s.mirror.slots[k].value;
    assert BalancedFor(s, id);
    LiveHas(s.mirror, k);
  }

  lemma {:induction false} QueueHas(queue: seq<Queued>, id: Id)
    requires Added(id) in queue
    ensures AllKept(queue)[id] > 0
  {
    if queue[0] == Added(id) {
    } else {
      QueueHas(queue[1..], id);
    }
  }

  /** The media of an insertion event lives until its runnable has run, even if deleted meanwhile. */
  lemma AnnouncedMediaAlive(start: State, r: Basics.Run<Step>, id: Id)
    requires IsNew(start) && Legal(start, r)
    requires Added(id) in After(start, r).queue || After(start, r).running == Some(Added(id))
    ensures After(start, r).refs[id] > 0
  {
    Reachable(start, r);
    var s := After(start, r);
    assert BalancedFor(s, id);
    if Added(id) in s.queue {
      QueueHas(s.queue, id);
    }
  }

  /** The count of every media is the number of its holders. */
  lemma ReferencesAreHeld(start: State, r: Basics.Run<Step>, id: Id)
    requires IsNew(start) && Legal(start, r)
    ensures After(start, r).refs[id] == Holders(After(start, r), id)
  {
    Reachable(start, r);
    assert BalancedFor(After(start, r), id);
  }

  lemma DeleteStep(s: State, index: nat)
    requires Inv(s) && index < s.mirror.count
    ensures var s', id := Apply(s, Step.ItemDeleted(index)), s.mirror.slots[index].value;
            && s'.mirror == Shape(Removed(s.mirror.native, index),
                                  SlotsAfterRemove(s.mirror.slots, s.mirror.count, index), s.mirror.count - 1)
            && s'.refs == s.refs - multiset{id} && s'.itemOf == s.itemOf
  {
  }

  /** A deletion takes exactly one reference from its media, which is then off the list. */
  lemma DeletionDropsOneReference(start: State, r: Basics.Run<Step>, index: nat)
    requires IsNew(start) && Legal(start, r) && index < After(start, r).mirror.count
    requires After(start, r).mirror.slots[index].Some?
    ensures var s, s' := After(start, r), Apply(After(start, r), Step.ItemDeleted(index));
            var id := s.mirror.slots[index].value;
            && id in s.refs && s'.refs == s.refs - multiset{id}
            && id in Live(s.mirror) && id !in Live(s'.mirror)
  {
    Reachable(start, r);
    var s := After(start, r);
    var id := s.mirror.slots[index].value;
    LiveHas(s.mirror, index);
    DeleteStep(s, index);
    assert BalancedFor(s, id);
    RemovedLive(s.mirror, index);
  }

  lemma OffListStep(s: State, step: Step, id: Id)
    requires Inv(s) && Enabled(s, step) && id in s.itemOf && id !in Live(s.mirror)
    ensures id in Apply(s, step).itemOf && id !in Live(Apply(s, step).mirror)
  {
    match step {
      case ItemAdded(index, item, added, beyond) =>
        GrownLive(s, index, item, added, beyond);
        assert id !in multiset(Live(s.mirror)) + multiset{added};
      case ItemDeleted(index) =>
        RemovedLive(s.mirror, index);
        assert id !in multiset(Live(s.mirror));
      case _ =>
        OtherSteps(s, step);
    }
  }

  /** A media that left the list never comes back to it, so the list drops it only once. */
  lemma {:induction false} OffListForEver(start: State, later: Basics.Run<Step>, earlier: Basics.Run<Step>, id: Id)
    requires IsNew(start) && Legal(start, later) && Extends(later, earlier)
    requires id in After(start, earlier).itemOf && id !in Live(After(start, earlier).mirror)
    ensures id in After(start, later).itemOf && id !in Live(After(start, later).mirror)
  {
    if later == earlier {
    } else {
      OffListForEver(start, later.before, earlier, id);
      Reachable(start, later.before);
      OffListStep(After(start, later.before), later.last, id);
    }
  }

  /** Past its first insertion or deletion the array keeps a spare slot, so it is read beyond its end once at most. */
  lemma OutsideReadAtMostOnce(start: State, r: Basics.Run<Step>)
    requires IsNew(start) && Legal(start, r)
    ensures var s := After(start, r);
            && s.outsideReads <= 1
            && (s.insertions + s.deletions > 0 <==> s.mirror.count < |s.mirror.slots|)
  {
    Reachable(start, r);
  }

  /** An event that holds a reference is dropped: nobody listens, or the listener is replaced first. */
  predicate Drops(s: State, step: Step) {
    || (step.ItemAdded? && !s.listening)
    || (step.SetListener? && exists e <- s.queue :: e.Added?)
  }

  predicate DroppedSome(start: State, r: Basics.Run<Step>) {
    r.Then? && (DroppedSome(start, r.before) || Drops(After(start, r.before), r.last))
  }

  lemma {:induction false} NothingKept(queue: seq<Queued>)
    ensures AllKept(queue) != multiset{} <==> exists e <- queue :: e.Added?
  {
    if queue == [] {
    } else {
      NothingKept(queue[1..]);
      assert queue == [queue[0]] + queue[1..];
    }
  }

  lemma EmptySum(a: multiset<Id>, b: multiset<Id>)
    ensures a + b != multiset{} <==> a != multiset{} || b != multiset{}
  {
    if x :| x in a {
      assert x in a + b;
    } else if y :| y in b {
      assert y in a + b;
    }
  }

  /** The references of the events dropped by a step. */
  function Discarded(s: State, step: Step): multiset<Id> {
    match step
    case ItemAdded(_, _, id, _) => if s.listening then multiset{} else multiset{id}
    case SetListener(_) => if s.listening then AllKept(s.queue) else multiset{}
    case _ => multiset{}
  }

  lemma LostStep(s: State, step: Step)
    requires Enabled(s, step)
    ensures Apply(s, step).lost == s.lost + Discarded(s, step)
  {
  }

  lemma DropsIff(s: State, step: Step)
    requires Enabled(s, step) && (s.queue != [] ==> s.listening)
    ensures Discarded(s, step) != multiset{} <==> Drops(s, step)
  {
    NothingKept(s.queue);
  }

  lemma LeakStep(s: State, step: Step)
    requires Enabled(s, step) && (s.queue != [] ==> s.listening)
    ensures Apply(s, step).lost != multiset{} <==> s.lost != multiset{} || Drops(s, step)
  {
    LostStep(s, step);
    DropsIff(s, step);
    EmptySum(s.lost, Discarded(s, step));
  }

  lemma {:induction false} LostIffDropped(start: State, r: Basics.Run<Step>)
    requires IsNew(start) && Legal(start, r)
    ensures After(start, r).lost != multiset{} <==> DroppedSome(start, r)
  {
    match r
    case Start =>
    case Then(before, step) =>
      LostIffDropped(start, before);
      Reachable(start, before);
      LeakStep(After(start, before), step);
  }

  /** The media has more references than the list, its events and the clients hold. */
  predicate Leaked(s: State, id: Id) {
    s.refs[id] > multiset(Live(s.mirror))[id] + AllKept(s.queue)[id] + RunningKept(s)[id] + s.held[id]
  }

  /** Some media has a reference that nobody holds exactly in the runs that drop an insertion event. */
  lemma LeaksIffDropped(start: State, r: Basics.Run<Step>)
    requires IsNew(start) && Legal(start, r)
    ensures (exists id: Id :: Leaked(After(start, r), id)) <==> DroppedSome(start, r)
  {
    var s := After(start, r);
    LostIffDropped(start, r);
    if DroppedSome(start, r) {
      var id :| id in s.lost;
      ReferencesAreHeld(start, r, id);
      assert Leaked(s, id);
    } else {
      forall id: Id ensures !Leaked(s, id) {
        ReferencesAreHeld(start, r, id);
      }
    }
  }

  lemma {:induction false} LostStays(start: State, later: Basics.Run<Step>, earlier: Basics.Run<Step>, id: Id)
    requires Legal(start, later) && Extends(later, earlier)
    ensures After(start, earlier).lost[id] <= After(start, later).lost[id]
  {
    if later == earlier {
    } else {
      LostStays(start, later.before, earlier, id);
      LostStep(After(start, later.before), later.last);
    }
  }

  /** A leaked media is leaked in every continuation: it is never freed, whoever releases it. */
  lemma LeakedForEver(start: State, later: Basics.Run<Step>, earlier: Basics.Run<Step>, id: Id)
    requires IsNew(start) && Legal(start, later) && Legal(start, earlier) && Extends(later, earlier)
    requires Leaked(After(start, earlier), id)
    ensures Leaked(After(start, later), id) && After(start, later).refs[id] > 0
  {
    ReferencesAreHeld(start, earlier, id);
    ReferencesAreHeld(start, later, id);
    LostStays(start, later, earlier, id);
  }

  const EMPTY_LIST :=
    State(Shape([], [], 0), map[], multiset{}, multiset{}, multiset{}, false, [], None, 0, 0, 0, None)

  lemma EmptyListIsNew()
    ensures IsNew(EMPTY_LIST) && Live(EMPTY_LIST.mirror) == []
  {
  }

  lemma OneInserted()
    ensures Inserted([], 0, 7) == [7]
    ensures SlotsAfterInsert<Option<Id>>([], 0, 0, Some(0), None) == [Some(0), None]
    ensures Somes([Some(0), None][..1]) == [0]
  {
    assert [Some(0), None][..1] == [Some(0)];
  }

  /** One item inserted while nobody listens: its event is dropped, and its media leaks. */
  lemma LeakingRun() returns (r: Basics.Run<Step>)
    ensures IsNew(EMPTY_LIST) && Legal(EMPTY_LIST, r) && DroppedSome(EMPTY_LIST, r)
    ensures Leaked(After(EMPTY_LIST, r), 0)
    ensures After(EMPTY_LIST, r).mirror == Shape([7], [Some(0), None], 1)
  {
    r := Then(Start, Step.ItemAdded(0, 7, 0, None));
    EmptyListIsNew();
    OneInserted();
    assert Legal(EMPTY_LIST, r);
    var s := After(EMPTY_LIST, r);
    assert s.mirror == Shape([7], [Some(0), None], 1);
    assert s.refs == multiset{0, 0} && s.lost == multiset{0};
  }

  predicate Blank(slots: Slots) {
    forall k :: 0 <= k < |slots| ==> slots[k].None?
  }

  lemma {:induction false} SomesEmpty(slots: Slots)
    ensures Somes(slots) == [] <==> Blank(slots)
  {
    if slots == [] {
    } else {
      SomesEmpty(slots[..|slots|-1]);
    }
  }

  lemma SameReleases(live: Slots, tail: Slots)
    ensures multiset(Somes(live + tail)) == multiset(Somes(live)) <==> Somes(tail) == []
  {
    SomesConcat(live, tail);
    var a, b := Somes(live), Somes(tail);
    if b == [] {
      assert a + b == a;
    } else {
      assert multiset(a + b)[b[0]] == multiset(a)[b[0]] + multiset(b)[b[0]];
    }
  }

  lemma ReleasedOnceIffBlank(slots: Slots, count: nat)
    requires count <= |slots|
    ensures multiset(Somes(slots)) == multiset(Somes(slots[..count])) <==> Blank(slots[count..])
  {
    assert slots[..count] + slots[count..] == slots;
    SameReleases(slots[..count], slots[count..]);
    SomesEmpty(slots[count..]);
  }

  lemma EmptyTailIff(s: State)
    requires TailShape(s)
    ensures Blank(s.mirror.slots[s.mirror.count..]) <==> s.deletions == 0 && (s.insertions == 0 || s.outside.None?)
  {
    var tail := s.mirror.slots[s.mirror.count..];
    assert tail != [] ==> tail[0] == s.mirror.slots[s.mirror.count];
  }

  /**
    `onReleaseNative` releases every slot of the array. It gives up each live media once, and
    nothing else, exactly when no item was ever deleted and the read past the end, if there
    was one, gave no media.
   */
  lemma ReleasedOnceIffNeverDeleted(start: State, r: Basics.Run<Step>)
    requires IsNew(start) && Legal(start, r)
    ensures var s := After(start, r);
            multiset(Somes(s.mirror.slots)) == multiset(Live(s.mirror)) <==>
              s.deletions == 0 && (s.insertions == 0 || s.outside.None?)
  {
    Reachable(start, r);
    ReleasedOnceIffBlank(After(start, r).mirror.slots, After(start, r).mirror.count);
    EmptyTailIff(After(start, r));
  }

  lemma OneRemoved()
    ensures var slots := [Some(0), None];
            && SlotsAfterRemove(slots, 1, 0) == slots && Somes(slots) == [0] && Somes(slots[..0]) == []
  {
    var slots: Slots := [Some(0), None];
    assert slots[..1] == [Some(0)] && Somes(slots[..1]) == [0];
  }

  /** One item inserted and deleted: the final release still releases its media, which is on the list no more. */
  lemma ReleasedAgainRun() returns (r: Basics.Run<Step>)
    ensures IsNew(EMPTY_LIST) && Legal(EMPTY_LIST, r)
    ensures Live(After(EMPTY_LIST, r).mirror) == [] && Somes(After(EMPTY_LIST, r).mirror.slots) == [0]
  {
    var added := LeakingRun();
    r := Then(added, Step.ItemDeleted(0));
    OneRemoved();
    assert Enabled(After(EMPTY_LIST, added), Step.ItemDeleted(0));
    assert After(EMPTY_LIST, r).mirror.slots == SlotsAfterRemove([Some(0), None], 1, 0);
  }

  // ---------------------------------------------------------------------------
  // The list and the clients, told from the steps of the run
  // ---------------------------------------------------------------------------

  /** The native list after the insertions and deletions of the run. */
  function Edited(start: State, r: Basics.Run<Step>): seq<Item> {
    match r
    case Start => start.mirror.native
    case Then(before, step) =>
      var list := Edited(start, before);
      match step
      case ItemAdded(index, item, _, _) => if index <= |list| then Inserted(list, index, item) else list
      case ItemDeleted(index) => if index < |list| then Removed(list, index) else list
      case _ => list
  }

  lemma NativeStep(s: State, step: Step)
    requires Enabled(s, step)
    ensures Apply(s, step).mirror.native ==
            match step
            case ItemAdded(index, item, _, _) => Inserted(s.mirror.native, index, item)
            case ItemDeleted(index) => Removed(s.mirror.native, index)
            case _ => s.mirror.native
  {
  }

  lemma {:induction false} NativeListIsEdited(start: State, r: Basics.Run<Step>)
    requires Legal(start, r)
    ensures After(start, r).mirror.native == Edited(start, r)
  {
    match r
    case Start =>
    case Then(before, step) =>
      NativeListIsEdited(start, before);
      NativeStep(After(start, before), step);
  }

  /** References clients have taken from live media, less those they gave back. */
  function Taking(start: State, r: Basics.Run<Step>, id: Id): int {
    match r
    case Start => 0
    case Then(before, step) =>
      var s := After(start, before);
      Taking(start, before, id) +
      match step
      case GetMediaAt(index) => if index < s.mirror.count && s.mirror.slots[index] == Some(id) then 1 else 0
      case Retain(taken) => if taken == id && s.refs[id] > 0 then 1 else 0
      case Release(given) => if given == id then -1 else 0
      case _ => 0
  }

  lemma HeldStep(s: State, step: Step, id: Id)
    requires Enabled(s, step)
    ensures Apply(s, step).held[id] == s.held[id] +
            match step
            case GetMediaAt(index) => if s.mirror.slots[index] == Some(id) && id in s.refs then 1 else 0
            case Retain(taken) => if taken == id && id in s.refs then 1 else 0
            case Release(given) => if given == id then -1 else 0
            case _ => 0
  {
    if step.Release? {
      OneLess(s.held, step.id, id);
    }
  }

  /** Clients hold what they took and have not given back; getting a live media never fails. */
  lemma {:induction false} HeldIsTaken(start: State, r: Basics.Run<Step>, id: Id)
    requires IsNew(start) && Legal(start, r)
    ensures After(start, r).held[id] == Taking(start, r, id)
  {
    match r
    case Start =>
    case Then(before, step) =>
      HeldIsTaken(start, before, id);
      HeldStep(After(start, before), step, id);
      Reachable(start, before);
      if step.GetMediaAt? {
        MirrorsNativeList(start, before, step.index);
      }
  }

  /** A client can retain any media it has ever seen; it gets a reference exactly when the media is alive. */
  lemma RetainIff(start: State, r: Basics.Run<Step>, id: Id)
    requires IsNew(start) && Legal(start, r) && id in After(start, r).itemOf
    ensures var s, s' := After(start, r), After(start, Then(r, Step.Retain(id)));
            && Legal(start, Then(r, Step.Retain(id)))
            && s'.refs[id] == s.refs[id] + (if s.refs[id] > 0 then 1 else 0)
            && s'.held[id] == s.held[id] + (if s.refs[id] > 0 then 1 else 0)
  {
  }

  // ---------------------------------------------------------------------------
  // What the final release leaves to others
  // ---------------------------------------------------------------------------

  /** The slots past the live ones. */
  function Tail(m: Mirror): seq<Id> {
    Somes(m.slots[m.count..])
  }

  /** The count of a media once `onReleaseNative` has released every slot. */
  function CountAfterRelease(s: State, id: Id): nat {
    Lowered(s.refs[id], multiset(Somes(s.mirror.slots))[id])
  }

  /** References of those who go on after the list: clients, and the event being run; queued events are dropped. */
  function Remaining(s: State, id: Id): nat {
    s.held[id] + RunningKept(s)[id]
  }

  lemma ReleasedSlots(m: Mirror, id: Id)
    ensures multiset(Somes(m.slots))[id] == multiset(Live(m))[id] + multiset(Tail(m))[id]
  {
    assert m.slots == m.slots[..m.count] + m.slots[m.count..];
    SomesConcat(m.slots[..m.count], m.slots[m.count..]);
  }

  /**
    The final release leaves a media as many references as its remaining holders have exactly when it
    has none of them, or no more stale slots than references of dropped and queued events.
   */
  lemma ReleaseSparesIff(start: State, r: Basics.Run<Step>, id: Id)
    requires IsNew(start) && Legal(start, r)
    ensures var s := After(start, r);
            Remaining(s, id) <= CountAfterRelease(s, id) <==>
              Remaining(s, id) == 0 || multiset(Tail(s.mirror))[id] <= s.lost[id] + AllKept(s.queue)[id]
  {
    ReferencesAreHeld(start, r, id);
    ReleasedSlots(After(start, r).mirror, id);
  }

  /** A list from which nothing was deleted takes no reference from anyone else. */
  lemma NeverDeletedSpares(start: State, r: Basics.Run<Step>, id: Id)
    requires IsNew(start) && Legal(start, r)
    requires var s := After(start, r); s.deletions == 0 && (s.insertions == 0 || s.outside.None?)
    ensures Remaining(After(start, r), id) <= CountAfterRelease(After(start, r), id)
  {
    var s := After(start, r);
    Reachable(start, r);
    EmptyTailIff(s);
    SomesEmpty(s.mirror.slots[s.mirror.count..]);
    ReleaseSparesIff(start, r, id);
  }

  /** One item in the list, its event run, and a client that has got its media. */
  const GOT_BY_CLIENT :=
    State(Shape([7], [Some(0), None], 1), map[0 := 7], multiset{0, 0}, multiset{0}, multiset{}, true, [], None,
          1, 0, 1, None)

  lemma AddedAndRun() returns (r: Basics.Run<Step>)
    ensures Legal(EMPTY_LIST, r) && After(EMPTY_LIST, r) == GOT_BY_CLIENT.(refs := multiset{0}, held := multiset{})
  {
    var r1 := Then(Start, Step.SetListener(true));
    assert Legal(EMPTY_LIST, r1) && After(EMPTY_LIST, r1) == EMPTY_LIST.(listening := true);
    var r2 := Then(r1, Step.ItemAdded(0, 7, 0, None));
    var added := GOT_BY_CLIENT.(refs := multiset{0, 0}, held := multiset{});
    OneInserted();
    assert Legal(EMPTY_LIST, r2) && After(EMPTY_LIST, r2) == added.(queue := [Added(0)]);
    var r3 := Then(r2, StartEvent);
    assert Legal(EMPTY_LIST, r3) && After(EMPTY_LIST, r3) == added.(running := Some(Added(0)));
    r := Then(r3, EndEvent);
  }

  /** Then the item is deleted. */
  const DELETED_FROM_LIST :=
    GOT_BY_CLIENT.(mirror := Shape([], [Some(0), None], 0), refs := multiset{0}, deletions := 1)

  lemma GotAndDeleted() returns (r: Basics.Run<Step>)
    ensures Legal(EMPTY_LIST, r) && After(EMPTY_LIST, r) == DELETED_FROM_LIST.(queue := [Deleted(Some(0))])
  {
    var added := AddedAndRun();
    var got := Then(added, Step.GetMediaAt(0));
    assert Legal(EMPTY_LIST, got) && After(EMPTY_LIST, got) == GOT_BY_CLIENT;
    r := Then(got, Step.ItemDeleted(0));
    OneRemoved();
    assert Removed([7], 0) == [];
  }

  lemma DeletedEventRun() returns (r: Basics.Run<Step>)
    ensures Legal(EMPTY_LIST, r) && After(EMPTY_LIST, r) == DELETED_FROM_LIST
  {
    var deleted := GotAndDeleted();
    var started := Then(deleted, StartEvent);
    assert Legal(EMPTY_LIST, started);
    assert After(EMPTY_LIST, started) == DELETED_FROM_LIST.(running := Some(Deleted(Some(0))));
    r := Then(started, EndEvent);
  }

  /** A client has got a media, its item was deleted, and the release of the list takes the client's only reference. */
  lemma RobbedRun() returns (r: Basics.Run<Step>)
    ensures IsNew(EMPTY_LIST) && Legal(EMPTY_LIST, r) && !DroppedSome(EMPTY_LIST, r)
    ensures var s := After(EMPTY_LIST, r);
            && s.queue == [] && s.running.None? && s.held[0] == s.refs[0] == 1
            && CountAfterRelease(s, 0) == 0
  {
    r := DeletedEventRun();
    EmptyListIsNew();
    OneRemoved();
    LostIffDropped(EMPTY_LIST, r);
  }
}
