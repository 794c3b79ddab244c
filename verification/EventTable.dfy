/** `attachEvents` and `nativeDetachEvents` of `libvlcjni-vlcobject.c`. */
module EventTable {
  import opened Basics

  const TABLE_END := -1

  /** One entry of a libvlc event manager: the event, the callback and its opaque data. */
  datatype Registration = Registration(eventType: int, owner: nat)

  /** The events of a table, up to its end mark. */
  function Listed(table: seq<int>): (events: seq<int>)
    requires TABLE_END in table
    ensures |events| < |table| && events == table[..|events|] && table[|events|] == TABLE_END
    ensures TABLE_END !in events
  {
    if table[0] == TABLE_END then [] else [table[0]] + Listed(table[1..])
  }

  function Registrations(events: seq<int>, owner: nat): multiset<Registration> {
    if events == [] then multiset{}
    else Registrations(events[..|events|-1], owner) + multiset{Registration(events[|events|-1], owner)}
  }

  lemma OneMore(attached: multiset<Registration>, events: seq<int>, i: nat, owner: nat)
    requires i < |events|
    ensures Registrations(events[..i + 1], owner)
         == Registrations(events[..i], owner) + multiset{Registration(events[i], owner)}
    ensures attached - Registrations(events[..i], owner) - multiset{Registration(events[i], owner)}
         == attached - Registrations(events[..i + 1], owner)
  {
    assert events[..i + 1][..i] == events[..i];
  }

  class EventManager {
    var listeners: multiset<Registration>

    method Attach(eventType: int, owner: nat)
      modifies this
      ensures listeners == old(listeners) + multiset{Registration(eventType, owner)}
    {
      listeners := listeners + multiset{Registration(eventType, owner)};
    }

    method Detach(eventType: int, owner: nat)
      modifies this
      ensures listeners == old(listeners) - multiset{Registration(eventType, owner)}
    {
      listeners := listeners - multiset{Registration(eventType, owner)};
    }
  }

  class Owner {
    const id: nat
    var eventManager: EventManager?
    var events: Option<seq<int>>

    ghost predicate Valid()
      reads this
    {
      && (eventManager != null <==> events.Some?)
      && (events.Some? ==> TABLE_END in events.value)
    }

    constructor (id: nat)
      ensures Valid() && this.id == id && eventManager == null
    {
      this.id := id;
      eventManager, events := null, None;
    }

    /** Does nothing when an argument is missing or when events are attached already. */
    method AttachEvents(hasCallback: bool, manager: EventManager?, table: Option<seq<int>>)
      requires Valid()
      requires table.Some? ==> TABLE_END in table.value
      modifies this, manager
      ensures Valid()
      ensures hasCallback && manager != null && table.Some? && old(eventManager) == null ==>
                && eventManager == manager && events == table
                && manager.listeners == old(manager.listeners) + Registrations(Listed(table.value), id)
      ensures !(hasCallback && manager != null && table.Some? && old(eventManager) == null) ==>
                unchanged(this) && (manager != null ==> manager.listeners == old(manager.listeners))
    {
      if !hasCallback || manager == null || table.None? || eventManager != null || events.Some? {
        return;
      }
      eventManager := manager;
      events := table;
      ghost var listed := Listed(table.value);
      var i := 0;
      while table.value[i] != TABLE_END
        invariant 0 <= i <= |listed|
        invariant manager.listeners == old(manager.listeners) + Registrations(listed[..i], id)
        invariant eventManager == manager && events == table
        decreases |listed| - i
      {
        manager.Attach(table.value[i], id);
        assert listed[..i + 1][..i] == listed[..i];
        i := i + 1;
      }
      assert listed[..i] == listed;
    }

    method NativeDetachEvents()
      requires Valid()
      modifies this, eventManager
      ensures Valid() && eventManager == null
      ensures old(eventManager) != null ==>
                old(eventManager).listeners == old(eventManager.listeners) - Registrations(Listed(old(events.value)), id)
    {
      if eventManager == null || events.None? {
        return;
      }
      var manager, table := eventManager, events.value;
      ghost var listed := Listed(table);
      ghost var attached := manager.listeners;
      var i := 0;
      while table[i] != TABLE_END
        invariant 0 <= i <= |listed|
        invariant unchanged(this)
        invariant manager.listeners == attached - Registrations(listed[..i], id)
        decreases |listed| - i
      {
        manager.Detach(table[i], id);
        OneMore(attached, listed, i, id);
        i := i + 1;
      }
      assert listed[..i] == listed;
      eventManager := null;
      events := None;
    }
  }

  /** Attaching counts each event of the table once, under this owner only. */
  lemma {:induction false} RegistrationsCount(events: seq<int>, owner: nat, r: Registration)
    ensures Registrations(events, owner)[r] == if r.owner == owner then multiset(events)[r.eventType] else 0
  {
    if events == [] {
    } else {
      RegistrationsCount(events[..|events|-1], owner, r);
      assert events == events[..|events|-1] + [events[|events|-1]];
    }
  }

  /**
    Detaching takes back exactly what attaching added, even if other owners attached or
    detached in between (`before` and `now` agree on this owner's other entries).
   */
  lemma DetachUndoesAttach(before: multiset<Registration>, now: multiset<Registration>, events: seq<int>, owner: nat)
    requires forall r: Registration | r.owner == owner ::
               now[r] == (before + Registrations(events, owner))[r]
    ensures forall r: Registration ::
              (now - Registrations(events, owner))[r] == if r.owner == owner then before[r] else now[r]
  {
    forall r: Registration
      ensures (now - Registrations(events, owner))[r] == if r.owner == owner then before[r] else now[r]
    {
      RegistrationsCount(events, owner, r);
    }
  }
}
