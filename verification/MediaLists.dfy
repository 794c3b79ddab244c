/**
  `MediaList.java`: the Java mirror of a native media list, shifted in place by the
  list's insertion and deletion events.
 */
module MediaLists {
  import opened Basics
  import opened SparseArrays

  function Inserted<T>(s: seq<T>, index: nat, x: T): seq<T>
    requires index <= |s|
  {
    s[..index] + [x] + s[index..]
  }

  function Removed<T>(s: seq<T>, index: nat): seq<T>
    requires index < |s|
  {
    s[..index] + s[index+1..]
  }

  /** The slot after the live ones, or what reading beyond the array yields. */
  function Spare<T>(slots: seq<T>, count: nat, outside: T): T {
    if count < |slots| then slots[count] else outside
  }

  /** The array after an insertion, of which the first `count` slots were live. */
  function SlotsAfterInsert<T>(slots: seq<T>, count: nat, index: nat, x: T, outside: T): seq<T>
    requires index <= count <= |slots|
  {
    slots[..index] + [x] + slots[index..count] + [Spare(slots, count, outside)]
    + if count + 2 <= |slots| then slots[count+2..] else []
  }

  function SlotsAfterRemove<T>(slots: seq<T>, count: nat, index: nat): seq<T>
    requires index < count <= |slots|
  {
    slots[..index] + slots[index+1..count] + slots[count-1..]
  }

  /** In the midst of an insertion: slots `i + 1` to `count` are copied one up. */
  function Shifting<T>(slots: seq<T>, count: nat, i: int, outside: T): seq<T>
    requires -1 <= i < count <= |slots| && (i == count - 1 ==> count < |slots|)
  {
    slots[..i+2] + slots[i+1..count] + [Spare(slots, count, outside)]
    + if count + 2 <= |slots| then slots[count+2..] else []
  }

  lemma FirstShift<T>(slots: seq<T>, count: nat, outside: T)
    requires count < |slots|
    ensures Written(slots, count + 1, slots[count]) == Shifting(slots, count, count - 1, outside)
  {
  }

  lemma NextShift<T>(slots: seq<T>, count: nat, i: nat, outside: T)
    requires i < count <= |slots| && (i == count - 1 ==> count < |slots|)
    ensures var now := Shifting(slots, count, i, outside);
            now[i] == slots[i] && Written(now, i + 1, slots[i]) == Shifting(slots, count, i - 1, outside)
  {
    var a, b := slots[..i+1], slots[i+1..count] + [Spare(slots, count, outside)]
                              + if count + 2 <= |slots| then slots[count+2..] else [];
    assert Shifting(slots, count, i, outside) == a + [slots[i+1]] + b;
    assert slots[i..count] == [slots[i]] + slots[i+1..count];
    assert Shifting(slots, count, i - 1, outside) == a + [slots[i]] + b;
  }

  lemma ShiftOverGap<T>(slots: seq<T>, outside: T)
    requires slots != []
    ensures var count := |slots|;
            slots + [slots[count - 1]] + [outside] == Shifting(slots, count, count - 2, outside)
  {
  }

  /** The array when the insertion loop is about to move slot `i`, having read `outside` past the end. */
  predicate Moving<T(==)>(keys: seq<int>, values: seq<T>, slots: seq<T>, count: nat, i: int, outside: T)
    requires -1 <= i <= count <= |slots|
  {
    if i == count then Contiguous(keys) && values == slots
    else if i == count - 1 && |slots| == count then Gapped(keys, count) && values == slots + [outside]
    else Contiguous(keys) && values == Shifting(slots, count, i, outside)
  }

  lemma MoveOne<T>(keys: seq<int>, values: seq<T>, slots: seq<T>, count: nat, i: nat, outside: T, moved: T)
    requires |keys| == |values| && i <= count <= |slots|
    requires Moving(keys, values, slots, count, i, outside)
    requires i < |values| ==> moved == values[i]
    ensures Moving(KeysAfterPut(keys, i + 1), ValuesAfterPut(keys, values, i + 1, moved), slots, count, i - 1,
                   if i == count then moved else outside)
  {
    if i == count == |slots| {
      PutBeyondGap(keys, values, moved);
    } else if i == count - 1 && |slots| == count {
      PutInGap(keys, values, count, moved);
      ShiftOverGap(slots, outside);
    } else {
      PutInPlace(keys, values, i + 1, moved);
      if i == count {
        FirstShift(slots, count, moved);
      } else {
        NextShift(slots, count, i, outside);
      }
    }
  }

  /** Keys and values after the moves of slots `count` down to `i + 1`, each read by position and put by key. */
  function Moved<T>(keys: seq<int>, slots: seq<T>, count: nat, i: int, outside: T): (after: (seq<int>, seq<T>))
    requires |keys| == |slots| && -1 <= i
    ensures |after.0| == |after.1| >= |slots|
    decreases count - i
  {
    if i >= count then (keys, slots)
    else
      var (k, v) := Moved(keys, slots, count, i + 1, outside);
      (KeysAfterPut(k, i + 2), ValuesAfterPut(k, v, i + 2, if i + 1 < |v| then v[i + 1] else outside))
  }

  /** One more move; the first of them may read what lies outside. */
  lemma MovedNext<T>(keys: seq<int>, slots: seq<T>, count: nat, i: nat, k: seq<int>, v: seq<T>,
                     outside: T, moved: T, beyond: T)
    requires |keys| == |slots| && i <= count <= |slots| && |k| == |v|
    requires (k, v) == Moved(keys, slots, count, i, outside) && (i < |v| ==> moved == v[i])
    requires beyond == if i == count then moved else outside
    ensures (KeysAfterPut(k, i + 1), ValuesAfterPut(k, v, i + 1, moved)) == Moved(keys, slots, count, i - 1, beyond)
  {
    if i == count {
      assert Moved(keys, slots, count, i, beyond) == (keys, slots);
    }
  }

  lemma {:induction false} MovedShape<T>(keys: seq<int>, slots: seq<T>, count: nat, i: int, outside: T)
    requires |keys| == |slots| && Contiguous(keys) && -1 <= i <= count <= |slots|
    ensures var (k, v) := Moved(keys, slots, count, i, outside);
            Moving(k, v, slots, count, i, outside)
    decreases count - i
  {
    if i == count {
    } else {
      MovedShape(keys, slots, count, i + 1, outside);
      var (k, v) := Moved(keys, slots, count, i + 1, outside);
      MoveOne(k, v, slots, count, i + 1, outside, if i + 1 < |v| then v[i + 1] else outside);
    }
  }

  lemma PlaceLast<T>(keys: seq<int>, values: seq<T>, slots: seq<T>, count: nat, index: nat, outside: T, x: T)
    requires |keys| == |values| && index <= count <= |slots|
    requires Moving(keys, values, slots, count, index - 1, outside)
    ensures Contiguous(KeysAfterPut(keys, index))
    ensures ValuesAfterPut(keys, values, index, x) == SlotsAfterInsert(slots, count, index, x, outside)
  {
    if index == count == |slots| {
      PutInGap(keys, values, index, x);
    } else {
      PutInPlace(keys, values, index, x);
    }
  }

  /** Moving the slots up and writing the new one is an insertion. */
  lemma MovedAndPlaced<T>(keys: seq<int>, slots: seq<T>, count: nat, index: nat, outside: T, x: T)
    requires |keys| == |slots| && Contiguous(keys) && index <= count <= |slots|
    ensures var (k, v) := Moved(keys, slots, count, index - 1, outside);
            && Contiguous(KeysAfterPut(k, index))
            && ValuesAfterPut(k, v, index, x) == SlotsAfterInsert(slots, count, index, x, outside)
  {
    MovedShape(keys, slots, count, index - 1, outside);
    var (k, v) := Moved(keys, slots, count, index - 1, outside);
    PlaceLast(k, v, slots, count, index, outside, x);
  }

  /** In the midst of a removal: slots `index + 1` to `i` are copied one down. */
  function Closing<T>(slots: seq<T>, index: nat, i: nat): seq<T>
    requires index <= i < |slots|
  {
    slots[..index] + slots[index+1..i+1] + slots[i..]
  }

  lemma CloseOne<T>(keys: seq<int>, slots: seq<T>, index: nat, i: nat)
    requires Contiguous(keys) && |keys| == |slots| && index <= i && i + 1 < |slots|
    ensures Closing(slots, index, i)[i + 1] == slots[i + 1]
    ensures Contiguous(KeysAfterPut(keys, i))
    ensures ValuesAfterPut(keys, Closing(slots, index, i), i, slots[i + 1]) == Closing(slots, index, i + 1)
  {
    PutInPlace(keys, Closing(slots, index, i), i, slots[i + 1]);
  }

  /** A media of the list; `native` stands for the native media it wraps. */
  class Media {
    const native: nat
    var refCount: nat

    constructor (native: nat)
      ensures this.native == native && refCount == 1
    {
      this.native := native;
      refCount := 1;
    }

    method Retain() returns (ok: bool)
      modifies this
      ensures ok <==> old(refCount) > 0
      ensures refCount == if ok then old(refCount) + 1 else old(refCount)
    {
      ok := refCount > 0;
      if ok {
        refCount := refCount + 1;
      }
    }

    method Release()
      modifies this
      ensures refCount == if old(refCount) > 0 then old(refCount) - 1 else 0
    {
      if refCount == 0 {
        return;
      }
      refCount := refCount - 1;
    }
  }

  predicate Live(slots: seq<Media?>, count: nat)
    requires count <= |slots|
  {
    forall k :: 0 <= k < count ==> slots[k] != null
  }

  function Natives(slots: seq<Media?>, count: nat): (natives: seq<nat>)
    requires count <= |slots| && Live(slots, count)
    ensures |natives| == count
    ensures forall k :: 0 <= k < count ==> natives[k] == slots[k].native
  {
    if count == 0 then [] else Natives(slots, count - 1) + [slots[count - 1].native]
  }

  lemma InsertedLive(slots: seq<Media?>, count: nat, index: nat, media: Media, outside: Media?)
    requires index <= count <= |slots| && Live(slots, count)
    ensures Live(SlotsAfterInsert(slots, count, index, media, outside), count + 1)
  {
  }

  lemma RemovedLive(slots: seq<Media?>, count: nat, index: nat)
    requires index < count <= |slots| && Live(slots, count)
    ensures Live(SlotsAfterRemove(slots, count, index), count - 1)
  {
  }

  lemma InsertedNatives(slots: seq<Media?>, count: nat, index: nat, media: Media, outside: Media?)
    requires index <= count <= |slots| && Live(slots, count)
    ensures var after := SlotsAfterInsert(slots, count, index, media, outside);
            && Live(after, count + 1)
            && Natives(after, count + 1) == Inserted(Natives(slots, count), index, media.native)
  {
  }

  lemma RemovedNatives(slots: seq<Media?>, count: nat, index: nat)
    requires index < count <= |slots| && Live(slots, count)
    ensures var after := SlotsAfterRemove(slots, count, index);
            && Live(after, count - 1)
            && Natives(after, count - 1) == Removed(Natives(slots, count), index)
  {
  }

  datatype EventType = ItemAdded | ItemDeleted | EndReached

  datatype Event = Event(kind: EventType, media: Media?, retain: bool, index: int)

  function Lowered(count: nat, times: nat): nat {
    if times <= count then count - times else 0
  }

  class MediaList {
    var mCount: nat
    const mMediaArray: SparseArray<Media?>
    var mLocked: bool

    ghost predicate Valid()
      reads this, mMediaArray
    {
      && mMediaArray.Valid()
      && Contiguous(mMediaArray.keys)
      && mCount <= |mMediaArray.values|
      && Live(mMediaArray.values, mCount)
    }

    /** The native media behind the live slots: what the mirror shows. */
    ghost function Items(): seq<nat>
      requires Valid()
      reads this, mMediaArray
    {
      Natives(mMediaArray.values, mCount)
    }

    /** `init`: one media for each of the native list's items. */
    constructor (native: seq<nat>)
      ensures Valid() && fresh(mMediaArray) && !mLocked
      ensures Items() == native && |mMediaArray.values| == mCount == |native|
      ensures forall k :: 0 <= k < mCount ==> fresh(mMediaArray.values[k]) && mMediaArray.values[k].refCount == 1
      ensures forall j, k :: 0 <= j < k < mCount ==> mMediaArray.values[j] != mMediaArray.values[k]
    {
      mMediaArray := new SparseArray<Media?>();
      mLocked := true;
      mCount := |native|;
      new;
      var i := 0;
      while i < mCount
        invariant 0 <= i <= mCount == |native| && fresh(mMediaArray)
        invariant mMediaArray.Valid() && Contiguous(mMediaArray.keys) && |mMediaArray.keys| == i
        invariant forall k :: 0 <= k < i ==> mMediaArray.values[k] != null && mMediaArray.values[k].native == native[k]
        invariant forall k :: 0 <= k < i ==> fresh(mMediaArray.values[k]) && mMediaArray.values[k].refCount == 1
        invariant forall j, k :: 0 <= j < k < i ==> mMediaArray.values[j] != mMediaArray.values[k]
      {
        var media := new Media(native[i]);
        PutInPlace(mMediaArray.keys, mMediaArray.values, i, media);
        mMediaArray.Put(i, media);
        i := i + 1;
      }
      mLocked := false;
    }

    /** The loop of an insertion, run after `mCount` was incremented. */
    method ShiftUp(index: nat) returns (ghost outside: Media?)
      requires mMediaArray.Valid() && 0 < mCount <= |mMediaArray.values| + 1 && index < mCount
      modifies mMediaArray
      ensures mMediaArray.Valid()
      ensures (mMediaArray.keys, mMediaArray.values)
           == Moved(old(mMediaArray.keys), old(mMediaArray.values), mCount - 1, index - 1, outside)
    {
      ghost var keys, slots, count := mMediaArray.keys, mMediaArray.values, mCount - 1;
      outside := null;
      var i := mCount - 1;
      while i >= index
        invariant index - 1 <= i <= count == mCount - 1
        invariant mMediaArray.Valid()
        invariant (mMediaArray.keys, mMediaArray.values) == Moved(keys, slots, count, i, outside)
        decreases i
      {
        var moved := mMediaArray.ValueAt(i);
        ghost var beyond := if i == count then moved else outside;
        MovedNext(keys, slots, count, i, mMediaArray.keys, mMediaArray.values, outside, moved, beyond);
        mMediaArray.Put(i + 1, moved);
        outside := beyond;
        i := i - 1;
      }
    }

    /** `item` is the native media now at `index`. */
    method InsertMediaFromEvent(index: nat, item: nat) returns (media: Media, ghost outside: Media?)
      requires Valid() && index <= mCount
      modifies this`mCount, mMediaArray
      ensures Valid() && mCount == old(mCount) + 1
      ensures fresh(media) && media.native == item && media.refCount == 1
      ensures mMediaArray.values == SlotsAfterInsert(old(mMediaArray.values), old(mCount), index, media, outside)
    {
      ghost var keys, slots, count := mMediaArray.keys, mMediaArray.values, mCount;
      mCount := mCount + 1;
      outside := ShiftUp(index);
      media := new Media(item);
      MovedAndPlaced(keys, slots, count, index, outside, media);
      mMediaArray.Put(index, media);
      InsertedLive(slots, count, index, media, outside);
    }

    /** The loop of a removal, run after `mCount` was decremented. */
    method CloseGap(index: nat)
      requires mMediaArray.Valid() && Contiguous(mMediaArray.keys) && index <= mCount < |mMediaArray.values|
      modifies mMediaArray
      ensures mMediaArray.Valid() && Contiguous(mMediaArray.keys)
      ensures mMediaArray.values == SlotsAfterRemove(old(mMediaArray.values), mCount + 1, index)
    {
      ghost var slots := mMediaArray.values;
      var i := index;
      while i < mCount
        invariant index <= i <= mCount
        invariant mMediaArray.Valid() && Contiguous(mMediaArray.keys)
        invariant mMediaArray.values == Closing(slots, index, i)
      {
        CloseOne(mMediaArray.keys, slots, index, i);
        var moved := mMediaArray.ValueAt(i + 1);
        mMediaArray.Put(i, moved);
        i := i + 1;
      }
    }

    method RemoveMediaFromEvent(index: nat) returns (media: Media)
      requires Valid() && index < mCount
      modifies this`mCount, mMediaArray, mMediaArray.values[index]
      ensures Valid() && mCount == old(mCount) - 1
      ensures media == old(mMediaArray.values[index])
      ensures media.refCount == if old(media.refCount) > 0 then old(media.refCount) - 1 else 0
      ensures mMediaArray.values == SlotsAfterRemove(old(mMediaArray.values), old(mCount), index)
    {
      ghost var slots, count := mMediaArray.values, mCount;
      mCount := mCount - 1;
      KeyIsPosition(mMediaArray.keys, index);
      var found := mMediaArray.Get(index, null);
      if found != null {
        found.Release();
      }
      CloseGap(index);
      RemovedLive(slots, count, index);
      media := found;
    }

    /** The media whose count an event takes from. */
    function Touched(kind: EventType, index: int): set<Media?>
      reads this, mMediaArray
    {
      if kind.ItemDeleted? && 0 <= index < |mMediaArray.values| then {mMediaArray.values[index]} else {}
    }

    /**
      `item` is the native media at the index of an insertion. Fails when the list is locked;
      an index of -1 is ignored, and so is not reported.
     */
    method OnEventNative(kind: EventType, index: int, item: nat) returns (event: Option<Event>, failed: bool)
      requires Valid()
      requires kind.ItemAdded? ==> -1 <= index <= mCount
      requires kind.ItemDeleted? ==> -1 <= index < mCount
      modifies this`mCount, this`mLocked, mMediaArray, Touched(kind, index)
      ensures Valid() && mLocked == old(mLocked)
      ensures failed <==> old(mLocked)
      ensures failed || (!kind.EndReached? && index == -1) ==>
                event.None? && Items() == old(Items()) && mMediaArray.values == old(mMediaArray.values)
      ensures !failed && kind.ItemAdded? && index != -1 ==>
                && Items() == Inserted(old(Items()), index, item)
                && event.Some? && event.value.media == mMediaArray.values[index]
                && event.value == Event(kind, event.value.media, true, index)
                && fresh(event.value.media) && event.value.media.refCount == 2
      ensures !failed && kind.ItemDeleted? && index != -1 ==>
                var media := old(mMediaArray.values[index]);
                && Items() == Removed(old(Items()), index)
                && event == Some(Event(kind, media, false, index))
                && media.refCount == if old(media.refCount) > 0 then old(media.refCount) - 1 else 0
      ensures !failed && kind.EndReached? ==>
                event == Some(Event(kind, null, false, -1)) && Items() == old(Items())
    {
      if mLocked {
        return None, true;
      }
      failed := false;
      mLocked := true;
      event := None;
      match kind {
        case ItemAdded =>
          if index != -1 {
            ghost var slots, count := mMediaArray.values, mCount;
            var media, outside := InsertMediaFromEvent(index, item);
            InsertedNatives(slots, count, index, media, outside);
            var ok := media.Retain();
            event := Some(Event(kind, media, true, index));
          }
        case ItemDeleted =>
          if index != -1 {
            RemovedNatives(mMediaArray.values, mCount, index);
            var media := RemoveMediaFromEvent(index);
            event := Some(Event(kind, media, false, index));
          }
        case EndReached =>
          event := Some(Event(kind, null, false, -1));
      }
      mLocked := false;
    }

    /** The media at a live index, retained for the caller; `None` stands for the exception. */
    method GetMediaAt(index: int) returns (media: Option<Media>)
      requires Valid()
      modifies if 0 <= index < mCount then {mMediaArray.values[index]} else {}
      ensures media.Some? <==> 0 <= index < mCount
      ensures media.Some? ==>
                && media.value == mMediaArray.values[index] && media.value.native == Items()[index]
                && (old(media.value.refCount) > 0 ==> media.value.refCount == old(media.value.refCount) + 1)
    {
      if index < 0 || index >= mCount {
        return None;
      }
      KeyIsPosition(mMediaArray.keys, index);
      var found := mMediaArray.Get(index, null);
      var ok := found.Retain();
      media := Some(found);
    }

    /** Releases every slot of the array, those beyond the live ones included. */
    method OnReleaseNative()
      requires Valid()
      modifies set m <- mMediaArray.values
      ensures forall m <- mMediaArray.values | m != null ::
                m.refCount == Lowered(old(m.refCount), multiset(mMediaArray.values)[m])
    {
      ghost var slots := mMediaArray.values;
      var i := 0;
      while i < |mMediaArray.keys|
        invariant 0 <= i <= |slots| && mMediaArray.values == slots && unchanged(this) && unchanged(mMediaArray)
        invariant forall m <- slots | m != null :: m.refCount == Lowered(old(m.refCount), multiset(slots[..i])[m])
      {
        KeyIsPosition(mMediaArray.keys, i);
        var media := mMediaArray.Get(i, null);
        assert slots[..i + 1] == slots[..i] + [slots[i]];
        if media != null {
          media.Release();
        }
        i := i + 1;
      }
      assert slots[..i] == slots;
    }
  }
}
