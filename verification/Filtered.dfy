/**
  Result arrays without holes: `filteredArray` and the loops that fill its inputs
  (`utils.cpp`, `medialibrary.cpp`). A media that cannot be converted is a null, here None.
 */
module Filtered {
  import opened Basics

  // ---------------------------------------------------------------------------
  // Slots
  // ---------------------------------------------------------------------------

  /** The items in `slots`, in order. */
  function NonNull<T>(slots: seq<Option<T>>): seq<T> {
    if slots == [] then [] else
    var front := NonNull(slots[..|slots| - 1]);
    if slots[|slots| - 1].Some? then front + [slots[|slots| - 1].value] else front
  }

  function Drops<T>(slots: seq<Option<T>>): (n: nat)
    ensures n == |slots| - |NonNull(slots)|
  {
    if slots == [] then 0 else
    Drops(slots[..|slots| - 1]) + if slots[|slots| - 1].None? then 1 else 0
  }

  function Nulls<T>(n: nat): (s: seq<Option<T>>)
    ensures |s| == n && forall i :: 0 <= i < n ==> s[i] == None
  {
    seq(n, i => None)
  }

  /** `items` in the first slots, and `n` empty ones. */
  function Packed<T>(items: seq<T>, n: nat): (s: seq<Option<T>>)
    ensures |s| == |items| + n
    ensures forall i :: 0 <= i < |items| ==> s[i] == Some(items[i])
    ensures forall i :: |items| <= i < |s| ==> s[i] == None
  {
    seq(|items|, i requires 0 <= i < |items| => Some(items[i])) + Nulls(n)
  }

  /** Slots filled from the front so far. */
  predicate Filling<T(==)>(slots: seq<Option<T>>, items: seq<T>) {
    |items| <= |slots| && slots == Packed(items, |slots| - |items|)
  }

  lemma FillNext<T>(slots: seq<Option<T>>, items: seq<T>, item: T)
    requires Filling(slots, items) && |items| < |slots|
    ensures Filling(slots[|items| := Some(item)], items + [item])
  {
  }

  lemma NonNullMore<T>(slots: seq<Option<T>>, n: nat)
    requires n < |slots|
    ensures NonNull(slots[..n + 1]) == NonNull(slots[..n]) + if slots[n].Some? then [slots[n].value] else []
    ensures Drops(slots[..n + 1]) == Drops(slots[..n]) + if slots[n].None? then 1 else 0
  {
    assert slots[..n + 1][..n] == slots[..n];
  }

  /** Part of the slots holds no more items, and no more nulls, than all of them. */
  lemma {:induction false} PartOfSlots<T>(slots: seq<Option<T>>, n: nat)
    requires n <= |slots|
    ensures |NonNull(slots[..n])| <= |NonNull(slots)| && Drops(slots[..n]) <= Drops(slots)
    decreases |slots| - n
  {
    if n == |slots| {
      assert slots[..n] == slots;
    } else {
      NonNullMore(slots, n);
      PartOfSlots(slots, n + 1);
    }
  }

  lemma {:induction false} NonNullOfPacked<T>(items: seq<T>, n: nat)
    ensures NonNull(Packed(items, n)) == items && Drops(Packed(items, n)) == n
    decreases |items| + n
  {
    var slots := Packed(items, n);
    if n > 0 {
      NonNullOfPacked(items, n - 1);
      assert slots[..|slots| - 1] == Packed(items, n - 1);
    } else if items != [] {
      var front := items[..|items| - 1];
      NonNullOfPacked(front, 0);
      assert slots[..|slots| - 1] == Packed(front, 0);
    }
  }

  // ---------------------------------------------------------------------------
  // filteredArray
  // ---------------------------------------------------------------------------

  /** What `filteredArray` makes of `slots`, told to remove `count` nulls. */
  function Kept<T>(slots: seq<Option<T>>, count: int): seq<Option<T>>
    requires count <= Drops(slots)
  {
    if count == 0 then slots else Packed(NonNull(slots), Drops(slots) - count)
  }

  lemma {:induction false} FullIff<T>(slots: seq<Option<T>>)
    ensures (forall slot <- slots :: slot.Some?) <==> Drops(slots) == 0
    ensures Drops(slots) == 0 ==> slots == Packed(NonNull(slots), 0)
  {
    if slots == [] {
    } else {
      var front := slots[..|slots| - 1];
      FullIff(front);
      assert slots == front + [slots[|slots| - 1]];
      if Drops(slots) == 0 {
        assert NonNull(slots) == NonNull(front) + [slots[|slots| - 1].value];
      }
    }
  }

  lemma PackedIsFullIff<T>(items: seq<T>, n: nat)
    ensures |Packed(items, n)| == |items| + n && NonNull(Packed(items, n)) == items
    ensures (forall slot <- Packed(items, n) :: slot.Some?) <==> n == 0
  {
    NonNullOfPacked(items, n);
    FullIff(Packed(items, n));
  }

  /** The result is full exactly when the count was right, and then it has every item in order. */
  lemma KeptIsFullIff<T>(slots: seq<Option<T>>, count: int)
    requires count <= Drops(slots)
    ensures |Kept(slots, count)| == |slots| - count && NonNull(Kept(slots, count)) == NonNull(slots)
    ensures (forall slot <- Kept(slots, count) :: slot.Some?) <==> count == Drops(slots)
  {
    if count == 0 {
      FullIff(slots);
    } else {
      PackedIsFullIff(NonNull(slots), Drops(slots) - count);
    }
  }

  /** The null counting loop, for a count of -1. */
  method CountNulls<T>(a: array<Option<T>>) returns (n: nat)
    ensures n == Drops(a[..])
  {
    n := 0;
    for i := 0 to a.Length
      invariant n == Drops(a[..][..i])
    {
      NonNullMore(a[..], i);
      if a[i].None? {
        n := n + 1;
      }
    }
    assert a[..][..a.Length] == a[..];
  }

  /** How many nulls are removed, for the count that is passed. */
  function Removals<T>(slots: seq<Option<T>>, removalCount: int): int {
    if removalCount == -1 then Drops(slots) else removalCount
  }

  /** None stands for the exception of an array of negative size or of a store out of range. */
  method FilteredArray<T>(a: array<Option<T>>, removalCount: int) returns (r: Option<array<Option<T>>>)
    ensures r.Some? <==> Removals(a[..], removalCount) <= Drops(a[..])
    ensures r.Some? ==> r.value[..] == Kept(a[..], Removals(a[..], removalCount))
    ensures r.Some? ==> r.value == a || fresh(r.value)
    ensures removalCount == 0 ==> r == Some(a)
    ensures removalCount == -1 ==> r.Some? && r.value[..] == Packed(NonNull(a[..]), 0)
    ensures removalCount > Drops(a[..]) ==> r.None?
  {
    var count := removalCount;
    if count == -1 {
      count := CountNulls(a);
      FullIff(a[..]);
    }
    if count == 0 {
      return Some(a);
    }
    var size := a.Length;
    if size < count {
      return None;
    }
    ghost var slots := a[..];
    var mediaRefs := new Option<T>[size - count](_ => None);
    var index := -1;
    ghost var items := [];
    for i := 0 to size
      invariant a[..] == slots && items == NonNull(slots[..i])
      invariant index == |items| - 1 && Filling(mediaRefs[..], items)
    {
      NonNullMore(slots, i);
      if a[i].Some? {
        index := index + 1;
        if index >= mediaRefs.Length {
          PartOfSlots(slots, i + 1);
          return None;
        }
        FillNext(mediaRefs[..], items, a[i].value);
        mediaRefs[index] := a[i];
        items := items + [a[i].value];
      }
    }
    assert slots[..size] == slots;
    r := Some(mediaRefs);
  }

  // ---------------------------------------------------------------------------
  // The loops that fill the arrays
  // ---------------------------------------------------------------------------

  /** `convert` of every media; None when it cannot be converted. */
  function Converted<M, T>(media: seq<M>, convert: M -> Option<T>): (slots: seq<Option<T>>)
    ensures |slots| == |media| && forall i :: 0 <= i < |media| ==> slots[i] == convert(media[i])
  {
    seq(|media|, i requires 0 <= i < |media| => convert(media[i]))
  }

  /** The media that can be converted, converted. */
  function Results<M, T>(media: seq<M>, convert: M -> Option<T>): seq<T> {
    if media == [] then [] else
    match convert(media[0])
    case None => Results(media[1..], convert)
    case Some(item) => [item] + Results(media[1..], convert)
  }

  lemma {:induction false} NonNullFirst<T>(slot: Option<T>, slots: seq<Option<T>>)
    ensures NonNull([slot] + slots) == (if slot.Some? then [slot.value] else []) + NonNull(slots)
  {
    if slots == [] {
    } else {
      var front := slots[..|slots| - 1];
      NonNullFirst(slot, front);
      assert ([slot] + slots)[..|slots|] == [slot] + front;
    }
  }

  lemma {:induction false} NonNullOfConverted<M, T>(media: seq<M>, convert: M -> Option<T>)
    ensures NonNull(Converted(media, convert)) == Results(media, convert)
  {
    if media == [] {
    } else {
      NonNullOfConverted(media[1..], convert);
      NonNullFirst(convert(media[0]), Converted(media[1..], convert));
      assert Converted(media, convert) == [convert(media[0])] + Converted(media[1..], convert);
    }
  }

  /** The search loops: items go to the next slot, failures are counted. */
  method FillFront<M, T>(media: seq<M>, convert: M -> Option<T>) returns (a: array<Option<T>>, drops: nat)
    ensures fresh(a) && drops == |media| - |Results(media, convert)|
    ensures a[..] == Packed(Results(media, convert), drops)
  {
    ghost var slots := Converted(media, convert);
    a := new Option<T>[|media|](_ => None);
    var index := -1;
    drops := 0;
    for i := 0 to |media|
      invariant index == |NonNull(slots[..i])| - 1
      invariant drops == Drops(slots[..i])
      invariant Filling(a[..], NonNull(slots[..i]))
    {
      PartOfSlots(slots, i + 1);
      NonNullMore(slots, i);
      var item := convert(media[i]);
      if item.Some? {
        FillNext(a[..], NonNull(slots[..i]), item.value);
        index := index + 1;
        a[index] := item;
      } else {
        drops := drops + 1;
      }
    }
    assert slots[..|media|] == slots;
    NonNullOfConverted(media, convert);
  }

  /** The listing loops: every conversion goes to its own slot, null or not. */
  method FillInPlace<M, T>(media: seq<M>, convert: M -> Option<T>) returns (a: array<Option<T>>, drops: nat)
    ensures fresh(a) && drops == Drops(a[..])
    ensures a[..] == Converted(media, convert)
  {
    ghost var slots := Converted(media, convert);
    a := new Option<T>[|media|](_ => None);
    var index := -1;
    drops := 0;
    for i := 0 to |media|
      invariant index == i - 1
      invariant drops == Drops(slots[..i])
      invariant a[..i] == slots[..i]
    {
      NonNullMore(slots, i);
      var item := convert(media[i]);
      index := index + 1;
      a[index] := item;
      if item.None? {
        drops := drops + 1;
      }
    }
    assert slots[..|media|] == slots && a[..] == a[..|media|];
  }

  /** Whatever the layout, `filteredArray` with the right count packs the results. */
  lemma BothLayouts<M, T>(media: seq<M>, convert: M -> Option<T>)
    ensures var all, found := Converted(media, convert), Results(media, convert);
            && |found| <= |media|
            && Kept(all, Drops(all)) == Packed(found, 0)
            && Drops(Packed(found, |media| - |found|)) == |media| - |found|
            && Kept(Packed(found, |media| - |found|), |media| - |found|) == Packed(found, 0)
  {
    var all, found := Converted(media, convert), Results(media, convert);
    NonNullOfConverted(media, convert);
    FullIff(all);
    assert Drops(all) == |media| - |found|;
    NonNullOfPacked(found, Drops(all));
  }

  lemma FrontLayout<M, T>(media: seq<M>, convert: M -> Option<T>, slots: seq<Option<T>>, drops: nat)
    requires drops == |media| - |Results(media, convert)| && slots == Packed(Results(media, convert), drops)
    ensures drops == Drops(slots) && Kept(slots, drops) == Packed(Results(media, convert), 0)
  {
    BothLayouts(media, convert);
  }

  /** A listing of `medialibrary.cpp`, such as `lastMediaPLayed`. */
  method List<M, T>(media: seq<M>, convert: M -> Option<T>) returns (r: array<Option<T>>)
    ensures r[..] == Packed(Results(media, convert), 0)
  {
    var a, drops := FillInPlace(media, convert);
    BothLayouts(media, convert);
    var filtered := FilteredArray(a, drops);
    r := filtered.value;
  }

  /** A listing of `AndroidMediaLibrary.cpp`, which leaves the counting to `filteredArray`. */
  method ListUncounted<M, T>(media: seq<M>, convert: M -> Option<T>) returns (r: array<Option<T>>)
    ensures r[..] == Packed(Results(media, convert), 0)
  {
    var a, drops := FillInPlace(media, convert);
    NonNullOfConverted(media, convert);
    var filtered := FilteredArray(a, -1);
    r := filtered.value;
  }

  /** `convertMediaSearchAggregateObject`: each of the four lists is filtered by itself. */
  method ConvertMediaSearchAggregate<M, T>(
      episodes: seq<M>, movies: seq<M>, others: seq<M>, tracks: seq<M>, convert: M -> Option<T>)
      returns (e: array<Option<T>>, m: array<Option<T>>, o: array<Option<T>>, t: array<Option<T>>)
    ensures e[..] == Packed(Results(episodes, convert), 0)
    ensures m[..] == Packed(Results(movies, convert), 0)
    ensures o[..] == Packed(Results(others, convert), 0)
    ensures t[..] == Packed(Results(tracks, convert), 0)
  {
    var episodeRefs, epDrops := FillFront(episodes, convert);
    var movieRefs, movieDrops := FillFront(movies, convert);
    var otherRefs, othersDrops := FillFront(others, convert);
    var trackRefs, tracksDrops := FillFront(tracks, convert);
    FrontLayout(episodes, convert, episodeRefs[..], epDrops);
    var filtered := FilteredArray(episodeRefs, epDrops);
    e := filtered.value;
    FrontLayout(movies, convert, movieRefs[..], movieDrops);
    filtered := FilteredArray(movieRefs, movieDrops);
    m := filtered.value;
    FrontLayout(others, convert, otherRefs[..], othersDrops);
    filtered := FilteredArray(otherRefs, othersDrops);
    o := filtered.value;
    FrontLayout(tracks, convert, trackRefs[..], tracksDrops);
    filtered := FilteredArray(trackRefs, tracksDrops);
    t := filtered.value;
  }
}
