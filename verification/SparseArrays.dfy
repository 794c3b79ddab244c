/**
  Android's `SparseArray` as far as `MediaList.java` uses it: sorted keys beside their
  values. `Put` and `Get` go by key, `ValueAt` goes by position.
 */
module SparseArrays {
  /** The position of `key`, or where it would be inserted. */
  function IndexOf(keys: seq<int>, key: int): (i: nat)
    ensures i <= |keys|
  {
    if keys == [] || key <= keys[0] then 0 else 1 + IndexOf(keys[1..], key)
  }

  lemma {:induction false} IndexOfSplits(keys: seq<int>, key: int)
    ensures var i := IndexOf(keys, key);
            && (forall j :: 0 <= j < i ==> keys[j] < key)
            && (i < |keys| ==> key <= keys[i])
  {
    if keys == [] || key <= keys[0] {
    } else {
      IndexOfSplits(keys[1..], key);
      var i := IndexOf(keys, key);
      forall j | 0 <= j < i ensures keys[j] < key {
        assert j > 0 ==> keys[j] == keys[1..][j - 1];
      }
    }
  }

  predicate Sorted(keys: seq<int>) {
    forall i, j :: 0 <= i < j < |keys| ==> keys[i] < keys[j]
  }

  predicate Contiguous(keys: seq<int>) {
    forall i :: 0 <= i < |keys| ==> keys[i] == i
  }

  predicate Holds(keys: seq<int>, key: int) {
    IndexOf(keys, key) < |keys| && keys[IndexOf(keys, key)] == key
  }

  /** While the keys have no gap, key and position are the same thing. */
  lemma KeyIsPosition(keys: seq<int>, key: nat)
    requires Contiguous(keys)
    ensures IndexOf(keys, key) == if key < |keys| then key else |keys|
  {
    IndexOfSplits(keys, key);
    var i := IndexOf(keys, key);
    assert i > 0 ==> keys[i - 1] == i - 1;
  }

  /** The keys 0 to `count - 1` and then `count + 1`. */
  predicate Gapped(keys: seq<int>, count: nat) {
    |keys| == count + 1 && Contiguous(keys[..count]) && keys[count] == count + 1
  }

  lemma GapIsPosition(keys: seq<int>, count: nat)
    requires Gapped(keys, count)
    ensures IndexOf(keys, count) == count
  {
    IndexOfSplits(keys, count);
    var i := IndexOf(keys, count);
    assert forall k :: 0 <= k < count ==> keys[k] == keys[..count][k] == k;
    assert i > 0 ==> keys[i - 1] < count;
  }

  function KeysAfterPut(keys: seq<int>, key: int): seq<int> {
    var i := IndexOf(keys, key);
    if Holds(keys, key) then keys else keys[..i] + [key] + keys[i..]
  }

  function ValuesAfterPut<T>(keys: seq<int>, values: seq<T>, key: int, value: T): seq<T>
    requires |keys| == |values|
  {
    var i := IndexOf(keys, key);
    if Holds(keys, key) then values[i := value] else values[..i] + [value] + values[i..]
  }

  /** A put keeps the keys sorted. */
  lemma PutKeepsOrder(keys: seq<int>, key: int)
    requires Sorted(keys)
    ensures Sorted(KeysAfterPut(keys, key))
  {
    IndexOfSplits(keys, key);
    var p, after := IndexOf(keys, key), KeysAfterPut(keys, key);
    if after != keys {
      assert p < |keys| ==> key < keys[p];
      forall i, j | 0 <= i < j < |after| ensures after[i] < after[j] {
        assert after[i] == if i < p then keys[i] else if i == p then key else keys[i - 1];
        assert after[j] == if j < p then keys[j] else if j == p then key else keys[j - 1];
      }
    }
  }

  /** The value of a key that is there. */
  function ValueOf<T>(keys: seq<int>, values: seq<T>, key: int): T
    requires |keys| == |values| && Holds(keys, key)
  {
    values[IndexOf(keys, key)]
  }

  /** A key is held exactly when it is among the sorted keys, and there is one place for it. */
  lemma HoldsIff(keys: seq<int>, key: int)
    requires Sorted(keys)
    ensures Holds(keys, key) <==> key in keys
    ensures forall i :: 0 <= i < |keys| && keys[i] == key ==> i == IndexOf(keys, key)
  {
    IndexOfSplits(keys, key);
    var p := IndexOf(keys, key);
    forall i | 0 <= i < |keys| && keys[i] == key ensures i == p {
      assert !(i < p);
    }
  }

  /** A put gives its key the value, and leaves every other key as it was. */
  lemma PutThenLookup<T>(keys: seq<int>, values: seq<T>, key: int, value: T, other: int)
    requires Sorted(keys) && |keys| == |values|
    ensures var k, v := KeysAfterPut(keys, key), ValuesAfterPut(keys, values, key, value);
            && |k| == |v| && Sorted(k)
            && Holds(k, key) && ValueOf(k, v, key) == value
            && (other != key ==> (Holds(k, other) <==> Holds(keys, other)))
            && (other != key && Holds(keys, other) ==> ValueOf(k, v, other) == ValueOf(keys, values, other))
  {
    var k, v, p := KeysAfterPut(keys, key), ValuesAfterPut(keys, values, key, value), IndexOf(keys, key);
    PutKeepsOrder(keys, key);
    HoldsIff(keys, key);
    HoldsIff(keys, other);
    HoldsIff(k, key);
    HoldsIff(k, other);
    assert k[p] == key && v[p] == value;
    if other != key && other in keys {
      var q := IndexOf(keys, other);
      var q' := if k == keys || q < p then q else q + 1;
      assert k[q'] == other && v[q'] == values[q];
    }
    if other != key && other in k {
      var q := IndexOf(k, other);
      assert q != p;
      assert k[q] == if k == keys || q < p then keys[q] else keys[q - 1];
    }
  }

  /** Writing `x` at a position of a sequence, or just beyond its end. */
  function Written<T>(s: seq<T>, i: nat, x: T): seq<T>
    requires i <= |s|
  {
    if i < |s| then s[i := x] else s + [x]
  }

  lemma PutInPlace<T>(keys: seq<int>, values: seq<T>, key: nat, value: T)
    requires |keys| == |values| && Contiguous(keys) && key <= |keys|
    ensures Contiguous(KeysAfterPut(keys, key))
    ensures ValuesAfterPut(keys, values, key, value) == Written(values, key, value)
  {
    KeyIsPosition(keys, key);
  }

  lemma PutBeyondGap<T>(keys: seq<int>, values: seq<T>, value: T)
    requires |keys| == |values| && Contiguous(keys)
    ensures Gapped(KeysAfterPut(keys, |keys| + 1), |keys|)
    ensures ValuesAfterPut(keys, values, |keys| + 1, value) == values + [value]
  {
    KeyIsPosition(keys, |keys| + 1);
    assert KeysAfterPut(keys, |keys| + 1)[..|keys|] == keys;
  }

  lemma PutInGap<T>(keys: seq<int>, values: seq<T>, gap: nat, value: T)
    requires |keys| == |values| && Gapped(keys, gap)
    ensures Contiguous(KeysAfterPut(keys, gap))
    ensures ValuesAfterPut(keys, values, gap, value) == values[..gap] + [value] + values[gap..]
  {
    GapIsPosition(keys, gap);
    assert forall k :: 0 <= k < gap ==> keys[k] == keys[..gap][k] == k;
  }

  class SparseArray<T(0)> {
    var keys: seq<int>
    var values: seq<T>

    ghost predicate Valid()
      reads this
    {
      |keys| == |values| && Sorted(keys)
    }

    constructor ()
      ensures Valid() && keys == [] && values == []
    {
      keys, values := [], [];
    }

    /** Overwrites the value of a key already there; inserts the key otherwise. */
    method Put(key: int, value: T)
      requires Valid()
      modifies this
      ensures Valid()
      ensures keys == KeysAfterPut(old(keys), key)
      ensures values == ValuesAfterPut(old(keys), old(values), key, value)
    {
      PutKeepsOrder(keys, key);
      var i := IndexOf(keys, key);
      if i < |keys| && keys[i] == key {
        values := values[i := value];
      } else {
        keys := keys[..i] + [key] + keys[i..];
        values := values[..i] + [value] + values[i..];
      }
    }

    method Get(key: int, missing: T) returns (value: T)
      requires Valid()
      ensures value == if Holds(keys, key) then values[IndexOf(keys, key)] else missing
    {
      var i := IndexOf(keys, key);
      value := if i < |keys| && keys[i] == key then values[i] else missing;
    }

    /** Outside the array nothing is promised about the result. */
    method ValueAt(position: int) returns (value: T)
      requires Valid()
      ensures 0 <= position < |values| ==> value == values[position]
    {
      if 0 <= position < |values| {
        value := values[position];
      } else {
        value := *;
      }
    }
  }
}
