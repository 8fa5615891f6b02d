/**
 * `MapSetView`: a live, read-only window over a mutable map whose values are sets.
 *
 * The backing `HashMap` is an object (`SharedMap`) that the owner of the map keeps
 * mutating; the view and its entry set, values collection and iterators keep a reference
 * to it, never a copy, so every read sees the backing map's current contents. Every
 * structural mutator throws `UnsupportedOperationException`; here it returns that
 * exception as a value, and since none of them has a `modifies` clause, none can change
 * any object.
 */
module MapSetView {
  import opened Wrappers

  /** The exception every mutator of the view throws. */
  datatype Thrown = UnsupportedOperation(message: string)

  /**
   * What an iterator's `next()` does: hand back an element, or throw
   * `NoSuchElementException` (nothing left) or `ConcurrentModificationException` (the
   * backing map changed structurally since the iterator was made).
   */
  datatype Step<T> = Item(value: T) | NoSuchElement | ConcurrentModification

  /**
   * The backing mutable map (a `HashMap` shared by reference). `modCount` counts its
   * structural changes, as `HashMap`'s own field does: adding a key bumps it, changing the
   * value held under a key already present does not. A key set change therefore always
   * comes with a larger `modCount`.
   */
  class SharedMap<K(==,!new), V> {
    var entries: map<K, V>
    var modCount: nat

    constructor(initial: map<K, V>)
      ensures entries == initial && modCount == 0
    {
      entries := initial;
      modCount := 0;
    }

    /** `put(key, value)`: a structural change exactly when `key` is new. */
    method Put(key: K, value: V)
      modifies this
      ensures entries == old(entries)[key := value]
      ensures modCount == if key in old(entries) then old(modCount) else old(modCount) + 1
    {
      if key !in entries {
        modCount := modCount + 1;
      }
      entries := entries[key := value];
    }
  }

  class MapSetView<K(==,!new), V> {
    const original: SharedMap<K, V>

    constructor(original: SharedMap<K, V>)
      ensures this.original == original
    {
      this.original := original;
    }

    /** `size()`: the backing map's current size. */
    function Size(): (n: nat)
      reads original
      ensures n == |original.entries.Keys|
    {
      |original.entries|
    }

    /** `isEmpty()`. */
    predicate IsEmpty()
      reads original
      ensures IsEmpty() <==> Size() == 0
    {
      original.entries == map[]
    }

    /** `containsKey(key)`: a key of the backing map now; such a key makes the view non-empty. */
    predicate ContainsKey(key: K)
      reads original
      ensures ContainsKey(key) ==> !IsEmpty() && Size() > 0
    {
      key in original.entries
    }

    /** `get(key)`: null (`None`) for an absent key, else the key's current set. */
    function Get(key: K): (r: Option<V>)
      reads original
      ensures r.None? <==> !ContainsKey(key)
      ensures r.Some? ==> r.value == original.entries[key]
    {
      if key in original.entries then Some(original.entries[key]) else None
    }

    /** `keySet()`: a fresh read-only window on the backing map's key set. */
    method KeySet() returns (ks: UnmodKeySet<K, V>)
      ensures fresh(ks) && ks.original == original
    {
      ks := new UnmodKeySet(original);
    }

    /** `put(key, value)` always throws. */
    method Put(key: K, value: V) returns (e: Thrown)
      ensures e == UnsupportedOperation("Unmodifiable map")
    {
      e := UnsupportedOperation("Unmodifiable map");
    }

    /** `remove(key)` always throws. */
    method Remove(key: K) returns (e: Thrown)
      ensures e == UnsupportedOperation("Unmodifiable map")
    {
      e := UnsupportedOperation("Unmodifiable map");
    }

    /** `putAll(m)` always throws. */
    method PutAll(m: map<K, V>) returns (e: Thrown)
      ensures e == UnsupportedOperation("Unmodifiable map")
    {
      e := UnsupportedOperation("Unmodifiable map");
    }

    /** `clear()` always throws. */
    method Clear() returns (e: Thrown)
      ensures e == UnsupportedOperation("Unmodifiable map")
    {
      e := UnsupportedOperation("Unmodifiable map");
    }

    /** `values()`: a read-only collection over the backing map's values. */
    method Values() returns (c: UnmodValuesColl<K, V>)
      ensures fresh(c) && c.original == original
    {
      c := new UnmodValuesColl(original);
    }

    /** `entrySet()`: a read-only set over the backing map's entries. */
    method EntrySet() returns (s: UnmodEntrySet<K, V>)
      ensures fresh(s) && s.original == original
    {
      s := new UnmodEntrySet(original);
    }
  }

  /**
   * `unmodifiableSet(keySet())`: a live window on the backing map's keys. Whatever keys
   * the map holds when it is read, the key set reports.
   */
  class UnmodKeySet<K(==,!new), V> {
    const original: SharedMap<K, V>

    constructor(original: SharedMap<K, V>)
      ensures this.original == original
    {
      this.original := original;
    }

    /** `contains(key)`: whether the backing map has `key` now. */
    predicate Contains(key: K)
      reads original
      ensures Contains(key) ==> |original.entries| > 0
    {
      key in original.entries
    }

    /** `size()`: one per key the backing map has now. */
    function Size(): (n: nat)
      reads original
      ensures n == |original.entries|
      ensures n == 0 <==> forall k :: !Contains(k)
    {
      if original.entries == map[] then 0
      else
        var k :| k in original.entries;
        assert Contains(k);
        |original.entries|
    }
  }

  /** Whether `a` lists every entry of `m` exactly once, in some order. */
  ghost predicate ListsEntries<K, V>(a: seq<(K, V)>, m: map<K, V>) {
    && |a| == |m.Keys|
    && (forall i :: 0 <= i < |a| ==> a[i].0 in m && m[a[i].0] == a[i].1)
    && (forall i, j :: 0 <= i < j < |a| ==> a[i].0 != a[j].0)
    && (forall k :: k in m ==> exists i :: 0 <= i < |a| && a[i].0 == k)
  }

  /** Whether `a` lists the value of every key of `m` exactly once, the `i`th under `keys[i]`. */
  ghost predicate ListsValues<K, V>(a: seq<V>, keys: seq<K>, m: map<K, V>) {
    && |a| == |keys| == |m.Keys|
    && (forall i :: 0 <= i < |keys| ==> keys[i] in m && m[keys[i]] == a[i])
    && (forall i, j :: 0 <= i < j < |keys| ==> keys[i] != keys[j])
    && (forall k :: k in m ==> exists i :: 0 <= i < |keys| && keys[i] == k)
  }

  /** `entrySet()` of the view. */
  class UnmodEntrySet<K(==,!new), V> {
    const original: SharedMap<K, V>

    constructor(original: SharedMap<K, V>)
      ensures this.original == original
    {
      this.original := original;
    }

    function Size(): (n: nat)
      reads original
      ensures n == |original.entries.Keys|
    {
      |original.entries|
    }

    predicate IsEmpty()
      reads original
      ensures IsEmpty() <==> Size() == 0
    {
      original.entries == map[]
    }

    /** `iterator()`: a fresh iterator that has visited nothing yet. */
    method Iterator() returns (it: UnmodEntrySetIterator<K, V>)
      ensures fresh(it) && it.original == original
      ensures it.remaining == original.entries.Keys && it.expectedModCount == original.modCount
      ensures it.Valid()
    {
      it := new UnmodEntrySetIterator(original);
    }

    /** `toArray()`: every entry of the backing map, each once, as immutable pairs. */
    method ToArray() returns (a: seq<(K, V)>)
      ensures ListsEntries(a, original.entries)
    {
      var m := original.entries;
      var todo := m.Keys;
      a := [];
      while todo != {}
        invariant todo <= m.Keys
        invariant |a| + |todo| == |m.Keys|
        invariant forall i :: 0 <= i < |a| ==> a[i].0 in m && a[i].0 !in todo && m[a[i].0] == a[i].1
        invariant forall i, j :: 0 <= i < j < |a| ==> a[i].0 != a[j].0
        invariant forall k :: k in m && k !in todo ==> exists i :: 0 <= i < |a| && a[i].0 == k
        decreases |todo|
      {
        var k :| k in todo;
        ghost var before := a;
        a := a + [(k, m[k])];
        todo := todo - {k};
        forall k' | k' in m && k' !in todo
          ensures exists i :: 0 <= i < |a| && a[i].0 == k'
        {
          if k' == k {
            assert a[|a| - 1].0 == k';
          } else {
            var i :| 0 <= i < |before| && before[i].0 == k';
            assert a[i].0 == k';
          }
        }
      }
    }

    method Add(entry: (K, V)) returns (e: Thrown)
      ensures e == UnsupportedOperation("Unmodifiable set.")
    {
      e := UnsupportedOperation("Unmodifiable set.");
    }

    method Remove(entry: (K, V)) returns (e: Thrown)
      ensures e == UnsupportedOperation("Unmodifiable set.")
    {
      e := UnsupportedOperation("Unmodifiable set.");
    }

    method AddAll(entries: seq<(K, V)>) returns (e: Thrown)
      ensures e == UnsupportedOperation("Unmodifiable set.")
    {
      e := UnsupportedOperation("Unmodifiable set.");
    }

    method RetainAll(entries: seq<(K, V)>) returns (e: Thrown)
      ensures e == UnsupportedOperation("Unmodifiable set.")
    {
      e := UnsupportedOperation("Unmodifiable set.");
    }

    method RemoveAll(entries: seq<(K, V)>) returns (e: Thrown)
      ensures e == UnsupportedOperation("Unmodifiable set.")
    {
      e := UnsupportedOperation("Unmodifiable set.");
    }

    method Clear() returns (e: Thrown)
      ensures e == UnsupportedOperation("Unmodifiable set.")
    {
      e := UnsupportedOperation("Unmodifiable set.");
    }
  }

  /**
   * The entry-set iterator: it steps the backing map's iterator, whose order is not
   * specified, and wraps each entry as an immutable pair. `remaining` holds the keys not
   * yet returned. Like `HashMap`'s iterator it remembers the `modCount` it started from
   * and fails fast once the backing map has changed structurally.
   */
  class UnmodEntrySetIterator<K(==,!new), V> {
    const original: SharedMap<K, V>
    const expectedModCount: nat
    ghost const keysAtStart: set<K>
    var remaining: set<K>

    /** While `modCount` is unchanged the map has the keys it started with. */
    ghost predicate Valid()
      reads this, original
    {
      && remaining <= keysAtStart
      && expectedModCount <= original.modCount
      && (original.modCount == expectedModCount ==> original.entries.Keys == keysAtStart)
    }

    constructor(original: SharedMap<K, V>)
      ensures this.original == original && remaining == original.entries.Keys && Valid()
      ensures expectedModCount == original.modCount
    {
      this.original := original;
      expectedModCount := original.modCount;
      keysAtStart := original.entries.Keys;
      remaining := original.entries.Keys;
    }

    /** `hasNext()`: some key is still to come; unless the map changed, `next()` then returns one. */
    predicate HasNext()
      reads this, original
      ensures Valid() && HasNext() && original.modCount == expectedModCount ==>
        exists k :: k in remaining && k in original.entries
    {
      remaining != {}
    }

    /**
     * `next()`: throws `ConcurrentModificationException` after a structural change,
     * `NoSuchElementException` when every key was returned, and otherwise an entry not
     * returned before, with the key's current set.
     */
    method Next() returns (r: Step<(K, V)>)
      requires Valid()
      modifies this
      ensures Valid()
      ensures r.ConcurrentModification? <==> original.modCount != expectedModCount
      ensures r.NoSuchElement? <==> original.modCount == expectedModCount && !old(HasNext())
      ensures !r.Item? ==> remaining == old(remaining)
      ensures r.Item? ==> r.value.0 in old(remaining) && remaining == old(remaining) - {r.value.0}
      ensures r.Item? ==> r.value.0 in original.entries && r.value.1 == original.entries[r.value.0]
    {
      if original.modCount != expectedModCount {
        r := ConcurrentModification;
      } else if remaining == {} {
        r := NoSuchElement;
      } else {
        var k :| k in remaining;
        remaining := remaining - {k};
        r := Item((k, original.entries[k]));
      }
    }

    /** `remove()` always throws. */
    method Remove() returns (e: Thrown)
      ensures e == UnsupportedOperation("Unmodifiable iterator.")
    {
      e := UnsupportedOperation("Unmodifiable iterator.");
    }
  }

  /** `values()` of the view. */
  class UnmodValuesColl<K(==,!new), V> {
    const original: SharedMap<K, V>

    constructor(original: SharedMap<K, V>)
      ensures this.original == original
    {
      this.original := original;
    }

    function Size(): (n: nat)
      reads original
      ensures n == |original.entries.Keys|
    {
      |original.entries|
    }

    predicate IsEmpty()
      reads original
      ensures IsEmpty() <==> Size() == 0
    {
      original.entries == map[]
    }

    method Iterator() returns (it: UnmodIterator<K, V>)
      ensures fresh(it) && it.original == original
      ensures it.remaining == original.entries.Keys && it.expectedModCount == original.modCount
      ensures it.Valid()
    {
      it := new UnmodIterator(original);
    }

    /**
     * `toArray()`: the current set of every key of the backing map, once per key, in
     * some order; `keys` names the key each element came from.
     */
    method ToArray() returns (a: seq<V>, ghost keys: seq<K>)
      ensures ListsValues(a, keys, original.entries)
    {
      var m := original.entries;
      var todo := m.Keys;
      a, keys := [], [];
      while todo != {}
        invariant todo <= m.Keys
        invariant |a| == |keys| && |keys| + |todo| == |m.Keys|
        invariant forall i :: 0 <= i < |keys| ==> keys[i] in m && keys[i] !in todo && m[keys[i]] == a[i]
        invariant forall i, j :: 0 <= i < j < |keys| ==> keys[i] != keys[j]
        invariant forall k :: k in m && k !in todo ==> exists i :: 0 <= i < |keys| && keys[i] == k
        decreases |todo|
      {
        var k :| k in todo;
        ghost var before := keys;
        a, keys := a + [m[k]], keys + [k];
        todo := todo - {k};
        forall k' | k' in m && k' !in todo
          ensures exists i :: 0 <= i < |keys| && keys[i] == k'
        {
          if k' == k {
            assert keys[|keys| - 1] == k';
          } else {
            var i :| 0 <= i < |before| && before[i] == k';
            assert keys[i] == k';
          }
        }
      }
    }

    method Add(value: V) returns (e: Thrown)
      ensures e == UnsupportedOperation("Unmodifiable collection.")
    {
      e := UnsupportedOperation("Unmodifiable collection.");
    }

    method Remove(value: V) returns (e: Thrown)
      ensures e == UnsupportedOperation("Unmodifiable collection.")
    {
      e := UnsupportedOperation("Unmodifiable collection.");
    }

    method AddAll(values: seq<V>) returns (e: Thrown)
      ensures e == UnsupportedOperation("Unmodifiable collection.")
    {
      e := UnsupportedOperation("Unmodifiable collection.");
    }

    method RemoveAll(values: seq<V>) returns (e: Thrown)
      ensures e == UnsupportedOperation("Unmodifiable collection.")
    {
      e := UnsupportedOperation("Unmodifiable collection.");
    }

    method RetainAll(values: seq<V>) returns (e: Thrown)
      ensures e == UnsupportedOperation("Unmodifiable collection.")
    {
      e := UnsupportedOperation("Unmodifiable collection.");
    }

    method Clear() returns (e: Thrown)
      ensures e == UnsupportedOperation("Unmodifiable collection.")
    {
      e := UnsupportedOperation("Unmodifiable collection.");
    }
  }

  /**
   * The values iterator: steps the backing map's values in an unspecified order; the
   * keys of the values not yet returned are `remaining`. It fails fast like the entry-set
   * iterator.
   */
  class UnmodIterator<K(==,!new), V> {
    const original: SharedMap<K, V>
    const expectedModCount: nat
    ghost const keysAtStart: set<K>
    var remaining: set<K>

    /** While `modCount` is unchanged the map has the keys it started with. */
    ghost predicate Valid()
      reads this, original
    {
      && remaining <= keysAtStart
      && expectedModCount <= original.modCount
      && (original.modCount == expectedModCount ==> original.entries.Keys == keysAtStart)
    }

    constructor(original: SharedMap<K, V>)
      ensures this.original == original && remaining == original.entries.Keys && Valid()
      ensures expectedModCount == original.modCount
    {
      this.original := original;
      expectedModCount := original.modCount;
      keysAtStart := original.entries.Keys;
      remaining := original.entries.Keys;
    }

    /** `hasNext()`: some value is still to come; unless the map changed, `next()` then returns one. */
    predicate HasNext()
      reads this, original
      ensures Valid() && HasNext() && original.modCount == expectedModCount ==>
        exists k :: k in remaining && k in original.entries
    {
      remaining != {}
    }

    /**
     * `next()`: throws after a structural change or when every value was returned;
     * otherwise the current set of a key whose value was not returned before.
     */
    method Next() returns (r: Step<V>)
      requires Valid()
      modifies this
      ensures Valid()
      ensures r.ConcurrentModification? <==> original.modCount != expectedModCount
      ensures r.NoSuchElement? <==> original.modCount == expectedModCount && !old(HasNext())
      ensures !r.Item? ==> remaining == old(remaining)
      ensures r.Item? ==> exists k ::
        k in old(remaining) && remaining == old(remaining) - {k} && k in original.entries && r.value == original.entries[k]
    {
      if original.modCount != expectedModCount {
        r := ConcurrentModification;
      } else if remaining == {} {
        r := NoSuchElement;
      } else {
        var k :| k in remaining;
        remaining := remaining - {k};
        r := Item(original.entries[k]);
      }
    }

    /** `remove()` always throws. */
    method Remove() returns (e: Thrown)
      ensures e == UnsupportedOperation("Unmodifiable collection.")
    {
      e := UnsupportedOperation("Unmodifiable collection.");
    }
  }

  /**
   * The view is a window, not a snapshot: whatever the backing map holds now, the view
   * reports now, for every key.
   */
  lemma ViewMirrorsBacking<K(!new), V>(v: MapSetView<K, V>, ks: UnmodKeySet<K, V>, m: SharedMap<K, V>)
    requires v.original == m && ks.original == m
    ensures v.Size() == |m.entries| == ks.Size()
    ensures forall k :: v.Get(k) == (if k in m.entries then Some(m.entries[k]) else None)
    ensures forall k :: ks.Contains(k) <==> v.ContainsKey(k)
  {
  }
}
