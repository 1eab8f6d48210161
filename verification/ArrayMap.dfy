/** The fixed-size map of kernel/usb/arraymap.hpp: linear search over a table of optional keys. */
module ArrayMaps {
  import opened Wrappers

  datatype Entry<K, V> = Entry(key: Option<K>, value: V)

  /** First entry at or after i that holds the key, or the table's length. */
  function Find<K(==), V>(t: seq<Entry<K, V>>, key: Option<K>, i: nat): (r: nat)
    requires i <= |t|
    ensures i <= r <= |t| && (forall k :: i <= k < r ==> t[k].key != key) && (r < |t| ==> t[r].key == key)
    decreases |t| - i
  {
    if i == |t| || t[i].key == key then i else Find(t, key, i + 1)
  }

  /** No key is stored twice. */
  ghost predicate Distinct<K, V>(t: seq<Entry<K, V>>) {
    forall i, j :: 0 <= i < j < |t| && t[i].key.Some? ==> t[i].key != t[j].key
  }

  /** Number of entries in use. */
  function Used<K, V>(t: seq<Entry<K, V>>): nat {
    if t == [] then 0 else (if t[0].key.Some? then 1 else 0) + Used(t[1..])
  }

  function Lookup<K(==), V>(t: seq<Entry<K, V>>, key: K): Option<V> {
    var i := Find(t, Some(key), 0);
    if i < |t| then Some(t[i].value) else None
  }

  /** The first free entry takes the pair; a full table drops it. */
  function Inserted<K(==), V>(t: seq<Entry<K, V>>, key: K, value: V): seq<Entry<K, V>> {
    var i := Find(t, None, 0);
    if i < |t| then t[i := Entry(Some(key), value)] else t
  }

  /** The first entry of the key becomes free. */
  function Removed<K(==), V>(t: seq<Entry<K, V>>, key: K): seq<Entry<K, V>> {
    var i := Find(t, Some(key), 0);
    if i < |t| then t[i := t[i].(key := None)] else t
  }

  class ArrayMap<K(==), V> {
    const table: array<Entry<K, V>>

    ghost function State(): seq<Entry<K, V>>
      reads table
    {
      table[..]
    }

    constructor (n: nat, zero: V)
      ensures fresh(table) && State() == seq(n, _ => Entry(None, zero))
    {
      table := new Entry<K, V>[n](_ => Entry(None, zero));
      new;
      assert table[..] == seq(n, _ => Entry(None, zero));
    }

    method Get(key: K) returns (v: Option<V>)
      ensures v == Lookup(State(), key)
    {
      for i := 0 to table.Length
        invariant Find(State(), Some(key), 0) == Find(State(), Some(key), i)
      {
        if table[i].key.Some? && table[i].key.value == key {
          return Some(table[i].value);
        }
      }
      return None;
    }

    method Put(key: K, value: V)
      modifies table
      ensures State() == Inserted(old(State()), key, value)
    {
      for i := 0 to table.Length
        invariant State() == old(State())
        invariant Find(old(State()), None, 0) == Find(old(State()), None, i)
      {
        if table[i].key.None? {
          table[i] := Entry(Some(key), value);
          assert State() == old(State())[i := Entry(Some(key), value)];
          return;
        }
      }
    }

    method Delete(key: K)
      modifies table
      ensures State() == Removed(old(State()), key)
    {
      for i := 0 to table.Length
        invariant State() == old(State())
        invariant Find(old(State()), Some(key), 0) == Find(old(State()), Some(key), i)
      {
        if table[i].key.Some? && table[i].key.value == key {
          table[i] := table[i].(key := None);
          assert State() == old(State())[i := old(State())[i].(key := None)];
          return;
        }
      }
    }
  }

  // ---- the table behaves as a map: what Get answers for every key ----

  /** Find is determined by what it promises. */
  lemma FindIs<K, V>(t: seq<Entry<K, V>>, key: Option<K>, r: nat)
    requires r <= |t| && (forall k :: 0 <= k < r ==> t[k].key != key) && (r < |t| ==> t[r].key == key)
    ensures Find(t, key, 0) == r
  {
    var f := Find(t, key, 0);
    assert f < |t| ==> t[f].key == key;
  }

  /** An update between two keys other than `key` does not move its first entry. */
  lemma FindElsewhere<K, V>(t: seq<Entry<K, V>>, t': seq<Entry<K, V>>, key: Option<K>, i: nat)
    requires |t'| == |t| && i < |t| && t[i].key != key && t'[i].key != key
    requires forall k :: 0 <= k < |t| && k != i ==> t'[k] == t[k]
    ensures Find(t', key, 0) == Find(t, key, 0)
  {
    FindIs(t', key, Find(t, key, 0));
  }

  /** Put of a new key into a table that is not full: that key now answers the value, every other key as before. */
  lemma PutThenGet<K, V>(t: seq<Entry<K, V>>, key: K, value: V, other: K)
    requires Lookup(t, key) == None && Used(t) < |t|
    ensures Lookup(Inserted(t, key, value), other) == if other == key then Some(value) else Lookup(t, other)
  {
    FreeEntryExists(t);
    var i := Find(t, None, 0);
    var t' := Inserted(t, key, value);
    if other == key {
      FindIs(t', Some(key), i);
    } else {
      FindElsewhere(t, t', Some(other), i);
    }
  }

  /** Put of a key that may be present already: the key answers its old value or the new one, other keys as before. */
  lemma PutStores<K, V>(t: seq<Entry<K, V>>, key: K, value: V, other: K)
    requires Used(t) < |t|
    ensures Lookup(Inserted(t, key, value), key) == Some(value) ||
            Lookup(Inserted(t, key, value), key) == Lookup(t, key)
    ensures Lookup(Inserted(t, key, value), key).Some?
    ensures other != key ==> Lookup(Inserted(t, key, value), other) == Lookup(t, other)
  {
    FreeEntryExists(t);
    var i, j := Find(t, None, 0), Find(t, Some(key), 0);
    var t' := Inserted(t, key, value);
    FindIs(t', Some(key), if j < i then j else i);
    if other != key { FindElsewhere(t, t', Some(other), i); }
  }

  /** Put into a full table is dropped silently. */
  lemma PutIntoFull<K, V>(t: seq<Entry<K, V>>, key: K, value: V)
    ensures Inserted(t, key, value) == t <==> Used(t) == |t|
  {
    FreeEntryExists(t);
  }

  /** Delete of a key that is stored once: that key is gone, every other key answers as before. */
  lemma DeleteThenGet<K, V>(t: seq<Entry<K, V>>, key: K, other: K)
    requires Distinct(t)
    ensures Lookup(Removed(t, key), other) == if other == key then None else Lookup(t, other)
  {
    var i := Find(t, Some(key), 0);
    var t' := Removed(t, key);
    if i < |t| {
      if other == key {
        FindIs(t', Some(key), |t|);
      } else {
        FindElsewhere(t, t', Some(other), i);
      }
    }
  }

  /** Delete leaves what every other key answers alone, however often keys are stored. */
  lemma DeleteKeepsOthers<K, V>(t: seq<Entry<K, V>>, key: K, other: K)
    requires other != key
    ensures Lookup(Removed(t, key), other) == Lookup(t, other)
  {
    var i := Find(t, Some(key), 0);
    if i < |t| { FindElsewhere(t, Removed(t, key), Some(other), i); }
  }

  /** No call stores a key twice, as long as Put is not called with a key that is there. */
  lemma KeysStayDistinct<K, V>(t: seq<Entry<K, V>>, key: K, value: V)
    requires Distinct(t)
    ensures Distinct(Removed(t, key))
    ensures Lookup(t, key) == None ==> Distinct(Inserted(t, key, value))
  {
  }

  lemma {:induction false} FindShift<K, V>(t: seq<Entry<K, V>>, key: Option<K>)
    requires t != [] && t[0].key != key
    ensures Find(t, key, 0) == Find(t[1..], key, 0) + 1
  {
    var r := Find(t[1..], key, 0);
    forall k | 0 <= k < r + 1 ensures t[k].key != key {
      if k > 0 { assert t[k] == t[1..][k - 1]; }
    }
    FindIs(t, key, r + 1);
  }

  lemma {:induction false} FreeEntryExists<K, V>(t: seq<Entry<K, V>>)
    ensures Used(t) <= |t|
    ensures Used(t) < |t| <==> Find(t, None, 0) < |t|
  {
    if t != [] {
      FreeEntryExists(t[1..]);
      if t[0].key.Some? { FindShift(t, None); }
    }
  }

  lemma {:induction false} UnusedIsEmpty<K, V>(t: seq<Entry<K, V>>, k: nat)
    requires Used(t) == 0 && k < |t|
    ensures t[k].key.None?
  {
    if k > 0 { UnusedIsEmpty(t[1..], k - 1); }
  }

  lemma {:induction false} UsedAfterChange<K, V>(t: seq<Entry<K, V>>, i: nat, e: Entry<K, V>)
    requires i < |t|
    ensures Used(t[i := e]) == Used(t) - (if t[i].key.Some? then 1 else 0) + (if e.key.Some? then 1 else 0)
  {
    if i > 0 {
      UsedAfterChange(t[1..], i - 1, e);
      assert t[i := e][1..] == t[1..][i - 1 := e];
    }
  }

  /** Entries in use: one more after a Put that is not dropped, one less after a Delete that finds its key. */
  lemma UsedCounts<K, V>(t: seq<Entry<K, V>>, key: K, value: V)
    ensures Used(t) < |t| ==> Used(Inserted(t, key, value)) == Used(t) + 1
    ensures Lookup(t, key).Some? ==> Used(Removed(t, key)) == Used(t) - 1
  {
    FreeEntryExists(t);
    var i, j := Find(t, None, 0), Find(t, Some(key), 0);
    if i < |t| { UsedAfterChange(t, i, Entry(Some(key), value)); }
    if j < |t| { UsedAfterChange(t, j, t[j].(key := None)); }
  }

  // ---- any sequence of calls: the table is a map of bounded size ----

  datatype Call<K, V> = PutCall(key: K, value: V) | DeleteCall(key: K)

  /** The table after the calls. */
  function TableAfter<K(==), V>(t: seq<Entry<K, V>>, calls: seq<Call<K, V>>): seq<Entry<K, V>> {
    if calls == [] then t
    else
      var before := TableAfter(t, calls[..|calls| - 1]);
      match calls[|calls| - 1]
      case PutCall(key, value) => Inserted(before, key, value)
      case DeleteCall(key) => Removed(before, key)
  }

  /** What the calls mean for a map of at most n keys. */
  function MapAfter<K(==), V>(n: nat, calls: seq<Call<K, V>>): map<K, V> {
    if calls == [] then map[]
    else
      var before := MapAfter(n, calls[..|calls| - 1]);
      match calls[|calls| - 1]
      case PutCall(key, value) => if |before| < n then before[key := value] else before
      case DeleteCall(key) => before - {key}
  }

  /** Put is called with keys that are not stored. */
  ghost predicate NewKeys<K, V>(n: nat, calls: seq<Call<K, V>>) {
    forall i :: 0 <= i < |calls| && calls[i].PutCall? ==> calls[i].key !in MapAfter(n, calls[..i])
  }

  ghost predicate Represents<K(!new), V>(t: seq<Entry<K, V>>, m: map<K, V>) {
    && Distinct(t) && Used(t) == |m|
    && forall key :: Lookup(t, key) == if key in m then Some(m[key]) else None
  }

  lemma PutRepresents<K(!new), V>(t: seq<Entry<K, V>>, m: map<K, V>, key: K, value: V)
    requires Represents(t, m) && key !in m
    ensures Represents(Inserted(t, key, value), if |m| < |t| then m[key := value] else m)
  {
    UsedCounts(t, key, value);
    KeysStayDistinct(t, key, value);
    PutIntoFull(t, key, value);
    FreeEntryExists(t);
    if |m| < |t| {
      forall other
        ensures Lookup(Inserted(t, key, value), other) == if other == key then Some(value) else Lookup(t, other)
      {
        PutThenGet(t, key, value, other);
      }
    }
  }

  lemma DeleteRepresents<K(!new), V>(t: seq<Entry<K, V>>, m: map<K, V>, key: K, any: V)
    requires Represents(t, m)
    ensures Represents(Removed(t, key), m - {key})
  {
    UsedCounts(t, key, any);
    KeysStayDistinct(t, key, any);
    assert (m - {key}).Keys == m.Keys - {key};
    forall other ensures Lookup(Removed(t, key), other) == if other == key then None else Lookup(t, other) {
      DeleteThenGet(t, key, other);
    }
  }

  lemma {:induction false} EmptyRepresents<K(!new), V>(n: nat, zero: V)
    ensures Represents(seq(n, _ => Entry(Option<K>.None, zero)), map[])
  {
    var t := seq(n, _ => Entry(Option<K>.None, zero));
    if n > 0 {
      EmptyRepresents<K, V>(n - 1, zero);
      assert t[1..] == seq(n - 1, _ => Entry(Option<K>.None, zero));
    }
  }

  /** After any calls Get answers what the map has, and exactly the Puts beyond n keys are dropped. */
  lemma {:induction false} TableIsMap<K(!new), V>(n: nat, zero: V, calls: seq<Call<K, V>>)
    requires NewKeys(n, calls)
    ensures var t := TableAfter(seq(n, _ => Entry(None, zero)), calls);
            |t| == n && Represents(t, MapAfter(n, calls)) && |MapAfter(n, calls)| <= n
  {
    var empty: seq<Entry<K, V>> := seq(n, _ => Entry(None, zero));
    if calls == [] {
      EmptyRepresents<K, V>(n, zero);
    } else {
      var k := |calls| - 1;
      var before, m := TableAfter(empty, calls[..k]), MapAfter(n, calls[..k]);
      forall i | 0 <= i < k && calls[..k][i].PutCall? ensures calls[..k][i].key !in MapAfter(n, calls[..k][..i]) {
        assert calls[..k][..i] == calls[..i] && calls[i] == calls[..k][i];
      }
      TableIsMap(n, zero, calls[..k]);
      match calls[k]
      case PutCall(key, value) => PutRepresents(before, m, key, value);
      case DeleteCall(key) =>
        assert (m - {key}).Keys == m.Keys - {key};
        DeleteRepresents(before, m, key, zero);
    }
  }
}
