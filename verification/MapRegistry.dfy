/** Registries: maps that remember the order in which keys were first stored. */
module MapRegistrySpec {

  datatype Option<+T> = None | Some(value: T)

  ghost predicate Distinct<K, V>(records: seq<(K, V)>) {
    forall i, j :: 0 <= i < j < |records| ==> records[i].0 != records[j].0
  }

  function IndexOf<K(==), V>(records: seq<(K, V)>, key: K): (i: nat)
    ensures i <= |records| && (i < |records| ==> records[i].0 == key)
    ensures forall k :: 0 <= k < i ==> records[k].0 != key
    decreases |records|
  {
    if records == [] || records[0].0 == key then 0 else 1 + IndexOf(records[1..], key)
  }

  function Lookup<K(==), V>(records: seq<(K, V)>, key: K): Option<V> {
    var i := IndexOf(records, key);
    if i < |records| then Some(records[i].1) else None
  }

  // A known key keeps its place; a new one goes to the back.
  function Stored<K(==), V>(records: seq<(K, V)>, key: K, value: V): seq<(K, V)> {
    var i := IndexOf(records, key);
    if i < |records| then records[i := (key, value)] else records + [(key, value)]
  }

  function Removed<K(==), V>(records: seq<(K, V)>, key: K): seq<(K, V)> {
    var i := IndexOf(records, key);
    if i < |records| then records[..i] + records[i + 1..] else records
  }

  function Fronted<K(==), V>(records: seq<(K, V)>, key: K, value: V): seq<(K, V)> {
    [(key, value)] + Removed(records, key)
  }

  // The records of all other keys, in order.
  function Others<K(==), V>(records: seq<(K, V)>, key: K): seq<(K, V)>
    decreases |records|
  {
    if records == [] then []
    else if records[0].0 == key then Others(records[1..], key)
    else [records[0]] + Others(records[1..], key)
  }

  lemma {:induction false} OthersJoin<K, V>(a: seq<(K, V)>, b: seq<(K, V)>, key: K)
    ensures Others(a + b, key) == Others(a, key) + Others(b, key)
    decreases |a|
  {
    if a == [] {
      assert a + b == b;
    } else {
      assert (a + b)[1..] == a[1..] + b;
      OthersJoin(a[1..], b, key);
    }
  }

  // A record of the key between others does not count, nor does its absence.
  lemma OthersAround<K, V>(before: seq<(K, V)>, value: V, rest: seq<(K, V)>, key: K)
    ensures Others(before + ([(key, value)] + rest), key) == Others(before + rest, key)
  {
    OthersJoin(before, [(key, value)] + rest, key);
    OthersJoin(before, rest, key);
    assert ([(key, value)] + rest)[1..] == rest;
  }

  // Storing or removing one key leaves every other record, and their order, alone.
  lemma OthersKept<K, V>(records: seq<(K, V)>, key: K, value: V)
    ensures Others(Stored(records, key, value), key) == Others(records, key)
    ensures Others(Removed(records, key), key) == Others(records, key)
    ensures Others(Fronted(records, key, value), key) == Others(records, key)
  {
    hide Others, Stored, Removed;
    StoredParts(records, key, value);
    var i := IndexOf(records, key);
    OthersAround([], value, Removed(records, key), key);
    assert [] + Removed(records, key) == Removed(records, key);
    assert [] + Fronted(records, key, value) == Fronted(records, key, value);
    if i < |records| {
      OthersAround(records[..i], records[i].1, records[i + 1..], key);
      OthersAround(records[..i], value, records[i + 1..], key);
    } else {
      OthersAround(records, value, [], key);
    }
  }

  lemma SplitAt<T>(s: seq<T>, i: nat, x: T)
    requires i < |s|
    ensures s == s[..i] + ([s[i]] + s[i + 1..]) && s[i := x] == s[..i] + ([x] + s[i + 1..])
  {
  }

  lemma StoredParts<K, V>(records: seq<(K, V)>, key: K, value: V)
    ensures var i := IndexOf(records, key);
            if i < |records| then
              && records == records[..i] + ([(key, records[i].1)] + records[i + 1..])
              && Stored(records, key, value) == records[..i] + ([(key, value)] + records[i + 1..])
              && Removed(records, key) == records[..i] + records[i + 1..]
            else Stored(records, key, value) == records + ([(key, value)] + []) && Removed(records, key) == records == records + []
  {
    hide IndexOf;
    var i := IndexOf(records, key);
    if i < |records| {
      SplitAt(records, i, (key, value));
      assert records[i] == (key, records[i].1);
    } else {
      assert [(key, value)] + [] == [(key, value)];
    }
  }

  lemma {:induction false} LookupAt<K, V>(records: seq<(K, V)>, i: nat)
    requires Distinct(records) && i < |records|
    ensures IndexOf(records, records[i].0) == i && Lookup(records, records[i].0) == Some(records[i].1)
  {
  }

  /** Storing makes the key answer with the new value, in its place or last; putting it to the front
      makes it first; removing makes it unknown. */
  lemma StoredIsFound<K, V>(records: seq<(K, V)>, key: K, value: V)
    requires Distinct(records)
    ensures Distinct(Stored(records, key, value)) && Lookup(Stored(records, key, value), key) == Some(value)
    ensures IndexOf(Stored(records, key, value), key) == IndexOf(records, key)
  {
    LookupAt(Stored(records, key, value), IndexOf(records, key));
  }

  lemma RemovedIsUnknown<K, V>(records: seq<(K, V)>, key: K)
    requires Distinct(records)
    ensures var r := Removed(records, key); Distinct(r) && Lookup(r, key) == None && forall k :: 0 <= k < |r| ==> r[k].0 != key
  {
    var i, r := IndexOf(records, key), Removed(records, key);
    if i < |records| {
      assert forall k :: 0 <= k < |r| ==> r[k] == records[if k < i then k else k + 1];
    }
  }

  lemma FrontedIsFirst<K, V>(records: seq<(K, V)>, key: K, value: V)
    requires Distinct(records)
    ensures var f := Fronted(records, key, value); Distinct(f) && IndexOf(f, key) == 0 && Lookup(f, key) == Some(value)
  {
    hide Removed;
    RemovedIsUnknown(records, key);
    LookupAt(Fronted(records, key, value), 0);
  }
}

module MapRegistries {
  import opened MapRegistrySpec

  class MapRegistry<K(==), V> {
    var records: seq<(K, V)>

    constructor ()
      ensures records == []
    {
      records := [];
    }

    method Store(key: K, value: V)
      modifies this
      ensures records == Stored(old(records), key, value)
    {
      var i := IndexOf(records, key);
      if i < |records| {
        records := records[i := (key, value)];
      } else {
        records := records + [(key, value)];
      }
    }

    // The map is built anew with the record first.
    method StoreFront(key: K, value: V)
      requires Distinct(records)
      modifies this
      ensures records == Fronted(old(records), key, value)
    {
      Delete(key);
      var reordered := [(key, value)] + records;
      FrontedIsFirst(old(records), key, value);
      records := [];
      var k := 0;
      while k < |reordered|
        invariant 0 <= k <= |reordered| && records == reordered[..k]
      {
        LookupLater(reordered, k);
        Store(reordered[k].0, reordered[k].1);
        k := k + 1;
      }
    }

    method Delete(key: K)
      modifies this
      ensures records == Removed(old(records), key)
    {
      var i := IndexOf(records, key);
      if i < |records| {
        records := records[..i] + records[i + 1..];
      }
    }

    method Get(key: K) returns (value: Option<V>)
      ensures value == Lookup(records, key)
    {
      var i := IndexOf(records, key);
      return if i < |records| then Some(records[i].1) else None;
    }

    method Remove(key: K) returns (value: Option<V>)
      modifies this
      ensures value == Lookup(old(records), key) && records == Removed(old(records), key)
    {
      value := Get(key);
      if value == None {
        return;
      }
      Delete(key);
    }
  }

  lemma {:induction false} LookupLater<K, V>(records: seq<(K, V)>, k: nat)
    requires Distinct(records) && k < |records|
    ensures IndexOf(records[..k], records[k].0) == k
  {
  }
}
