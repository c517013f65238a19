/** The FIFO hand-off lock, the keys a multi-key section locks, and the class that runs it. */
module LockSpec {
  import opened JsText

  datatype Option<+T> = None | Some(value: T)

  // A lock with its waiting callers, first come first.
  datatype Lock<+T> = Lock(locked: bool, waiters: seq<T>)

  const FREE: Lock<nat> := Lock(false, [])

  // A free lock is taken at once; otherwise the caller queues up.
  function Acquire<T>(l: Lock<T>, caller: T): Lock<T> {
    if l.locked then l.(waiters := l.waiters + [caller]) else l.(locked := true)
  }

  // Releasing passes ownership to the first waiter; the lock is never free in between.
  function Release<T>(l: Lock<T>): Lock<T> {
    if l.waiters == [] then l.(locked := false) else l.(waiters := l.waiters[1..])
  }

  function Next<T>(l: Lock<T>): Option<T> {
    if l.waiters == [] then None else Some(l.waiters[0])
  }

  // ---- The keys of a section: trimmed, blank ones dropped, each once, in ascending order ----

  function Insert(k: Text, ks: seq<Text>): seq<Text>
    decreases |ks|
  {
    if ks == [] then [k]
    else if k == ks[0] then ks
    else if Less(k, ks[0]) then [k] + ks
    else [ks[0]] + Insert(k, ks[1..])
  }

  function SectionKeys(keys: seq<Text>): seq<Text>
    decreases |keys|
  {
    if keys == [] then []
    else
      var rest := SectionKeys(keys[1..]);
      if Trim(keys[0]) == [] then rest else Insert(Trim(keys[0]), rest)
  }

  lemma {:induction false} InsertSorts(k: Text, ks: seq<Text>)
    requires Ascending(ks)
    ensures Ascending(Insert(k, ks))
    ensures forall x :: x in Insert(k, ks) <==> x == k || x in ks
    decreases |ks|
  {
    if ks != [] {
      var r := Insert(k, ks);
      LessTotal(k, ks[0]);
      if k != ks[0] {
        if Less(k, ks[0]) {
          forall i, j | 0 <= i < j < |r| ensures Less(r[i], r[j]) {
            if i == 0 && j > 1 {
              LessTransitive(k, ks[0], ks[j - 1]);
            }
          }
        } else {
          var tail := Insert(k, ks[1..]);
          assert Ascending(ks[1..]);
          InsertSorts(k, ks[1..]);
          assert ks == [ks[0]] + ks[1..];
          forall i, j | 0 <= i < j < |r| ensures Less(r[i], r[j]) {
            if i == 0 {
              assert r[j] in tail;
            }
          }
        }
      }
    }
  }

  /** A section's keys are in strictly ascending order, and they are exactly the non-blank
      requested ones. */
  lemma {:induction false} SectionKeysSorted(keys: seq<Text>)
    ensures Ascending(SectionKeys(keys))
    ensures forall k :: k in SectionKeys(keys) <==> k != [] && exists i :: 0 <= i < |keys| && Trim(keys[i]) == k
    decreases |keys|
  {
    if keys != [] {
      var rest := SectionKeys(keys[1..]);
      SectionKeysSorted(keys[1..]);
      InsertSorts(Trim(keys[0]), rest);
      forall k ensures k in SectionKeys(keys) <==> k != [] && exists i :: 0 <= i < |keys| && Trim(keys[i]) == k {
        if k in rest {
          var i :| 0 <= i < |keys[1..]| && Trim(keys[1..][i]) == k;
          assert Trim(keys[i + 1]) == k;
        }
        if i :| 0 <= i < |keys| && Trim(keys[i]) == k {
          assert i > 0 ==> keys[1..][i - 1] == keys[i];
        }
      }
    }
  }

  /** Order and repetition of the request do not matter: the ascending list of a set is unique. */
  lemma {:induction false} AscendingUnique(a: seq<Text>, b: seq<Text>)
    requires Ascending(a) && Ascending(b) && forall k :: k in a <==> k in b
    ensures a == b
    decreases |a|
  {
    assert a != [] ==> a[0] in b;
    assert b != [] ==> b[0] in a;
    if a != [] && b != [] {
      assert a[0] in b && b[0] in a;
      LessTotal(a[0], b[0]);
      assert a[0] == b[0];
      forall k ensures k in a[1..] <==> k in b[1..] {
        TailKeys(a, k);
        TailKeys(b, k);
      }
      AscendingUnique(a[1..], b[1..]);
      assert a == [a[0]] + a[1..] && b == [b[0]] + b[1..];
    }
  }

  lemma TailKeys(ks: seq<Text>, k: Text)
    requires Ascending(ks) && ks != []
    ensures k in ks[1..] <==> k in ks && k != ks[0]
  {
    assert ks == [ks[0]] + ks[1..];
    LessTotal(k, k);
    if k in ks[1..] {
      var i :| 0 <= i < |ks[1..]| && ks[1..][i] == k;
      assert Less(ks[0], ks[i + 1]);
    }
  }

  lemma SectionKeysUnordered(keys: seq<Text>, others: seq<Text>)
    requires forall k :: k in keys <==> k in others
    ensures SectionKeys(keys) == SectionKeys(others)
  {
    SectionKeysSorted(keys);
    SectionKeysSorted(others);
    forall k ensures k in SectionKeys(keys) <==> k in SectionKeys(others) {
      SameKeys(keys, others, k);
      SameKeys(others, keys, k);
    }
    AscendingUnique(SectionKeys(keys), SectionKeys(others));
  }

  lemma SameKeys(keys: seq<Text>, others: seq<Text>, k: Text)
    requires forall x :: x in keys ==> x in others
    ensures k in SectionKeys(keys) ==> k in SectionKeys(others)
  {
    SectionKeysSorted(keys);
    SectionKeysSorted(others);
    if k in SectionKeys(keys) {
      var i :| 0 <= i < |keys| && Trim(keys[i]) == k;
      assert keys[i] in keys;
      var j :| 0 <= j < |others| && others[j] == keys[i];
    }
  }
}

module AsyncLocks {
  import opened JsText
  import opened LockSpec

  /** Callers are told apart by a number. A call that is not granted is a promise that stays
      pending until a release names its caller. */
  class AsyncLock {
    var locked: bool
    var waiters: seq<nat>

    function State(): Lock<nat>
      reads this
    {
      Lock(locked, waiters)
    }

    constructor ()
      ensures State() == FREE
    {
      locked, waiters := false, [];
    }

    method Acquire(caller: nat) returns (granted: bool)
      modifies this
      ensures granted == !old(locked) && State() == LockSpec.Acquire(old(State()), caller)
    {
      if !locked {
        locked := true;
        return true;
      }
      waiters := waiters + [caller];
      return false;
    }

    method Release() returns (next: Option<nat>)
      modifies this
      ensures next == Next(old(State())) && State() == LockSpec.Release(old(State()))
    {
      if |waiters| == 0 {
        locked := false;
        return None;
      }
      next := Some(waiters[0]);
      waiters := waiters[1..];
    }
  }
}
