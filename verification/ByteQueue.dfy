/** The growable ring buffer behind both stream queues. */
module ByteQueues {

  type Byte = n: int | 0 <= n < 256
  type Bytes = seq<Byte>

  function Min(a: nat, b: nat): nat { if a <= b then a else b }
  function Max(a: nat, b: nat): nat { if a >= b then a else b }

  // Where the i-th byte of a ring sits: from `head` on, going round at the end of the storage.
  function Slot(head: nat, i: nat, capacity: nat): int {
    if head + i < capacity then head + i else head + i - capacity
  }

  // The bytes a ring holds.
  function Ring(storage: Bytes, head: nat, size: nat): (r: Bytes)
    requires size <= |storage| && (size > 0 ==> head < |storage|)
    ensures |r| == size
  {
    seq(size, i requires 0 <= i < size => storage[Slot(head, i, |storage|)])
  }

  lemma WrapIndex(head: nat, k: nat, n: nat)
    requires head < n && k <= n
    ensures (head + k) % n == Slot(head, k, n)
  {
  }

  // The value of up to four bytes, least significant first.
  function LittleEndian(b: Bytes): nat {
    if b == [] then 0 else b[0] + 256 * LittleEndian(b[1..])
  }

  // 1 shifted left by 8 * e bits.
  function Pow256(e: nat): nat {
    if e == 0 then 1 else 256 * Pow256(e - 1)
  }

  lemma {:induction false} LittleEndianSnoc(b: Bytes, x: Byte)
    ensures LittleEndian(b + [x]) == LittleEndian(b) + x * Pow256(|b|)
    decreases |b|
  {
    if b == [] {
      assert [] + [x] == [x] && [x][1..] == [];
    } else {
      LittleEndianSnoc(b[1..], x);
      assert (b + [x])[1..] == b[1..] + [x];
    }
  }

  // A block with `d` copied over it from position `at` on, as far as the block reaches.
  function Put(s: Bytes, at: nat, d: Bytes): (r: Bytes)
    ensures |r| == |s|
  {
    seq(|s|, i requires 0 <= i < |s| => if at <= i < at + |d| then d[i - at] else s[i])
  }

  lemma PutTwice(s: Bytes, at: nat, a: Bytes, b: Bytes, ab: Bytes)
    requires ab == a + b
    ensures Put(Put(s, at, a), at + |a|, b) == Put(s, at, ab)
  {
  }

  lemma PutNothing(s: Bytes, at: nat)
    ensures Put(s, at, []) == s
  {
  }

  method MemCpy(dst: array<Byte>, at: nat, src: Bytes)
    requires at + |src| <= dst.Length
    modifies dst
    ensures dst[..] == Put(old(dst[..]), at, src)
  {
    forall k | 0 <= k < |src| {
      dst[at + k] := src[k];
    }
  }

  class ByteQueue {
    var storage: array<Byte>
    var head: nat
    var size: nat

    ghost predicate Valid()
      reads this
    {
      && size <= storage.Length
      && (if storage.Length == 0 then head == 0 else head < storage.Length)
    }

    ghost function Contents(): (c: Bytes)
      reads this, storage
      requires Valid()
      ensures |c| == size
    {
      Ring(storage[..], head, size)
    }

    constructor (capacity: nat)
      ensures Valid() && fresh(storage) && Contents() == []
    {
      storage := new Byte[capacity](_ => 0);
      head, size := 0, 0;
    }

    method Clear()
      requires Valid()
      modifies this
      ensures Valid() && storage == old(storage) && Contents() == []
    {
      head, size := 0, 0;
    }

    method Append(data: Bytes) returns (n: nat)
      requires Valid()
      modifies this, storage
      ensures Valid() && (storage == old(storage) || fresh(storage))
      ensures n == |data| && Contents() == old(Contents()) + data
    {
      if |data| == 0 {
        return 0;
      }
      EnsureCapacity(size + |data|);
      CopyIn(data);
      return |data|;
    }

    // The copying half of Append: room is already there.
    method CopyIn(data: Bytes)
      requires Valid() && data != [] && size + |data| <= storage.Length
      modifies this`size, storage
      ensures Valid() && Contents() == old(Contents()) + data
    {
      hide Put, Ring;
      var tail := TailIndex();
      WrapIndex(head, size, storage.Length);
      var first := Min(|data|, storage.Length - tail);
      ghost var before := storage[..];
      assert first == |data| ==> data[..first] == data;
      MemCpy(storage, tail, data[..first]);
      if |data| > first {
        MemCpy(storage, 0, data[first..]);
      }
      AppendedRing(before, storage[..], head, size, data);
      size := size + |data|;
    }

    // Copies out the front of the queue and removes it.
    method Drain(dst: array?<Byte>, at: nat, capacity: nat) returns (n: nat)
      requires Valid() && dst != storage
      requires dst != null ==> at + capacity <= dst.Length
      modifies this, dst
      ensures Valid() && storage == old(storage)
      ensures n == if dst == null then 0 else Min(capacity, |old(Contents())|)
      ensures Contents() == old(Contents())[n..]
      ensures dst != null ==> dst[..] == Put(old(dst[..]), at, old(Contents())[..n])
    {
      n := CopyPrefix(dst, at, capacity);
      if n == 0 {
        return;
      }
      WrapIndex(head, n, storage.Length);
      DroppedRing(storage[..], head, size, n);
      head := (head + n) % storage.Length;
      size := size - n;
      if size == 0 {
        head := 0;
      }
    }

    method Discard(count: nat) returns (n: nat)
      requires Valid()
      modifies this
      ensures Valid() && storage == old(storage)
      ensures n == Min(count, |old(Contents())|) && Contents() == old(Contents())[n..]
    {
      n := Min(count, size);
      if n == 0 {
        return;
      }
      WrapIndex(head, n, storage.Length);
      DroppedRing(storage[..], head, size, n);
      head := (head + n) % storage.Length;
      size := size - n;
      if size == 0 {
        head := 0;
      }
    }

    method CopyPrefix(dst: array?<Byte>, at: nat, count: nat) returns (n: nat)
      requires Valid() && dst != storage
      requires dst != null ==> at + Min(count, size) <= dst.Length
      modifies dst
      ensures n == if dst == null then 0 else Min(count, size)
      ensures dst != null ==> dst[..] == Put(old(dst[..]), at, Contents()[..n])
    {
      hide Put, Ring;
      if dst == null {
        return 0;
      }
      if count == 0 || size == 0 {
        PutNothing(dst[..], at);
        return 0;
      }
      n := Min(count, size);
      var first := Min(n, storage.Length - head);
      ghost var prefix := Contents()[..n];
      var front, back := storage[head..head + first], storage[..n - first];
      PrefixRing(storage[..], head, size, n);
      assert prefix == front + back;
      MemCpy(dst, at, front);
      if n > first {
        PutTwice(old(dst[..]), at, front, back, prefix);
        MemCpy(dst, at + first, back);
      } else {
        assert front + back == front;
      }
    }

    method PeekU32LE() returns (value: nat)
      requires Valid()
      ensures value == LittleEndian(Contents()[..Min(4, size)])
    {
      value := 0;
      var limit := Min(4, size);
      var index := 0;
      while index < limit
        invariant index <= limit
        invariant value == LittleEndian(Contents()[..index])
      {
        WrapIndex(head, index, storage.Length);
        LittleEndianSnoc(Contents()[..index], Contents()[index]);
        assert Contents()[..index] + [Contents()[index]] == Contents()[..index + 1];
        value := value + storage[(head + index) % storage.Length] * Pow256(index);
        index := index + 1;
      }
    }

    method EnsureCapacity(desired: nat)
      requires Valid()
      modifies this
      ensures Valid() && desired <= storage.Length && (storage == old(storage) || fresh(storage))
      ensures Contents() == old(Contents())
    {
      if desired <= storage.Length {
        return;
      }
      var next := new Byte[if storage.Length > 0 then Max(desired, storage.Length * 2) else desired](_ => 0);
      var _ := CopyPrefix(next, 0, size);
      assert next[..size] == Contents();
      storage := next;
      head := 0;
    }

    function TailIndex(): nat
      reads this
      requires Valid()
    {
      if storage.Length == 0 then 0 else (head + size) % storage.Length
    }
  }

  // Writing behind the tail, in one piece or in two, adds to the end.
  lemma AppendedRing(before: Bytes, after: Bytes, head: nat, size: nat, data: Bytes)
    requires |before| == |after| && head < |before| && size + |data| <= |before|
    requires var tail := Slot(head, size, |before|);
             var first := Min(|data|, |before| - tail);
             after == if first == |data| then Put(before, tail, data)
                      else Put(Put(before, tail, data[..first]), 0, data[first..])
    ensures Ring(after, head, size + |data|) == Ring(before, head, size) + data
  {
    var n := |before|;
    var tail := Slot(head, size, n);
    var r := Ring(after, head, size + |data|);
    forall i | 0 <= i < size + |data|
      ensures r[i] == (Ring(before, head, size) + data)[i]
    {
      var k := Slot(head, i, n);
      if i < size {
        assert after[k] == before[k];
      } else {
        assert k == Slot(tail, i - size, n);
        assert after[k] == data[i - size];
      }
    }
  }

  lemma PrefixRing(s: Bytes, head: nat, size: nat, n: nat)
    requires head < |s| && n <= size <= |s|
    ensures var first := Min(n, |s| - head);
            Ring(s, head, size)[..n] == s[head..head + first] + s[..n - first]
  {
  }

  lemma DroppedRing(s: Bytes, head: nat, size: nat, n: nat)
    requires head < |s| && n <= size <= |s|
    ensures Slot(head, n, |s|) < |s|
    ensures Ring(s, Slot(head, n, |s|), size - n) == Ring(s, head, size)[n..]
  {
  }
}
