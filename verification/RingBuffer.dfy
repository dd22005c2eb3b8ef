/** The array of the bounded buffer (kernel/bb.h) in place: what one thread does inside the
    critical section, where its semaphores have made sure of a free slot or an item. */
module RingBuffer {
  import BoundedBuffer

  class Ring<T> {
    const arr: array<T>
    var head: nat
    var tail: nat
    /** Values put and taken so far. */
    ghost var puts: seq<T>
    ghost var gets: seq<T>

    ghost predicate Valid()
      reads this, arr
    {
      && arr.Length > 0 && gets <= puts && |puts| - |gets| <= arr.Length
      && head == BoundedBuffer.Slot(|gets|, arr.Length) && tail == BoundedBuffer.Slot(|puts|, arr.Length)
      && (forall i | |gets| <= i < |puts| :: BoundedBuffer.Slot(i, arr.Length) < arr.Length && arr[BoundedBuffer.Slot(i, arr.Length)] == puts[i])
    }

    constructor (a: array<T>)
      requires a.Length > 0
      ensures Valid() && arr == a && puts == [] && gets == []
    {
      arr, head, tail, puts, gets := a, 0, 0, [], [];
    }

    /** The critical section of put. */
    method Put(v: T)
      requires Valid() && |puts| - |gets| < arr.Length
      modifies this, arr
      ensures Valid() && puts == old(puts) + [v] && gets == old(gets)
    {
      ghost var n, k := arr.Length, |puts|;
      BoundedBuffer.SlotNext(k, n);
      forall i | |gets| <= i < k ensures BoundedBuffer.Slot(i, n) != BoundedBuffer.Slot(k, n) {
        BoundedBuffer.SlotsDiffer(i, k, n);
      }
      arr[tail] := v;
      tail := tail + 1;
      if tail == arr.Length { tail := 0; }
      puts := puts + [v];
    }

    /** The critical section of get. */
    method Get() returns (v: T)
      requires Valid() && |gets| < |puts|
      modifies this
      ensures Valid() && puts == old(puts) && v == old(puts)[|old(gets)|] && gets == old(gets) + [v]
    {
      BoundedBuffer.SlotNext(|gets|, arr.Length);
      v := arr[head];
      head := head + 1;
      if head == arr.Length { head := 0; }
      gets := gets + [v];
    }
  }
}
