/**
 * The sample ring buffer between csdr's stream driver and a processing stage.
 *
 * The buffer's own implementation is not part of this model; it is described
 * here by what the driver relies on: a fixed capacity in elements, the
 * elements written but not yet read, and the bytes sitting at the write
 * pointer that have been read from the input but not yet committed as whole
 * elements. The model assumes the write area is contiguous, so that a write
 * at the write pointer plus an offset never has to wrap, and it takes
 * writeable() to be the capacity less the unread elements.
 */
module Ringbuffers {
  import opened Arithmetic

  type Byte = bv8

  /** One sample as it lies in memory: sizeof(T) bytes. */
  type Element = seq<Byte>

  /** All elements have exactly `size` bytes. */
  ghost predicate Uniform(es: seq<Element>, size: nat) {
    forall k :: 0 <= k < |es| ==> |es[k]| == size
  }

  /** The bytes of a sequence of elements, laid end to end. */
  function Flatten(es: seq<Element>): seq<Byte> {
    if es == [] then [] else es[0] + Flatten(es[1..])
  }

  /** Cuts `count` consecutive elements of `size` bytes out of `bytes`. */
  function Group(bytes: seq<Byte>, size: nat, count: nat): (r: seq<Element>)
    requires |bytes| == size * count
    ensures |r| == count
    ensures Uniform(r, size)
    decreases count
  {
    if count == 0 then []
    else
      MulAdd(size, count - 1, 1);
      [bytes[..size]] + Group(bytes[size..], size, count - 1)
  }

  lemma {:induction false} FlattenAppend(a: seq<Element>, b: seq<Element>)
    ensures Flatten(a + b) == Flatten(a) + Flatten(b)
    decreases |a|
  {
    if a == [] {
      assert a + b == b;
    } else {
      assert (a + b)[1..] == a[1..] + b;
      FlattenAppend(a[1..], b);
    }
  }

  lemma {:induction false} FlattenLength(es: seq<Element>, size: nat)
    requires Uniform(es, size)
    ensures |Flatten(es)| == size * |es|
    decreases |es|
  {
    if es != [] {
      FlattenLength(es[1..], size);
    }
  }

  /** Grouping whole elements and laying them end to end gives the bytes back. */
  lemma {:induction false} FlattenGroup(bytes: seq<Byte>, size: nat, count: nat)
    requires |bytes| == size * count
    ensures Flatten(Group(bytes, size, count)) == bytes
    decreases count
  {
    if count > 0 {
      MulAdd(size, count - 1, 1);
      var head, rest := bytes[..size], bytes[size..];
      var tail := Group(rest, size, count - 1);
      FlattenGroup(rest, size, count - 1);
      assert Group(bytes, size, count) == [head] + tail;
      assert ([head] + tail)[1..] == tail;
      assert bytes == head + rest;
    }
  }

  /** Laying uniform elements end to end and grouping them again gives the elements back. */
  lemma {:induction false} GroupFlatten(es: seq<Element>, size: nat)
    requires Uniform(es, size)
    ensures |Flatten(es)| == size * |es|
    ensures Group(Flatten(es), size, |es|) == es
    decreases |es|
  {
    FlattenLength(es, size);
    if es != [] {
      GroupFlatten(es[1..], size);
      var f := Flatten(es);
      assert f[..size] == es[0];
      assert f[size..] == Flatten(es[1..]);
    }
  }

  /**
   * The elements are determined by their bytes: two uniform sequences of
   * elements that lay out to the same bytes are equal. Hence the elements a
   * reader sees depend only on the bytes received, not on how they were cut
   * into chunks on the way in.
   */
  lemma SameBytesSameElements(a: seq<Element>, b: seq<Element>, size: nat)
    requires size >= 1
    requires Uniform(a, size) && Uniform(b, size)
    requires Flatten(a) == Flatten(b)
    ensures a == b
  {
    GroupFlatten(a, size);
    GroupFlatten(b, size);
    assert size * |a| == size * |b|;
    assert |a| == |b|;
  }

  class Ringbuffer {
    /** Number of elements the buffer holds. */
    const capacity: nat
    /** sizeof(T): bytes per element. */
    const elementSize: nat
    /** Elements committed by the writer and not yet taken by the reader, oldest first. */
    var unread: seq<Element>
    /** Bytes stored at the write pointer that are not yet committed. */
    var staged: seq<Byte>
    /** Every element ever committed, in order. */
    ghost var history: seq<Element>
    /** Every element the reader has taken, in order. */
    ghost var taken: seq<Element>

    ghost predicate Valid()
      reads this
    {
      && elementSize >= 1
      && |unread| <= capacity
      && Uniform(unread, elementSize)
      && Uniform(taken, elementSize)
      && history == taken + unread
    }

    /** Elements that may be written without overwriting unread data. */
    function Writeable(): (w: nat)
      requires Valid()
      reads this
      ensures w + |unread| == capacity
    {
      capacity - |unread|
    }

    constructor (size: nat, elementBytes: nat)
      requires elementBytes >= 1
      ensures Valid()
      ensures capacity == size && elementSize == elementBytes
      ensures unread == [] && staged == [] && history == [] && taken == []
    {
      capacity := size;
      elementSize := elementBytes;
      unread := [];
      staged := [];
      history := [];
      taken := [];
    }

    /**
     * Stores `bytes` at the write pointer plus `offset`, which is what a read()
     * into getWritePointer() + offset does. The bytes must stay inside the
     * writeable area, so unread data is never overwritten.
     */
    method Write(offset: nat, bytes: seq<Byte>)
      requires Valid()
      requires offset <= |staged|
      requires offset + |bytes| <= Writeable() * elementSize
      modifies this
      ensures Valid()
      ensures staged == old(staged)[..offset] + bytes
      ensures unread == old(unread) && history == old(history) && taken == old(taken)
    {
      staged := staged[..offset] + bytes;
    }

    /** Commits the first `n` staged elements, moving the write pointer. */
    method Advance(n: nat)
      requires Valid()
      requires n <= Writeable()
      requires elementSize * n <= |staged|
      modifies this
      ensures Valid()
      ensures unread == old(unread) + Group(old(staged)[..elementSize * n], elementSize, n)
      ensures history == old(history) + Group(old(staged)[..elementSize * n], elementSize, n)
      ensures staged == old(staged)[elementSize * n..]
      ensures taken == old(taken)
    {
      var added := Group(staged[..elementSize * n], elementSize, n);
      unread := unread + added;
      history := history + added;
      staged := staged[elementSize * n..];
    }

    /** The reader side: removes the `n` oldest unread elements and returns them. */
    method Take(n: nat) returns (es: seq<Element>)
      requires Valid()
      requires n <= |unread|
      modifies this
      ensures Valid()
      ensures es == old(unread)[..n]
      ensures unread == old(unread)[n..]
      ensures taken == old(taken) + es
      ensures history == old(history) && staged == old(staged)
    {
      es := unread[..n];
      unread := unread[n..];
      taken := taken + es;
      assert history == taken + unread;
    }
  }
}
