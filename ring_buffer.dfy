/** The fixed-capacity frame window of src/RingBuffer.h.

    The source keeps a std::vector `Buffer` and a capacity `Size`. While the
    vector is shorter than `Size`, push_back appends; once it is full, every
    element moves one slot toward the front and the new item overwrites the
    last slot. The abstract view: the buffer always holds the last
    min(k, Size) of the k items pushed so far, oldest first. */
module RingBuffers {

  /** The last `n` items of `h`, oldest first (all of `h` when it is shorter;
      nothing for a capacity below 1). */
  function Window<T>(h: seq<T>, n: int): (w: seq<T>)
    ensures |w| == if n <= 0 then 0 else if |h| < n then |h| else n
    ensures w == h[|h| - |w|..]
  {
    if n <= 0 then [] else if |h| <= n then h else h[|h| - n..]
  }

  /** What one push_back does to a buffer holding `b` (lines 21-32). */
  function PushStep<T>(b: seq<T>, x: T, cap: int): seq<T>
    requires 1 <= cap && |b| <= cap
  {
    if |b| < cap then b + [x] else b[1..] + [x]
  }

  /** The buffer reached by pushing `items`, one at a time, into a fresh
      buffer of capacity `cap`. */
  function PushAll<T>(items: seq<T>, cap: int): (b: seq<T>)
    requires 1 <= cap
    ensures |b| <= cap
  {
    if items == [] then []
    else PushStep(PushAll(items[..|items| - 1], cap), items[|items| - 1], cap)
  }

  /** Pushing onto the window of a history gives the window of the longer
      history: the step keeps exactly the last `cap` items. */
  lemma WindowPush<T>(h: seq<T>, x: T, cap: int)
    requires 1 <= cap
    ensures Window(h + [x], cap) == PushStep(Window(h, cap), x, cap)
  {
    var w := Window(h, cap);
    var h' := h + [x];
    if |h| < cap {
      assert w == h;
    } else {
      assert |w| == cap;
      assert Window(h', cap) == h'[|h'| - cap..];
      assert w[1..] + [x] == h'[|h'| - cap..];
    }
  }

  /** After any sequence of pushes into a fresh buffer, its contents are the
      last min(k, Size) pushed items in insertion order. */
  lemma {:induction false} PushAllIsWindow<T>(items: seq<T>, cap: int)
    requires 1 <= cap
    ensures PushAll(items, cap) == Window(items, cap)
    ensures |PushAll(items, cap)| == if |items| < cap then |items| else cap
  {
    if items != [] {
      var init := items[..|items| - 1];
      PushAllIsWindow(init, cap);
      WindowPush(init, items[|items| - 1], cap);
      assert init + [items[|items| - 1]] == items;
    }
  }

  /** Replacing the newest item of a history replaces the newest item of its
      window and nothing else. */
  lemma WindowReplaceNewest<T>(h: seq<T>, x: T, cap: int)
    requires 1 <= cap && h != []
    ensures Window(h[..|h| - 1] + [x], cap) == Window(h, cap)[..|Window(h, cap)| - 1] + [x]
  {
    var h' := h[..|h| - 1] + [x];
    var w := Window(h, cap);
    var w' := Window(h', cap);
    assert |w'| == |w|;
    forall i | 0 <= i < |w|
      ensures w'[i] == (w[..|w| - 1] + [x])[i]
    {
      assert w'[i] == h'[|h| - |w| + i];
    }
  }

  class RingBuffer<T> {
    /** `Size` in the source: the capacity, set by the constructor only. */
    const Capacity: int
    /** `Buffer` in the source: the frames held, oldest first. */
    var buffer: seq<T>
    /** Every item pushed so far, oldest first, with writes through
        end() - 1 applied to the newest one. */
    ghost var History: seq<T>

    ghost predicate Valid()
      reads this
    {
      buffer == Window(History, Capacity) &&
      (Capacity < 1 ==> History == [])
    }

    /** RingBuffer(int size): an empty buffer of capacity `size`. */
    constructor (size: int)
      ensures Valid()
      ensures Capacity == size && buffer == [] && History == []
    {
      Capacity := size;
      buffer := [];
      History := [];
    }

    /** push_back: append while below capacity, otherwise shift every element
        one slot toward the front and overwrite the last slot. A capacity
        of 0 would write Buffer[-1], so the capacity must be at least 1. */
    method PushBack(item: T)
      requires Valid() && Capacity >= 1
      modifies this
      ensures Valid()
      ensures History == old(History) + [item]
      ensures |buffer| <= Capacity
      ensures buffer == PushStep(old(buffer), item, Capacity)
      ensures buffer[|buffer| - 1] == item
    {
      if |buffer| < Capacity {
        buffer := buffer + [item];
      } else {
        var i := 0;
        while i < Capacity - 1
          invariant 0 <= i <= Capacity - 1
          invariant |buffer| == Capacity
          invariant History == old(History)
          invariant forall k :: 0 <= k < i ==> buffer[k] == old(buffer)[k + 1]
          invariant forall k :: i <= k < Capacity ==> buffer[k] == old(buffer)[k]
        {
          buffer := buffer[i := buffer[i + 1]];
          i := i + 1;
        }
        buffer := buffer[Capacity - 1 := item];
        assert buffer == old(buffer)[1..] + [item];
      }
      WindowPush(History, item, Capacity);
      History := History + [item];
    }

    /** size() (lower case in the source, unlike the capacity field `Size`):
        the occupancy, min(k, Size) after k pushes. */
    method Size() returns (n: int)
      requires Valid()
      ensures n == if Capacity < 1 || |History| <= Capacity then |History| else Capacity
    {
      n := |buffer|;
    }

    /** *(end() - k): the k-th most recently pushed item (k = 1 is the newest,
        k = 2 the one pushed immediately before it). */
    method BeforeEnd(k: nat) returns (x: T)
      requires Valid() && 1 <= k <= |buffer|
      ensures x == History[|History| - k]
    {
      x := buffer[|buffer| - k];
    }

    /** A write through end() - 1: the newest item is replaced by `x`. */
    method UpdateNewest(x: T)
      requires Valid() && buffer != []
      modifies this
      ensures Valid()
      ensures History == old(History)[..|old(History)| - 1] + [x]
      ensures buffer == old(buffer)[..|old(buffer)| - 1] + [x]
    {
      WindowReplaceNewest(History, x, Capacity);
      buffer := buffer[..|buffer| - 1] + [x];
      History := History[..|History| - 1] + [x];
    }
  }
}
