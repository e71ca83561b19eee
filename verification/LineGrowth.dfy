// When a log line outgrows its stack buffer: how example/log/Log.cpp and
// test/testLog/NanoLog.cpp choose the next heap buffer, and what the copying costs.
module LineGrowth {
  import opened LogCodec
  import opened Machine

  const FIRST_HEAP_BUFFER: nat := 512

  /** _buffer_size and _bytes_used; `copied` counts the bytes moved by resizes so far (history). */
  datatype Space = Space(onHeap: bool, capacity: nat, used: nat, copied: nat)

  const START: Space := Space(false, STACK_BUFFER, HEADER_SIZE, 0)

  /** The size of the buffer that replaces one too small for `required`. */
  function NextCapacity(doubling: bool, s: Space, required: nat): nat {
    if s.onHeap && doubling then Max(2 * s.capacity, required) else Max(FIRST_HEAP_BUFFER, required)
  }

  /** resize_buffer_if_needed */
  function Resize(doubling: bool, s: Space, additional: nat): Space {
    if s.used + additional <= s.capacity then s
    else Space(true, NextCapacity(doubling, s, s.used + additional), s.used, s.copied + s.used)
  }

  /** One encoded argument of n bytes. */
  function Encoded(doubling: bool, s: Space, n: nat): Space {
    var r := Resize(doubling, s, n);
    r.(used := r.used + n)
  }

  function Exec(doubling: bool, sizes: seq<nat>): Space
    decreases |sizes|
  {
    if sizes == [] then START
    else Encoded(doubling, Exec(doubling, sizes[..|sizes| - 1]), sizes[|sizes| - 1])
  }

  function Sum(sizes: seq<nat>): nat
    decreases |sizes|
  {
    if sizes == [] then 0 else Sum(sizes[..|sizes| - 1]) + sizes[|sizes| - 1]
  }

  /** Under either policy the bytes used never exceed the capacity, and none is lost count of. */
  lemma {:induction false} UsedWithinCapacity(doubling: bool, sizes: seq<nat>)
    ensures var s := Exec(doubling, sizes);
            && s.used <= s.capacity && s.used == HEADER_SIZE + Sum(sizes)
            && (if s.onHeap then s.capacity >= FIRST_HEAP_BUFFER else s.capacity == STACK_BUFFER && s.copied == 0)
    decreases |sizes|
  {
    if sizes != [] {
      UsedWithinCapacity(doubling, sizes[..|sizes| - 1]);
    }
  }

  /** With doubling, all resizes together copy fewer bytes than the final buffer holds. */
  lemma {:induction false} DoublingCopiesLessThanCapacity(sizes: seq<nat>)
    ensures var s := Exec(true, sizes); s.copied < s.capacity
    decreases |sizes|
  {
    if sizes != [] {
      var before := sizes[..|sizes| - 1];
      DoublingCopiesLessThanCapacity(before);
      UsedWithinCapacity(true, before);
    }
  }

  /**
   * Without doubling a line beyond the first heap buffer has no slack: every further
   * argument moves everything encoded before it.
   */
  lemma ExactGrowthCopiesEveryTime(s: Space, n: nat)
    requires s.onHeap && s.used == s.capacity >= FIRST_HEAP_BUFFER && n > 0
    ensures var r := Encoded(false, s, n);
            r.onHeap && r.used == r.capacity == s.used + n && r.copied == s.copied + s.used
  {
  }


  /** For the total: k equal arguments beyond that point copy about k^2 n / 2 bytes. */
  lemma {:induction false} ExactGrowthIsQuadratic(s: Space, n: nat, k: nat)
    requires s.onHeap && s.used == s.capacity >= FIRST_HEAP_BUFFER && n > 0
    ensures var r := Appended(s, n, k);
            && r.onHeap && r.used == r.capacity == s.used + k * n
            && 2 * r.copied == 2 * s.copied + 2 * k * s.used + k * (k - 1) * n
    decreases k
  {
    if k > 0 {
      ExactGrowthIsQuadratic(s, n, k - 1);
      ExactGrowthCopiesEveryTime(Appended(s, n, k - 1), n);
      QuadraticStep(s.used, n, k);
    }
  }

  /** k arguments of n bytes each, grown to fit exactly. */
  function Appended(s: Space, n: nat, k: nat): Space {
    if k == 0 then s else Encoded(false, Appended(s, n, k - 1), n)
  }

  lemma QuadraticStep(used: nat, n: nat, k: nat)
    requires k > 0
    ensures 2 * (k - 1) * used + (k - 1) * (k - 2) * n + 2 * (used + (k - 1) * n) == 2 * k * used + k * (k - 1) * n
    ensures (k - 1) * n + n == k * n
    ensures k * n >= n
  {
    assert (k - 1) * (k - 2) * n + 2 * (k - 1) * n == ((k - 1) * (k - 2) + 2 * (k - 1)) * n;
    assert (k - 1) * (k - 2) + 2 * (k - 1) == k * (k - 1);
  }
}
