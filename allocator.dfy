/** `second_throw_allocator`: a standard allocator with a call counter whose
    second allocation throws `std::bad_alloc`. The tests use it to force an
    allocation fault at a chosen point of a parse. */
module Allocation {

  /** The range of `std::size_t`. */
  const SizeRange: nat := 0x1_0000_0000_0000_0000

  /** `++m_alloc_count` on a `std::size_t`. */
  function Bump(count: nat): nat {
    (count + 1) % SizeRange
  }

  /** Whether an `allocate` call succeeds, given the count it leaves behind. */
  predicate Succeeds(countAfter: nat) {
    countAfter != 2
  }

  class SecondThrowAllocator {
    var count: nat

    predicate Valid()
      reads this
    {
      count < SizeRange
    }

    /** A fresh allocator. */
    constructor()
      ensures Valid() && count == 0
    {
      count := 0;
    }

    /** The converting copy constructor, used when a container rebinds its
        allocator: the count is carried over. */
    constructor Rebind(other: SecondThrowAllocator)
      requires other.Valid()
      ensures Valid() && count == other.count
    {
      count := other.count;
    }

    /** `allocate(n)`: the count goes up by one whether or not the call
        succeeds, and the call fails exactly when the new count is 2. */
    method Allocate(n: nat) returns (ok: bool)
      requires Valid()
      modifies this
      ensures Valid() && count == Bump(old(count))
      ensures ok <==> count != 2
    {
      count := Bump(count);
      ok := Succeeds(count);
    }
  }

  /** The count after `k` calls on an allocator whose count was `start`. */
  function CountAfter(start: nat, k: nat): nat
    requires start < SizeRange
    ensures CountAfter(start, k) < SizeRange
  {
    (start + k) % SizeRange
  }

  /** `CountAfter` is what `k` calls to `Allocate` leave behind. */
  lemma CountAfterSteps(start: nat, k: nat)
    requires start < SizeRange
    ensures CountAfter(start, k + 1) == Bump(CountAfter(start, k))
  {
  }

  /** The calls of a fresh allocator: only the second one fails, until the
      counter wraps after `SizeRange` calls. */
  lemma FreshAllocator(k: nat)
    requires 1 <= k < SizeRange + 2
    ensures Succeeds(CountAfter(0, k)) <==> k != 2
  {
  }

  /** Two failing calls on one allocator are a whole counter period apart:
      within any `SizeRange` consecutive calls at most one fails, and every
      call after a failure succeeds until the counter wraps round. */
  lemma AtMostOneFailure(start: nat, i: nat, j: nat)
    requires start < SizeRange && i < j < i + SizeRange
    requires !Succeeds(CountAfter(start, i))
    ensures Succeeds(CountAfter(start, j))
  {
    var q, d := (start + i) / SizeRange, j - i;
    assert start + i == q * SizeRange + 2;
    if 2 + d < SizeRange {
      ModOffset(q, 2 + d);
    } else {
      ModOffset(q + 1, 2 + d - SizeRange);
    }
  }

  lemma ModOffset(q: nat, r: nat)
    requires r < SizeRange
    ensures (q * SizeRange + r) % SizeRange == r
  {
  }
}
