/** `cstr_end_iterator`: an end marker for a NUL-terminated string, so that a
    loop `while(it != end)` walks a C string without knowing its length. The
    memory the pointer walks is a sequence and the pointer an index into it. */
module CString {

  const Nul: char := '\0'

  /** Whether the pointer `it` is at the end of its string. */
  predicate AtEnd(mem: seq<char>, it: nat)
    requires it < |mem|
  {
    mem[it] == Nul
  }

  // operator==(it, end) and operator==(end, it)
  function ReachedEnd(mem: seq<char>, it: nat): bool
    requires it < |mem|
  {
    AtEnd(mem, it)
  }

  function EndReached(mem: seq<char>, it: nat): bool
    requires it < |mem|
  {
    AtEnd(mem, it)
  }

  // operator!=(it, end) and operator!=(end, it)
  function NotReachedEnd(mem: seq<char>, it: nat): bool
    requires it < |mem|
  {
    !AtEnd(mem, it)
  }

  function EndNotReached(mem: seq<char>, it: nat): bool
    requires it < |mem|
  {
    !AtEnd(mem, it)
  }

  /** Both operand orders agree, `!=` is the negation of `==`, and a pointer
      compares equal to the end marker exactly at a NUL byte. */
  lemma Comparisons(mem: seq<char>, it: nat)
    requires it < |mem|
    ensures ReachedEnd(mem, it) == EndReached(mem, it)
    ensures NotReachedEnd(mem, it) == EndNotReached(mem, it)
    ensures NotReachedEnd(mem, it) == !ReachedEnd(mem, it)
    ensures ReachedEnd(mem, it) <==> mem[it] == Nul
  {
  }

  /** Some byte at or after `p` is a NUL: the string starting at `p` ends. */
  predicate Terminated(mem: seq<char>, p: nat) {
    exists k :: p <= k < |mem| && mem[k] == Nul
  }

  /** `std::strlen(p)`: the distance to the end marker. The range
      `[p, end)` is exactly the bytes before the first NUL, and stepping
      through it with `it != end` stops at that NUL. */
  function Length(mem: seq<char>, p: nat): (n: nat)
    requires Terminated(mem, p)
    ensures p + n < |mem| && ReachedEnd(mem, p + n)
    ensures forall k :: p <= k < p + n ==> NotReachedEnd(mem, k)
    decreases |mem| - p
  {
    if mem[p] == Nul then 0
    else
      assert Terminated(mem, p + 1) by {
        var k :| p <= k < |mem| && mem[k] == Nul;
        assert k != p;
      }
      1 + Length(mem, p + 1)
  }

  /** The end marker is met at a single place: any `n` with the two
      properties of `Length` is `Length`. */
  lemma LengthUnique(mem: seq<char>, p: nat, n: nat)
    requires p + n < |mem| && mem[p + n] == Nul
    requires forall k :: p <= k < p + n ==> mem[k] != Nul
    ensures Terminated(mem, p) && Length(mem, p) == n
  {
    assert p <= p + n < |mem| && mem[p + n] == Nul;
    var m := Length(mem, p);
    assert mem[p + m] == Nul;
    assert !NotReachedEnd(mem, p + n);
  }
}
