/** The two field sinks the parser writes the bytes of the pending field to:
    `append_to_vector`, which copies them into a growable vector kept with a
    trailing NUL sentinel, and `in_place`, a write cursor that compacts the
    decoded bytes back into the caller's own buffer. */
module Sinks {
  import opened Allocation
  import opened CString

  /** The outcome of one container operation for the allocator `a`: with the
      standard allocator (`null` here) it always succeeds; with the
      fault-injecting allocator, either no allocation was needed, or exactly
      one was made and the operation failed exactly when it was the failing
      one. */
  twostate predicate Charged(a: SecondThrowAllocator?, ok: bool)
    reads a
  {
    (a == null ==> ok) &&
    (a != null ==> (a.count == old(a.count) && ok) || (a.count == Bump(old(a.count)) && (ok <==> a.count != 2)))
  }

  /** `std::vector<char, A>` as the sinks use it: its elements, its capacity
      and its allocator (`null` for `std::allocator`, which is taken never to
      fail). Growth doubles the capacity, or grows it to what is needed if
      that is more, and a failed growth leaves the vector as it was. */
  class CharVector {
    var contents: seq<char>
    var capacity: nat
    const alloc: SecondThrowAllocator?

    ghost predicate Valid()
      reads this, alloc
    {
      |contents| <= capacity && (alloc != null ==> alloc.Valid())
    }

    /** An empty vector with no storage. */
    constructor(alloc: SecondThrowAllocator?)
      requires alloc != null ==> alloc.Valid()
      ensures Valid() && contents == [] && capacity == 0 && this.alloc == alloc
    {
      contents := [];
      capacity := 0;
      this.alloc := alloc;
    }

    /** One call to the allocator for a block of `n` bytes. */
    method Request(n: nat) returns (ok: bool)
      requires Valid()
      modifies alloc
      ensures Valid()
      ensures alloc == null ==> ok
      ensures alloc != null ==> alloc.count == Bump(old(alloc.count)) && (ok <==> alloc.count != 2)
    {
      if alloc == null {
        ok := true;
      } else {
        ok := alloc.Allocate(n);
      }
    }

    /** `reserve(n)`: storage for exactly `n` elements, allocated only if the
        vector holds less. */
    method Reserve(n: nat) returns (ok: bool)
      requires Valid()
      modifies this, alloc
      ensures Valid() && contents == old(contents)
      ensures Charged(alloc, ok)
      ensures ok ==> capacity == if n <= old(capacity) then old(capacity) else n
      ensures !ok ==> capacity == old(capacity)
      ensures n <= old(capacity) ==> ok && (alloc != null ==> unchanged(alloc))
      ensures n > old(capacity) && alloc != null ==> alloc.count == Bump(old(alloc.count))
    {
      ok := true;
      if n > capacity {
        ok := Request(n);
        if ok {
          capacity := n;
        }
      }
    }

    /** Room for `needed` elements before an insertion: a vector that is
        too small grows to twice its capacity, or to `needed` when that is
        more. */
    method Grow(needed: nat) returns (ok: bool)
      requires Valid()
      modifies this, alloc
      ensures Valid() && contents == old(contents)
      ensures Charged(alloc, ok)
      ensures ok ==> needed <= capacity
      ensures !ok ==> capacity == old(capacity)
      ensures needed <= old(capacity) ==> ok && capacity == old(capacity) && (alloc != null ==> unchanged(alloc))
      ensures needed > old(capacity) && ok ==>
        capacity == if 2 * old(capacity) > needed then 2 * old(capacity) else needed
    {
      ok := true;
      if needed > capacity {
        var next := if 2 * capacity > needed then 2 * capacity else needed;
        ok := Request(next);
        if ok {
          capacity := next;
        }
      }
    }

    /** `push_back(ch)`. */
    method PushBack(ch: char) returns (ok: bool)
      requires Valid()
      modifies this, alloc
      ensures Valid() && Charged(alloc, ok)
      ensures contents == if ok then old(contents) + [ch] else old(contents)
    {
      ok := Grow(|contents| + 1);
      if ok {
        contents := contents + [ch];
      }
    }

    /** `insert(end() - 1, first, last)`: the bytes go in before the last
        element. */
    method InsertBeforeLast(bytes: seq<char>) returns (ok: bool)
      requires Valid() && contents != []
      modifies this, alloc
      ensures Valid() && Charged(alloc, ok)
      ensures contents == if ok then old(contents[..|contents| - 1]) + bytes + [old(contents[|contents| - 1])]
                          else old(contents)
    {
      ok := Grow(|contents| + |bytes|);
      if ok {
        var n := |contents|;
        contents := contents[..n - 1] + bytes + [contents[n - 1]];
      }
    }

    /** `clear()`: the elements go, the storage stays. */
    method Clear()
      requires Valid()
      modifies this
      ensures Valid() && contents == [] && capacity == old(capacity)
    {
      contents := [];
    }
  }

  /** `append_to_vector`: the field is the vector's elements but the last,
      which is the NUL sentinel pushed by `start`. */
  class AppendToVector {
    const container: CharVector

    constructor(container: CharVector)
      ensures this.container == container
    {
      this.container := container;
    }

    ghost predicate Valid()
      reads this, container, container.alloc
    {
      container.Valid()
    }

    /** The sink has been started: the sentinel is the last element. */
    predicate Sentinel()
      reads this, container
    {
      container.contents != [] && container.contents[|container.contents| - 1] == Nul
    }

    /** `view_string()`: every element but the last. */
    function View(): (v: seq<char>)
      requires container.contents != []
      reads this, container
      ensures |v| == |container.contents| - 1
    {
      container.contents[..|container.contents| - 1]
    }

    /** `start(p)`: pushes the sentinel; the position is not used. On an empty
        vector the view is then empty. */
    method Start() returns (ok: bool)
      requires Valid()
      modifies container, container.alloc
      ensures Valid() && Charged(container.alloc, ok)
      ensures ok ==> Sentinel() && View() == old(container.contents)
      ensures !ok ==> container.contents == old(container.contents)
    {
      ok := container.PushBack(Nul);
    }

    /** `append(first, last)`: the bytes are added at the end of the view and
        the sentinel stays last. */
    method AppendRange(bytes: seq<char>) returns (ok: bool)
      requires Valid() && Sentinel()
      modifies container, container.alloc
      ensures Valid() && Charged(container.alloc, ok) && Sentinel()
      ensures View() == if ok then old(View()) + bytes else old(View())
      ensures !ok ==> container.contents == old(container.contents)
    {
      ok := container.InsertBeforeLast(bytes);
    }

    /** `append(ch)`. */
    method Append(ch: char) returns (ok: bool)
      requires Valid() && Sentinel()
      modifies container, container.alloc
      ensures Valid() && Charged(container.alloc, ok) && Sentinel()
      ensures View() == if ok then old(View()) + [ch] else old(View())
      ensures !ok ==> container.contents == old(container.contents)
    {
      ok := AppendRange([ch]);
    }

    /** `append_same(ch)`: the vector sink copies the byte like `append`. */
    method AppendSame(ch: char) returns (ok: bool)
      requires Valid() && Sentinel()
      modifies container, container.alloc
      ensures Valid() && Charged(container.alloc, ok) && Sentinel()
      ensures View() == if ok then old(View()) + [ch] else old(View())
      ensures !ok ==> container.contents == old(container.contents)
    {
      ok := AppendRange([ch]);
    }

    /** `append_same(first, last)`: likewise a copy. */
    method AppendSameRange(bytes: seq<char>) returns (ok: bool)
      requires Valid() && Sentinel()
      modifies container, container.alloc
      ensures Valid() && Charged(container.alloc, ok) && Sentinel()
      ensures View() == if ok then old(View()) + bytes else old(View())
      ensures !ok ==> container.contents == old(container.contents)
    {
      ok := AppendRange(bytes);
    }

    /** `clear()`: empties the vector, sentinel included. */
    method Clear()
      requires Valid()
      modifies container
      ensures Valid() && container.contents == [] && container.capacity == old(container.capacity)
    {
      container.Clear();
    }
  }

  /** A buffer whose bytes before `c` are those of `before`, the next
      `|piece|` bytes the piece, and the rest those of `before` again: it is
      `before` with the piece spliced in at `c`, and the view from any
      `st <= c` grows by the piece. */
  lemma Spliced(a: seq<char>, before: seq<char>, piece: seq<char>, c: nat, st: nat)
    requires |a| == |before| && st <= c && c + |piece| <= |a|
    requires forall k :: 0 <= k < c ==> a[k] == before[k]
    requires forall k :: c <= k < c + |piece| ==> a[k] == piece[k - c]
    requires forall k :: c + |piece| <= k < |a| ==> a[k] == before[k]
    ensures a == before[..c] + piece + before[c + |piece|..]
    ensures a[st..c + |piece|] == before[st..c] + piece
  {
    assert a == before[..c] + piece + before[c + |piece|..];
    assert a[st..c + |piece|] == before[st..c] + piece;
  }

  /** `in_place`: the field is the stretch `[start, current)` of the caller's
      buffer, written by a cursor that never runs ahead of the parser. */
  class InPlace {
    const buf: array<char>
    var start: nat
    var current: nat

    ghost predicate Valid()
      reads this
    {
      start <= current <= buf.Length
    }

    /** `in_place(p)`: start and cursor both at `p`. */
    constructor(buf: array<char>, p: nat)
      requires p <= buf.Length
      ensures Valid() && this.buf == buf && start == p && current == p
    {
      this.buf := buf;
      start, current := p, p;
    }

    /** `view_string()`: the bytes from the start to the cursor. */
    function View(): (v: seq<char>)
      requires Valid()
      reads this, buf
      ensures |v| == current - start
    {
      buf[start..current]
    }

    /** `start(p)`: the view becomes empty at `p`. */
    method Start(p: nat)
      requires p <= buf.Length
      modifies this
      ensures Valid() && start == p && current == p && View() == []
    {
      start, current := p, p;
    }

    /** `append(ch)`: writes `ch` under the cursor and advances it; no other
        byte of the buffer changes. */
    method Append(ch: char)
      requires Valid() && current < buf.Length
      modifies this, buf
      ensures Valid() && start == old(start) && current == old(current) + 1
      ensures buf[..] == old(buf[..])[old(current) := ch]
      ensures View() == old(View()) + [ch]
    {
      buf[current] := ch;
      current := current + 1;
    }

    /** `append(first, last)` from `src[from..to]`, one byte at a time in
        order. The source may be the buffer itself as long as it lies at or
        after the cursor, which is how the parser compacts a field. */
    method AppendRange(src: array<char>, from: nat, to: nat)
      requires Valid() && from <= to <= src.Length && current + (to - from) <= buf.Length
      requires src == buf ==> current <= from
      modifies this, buf
      ensures Valid() && start == old(start) && current == old(current) + (to - from)
      ensures buf[..] == old(buf[..current]) + old(src[from..to]) + old(buf[current + (to - from)..])
      ensures View() == old(View()) + old(src[from..to])
    {
      ghost var c0, b0, s0 := current, buf[..], src[..];
      ghost var piece := s0[from..to];
      var i := from;
      while i < to
        invariant from <= i <= to && current == c0 + (i - from)
        invariant start == old(start) && Valid() && |b0| == buf.Length && |s0| == src.Length
        invariant forall k :: 0 <= k < c0 ==> buf[k] == b0[k]
        invariant forall k :: c0 <= k < current ==> buf[k] == piece[k - c0]
        invariant forall k :: current <= k < buf.Length ==> buf[k] == b0[k]
        invariant forall k :: i <= k < to ==> src[k] == s0[k]
      {
        assert src[i] == piece[current - c0];
        buf[current] := src[i];
        i := i + 1;
        current := current + 1;
      }
      Spliced(buf[..], b0, piece, c0, start);
    }

    /** `append_same(ch)`: the byte is already in place; only the cursor
        moves. */
    method AppendSame(ch: char)
      requires Valid() && current < buf.Length
      modifies this
      ensures Valid() && start == old(start) && current == old(current) + 1
      ensures View() == old(View()) + [buf[old(current)]]
    {
      current := current + 1;
    }

    /** `append_same(first, last)`: the cursor moves past `n` bytes that are
        already in place. */
    method AppendSameRange(n: nat)
      requires Valid() && current + n <= buf.Length
      modifies this
      ensures Valid() && start == old(start) && current == old(current) + n
      ensures View() == old(View()) + buf[old(current)..current]
    {
      current := current + n;
    }

    /** `clear()`: nothing to do, the next `start` moves the view. */
    method Clear()
      requires Valid()
      ensures Valid() && View() == old(View())
    {
    }
  }
}
