/** The RAII guards the parser relies on to leave a consistent session
    behind on every exit, early returns and exceptions included:
    `scope_assign` publishes the resume position, `scope_clear` empties the
    field buffer once a field has been delivered. A guard's destructor is the
    method `Exit`, which the drivers call on every path leaving the scope. */
module Guards {
  import opened Sinks

  /** A position in the input, which a guard can read or write. In the source
      this is an iterator variable; here it is an offset. */
  class Position {
    var at: nat

    constructor(at: nat)
      ensures this.at == at
    {
      this.at := at;
    }
  }

  /** `scope_assign(from, to)`: holds a reference to `from`, so what it copies
      is the value `from` has when the scope ends. */
  class ScopeAssign {
    const from: Position
    const to: Position?

    constructor(from: Position, to: Position?)
      ensures this.from == from && this.to == to
    {
      this.from := from;
      this.to := to;
    }

    /** `~scope_assign()`: copies `from` into `*to` if and only if `to` is
        not null; nothing else changes. */
    method Exit()
      modifies to
      ensures to != null ==> to.at == old(from.at)
    {
      if to != null {
        to.at := from.at;
      }
    }
  }

  /** `scope_clear(sink)`. */
  class ScopeClear {
    const target: AppendToVector

    constructor(target: AppendToVector)
      ensures this.target == target
    {
      this.target := target;
    }

    /** `~scope_clear()`: clears the sink, which empties its vector. */
    method Exit()
      requires target.Valid()
      modifies target.container
      ensures target.Valid() && target.container.contents == []
      ensures target.container.capacity == old(target.container.capacity)
    {
      target.Clear();
    }
  }
}
