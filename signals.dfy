/** The tri-state control signal a callback returns to the parser: the
    compile-time constants `state<N>` (`keep_going`, `stop`, `abort`), the
    run-time `command` built from one of them, their comparisons, and the
    two helpers the parser uses to act on a reply: `to_return_value` and the
    `SAXY_RUN_CALLBACK` early return. */
module Signals {

  /** A C++ `char`: the type of the tag of `state<>` and `command`. */
  newtype Char8 = x: int | -128 <= x < 128

  /** `state<State>`: a tag known at compile time. */
  datatype StateConst = StateConst(value: Char8)

  /** `command`: a tag chosen at run time, initialised from a `state<>`. */
  datatype Command = Command(tag: Char8)

  const KeepGoing: StateConst := StateConst(0)
  const Stop: StateConst := StateConst(1)
  const Abort: StateConst := StateConst(2)

  /** The converting constructor `command(state<State>)`. */
  function FromState(s: StateConst): Command {
    Command(s.value)
  }

  // operator==, operator!= between two state<> constants
  function StatesEqual(a: StateConst, b: StateConst): bool { a.value == b.value }
  function StatesDiffer(a: StateConst, b: StateConst): bool { a.value != b.value }

  // operator==, operator!= between two commands
  function CommandsEqual(a: Command, b: Command): bool { a.tag == b.tag }
  function CommandsDiffer(a: Command, b: Command): bool { a.tag != b.tag }

  // operator==, operator!= between a command and a state<> (both operand orders)
  function CommandIs(c: Command, s: StateConst): bool { c.tag == s.value }
  function StateIs(s: StateConst, c: Command): bool { c.tag == s.value }
  function CommandIsNot(c: Command, s: StateConst): bool { c.tag != s.value }
  function StateIsNot(s: StateConst, c: Command): bool { c.tag != s.value }

  /** `detail::to_return_value`: the value `parse` returns once a callback
      has answered something other than `keep_going`. */
  function ToReturnValue(c: Command): (r: bool)
    requires CommandIsNot(c, KeepGoing)
    ensures r <==> c == FromState(Stop)
    ensures c == FromState(Abort) ==> !r
  {
    CommandIs(c, Stop)
  }

  /** `SAXY_RUN_CALLBACK(X)`: `Continue` means "fall through and carry on",
      `Return(v)` means "return v from the enclosing parse now". */
  datatype Flow = Continue | Return(value: bool)

  function RunCallback(c: Command): (f: Flow)
    ensures f.Continue? <==> CommandIs(c, KeepGoing)
    ensures f.Return? ==> f.value == ToReturnValue(c)
  {
    if CommandIsNot(c, KeepGoing) then Return(ToReturnValue(c)) else Continue
  }

  /** The three named constants carry the tags 0, 1 and 2 and are pairwise
      different, both as `state<>` constants and once converted to commands. */
  lemma ConstantsDistinct()
    ensures KeepGoing.value == 0 && Stop.value == 1 && Abort.value == 2
    ensures StatesDiffer(KeepGoing, Stop) && StatesDiffer(KeepGoing, Abort) && StatesDiffer(Stop, Abort)
    ensures !CommandsEqual(FromState(KeepGoing), FromState(Stop))
    ensures !CommandsEqual(FromState(KeepGoing), FromState(Abort))
    ensures !CommandsEqual(FromState(Stop), FromState(Abort))
  {
  }

  /** Every `!=` is the negation of the matching `==`, and comparing a command
      with a constant is the same as comparing it with the command the
      constant converts to, in either operand order. */
  lemma ComparisonsAgree(a: Command, b: Command, s: StateConst, t: StateConst)
    ensures CommandsDiffer(a, b) == !CommandsEqual(a, b)
    ensures StatesDiffer(s, t) == !StatesEqual(s, t)
    ensures CommandIsNot(a, s) == !CommandIs(a, s)
    ensures StateIsNot(s, a) == !StateIs(s, a)
    ensures CommandIs(a, s) == StateIs(s, a) == CommandsEqual(a, FromState(s))
    ensures StatesEqual(s, t) == CommandsEqual(FromState(s), FromState(t))
    ensures CommandsEqual(a, b) <==> a == b
  {
  }

  /** A `stop` reply makes `parse` return true and an `abort` reply makes it
      return false; a `keep_going` reply never returns early. */
  lemma ReturnValues()
    ensures ToReturnValue(FromState(Stop)) == true
    ensures ToReturnValue(FromState(Abort)) == false
    ensures RunCallback(FromState(KeepGoing)) == Continue
    ensures RunCallback(FromState(Stop)) == Return(true)
    ensures RunCallback(FromState(Abort)) == Return(false)
  {
  }
}
