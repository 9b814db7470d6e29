/**
  The states a valve can report (src/valvestate.h) and their string tokens
  (`to_c_str`, src/valve.cpp).
 */
module ValveStates {

  /** The five variants, in declaration order. `Error` is never produced by a transition. */
  datatype ValveState = Closed | Opening | Open | Closing | Error

  /** The underlying number of each variant: the default numbering of the C++ enum class. */
  function Ordinal(s: ValveState): (n: nat)
    ensures n < 5
    ensures n == 4 <==> s == Error
  {
    match s
    case Closed => 0
    case Opening => 1
    case Open => 2
    case Closing => 3
    case Error => 4
  }

  /** Distinct variants have distinct numbers. */
  lemma OrdinalInjective(a: ValveState, b: ValveState)
    ensures Ordinal(a) == Ordinal(b) <==> a == b
  {
  }

  /** The tokens a state can be rendered as. */
  const Tokens: set<string> := {"closed", "opening", "open", "closing", "error"}

  /** The string token of a state; every state that is not one of the four normal ones reads "error". */
  function ToCStr(s: ValveState): (r: string)
    ensures r in Tokens
    ensures r == "error" <==> s == Error
  {
    match s
    case Open => "open"
    case Closed => "closed"
    case Opening => "opening"
    case Closing => "closing"
    case _ => "error"
  }

  /** Two normal states never share a token, so a token names its state. */
  lemma ToCStrInjective(a: ValveState, b: ValveState)
    requires a != Error && b != Error
    ensures ToCStr(a) == ToCStr(b) <==> a == b
  {
  }
}
