/** Interleaved systems.  A concurrent part of the program is a state, a set of
    actions (one per atomic step of one goroutine) and a partial step function;
    a schedule is any sequence of actions.  Everything proved about a schedule is
    proved about every interleaving. */
module Machines {
  import opened Wrappers

  /** The state after a schedule, or None when some action was not enabled. */
  function Replay<S, A>(init: S, step: (S, A) -> Option<S>, acts: seq<A>): Option<S> {
    if acts == [] then Some(init)
    else
      match Replay(init, step, acts[..|acts| - 1])
      case None => None
      case Some(s) => step(s, acts[|acts| - 1])
  }

  /** Extending a schedule by one action is one step. */
  lemma ReplayOneMore<S, A>(init: S, step: (S, A) -> Option<S>, acts: seq<A>, a: A)
    ensures Replay(init, step, acts + [a])
         == match Replay(init, step, acts) case None => None case Some(s) => step(s, a)
  {
    assert (acts + [a])[..|acts|] == acts;
  }

  /** A property of the initial state kept by every enabled step holds after every schedule. */
  lemma {:induction false} InvariantHolds<S(!new), A(!new)>(
      init: S, step: (S, A) -> Option<S>, inv: S -> bool, acts: seq<A>)
    requires inv(init)
    requires forall s, a :: inv(s) && step(s, a).Some? ==> inv(step(s, a).value)
    ensures Replay(init, step, acts).Some? ==> inv(Replay(init, step, acts).value)
  {
    if acts != [] {
      InvariantHolds(init, step, inv, acts[..|acts| - 1]);
    }
  }
}
