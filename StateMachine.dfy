/**
 * StateMachine: one current state; a transition exits the old state before entering the new one.
 * States are identified by number, and a missing state (null) is None. The calls the machine makes
 * on states are recorded in `calls`.
 */
module StateMachine {
  import opened Wrappers

  type State = nat

  datatype StateCall = Enter(state: State) | Exit(state: State) | Tick(state: State)

  /** The calls a transition from `from` to `to` makes, in order. */
  function TransitionCalls(from: Option<State>, to: Option<State>): (r: seq<StateCall>)
    ensures |r| == (if from.Some? then 1 else 0) + (if to.Some? then 1 else 0)
    ensures from.Some? ==> r[0] == Exit(from.value)
    ensures to.Some? ==> r[|r| - 1] == Enter(to.value)
  {
    (if from.Some? then [Exit(from.value)] else []) + (if to.Some? then [Enter(to.value)] else [])
  }

  class StateMachine {
    var current: Option<State>
    var calls: seq<StateCall>

    constructor ()
      ensures current == None && calls == []
    {
      current := None;
      calls := [];
    }

    method TransitionTo(newState: Option<State>)
      modifies this
      ensures current == newState
      ensures calls == old(calls) + TransitionCalls(old(current), newState)
    {
      if current.Some? {
        calls := calls + [Exit(current.value)];
      }
      current := newState;
      if current.Some? {
        calls := calls + [Enter(current.value)];
      }
    }

    /** Forwards the frame update to the current state only. */
    method Update()
      modifies this`calls
      ensures current.None? ==> calls == old(calls)
      ensures current.Some? ==> calls == old(calls) + [Tick(current.value)]
    {
      if current.Some? {
        calls := calls + [Tick(current.value)];
      }
    }
  }

  /** Re-entering the current state exits it and enters it again. */
  lemma SelfTransition(s: State)
    ensures TransitionCalls(Some(s), Some(s)) == [Exit(s), Enter(s)]
  {
  }

  /** Over a chain of transitions every state is exited before the next one is entered. */
  lemma ChainAlternates(a: State, b: State, c: State)
    ensures TransitionCalls(None, Some(a)) + TransitionCalls(Some(a), Some(b)) + TransitionCalls(Some(b), Some(c))
      == [Enter(a), Exit(a), Enter(b), Exit(b), Enter(c)]
  {
  }
}
