/** Option, standing for Python's None or an object. */
module Wrappers {
  datatype Option<+T> = None | Some(value: T)
}

/**
 The observable output of the two light-bulb programs. Every status line the
 programs print becomes one event; the console is the sink they print to.
 */
module Trace {

  datatype Event =
    | Starting                     // the demo's opening banner
    | StepBegin(number: nat)       // the FSM demo's per-cycle header, numbered from 1
    | NothingHappened              // an FSM demo cycle in which no transition was requested
    | TransitionTo(target: string) // a transition announcing the state it moves to
    | StateOn                      // a light state reporting that the light is on
    | StateOff                     // a light state reporting that the light is off

  /** Standard output: the events printed so far, oldest first. */
  class Console {
    var log: seq<Event>

    constructor ()
      ensures log == []
    {
      log := [];
    }

    method Print(e: Event)
      modifies this
      ensures log == old(log) + [e]
    {
      log := log + [e];
    }
  }
}
