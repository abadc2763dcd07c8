/**
 The generic finite-state-machine interpreter of lightbulb_fsm.py: named
 states and named transitions in two registries, a current state and at most
 one pending transition, and a tick that first applies the pending transition
 and then runs the current state's action.
 */
module LightbulbFsm {
  import opened Wrappers
  import opened Trace

  /** The two stateless state objects; `execute` prints one status line. */
  datatype LightState = LightOn | LightOff {
    /** The line this state's `execute` prints. */
    function Action(): (e: Event)
      ensures e == StateOn || e == StateOff
      ensures e == StateOn <==> this == LightOn
    {
      if LightOn? then StateOn else StateOff
    }
  }

  /** A transition names the state it leads to; `execute` announces it. */
  datatype Transition = Transition(toState: string) {
    function Announce(): (e: Event)
      ensures e.TransitionTo? && e.target == toState
    {
      TransitionTo(toState)
    }
  }

  /** Python's `dict.get`: the value stored under `key`, or None. */
  function Get<K, V>(m: map<K, V>, key: K): (r: Option<V>)
    ensures r.None? <==> key !in m
    ensures key in m ==> r.value == m[key]
  {
    if key in m then Some(m[key]) else None
  }

  /** The abstract value of a LightFSM object: its four fields. */
  datatype Fsm = Fsm(
    states: map<string, LightState>,
    transitions: map<string, Transition>,
    curr: Option<LightState>,
    trans: Option<Transition>)
  {
    /** `set_state`: the current state becomes the registered one, or None. */
    function SetState(name: string): (r: Fsm)
      ensures name in states ==> r.curr == Some(states[name])
      ensures name !in states ==> r.curr == None
      ensures r.states == states && r.transitions == transitions && r.trans == trans
    {
      this.(curr := Get(states, name))
    }

    /** `transition`: the pending transition becomes the registered one, or None. */
    function Request(name: string): (r: Fsm)
      ensures name in transitions ==> r.trans == Some(transitions[name])
      ensures name !in transitions ==> r.trans == None
      ensures r.states == states && r.transitions == transitions && r.curr == curr
    {
      this.(trans := Get(transitions, name))
    }

    /**
     What a tick needs in order not to fail: a pending transition must lead
     to a registered state, and without one there must be a current state.
     */
    predicate CanExecute(): (ok: bool)
      ensures ok <==> (if trans.Some? then Get(states, trans.value.toState) else curr).Some?
    {
      match trans
      case Some(t) => t.toState in states
      case None => curr.Some?
    }

    /** `execute`: the machine after one tick, and the lines the tick printed. */
    function Execute(): (r: (Fsm, seq<Event>))
      requires CanExecute()
      ensures r.0.trans == None
      ensures r.0.states == states && r.0.transitions == transitions
      ensures trans.None? ==> r.0.curr == curr && r.1 == [curr.value.Action()]
      ensures trans.Some? ==>
                && r.0.curr == Some(states[trans.value.toState])
                && r.1 == [TransitionTo(trans.value.toState), states[trans.value.toState].Action()]
    {
      var (next, announced) :=
        if trans.Some? then (SetState(trans.value.toState).(trans := None), [trans.value.Announce()])
        else (this, []);
      (next, announced + [next.curr.value.Action()])
    }
  }

  /** A fresh machine: empty registries, no current state, nothing pending. */
  function Empty(): Fsm {
    Fsm(map[], map[], None, None)
  }

  /** Two requests before a tick: only the second one is pending. */
  lemma LastRequestWins(f: Fsm, first: string, second: string)
    ensures f.Request(first).Request(second) == f.Request(second)
    ensures second !in f.transitions ==> f.Request(first).Request(second).trans == None
  {
  }

  /** Ticks without a request leave the machine alone and print the same line each time. */
  lemma IdleTicksRepeat(f: Fsm)
    requires f.trans.None? && f.curr.Some?
    ensures f.Execute().0 == f && f.Execute().1 == [f.curr.value.Action()]
    ensures f.Execute().0.Execute() == f.Execute()
  {
  }

  /**
   `set_state` with an unregistered name does not fail: it leaves no current
   state, so the next tick fails unless a transition is pending.
   */
  lemma UnknownStateStopsIdleTick(f: Fsm, name: string)
    requires name !in f.states
    ensures f.SetState(name).curr == None
    ensures f.trans == None ==> !f.SetState(name).CanExecute()
  {
  }

  /** The machine object. */
  class LightFSM {
    var statesDict: map<string, LightState>
    var transitionsDict: map<string, Transition>
    var currState: Option<LightState>
    var trans: Option<Transition>

    function Model(): Fsm
      reads this
    {
      Fsm(statesDict, transitionsDict, currState, trans)
    }

    constructor ()
      ensures Model() == Empty()
    {
      statesDict := map[];
      transitionsDict := map[];
      currState := None;
      trans := None;
    }

    method SetState(stateName: string)
      modifies this
      ensures Model() == old(Model()).SetState(stateName)
    {
      currState := Get(statesDict, stateName);
    }

    method Transition(transitionName: string)
      modifies this
      ensures Model() == old(Model()).Request(transitionName)
    {
      trans := Get(transitionsDict, transitionName);
    }

    method Execute(out: Console)
      requires Model().CanExecute()
      modifies this, out
      ensures Model() == old(Model()).Execute().0
      ensures out.log == old(out.log) + old(Model()).Execute().1
      ensures trans == None && statesDict == old(statesDict) && transitionsDict == old(transitionsDict)
    {
      if trans.Some? {
        out.Print(trans.value.Announce());
        SetState(trans.value.toState);
        trans := None;
      }
      out.Print(currState.value.Action());
    }
  }

  /** The light bulb owns one machine and a flag the driver keeps in step with it. */
  class LightBulb {
    var fsm: LightFSM
    var lightOn: bool

    constructor ()
      ensures fresh(fsm) && fsm.Model() == Empty() && lightOn
    {
      fsm := new LightFSM();
      lightOn := true;
    }
  }
}
