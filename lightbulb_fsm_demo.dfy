/**
 The driver of lightbulb_fsm.py: it registers the states "On" and "Off" and
 the transitions "toOn" and "toOff", starts in "On", and then runs ten cycles.
 In each cycle a random choice decides whether the bulb requests the
 transition to the opposite state (flipping its own flag) before the machine
 ticks. Here the choices are a parameter: `true` stands for a nonzero draw.
 */
module LightbulbFsmDemo {
  import opened Wrappers
  import opened Trace
  import opened LightbulbFsm

  const Cycles := 10

  function DemoStates(): map<string, LightState> {
    map["On" := LightOn, "Off" := LightOff]
  }

  function DemoTransitions(): map<string, Transition> {
    map["toOn" := Transition("On"), "toOff" := Transition("Off")]
  }

  /** The driver's variables between cycles: the bulb's flag, its machine, the output. */
  datatype Demo = Demo(on: bool, fsm: Fsm, log: seq<Event>)

  /**
   The driver's invariant: registries as set up, nothing pending, and the flag
   names the current state.
   */
  predicate Tracks(d: Demo) {
    && d.fsm.states == DemoStates()
    && d.fsm.transitions == DemoTransitions()
    && d.fsm.trans == None
    && d.fsm.curr == Some(d.fsm.states[if d.on then "On" else "Off"])
  }

  /** Number of cycles whose choice requested a transition. */
  function Toggles(choices: seq<bool>): nat
    decreases |choices|
  {
    if choices == [] then 0
    else Toggles(choices[..|choices| - 1]) + (if choices[|choices| - 1] then 1 else 0)
  }

  /** The status line for the flag's value. */
  function Status(on: bool): Event {
    if on then StateOn else StateOff
  }

  /** What cycle number `n` (from 1) prints, given its choice and the flag after it. */
  function Lines(n: nat, fire: bool, on: bool): seq<Event> {
    [StepBegin(n), if fire then TransitionTo(if on then "On" else "Off") else NothingHappened, Status(on)]
  }

  /** The state after the registrations, `set_state("On")` and the banner. */
  function Setup(): (d: Demo)
    ensures Tracks(d) && d.on && d.log == [Starting]
  {
    var f := Fsm(DemoStates(), DemoTransitions(), None, None).SetState("On");
    Demo(true, f, [Starting])
  }

  /** Cycle number `i` (from 0) of the driver loop, with the random choice `fire`. */
  function Cycle(d: Demo, i: nat, fire: bool): (r: Demo)
    requires Tracks(d)
    ensures Tracks(r)
    ensures r.on == (d.on != fire)
    ensures r.log == d.log + Lines(i + 1, fire, r.on)
  {
    var header := d.log + [StepBegin(i + 1)];
    var (on, f, log) :=
      if fire then
        if d.on then (false, d.fsm.Request("toOff"), header)
        else (true, d.fsm.Request("toOn"), header)
      else (d.on, d.fsm, header + [NothingHappened]);
    var (f', printed) := f.Execute();
    Demo(on, f', log + printed)
  }

  /** The driver after as many cycles as there are choices. */
  function Run(choices: seq<bool>): (r: Demo)
    ensures Tracks(r)
    decreases |choices|
  {
    if choices == [] then Setup()
    else Cycle(Run(choices[..|choices| - 1]), |choices| - 1, choices[|choices| - 1])
  }

  /** Running one more cycle of the choices is one more `Cycle`. */
  lemma RunPrefix(choices: seq<bool>, i: nat)
    requires i < |choices|
    ensures Run(choices[..i + 1]) == Cycle(Run(choices[..i]), i, choices[i])
  {
    assert choices[..i + 1][..i] == choices[..i];
  }

  /**
   A reference account of the flag, from the choices alone: it starts on and
   every choice that fires flips it.
   */
  function FlagAfter(choices: seq<bool>): bool
    decreases |choices|
  {
    if choices == [] then true
    else FlagAfter(choices[..|choices| - 1]) != choices[|choices| - 1]
  }

  /** A reference account of the output, from the choices alone: the banner, then each cycle's lines. */
  function Expected(choices: seq<bool>): seq<Event>
    decreases |choices|
  {
    if choices == [] then [Starting]
    else Expected(choices[..|choices| - 1]) + Lines(|choices|, choices[|choices| - 1], FlagAfter(choices))
  }

  /** The flag is on exactly when an even number of choices fired. */
  lemma {:induction false} FlagAfterParity(choices: seq<bool>)
    ensures FlagAfter(choices) == (Toggles(choices) % 2 == 0)
    decreases |choices|
  {
    if choices != [] {
      FlagAfterParity(choices[..|choices| - 1]);
    }
  }

  /** The machine-driven run agrees with the reference: same flag, same output. */
  lemma {:induction false} RunMatchesExpected(choices: seq<bool>)
    ensures Run(choices).on == FlagAfter(choices)
    ensures Run(choices).log == Expected(choices)
    decreases |choices|
  {
    if choices != [] {
      RunMatchesExpected(choices[..|choices| - 1]);
    }
  }

  /**
   After any cycles the bulb's flag names the machine's current state, and the
   light is on exactly when an even number of transitions was requested.
   */
  lemma {:induction false} RunParity(choices: seq<bool>)
    ensures Run(choices).on == (Toggles(choices) % 2 == 0)
    ensures Run(choices).on == (Run(choices).fsm.curr == Some(LightOn))
    ensures Run(choices).fsm.curr == Some(if Toggles(choices) % 2 == 0 then LightOn else LightOff)
  {
    RunMatchesExpected(choices);
    FlagAfterParity(choices);
  }

  /** Every cycle prints three lines: its header, a transition or "nothing happened", the status. */
  lemma {:induction false} ExpectedLength(choices: seq<bool>)
    ensures |Expected(choices)| == 1 + 3 * |choices|
    decreases |choices|
  {
    if choices != [] {
      ExpectedLength(choices[..|choices| - 1]);
    }
  }

  /** The first five cycles of the run recorded at the end of lightbulb_fsm.py. */
  lemma SampleFirstHalf()
    ensures FlagAfter([true, true, false, true, false]) == false
    ensures Expected([true, true, false, true, false]) ==
      [Starting,
       StepBegin(1), TransitionTo("Off"), StateOff,
       StepBegin(2), TransitionTo("On"), StateOn,
       StepBegin(3), NothingHappened, StateOn,
       StepBegin(4), TransitionTo("Off"), StateOff,
       StepBegin(5), NothingHappened, StateOff]
  {
    assert [true, true, false, true, false][..4] == [true, true, false, true];
    assert [true, true, false, true][..3] == [true, true, false];
    assert [true, true, false][..2] == [true, true];
    assert [true, true][..1] == [true];
    assert [true][..0] == [];
  }

  /** What the reference prints for the draws of the run recorded at the end of lightbulb_fsm.py. */
  lemma SampleExpected()
    ensures Expected([true, true, false, true, false, true, false, true, false, false]) ==
      [Starting,
       StepBegin(1), TransitionTo("Off"), StateOff,
       StepBegin(2), TransitionTo("On"), StateOn,
       StepBegin(3), NothingHappened, StateOn,
       StepBegin(4), TransitionTo("Off"), StateOff,
       StepBegin(5), NothingHappened, StateOff,
       StepBegin(6), TransitionTo("On"), StateOn,
       StepBegin(7), NothingHappened, StateOn,
       StepBegin(8), TransitionTo("Off"), StateOff,
       StepBegin(9), NothingHappened, StateOff,
       StepBegin(10), NothingHappened, StateOff]
  {
    SampleFirstHalf();
    assert [true, true, false, true, false, true, false, true, false, false][..9] == [true, true, false, true, false, true, false, true, false];
    assert [true, true, false, true, false, true, false, true, false][..8] == [true, true, false, true, false, true, false, true];
    assert [true, true, false, true, false, true, false, true][..7] == [true, true, false, true, false, true, false];
    assert [true, true, false, true, false, true, false][..6] == [true, true, false, true, false, true];
    assert [true, true, false, true, false, true][..5] == [true, true, false, true, false];
  }

  /** The recorded run itself: with its draws the driver prints exactly the recorded lines. */
  lemma SampleRun(draws: seq<bool>)
    requires draws == [true, true, false, true, false, true, false, true, false, false]
    ensures Run(draws).log ==
      [Starting,
       StepBegin(1), TransitionTo("Off"), StateOff,
       StepBegin(2), TransitionTo("On"), StateOn,
       StepBegin(3), NothingHappened, StateOn,
       StepBegin(4), TransitionTo("Off"), StateOff,
       StepBegin(5), NothingHappened, StateOff,
       StepBegin(6), TransitionTo("On"), StateOn,
       StepBegin(7), NothingHappened, StateOn,
       StepBegin(8), TransitionTo("Off"), StateOff,
       StepBegin(9), NothingHappened, StateOff,
       StepBegin(10), NothingHappened, StateOff]
  {
    SampleExpected();
    RunMatchesExpected(draws);
  }

  /** The driver's variables as they stand in the heap. */
  function Snapshot(light: LightBulb, out: Console): Demo
    reads light, light.fsm, out
  {
    Demo(light.lightOn, light.fsm.Model(), out.log)
  }

  /** The body of the driver loop, cycle number `i` (from 0). */
  method DriveCycle(light: LightBulb, out: Console, i: nat, fire: bool)
    requires Tracks(Snapshot(light, out))
    modifies light, light.fsm, out
    ensures light.fsm == old(light.fsm)
    ensures Snapshot(light, out) == Cycle(old(Snapshot(light, out)), i, fire)
  {
    out.Print(StepBegin(i + 1));
    if fire {
      if light.lightOn {
        light.fsm.Transition("toOff");
        light.lightOn := false;
      } else {
        light.fsm.Transition("toOn");
        light.lightOn := true;
      }
    } else {
      out.Print(NothingHappened);
    }
    light.fsm.Execute(out);
  }

  /** The `__main__` block, with the random draws given as `choices`. */
  method RunDemo(choices: seq<bool>) returns (log: seq<Event>)
    requires |choices| == Cycles
    ensures log == Run(choices).log
  {
    var out := new Console();
    var light := new LightBulb();
    light.fsm.statesDict := light.fsm.statesDict["On" := LightOn];
    light.fsm.statesDict := light.fsm.statesDict["Off" := LightOff];
    light.fsm.transitionsDict := light.fsm.transitionsDict["toOn" := Transition("On")];
    light.fsm.transitionsDict := light.fsm.transitionsDict["toOff" := Transition("Off")];
    assert light.fsm.statesDict == DemoStates() && light.fsm.transitionsDict == DemoTransitions();
    light.fsm.SetState("On");
    out.Print(Starting);
    assert choices[..0] == [];
    assert Snapshot(light, out) == Setup();
    for i := 0 to Cycles
      invariant fresh(light.fsm)
      invariant Snapshot(light, out) == Run(choices[..i])
    {
      DriveCycle(light, out, i, choices[i]);
      RunPrefix(choices, i);
    }
    assert choices[..Cycles] == choices;
    log := out.log;
  }
}
