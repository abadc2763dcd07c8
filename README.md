# Light-bulb State pattern, modelled in Dafny

This project models two small teaching programs that show the State pattern
on a light bulb.

`lightbulb_fsm.py` is a generic finite-state machine (`LightFSM`). It keeps
two registries keyed by name: states (`LightOn`, `LightOff`) and transitions
(`Transition`, which carries a target state name). It also keeps a current
state and at most one pending transition. `set_state` and `transition` look
names up with `dict.get`, so an unknown name gives `None`. `execute` is one
tick. If a transition is pending, the tick announces it, applies its target
and clears it. Then it always runs the current state's action. `LightBulb`
bundles a machine with a `LightOn` flag. The script's driver registers
"On"/"Off" and "toOn"/"toOff", starts in "On", and runs ten cycles. In each
cycle a random draw decides whether to request the transition opposite to
the flag.

`lightbulb.py` is a two-state context (`LightContext`). It keeps its two
state objects under the keys "1" and "0", the active key `curr_state`, and
the active object `current_state_ref`. `set_state` also stores the context
in the state's `_context`. `switch` toggles between the two states, and
`request` runs the active state's action.

Files:

- `trace.dfy`: `Wrappers.Option` (Python's `None`). `Trace.Event` is one
  event per printed status line. `Trace.Console` is standard output as an
  appended log and is passed to every method that prints.
- `lightbulb_fsm.dfy` (module `LightbulbFsm`):
  - the state and transition values;
  - `Fsm`, the value of a machine, with `SetState`, `Request` and `Execute`
    as functions;
  - the `LightFSM` class, whose methods are proved equal to those functions
    on `Model()`;
  - `LightBulb`.
- `lightbulb_fsm_demo.dfy` (module `LightbulbFsmDemo`):
  - the driver as a pure run, `Run` (built from `Setup` and `Cycle`);
  - a reference account of the flag and the output, computed from the
    draws alone (`Toggles`, `FlagAfter`, `Expected`);
  - lemmas that connect `Run` to that reference;
  - the driver itself as the method `RunDemo`, proved equal to `Run`.
- `lightbulb.dfy` (module `Lightbulb`): the state objects and `LightContext`
  as classes with invariant `Valid()`, the key algebra (`Flip`, `KeyAfter`)
  and the driver `RunDemo`.

The random draws (`randint(0,2)`) become a parameter `choices: seq<bool>`,
where `true` stands for a nonzero draw. Timing and console formatting are
not modelled.

The machine validates nothing. `set_state` and `transition` use `dict.get`
(lightbulb_fsm.py:63, 66), so an unknown state name sets the current state
to `None` and an unknown transition name clears the pending transition; no
error is raised there. A failure comes only at the next tick, when line 73
reads the current state. That read fails when nothing is pending and no
state is current, or when the pending transition's target is not
registered. With a registered target pending, the tick runs even if no state
is current, because line 71 sets one first. `Fsm.CanExecute` states exactly
this and is `Execute`'s precondition. `UnknownStateStopsIdleTick` shows how
an unknown name leads to a failing idle tick.

## Model

| member | source | states |
|---|---|---|
| Trace.Console.Print | design-patterns/OOP03-behavioral-patterns/lightbulb_fsm.py:97 | `print` appends one line to the output and leaves the earlier output as it was |
| LightbulbFsm.Get | design-patterns/OOP03-behavioral-patterns/lightbulb_fsm.py:62-66 | `dict.get` gives None exactly when the key is absent, and otherwise the stored value |
| LightbulbFsm.LightState.Action | design-patterns/OOP03-behavioral-patterns/lightbulb_fsm.py:25-32 | `execute` of a state prints one status line, ON exactly for the `LightOn` state and OFF otherwise |
| LightbulbFsm.Transition.Announce | design-patterns/OOP03-behavioral-patterns/lightbulb_fsm.py:45-46 | `execute` of a transition announces the name of its target state |
| LightbulbFsm.Fsm.CanExecute | design-patterns/OOP03-behavioral-patterns/lightbulb_fsm.py:69-73 | a tick runs without error exactly when the state that line 73 reads exists: the registered target of the pending transition, or, with nothing pending, the current state |
| LightbulbFsm.Fsm.SetState | design-patterns/OOP03-behavioral-patterns/lightbulb_fsm.py:62-63 | the current state becomes the registered state of that name, or None for an unknown name; registries and pending transition unchanged |
| LightbulbFsm.Fsm.Request | design-patterns/OOP03-behavioral-patterns/lightbulb_fsm.py:65-66 | the pending transition becomes the registered one, or None for an unknown name; registries and current state unchanged |
| LightbulbFsm.Fsm.Execute | design-patterns/OOP03-behavioral-patterns/lightbulb_fsm.py:68-73 | with nothing pending, one tick keeps the current state and prints only its action. With transition t pending, it prints `TransitionTo(t.to_state)` and then the target state's action, in that order, and the target becomes current. Afterwards nothing is pending and the registries are unchanged. Requires the target to be registered, or, with nothing pending, a current state. |
| LightbulbFsm.LastRequestWins | design-patterns/OOP03-behavioral-patterns/lightbulb_fsm.py:65-66 | two requests before a tick leave only the second pending; an unknown second name clears the first |
| LightbulbFsm.IdleTicksRepeat | design-patterns/OOP03-behavioral-patterns/lightbulb_fsm.py:68-73 | ticks with nothing pending leave the machine as it is and print the same single line each time |
| LightbulbFsm.UnknownStateStopsIdleTick | design-patterns/OOP03-behavioral-patterns/lightbulb_fsm.py:62-73 | `set_state` with an unknown name leaves no current state, so a tick with nothing pending cannot run |
| LightbulbFsm.LightFSM.constructor | design-patterns/OOP03-behavioral-patterns/lightbulb_fsm.py:55-60 | a new machine has empty registries, no current state and nothing pending |
| LightbulbFsm.LightFSM.SetState | design-patterns/OOP03-behavioral-patterns/lightbulb_fsm.py:62-63 | the object's new fields are `Fsm.SetState` of its old fields |
| LightbulbFsm.LightFSM.Transition | design-patterns/OOP03-behavioral-patterns/lightbulb_fsm.py:65-66 | the object's new fields are `Fsm.Request` of its old fields |
| LightbulbFsm.LightFSM.Execute | design-patterns/OOP03-behavioral-patterns/lightbulb_fsm.py:68-73 | the new fields and the lines appended to the console are those of `Fsm.Execute`; nothing is pending afterwards and the registries are unchanged |
| LightbulbFsm.LightBulb.constructor | design-patterns/OOP03-behavioral-patterns/lightbulb_fsm.py:80-82 | a new bulb owns a fresh, empty machine, and its flag is on |
| LightbulbFsmDemo.Setup | design-patterns/OOP03-behavioral-patterns/lightbulb_fsm.py:89-97 | after the four registrations, `set_state("On")` and the banner, the driver invariant holds with the flag on |
| LightbulbFsmDemo.Cycle | design-patterns/OOP03-behavioral-patterns/lightbulb_fsm.py:103-113 | one driver cycle keeps the invariant `Tracks`: the registries are as set up, nothing is pending, and the flag names the current state. The flag flips exactly when the draw fires. The cycle prints its header, then the transition to the new state or "nothing happened", then the new state's status. |
| LightbulbFsmDemo.Run | design-patterns/OOP03-behavioral-patterns/lightbulb_fsm.py:89-113 | after any number of cycles with any draws, the driver invariant still holds |
| LightbulbFsmDemo.FlagAfterParity | design-patterns/OOP03-behavioral-patterns/lightbulb_fsm.py:104-110 | the reference flag is on exactly when an even number of draws fired |
| LightbulbFsmDemo.RunMatchesExpected | design-patterns/OOP03-behavioral-patterns/lightbulb_fsm.py:89-113 | the machine-driven run has the same flag and prints the same lines as the reference computed from the draws alone |
| LightbulbFsmDemo.RunParity | design-patterns/OOP03-behavioral-patterns/lightbulb_fsm.py:98-113 | after any cycles `light.LightOn` holds exactly when the current state is the "On" state, and exactly when an even number of transitions was requested |
| LightbulbFsmDemo.ExpectedLength | design-patterns/OOP03-behavioral-patterns/lightbulb_fsm.py:97-113 | the output is the banner plus three lines per cycle |
| LightbulbFsmDemo.SampleFirstHalf | design-patterns/OOP03-behavioral-patterns/lightbulb_fsm.py:116-140 | the reference output of the first five recorded cycles, and the flag after them |
| LightbulbFsmDemo.SampleExpected | design-patterns/OOP03-behavioral-patterns/lightbulb_fsm.py:116-165 | the reference output for the recorded draws is the recorded output |
| LightbulbFsmDemo.SampleRun | design-patterns/OOP03-behavioral-patterns/lightbulb_fsm.py:116-165 | with the recorded draws, the driver prints exactly the recorded output |
| LightbulbFsmDemo.DriveCycle | design-patterns/OOP03-behavioral-patterns/lightbulb_fsm.py:103-113 | the loop body on the heap objects does what `Cycle` says and keeps the bulb's machine |
| LightbulbFsmDemo.RunDemo | design-patterns/OOP03-behavioral-patterns/lightbulb_fsm.py:86-113 | the `__main__` block prints exactly the output of `Run` for its draws |
| Lightbulb.LightState.LightOn | design-patterns/OOP03-behavioral-patterns/lightbulb.py:43-46 | a new ON state, with no context yet |
| Lightbulb.LightState.LightOff | design-patterns/OOP03-behavioral-patterns/lightbulb.py:55-58 | a new OFF state, with no context yet |
| Lightbulb.LightState.Action | design-patterns/OOP03-behavioral-patterns/lightbulb.py:48-64 | the status a state's `do_action` reports: ON exactly for a `LightOn` object, OFF otherwise |
| Lightbulb.LightState.SetContext | design-patterns/OOP03-behavioral-patterns/lightbulb.py:20-35 | the `context` setter stores the context in the state |
| Lightbulb.LightState.DoAction | design-patterns/OOP03-behavioral-patterns/lightbulb.py:48-64 | `do_action` appends the state's one status event to the console |
| Lightbulb.Flip | design-patterns/OOP03-behavioral-patterns/lightbulb.py:89-96 | `switch` moves the key to "0" exactly when it was "1", and to "1" otherwise; the result is always "0" or "1" |
| Lightbulb.FlipInvolution | design-patterns/OOP03-behavioral-patterns/lightbulb.py:89-96 | on "0" and "1", flipping changes the key, and flipping twice gives it back |
| Lightbulb.KeyAfter | design-patterns/OOP03-behavioral-patterns/lightbulb.py:76 | the active key after any number of switches from "1" is "0" or "1" |
| Lightbulb.KeyAfterParity | design-patterns/OOP03-behavioral-patterns/lightbulb.py:99-105 | after k switches the key is "1", so the first state is active, exactly when k is even |
| Lightbulb.LightContext.constructor | design-patterns/OOP03-behavioral-patterns/lightbulb.py:74-77 | `curr_state` is "1" and `current_state_ref` is `state1`, whose context is the new context. `state_dict` maps "1" to `state1` and "0" to `state2`. The invariant holds. |
| Lightbulb.LightContext.SetState | design-patterns/OOP03-behavioral-patterns/lightbulb.py:79-81 | the given state becomes `current_state_ref`, and its context becomes this context; the key and the dictionary are unchanged |
| Lightbulb.LightContext.GetState | design-patterns/OOP03-behavioral-patterns/lightbulb.py:83-84 | under the invariant, `get_state` returns the state stored under the active key |
| Lightbulb.LightContext.Request | design-patterns/OOP03-behavioral-patterns/lightbulb.py:86-87 | `request` appends the active state's action and changes nothing in the context |
| Lightbulb.LightContext.Switch | design-patterns/OOP03-behavioral-patterns/lightbulb.py:89-96 | `switch` keeps the invariant `current_state_ref == state_dict[curr_state]` and flips the key to the other one. It leaves `state_dict` unchanged. It writes only the newly active state's `_context`; the state left behind still points at the context. |
| Lightbulb.SwitchTwice | design-patterns/OOP03-behavioral-patterns/lightbulb.py:89-96 | two switches restore both `curr_state` and `current_state_ref`; afterwards both states' `_context` point at the context |
| Lightbulb.RunDemo | design-patterns/OOP03-behavioral-patterns/lightbulb.py:98-105 | the `__main__` block prints the banner and then 11 status lines. The status after j switches is ON exactly when j is even. |

## Left out

- Console formatting is not modelled. That covers the emoji, the `Step i:` text, the blank lines, the `\r` counter loop inside `do_action` and its `sleep(0.1)` (lightbulb.py:48-64). Each printed status becomes one `Trace.Event`.
- The `status` attribute of the lightbulb.py states ("ON"/"OFF") is not a field. It is fixed per class, so the event kind (`StateOn`/`StateOff`) carries it.
- The busy-wait timing loop over `time()` (lightbulb_fsm.py:99-102) only paces the demo.
- `randint(0,2)` (lightbulb_fsm.py:104) is not modelled as randomness. The draws are a parameter, where `true` stands for a nonzero draw.
- `LightFSM.lightObj`, the machine's back-reference to its bulb (lightbulb_fsm.py:56), is stored but never read, so it is not a field here.
- The `context` property getter (lightbulb.py:11-18) returns `self.context` and would recurse forever. It is never called. Only the setter is modelled.
- The class attribute `current_state_ref = None` (lightbulb.py:72) is modelled as an ordinary nullable instance field.
- The abstract base classes (`AbstractLight`, `AbstractLightState`, `@abstractmethod`) are not modelled. In lightbulb_fsm.py the states are a datatype `LightState = LightOn | LightOff` and compare by value, where the source compares the two object instances by identity. In lightbulb.py the states are one class with a `polarity` field.
- The machine validates no registrations and raises no error on an unknown name, so the model has no error values. The one failure, at lightbulb_fsm.py:73, is `Fsm.Execute`'s precondition.
- Lightbulb.LightContext.Request: requires only a non-null `current_state_ref`, which is what line 87 needs. It does not state the full context invariant.
