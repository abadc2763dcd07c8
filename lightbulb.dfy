/**
 The two-state context of lightbulb.py. The context keeps its two state
 objects under the keys "1" and "0", the key of the active one, and a
 reference to the active one; activating a state also points the state's
 context back at the context.
 */
module Lightbulb {
  import opened Trace

  /** Which of the two concrete state classes an object belongs to. */
  datatype Polarity = On | Off

  /** A LightOn or LightOff object, with the `_context` attribute the setter writes. */
  class LightState {
    const polarity: Polarity
    var context: LightContext?

    constructor LightOn()
      ensures polarity == On && context == null
    {
      polarity := On;
      context := null;
    }

    constructor LightOff()
      ensures polarity == Off && context == null
    {
      polarity := Off;
      context := null;
    }

    /** The status line `do_action` prints, reduced to one event. */
    function Action(): (e: Event)
      ensures e == StateOn || e == StateOff
      ensures e == StateOn <==> polarity == On
    {
      if polarity == On then StateOn else StateOff
    }

    /** The `context` property's setter. */
    method SetContext(ctx: LightContext)
      modifies this
      ensures context == ctx
    {
      context := ctx;
    }

    method DoAction(out: Console)
      modifies out
      ensures out.log == old(out.log) + [Action()]
    {
      out.Print(Action());
    }
  }

  /** The key `switch` moves to from `key`: "0" from "1", and "1" from anything else. */
  function Flip(key: string): (r: string)
    ensures r == "0" || r == "1"
    ensures r == "0" <==> key == "1"
  {
    if key == "1" then "0" else "1"
  }

  /** On the two keys the context uses, flipping twice gives the key back. */
  lemma FlipInvolution(key: string)
    requires key == "0" || key == "1"
    ensures Flip(key) != key && Flip(Flip(key)) == key
  {
  }

  /** The active key after `k` switches from the constructor's "1". */
  function KeyAfter(k: nat): (r: string)
    ensures r == "0" || r == "1"
  {
    if k == 0 then "1" else Flip(KeyAfter(k - 1))
  }

  /** The first state is active again after an even number of switches, the second after an odd one. */
  lemma {:induction false} KeyAfterParity(k: nat)
    ensures KeyAfter(k) == if k % 2 == 0 then "1" else "0"
  {
    if k > 0 {
      KeyAfterParity(k - 1);
    }
  }

  class LightContext {
    var currentStateRef: LightState?
    var currState: string
    var stateDict: map<string, LightState>

    /**
     The context's invariant: both keys present, the active key is one of
     them, the reference is the state under it, and that state points back.
     */
    ghost predicate Valid()
      reads this, currentStateRef
    {
      && "1" in stateDict && "0" in stateDict
      && (currState == "1" || currState == "0")
      && currentStateRef != null
      && currentStateRef == stateDict[currState]
      && currentStateRef.context == this
    }

    constructor (state1: LightState, state2: LightState)
      modifies state1
      ensures Valid()
      ensures currState == "1" && currentStateRef == state1
      ensures stateDict == map["1" := state1, "0" := state2]
      ensures state1.context == this
    {
      new;
      SetState(state1);
      currState := "1";
      stateDict := map["1" := state1, "0" := state2];
    }

    method SetState(state: LightState)
      modifies this, state
      ensures currentStateRef == state && state.context == this
      ensures currState == old(currState) && stateDict == old(stateDict)
    {
      currentStateRef := state;
      currentStateRef.SetContext(this);
    }

    function GetState(): (s: LightState?)
      reads this, currentStateRef
      ensures Valid() ==> s != null && s == stateDict[currState]
    {
      currentStateRef
    }

    method Request(out: Console)
      requires currentStateRef != null
      modifies out
      ensures out.log == old(out.log) + [currentStateRef.Action()]
    {
      currentStateRef.DoAction(out);
    }

    /**
     `switch`: activates the state under the other key. Only that state's
     `_context` is written; the state left behind keeps pointing at this context.
     */
    method Switch()
      requires Valid()
      modifies this, stateDict[Flip(currState)]
      ensures Valid()
      ensures old(currentStateRef).context == this
      ensures currState == Flip(old(currState)) && currState != old(currState)
      ensures currentStateRef == stateDict[currState]
      ensures stateDict == old(stateDict)
    {
      if currentStateRef != null {
        if currState == "1" {
          SetState(stateDict["0"]);
          currState := "0";
        } else {
          SetState(stateDict["1"]);
          currState := "1";
        }
      }
    }
  }

  /** Two switches in a row restore the active key and the active state. */
  method SwitchTwice(ctx: LightContext)
    requires ctx.Valid()
    modifies ctx, ctx.stateDict.Values
    ensures ctx.Valid() && ctx.stateDict == old(ctx.stateDict)
    ensures ctx.currState == old(ctx.currState) && ctx.currentStateRef == old(ctx.currentStateRef)
    ensures ctx.stateDict["1"].context == ctx && ctx.stateDict["0"].context == ctx
  {
    ctx.Switch();
    ctx.Switch();
  }

  const Cycles := 10

  /**
   The `__main__` block: one request, then ten rounds of switch and request.
   Entry 0 is the banner; entry j after it reports the state active after
   j - 1 switches, which is the ON state exactly when j - 1 is even.
   */
  method RunDemo() returns (log: seq<Event>)
    ensures |log| == Cycles + 2 && log[0] == Starting
    ensures forall j :: 1 <= j < |log| ==> log[j] == if (j - 1) % 2 == 0 then StateOn else StateOff
  {
    var out := new Console();
    var on := new LightState.LightOn();
    var off := new LightState.LightOff();
    var light := new LightContext(on, off);
    out.Print(Starting);
    light.Request(out);
    for i := 0 to Cycles
      invariant light.Valid() && light.stateDict == map["1" := on, "0" := off]
      invariant light.currState == KeyAfter(i)
      invariant |out.log| == i + 2 && out.log[0] == Starting
      invariant forall j :: 1 <= j < |out.log| ==> out.log[j] == if (j - 1) % 2 == 0 then StateOn else StateOff
    {
      KeyAfterParity(i + 1);
      light.Switch();
      light.Request(out);
    }
    log := out.log;
  }
}
