/**
 * The map-based in-process bus, a later revision of the virtual bus: the
 * control lines live in a map from pin to level, and a pin that is not a
 * key cannot be read.
 */
module InProcessMap {
  import opened Bus

  /** The ten control pins the constructor enters into the map (DP is not one of them). */
  const ControlPins: set<Signal> := {BSY, SEL, ATN, ACK, ACT, RST, MSG, CD, IO, REQ}

  /** The ten control pins are every signal but DP. */
  lemma ControlPinsAreAllButDP(s: Signal)
    ensures s in ControlPins <==> s != DP
  {
  }

  /**
   * On a bus as the constructor leaves it, GetSignal's assertion holds for
   * every pin but DP, and each of those pins reads as released.
   */
  lemma ReadableAfterConstruction(b: InProcessBus, pin: Signal)
    requires b.signals.Keys == ControlPins && forall s :: s in b.signals ==> !b.signals[s]
    ensures b.Readable(pin) <==> pin != DP
    ensures pin != DP ==> !b.GetSignal(pin)
  {
    ControlPinsAreAllButDP(pin);
  }

  class InProcessBus {
    var signals: map<Signal, bool>
    var dat: byte

    /**
     * Every control pin is entered, released, so that no later write adds a
     * key; DAT starts at 0 from its member initializer in
     * hal/in_process_bus.h:126.
     */
    constructor ()
      ensures signals.Keys == ControlPins
      ensures forall s :: s in signals ==> !signals[s]
      ensures dat == 0
    {
      signals := map[BSY := false, SEL := false, ATN := false, ACK := false, ACT := false,
                     RST := false, MSG := false, CD := false, IO := false, REQ := false];
      dat := 0;
    }

    /** Reset empties the map and clears DAT: afterwards no pin is readable until it is set again. */
    method Reset()
      modifies this
      ensures signals == map[] && dat == 0
      ensures forall s: Signal :: !Readable(s)
    {
      signals := map[];
      dat := 0;
    }

    /** GetSignal may only be asked for a pin that is a key of the map. */
    predicate Readable(pin: Signal)
      reads this
    {
      pin in signals
    }

    /** The stored level of a readable pin. */
    function GetSignal(pin: Signal): (r: bool)
      requires Readable(pin)
      reads this
    {
      signals[pin]
    }
  }
}
