/** The output side of the coffee machine's GPIO wiring: which board pins drive
    the relays, the two levels a pin can be driven to, and the record of one
    pin write. The GPIO library itself is not modelled; a write is recorded in
    an append-only log instead (see module Machine). */
module Pins {

  /** Board-numbered output pins (GPIO.BOARD numbering). */
  const PIN_MAIN: int := 11
  const PIN_HEATER: int := 13
  const PIN_PUMP: int := 15

  /** The outputs in the order the constructor configures and clears them. */
  const PIN_OUTPUTS: seq<int> := [PIN_MAIN, PIN_HEATER, PIN_PUMP]

  datatype Level = Low | High

  /** One call of the GPIO output routine: drive `pin` to `level`. */
  datatype PinWrite = PinWrite(pin: int, level: Level)

  /** The level `setpin` drives a pin to for a boolean test:
      HIGH exactly when the test is true. */
  function LevelOf(test: bool): (l: Level)
    ensures l == High <==> test
    ensures l == Low <==> !test
  {
    if test then High else Low
  }

  /** The writes that clear every pin of `pins`, one LOW write per pin, in order. */
  function LowWrites(pins: seq<int>): (ws: seq<PinWrite>)
    ensures |ws| == |pins|
    ensures forall i :: 0 <= i < |pins| ==> ws[i] == PinWrite(pins[i], Low)
  {
    if pins == [] then [] else [PinWrite(pins[0], Low)] + LowWrites(pins[1..])
  }
}
