/** The GPIO pin assignment (Broadcom numbering) the driver wires the radio
    to: chip select, reset and the two DIO interrupt lines. The set of pin
    names is fixed when the map is made; later changes may only re-number an
    existing name. */
module Pinout {
  import opened Results

  /** The pin names the map is created with. */
  const PinNames: set<string> := {"CS", "RST", "DIO0", "DIO1"}

  datatype Pinout = Pinout(pins: map<string, int>)

  datatype PinError = InvalidPinName(name: string)

  /** A map with the given assignment; `Default()` gives the board's wiring. */
  function New(cs: int, rst: int, dio0: int, dio1: int): (p: Pinout)
    ensures p.pins.Keys == PinNames
    ensures p.pins["CS"] == cs && p.pins["RST"] == rst
    ensures p.pins["DIO0"] == dio0 && p.pins["DIO1"] == dio1
  {
    Pinout(map["CS" := cs, "RST" := rst, "DIO0" := dio0, "DIO1" := dio1])
  }

  function Default(): (p: Pinout)
    ensures p.pins.Keys == PinNames
    ensures p.pins["CS"] == 8 && p.pins["RST"] == 22
    ensures p.pins["DIO0"] == 4 && p.pins["DIO1"] == 17
  {
    New(8, 22, 4, 17)
  }

  /** The current assignment, as a value: changing the listing does not
      change the map. Re-assigning any listed pin its listed number leaves
      the map as it was. */
  function ListPins(p: Pinout): (m: map<string, int>)
    ensures m.Keys == p.pins.Keys
    ensures forall name :: name in m ==> SetPinout(p, name, m[name]) == (p, Ok(()))
  {
    assert forall name :: name in p.pins ==> p.pins[name := p.pins[name]] == p.pins;
    p.pins
  }

  /** Re-number pin `name`. An unknown name is refused and the map is left
      as it was; a known one changes that entry and no other. The result is
      the map after the call together with whether it failed. */
  function SetPinout(p: Pinout, name: string, value: int): (r: (Pinout, Result<(), PinError>))
    ensures r.1.Ok? <==> name in p.pins
    ensures r.1.Err? ==> r.1.error == InvalidPinName(name) && r.0 == p
    ensures r.0.pins.Keys == p.pins.Keys
    ensures r.1.Ok? ==> r.0.pins[name] == value
    ensures forall k :: k in p.pins && k != name ==> r.0.pins[k] == p.pins[k]
  {
    if name in p.pins then (Pinout(p.pins[name := value]), Ok(()))
    else (p, Err(InvalidPinName(name)))
  }

  /** Apply a series of changes in order, keeping going after a refused one. */
  function SetAll(p: Pinout, changes: seq<(string, int)>): (q: Pinout)
    decreases |changes|
  {
    if changes == [] then p
    else SetAll(SetPinout(p, changes[0].0, changes[0].1).0, changes[1..])
  }

  /** No series of changes adds or removes a pin name. */
  lemma {:induction false} SetAllKeepsNames(p: Pinout, changes: seq<(string, int)>)
    ensures SetAll(p, changes).pins.Keys == p.pins.Keys
    decreases |changes|
  {
    if changes != [] {
      SetAllKeepsNames(SetPinout(p, changes[0].0, changes[0].1).0, changes[1..]);
    }
  }

  /** The listing reflects an accepted change and, for the other names,
      the assignment before it. */
  lemma ListPinsAfterSet(p: Pinout, name: string, value: int)
    requires name in ListPins(p)
    ensures ListPins(SetPinout(p, name, value).0) == ListPins(p)[name := value]
  {
  }

  /** Only the four board pins can ever be listed, whatever was changed. */
  lemma DefaultNamesForever(changes: seq<(string, int)>)
    ensures ListPins(SetAll(Default(), changes)).Keys == PinNames
  {
    SetAllKeepsNames(Default(), changes);
  }
}
