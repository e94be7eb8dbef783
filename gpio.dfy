// The pin bookkeeping and register updates of stm32lib/gpio.c.
//
// A pin number (GPIO_Pin_t) carries its port in bits 4..6 and its index in
// the port in bits 0..3. The library keeps three 16-bit masks per port
// saying which pins it configured as outputs, inputs or alternate
// functions; the port registers PUPDR, ODR and BSRR are read-modify-written
// or written. HAL_GPIO_Init is not visible: the model returns the
// initialisation record the library hands to it.

module Gpio {

  /** GPIO_NC: the pin number of an unconnected signal. */
  const GPIO_NC: bv32 := 0xFFFF_FFFF

  /** Entries of each bookkeeping mask array (ports A..M). */
  const MASK_PORTS: nat := 13

  /** Ports a pin number can address: bits 4..6 give 0..7. */
  const PIN_PORTS: nat := 8

  // GPIO_Mode_t
  const GPIO_IN: bv32 := 0x00
  const GPIO_OUT: bv32 := 0x01
  const GPIO_AF: bv32 := 0x02
  const GPIO_OD: bv32 := 0x03
  const GPIO_IT: bv32 := 0x0001_0000
  const GPIO_EVT: bv32 := 0x0002_0000
  const GPIO_EXTI: bv32 := 0x1000_0000

  /** GPIO_PullMode_t: no pull, pull-up, pull-down, the reserved fourth code. */
  type PullMode = p: bv32 | p <= 3

  /** The mode field of the HAL initialisation record. */
  datatype HalMode = InputMode | OutputPushPull | AfPushPull | AfOpenDrain | RawMode(code: bv32)

  /** GPIO_InitTypeDef as the library fills it; pull is always "no pull", speed always "high". */
  datatype HalInit = HalInit(pin: bv32, mode: HalMode, alternate: bv8)

  /** The pin number names a port and a pin and nothing else: no bit above 0x7F. */
  predicate PinNumber(pin: bv32)
  {
    pin & !0x7F == 0
  }

  /** The pin's index within its port (GPIO_PIN_VALUE). */
  function PinIndex(pin: bv32): (r: bv32)
    ensures r < 16
  {
    pin & 0xF
  }

  /** gpio_get_port_offset: the port taken from bits 4..6. */
  function PortOffset(pin: bv32): (r: nat)
    ensures r < PIN_PORTS
  {
    ((pin & 0x70) >> 4) as nat
  }

  /** GPIO_REG_VALUE: the pin's bit in a 16-bit port mask. */
  function RegValue(pin: bv32): bv16
  {
    1 << PinIndex(pin)
  }

  /** The pin's bit as a 32-bit register value. */
  function RegBit(pin: bv32): bv32
  {
    RegValue(pin) as bv32
  }

  /** GPIO_REG_VALUE is a single bit: nonzero and a power of two. */
  lemma RegValueSingleBit(pin: bv32)
    ensures RegValue(pin) != 0 && RegValue(pin) & (RegValue(pin) - 1) == 0
  {
  }

  /** The pin's bit is set in a mask. */
  predicate Has(m: bv16, pin: bv32)
  {
    m & RegValue(pin) != 0
  }

  /** The mask with the pin's bit set (`|= GPIO_REG_VALUE`). */
  function Marked(m: bv16, pin: bv32): bv16
  {
    m | RegValue(pin)
  }

  /** The mask with the pin's bit cleared (`&= ~GPIO_REG_VALUE`). */
  function Cleared(m: bv16, pin: bv32): bv16
  {
    m & !RegValue(pin)
  }

  /** Setting the pin's bit: afterwards it is set, and every other bit is as before. */
  lemma MaskSet(m: bv16, pin: bv32)
    ensures Has(Marked(m, pin), pin)
    ensures Marked(m, pin) & !RegValue(pin) == m & !RegValue(pin)
  {
  }

  /** Clearing the pin's bit: afterwards it is clear, and every other bit is as before. */
  lemma MaskClear(m: bv16, pin: bv32)
    ensures !Has(Cleared(m, pin), pin)
    ensures Cleared(m, pin) & !RegValue(pin) == m & !RegValue(pin)
  {
  }

  /** The 2-bit PUPDR field of the pin. */
  function FieldMask(pin: bv32): bv32
  {
    3 << (2 * PinIndex(pin))
  }

  /** The PUPDR value after gpio_set_pinmode: clear the pin's field, then OR in the mode. */
  function WithPull(r: bv32, pin: bv32, pull: PullMode): bv32
  {
    (r & !(3 << (2 * PinIndex(pin)))) | (pull << (2 * PinIndex(pin)))
  }

  /** gpio_set_pinmode puts the mode in the pin's field and preserves every bit outside it. */
  lemma PullFieldOnly(r: bv32, pin: bv32, pull: PullMode)
    ensures (WithPull(r, pin, pull) >> (2 * PinIndex(pin))) & 3 == pull
    ensures WithPull(r, pin, pull) & !FieldMask(pin) == r & !FieldMask(pin)
  {
  }

  /** The value gpio_write stores in BSRR. */
  function BsrrValue(pin: bv32, state: bv16): bv32
  {
    if state != 0 then RegBit(pin) else RegBit(pin) << 16
  }

  /** A nonzero state uses only the set half of BSRR (bit n), a zero state only the reset half (bit n+16). */
  lemma BsrrEncoding(pin: bv32, state: bv16)
    ensures state != 0 ==> BsrrValue(pin, state) >> 16 == 0 && BsrrValue(pin, state) as bv16 == RegValue(pin)
    ensures state == 0 ==> BsrrValue(pin, state) & 0xFFFF == 0 && (BsrrValue(pin, state) >> 16) as bv16 == RegValue(pin)
  {
  }

  /**
   * ODR after a store to BSRR: the bits of the reset half are cleared and
   * those of the set half set, the set half winning where both are given.
   */
  function Latched(odr: bv32, bsrr: bv32): bv32
  {
    (odr & !(bsrr >> 16)) | (bsrr & 0xFFFF)
  }

  /** 1 or 0 as the pin's bit of a port register is set or clear. */
  function Level(reg: bv32, pin: bv32): bv16
  {
    if reg & RegBit(pin) != 0 then 1 else 0
  }

  /**
   * gpio_write drives the pin: afterwards its ODR bit reads 1 exactly for
   * a nonzero state, and every other ODR bit is as before.
   */
  lemma WriteDrivesPin(odr: bv32, pin: bv32, state: bv16)
    ensures Level(Latched(odr, BsrrValue(pin, state)), pin) == if state != 0 then 1 else 0
    ensures Latched(odr, BsrrValue(pin, state)) & !RegBit(pin) == odr & !RegBit(pin)
  {
  }

  /** ODR after gpio_toggle. */
  function Toggled(odr: bv32, pin: bv32): bv32
  {
    odr ^ RegBit(pin)
  }

  /** gpio_toggle inverts the pin's ODR bit. */
  lemma ToggleFlipsPin(odr: bv32, pin: bv32)
    ensures Toggled(odr, pin) & RegBit(pin) == (odr & RegBit(pin)) ^ RegBit(pin)
  {
  }

  /** gpio_toggle leaves every other ODR bit alone. */
  lemma ToggleKeepsOthers(odr: bv32, pin: bv32)
    ensures Toggled(odr, pin) & !RegBit(pin) == odr & !RegBit(pin)
  {
  }

  /** Toggling twice restores ODR. */
  lemma ToggleTwice(odr: bv32, pin: bv32)
    ensures Toggled(Toggled(odr, pin), pin) == odr
  {
  }

  /**
   * The three mask updates of one gpio_alternate_init branch: the pin's bit
   * is set in the mask of its mode and cleared in the two others.
   */
  method Claim(pin: bv32, own: array<bv16>, other1: array<bv16>, other2: array<bv16>)
    requires own.Length == other1.Length == other2.Length == MASK_PORTS
    requires own != other1 && own != other2 && other1 != other2
    modifies own, other1, other2
    ensures var p := PortOffset(pin);
      && own[..] == old(own[..])[p := Marked(old(own[p]), pin)]
      && other1[..] == old(other1[..])[p := Cleared(old(other1[p]), pin)]
      && other2[..] == old(other2[..])[p := Cleared(old(other2[p]), pin)]
    ensures var p := PortOffset(pin);
      Has(own[p], pin) && !Has(other1[p], pin) && !Has(other2[p], pin)
  {
    var p := PortOffset(pin);
    own[p] := Marked(own[p], pin);
    other1[p] := Cleared(other1[p], pin);
    other2[p] := Cleared(other2[p], pin);
    MaskSet(old(own[p]), pin);
    MaskClear(old(other1[p]), pin);
    MaskClear(old(other2[p]), pin);
  }

  /** The registers of one GPIO port that the library touches. */
  class Port {
    var pupdr: bv32
    var odr: bv32
    var idr: bv32
    var bsrr: bv32

    constructor()
      ensures pupdr == 0 && odr == 0 && idr == 0 && bsrr == 0
    {
      pupdr, odr, idr, bsrr := 0, 0, 0, 0;
    }
  }

  /** The library's static pin masks together with the ports a pin number can address. */
  class Pins {
    var outputs: array<bv16>
    var inputs: array<bv16>
    var afs: array<bv16>
    var ports: seq<Port>

    ghost predicate Valid()
      reads this
    {
      && outputs.Length == MASK_PORTS && inputs.Length == MASK_PORTS && afs.Length == MASK_PORTS
      && outputs != inputs && outputs != afs && inputs != afs
      && |ports| == PIN_PORTS
    }

    /** All masks start empty. */
    constructor(ports: seq<Port>)
      requires |ports| == PIN_PORTS
      ensures Valid() && this.ports == ports
      ensures forall p | 0 <= p < MASK_PORTS :: outputs[p] == 0 && inputs[p] == 0 && afs[p] == 0
      ensures fresh(outputs) && fresh(inputs) && fresh(afs)
    {
      outputs := new bv16[MASK_PORTS](_ => 0);
      inputs := new bv16[MASK_PORTS](_ => 0);
      afs := new bv16[MASK_PORTS](_ => 0);
      this.ports := ports;
    }

    /** The pin is recorded in the output mask, the input mask, the AF mask. */
    predicate Output(pin: bv32)
      reads this, outputs
      requires Valid()
    {
      Has(outputs[PortOffset(pin)], pin)
    }

    predicate Input(pin: bv32)
      reads this, inputs
      requires Valid()
    {
      Has(inputs[PortOffset(pin)], pin)
    }

    predicate Alternate(pin: bv32)
      reads this, afs
      requires Valid()
    {
      Has(afs[PortOffset(pin)], pin)
    }

    /**
     * gpio_alternate_init: record the pin in the mask of its mode and drop
     * it from the other two; any other mode changes no mask. Returns the
     * record handed to HAL_GPIO_Init.
     */
    method AlternateInit(pin: bv32, mode: bv32, alternate: bv8) returns (init: HalInit)
      requires Valid() && PinNumber(pin)
      modifies outputs, inputs, afs
      ensures Valid()
      ensures init.pin == RegBit(pin) && init.alternate == alternate
      ensures var p := PortOffset(pin);
        if mode == GPIO_OUT then
          && init.mode == OutputPushPull
          && outputs[..] == old(outputs[..])[p := Marked(old(outputs[p]), pin)]
          && inputs[..] == old(inputs[..])[p := Cleared(old(inputs[p]), pin)]
          && afs[..] == old(afs[..])[p := Cleared(old(afs[p]), pin)]
        else if mode == GPIO_IN then
          && init.mode == InputMode
          && inputs[..] == old(inputs[..])[p := Marked(old(inputs[p]), pin)]
          && outputs[..] == old(outputs[..])[p := Cleared(old(outputs[p]), pin)]
          && afs[..] == old(afs[..])[p := Cleared(old(afs[p]), pin)]
        else if mode == GPIO_AF || mode == GPIO_OD then
          && init.mode == (if mode == GPIO_AF then AfPushPull else AfOpenDrain)
          && afs[..] == old(afs[..])[p := Marked(old(afs[p]), pin)]
          && inputs[..] == old(inputs[..])[p := Cleared(old(inputs[p]), pin)]
          && outputs[..] == old(outputs[..])[p := Cleared(old(outputs[p]), pin)]
        else
          && init.mode == RawMode(mode)
          && outputs[..] == old(outputs[..]) && inputs[..] == old(inputs[..]) && afs[..] == old(afs[..])
      ensures mode == GPIO_OUT ==> Output(pin) && !Input(pin) && !Alternate(pin)
      ensures mode == GPIO_IN ==> Input(pin) && !Output(pin) && !Alternate(pin)
      ensures mode == GPIO_AF || mode == GPIO_OD ==> Alternate(pin) && !Output(pin) && !Input(pin)
    {
      var halMode: HalMode;
      if mode == GPIO_OUT {
        halMode := OutputPushPull;
        Claim(pin, outputs, inputs, afs);
      } else if mode == GPIO_IN {
        halMode := InputMode;
        Claim(pin, inputs, outputs, afs);
      } else if mode == GPIO_AF || mode == GPIO_OD {
        halMode := if mode == GPIO_AF then AfPushPull else AfOpenDrain;
        Claim(pin, afs, inputs, outputs);
      } else {
        halMode := RawMode(mode);
      }
      init := HalInit(RegBit(pin), halMode, alternate);
    }

    /** gpio_init: alternate_init with alternate function 0. */
    method Init(pin: bv32, mode: bv32) returns (init: HalInit)
      requires Valid() && PinNumber(pin)
      modifies outputs, inputs, afs
      ensures Valid()
      ensures init.pin == RegBit(pin) && init.alternate == 0
      ensures var p := PortOffset(pin);
        if mode == GPIO_OUT then
          && init.mode == OutputPushPull
          && outputs[..] == old(outputs[..])[p := Marked(old(outputs[p]), pin)]
          && inputs[..] == old(inputs[..])[p := Cleared(old(inputs[p]), pin)]
          && afs[..] == old(afs[..])[p := Cleared(old(afs[p]), pin)]
        else if mode == GPIO_IN then
          && init.mode == InputMode
          && inputs[..] == old(inputs[..])[p := Marked(old(inputs[p]), pin)]
          && outputs[..] == old(outputs[..])[p := Cleared(old(outputs[p]), pin)]
          && afs[..] == old(afs[..])[p := Cleared(old(afs[p]), pin)]
        else if mode == GPIO_AF || mode == GPIO_OD then
          && init.mode == (if mode == GPIO_AF then AfPushPull else AfOpenDrain)
          && afs[..] == old(afs[..])[p := Marked(old(afs[p]), pin)]
          && inputs[..] == old(inputs[..])[p := Cleared(old(inputs[p]), pin)]
          && outputs[..] == old(outputs[..])[p := Cleared(old(outputs[p]), pin)]
        else
          && init.mode == RawMode(mode)
          && outputs[..] == old(outputs[..]) && inputs[..] == old(inputs[..]) && afs[..] == old(afs[..])
      ensures mode == GPIO_OUT ==> Output(pin) && !Input(pin) && !Alternate(pin)
      ensures mode == GPIO_IN ==> Input(pin) && !Output(pin) && !Alternate(pin)
      ensures mode == GPIO_AF || mode == GPIO_OD ==> Alternate(pin) && !Output(pin) && !Input(pin)
    {
      init := AlternateInit(pin, mode, 0);
    }

    /** gpio_deinit: drop the pin from the output and input masks; the AF mask keeps it. */
    method Deinit(pin: bv32)
      requires Valid() && PinNumber(pin)
      modifies outputs, inputs
      ensures Valid()
      ensures var p := PortOffset(pin);
        && outputs[..] == old(outputs[..])[p := Cleared(old(outputs[p]), pin)]
        && inputs[..] == old(inputs[..])[p := Cleared(old(inputs[p]), pin)]
      ensures !Output(pin) && !Input(pin) && Alternate(pin) == old(Alternate(pin))
    {
      var p := PortOffset(pin);
      outputs[p] := Cleared(outputs[p], pin);
      inputs[p] := Cleared(inputs[p], pin);
      MaskClear(old(outputs[p]), pin);
      MaskClear(old(inputs[p]), pin);
    }

    /** gpio_get_usedpins: the pins of the port recorded in any mask. */
    function UsedPins(port: nat): (r: bv16)
      reads this, outputs, inputs, afs
      requires Valid() && port < MASK_PORTS
      ensures r & !outputs[port] & !inputs[port] & !afs[port] == 0
      ensures outputs[port] & !r == 0 && inputs[port] & !r == 0 && afs[port] & !r == 0
    {
      outputs[port] | inputs[port] | afs[port]
    }

    /** gpio_get_freepins: the complement of the used pins, truncated to 16 bits. */
    function FreePins(port: nat): (r: bv16)
      reads this, outputs, inputs, afs
      requires Valid() && port < MASK_PORTS
      ensures r & UsedPins(port) == 0
      ensures r | UsedPins(port) == 0xFFFF
    {
      !(outputs[port] | inputs[port] | afs[port])
    }

    /** gpio_set_pinmode: read-modify-write of the pin's PUPDR field. */
    method SetPinMode(pin: bv32, pull: PullMode)
      requires Valid() && PinNumber(pin)
      modifies ports[PortOffset(pin)]
      ensures ports[PortOffset(pin)].pupdr == WithPull(old(ports[PortOffset(pin)].pupdr), pin, pull)
      ensures var port := ports[PortOffset(pin)];
        port.odr == old(port.odr) && port.bsrr == old(port.bsrr) && port.idr == old(port.idr)
    {
      var port := ports[PortOffset(pin)];
      var n := PinIndex(pin);
      port.pupdr := port.pupdr & !(3 << (2 * n));
      port.pupdr := port.pupdr | (pull << (2 * n));
    }

    /** gpio_write: one store to BSRR, into its set half or its reset half. */
    method Write(pin: bv32, state: bv16)
      requires Valid() && PinNumber(pin)
      modifies ports[PortOffset(pin)]
      ensures ports[PortOffset(pin)].bsrr == BsrrValue(pin, state)
      ensures ports[PortOffset(pin)].odr == Latched(old(ports[PortOffset(pin)].odr), BsrrValue(pin, state))
      ensures Level(ports[PortOffset(pin)].odr, pin) == if state != 0 then 1 else 0
      ensures var port := ports[PortOffset(pin)];
        port.pupdr == old(port.pupdr) && port.idr == old(port.idr)
    {
      var port := ports[PortOffset(pin)];
      if state != 0 {
        port.bsrr := RegBit(pin);
      } else {
        port.bsrr := RegBit(pin) << 16;
      }
      // the port latches the store into its output data register
      WriteDrivesPin(port.odr, pin, state);
      port.odr := Latched(port.odr, port.bsrr);
    }

    /** gpio_toggle: flip the pin's ODR bit. */
    method Toggle(pin: bv32)
      requires Valid() && PinNumber(pin)
      modifies ports[PortOffset(pin)]
      ensures ports[PortOffset(pin)].odr == Toggled(old(ports[PortOffset(pin)].odr), pin)
      ensures var port := ports[PortOffset(pin)];
        port.pupdr == old(port.pupdr) && port.bsrr == old(port.bsrr) && port.idr == old(port.idr)
    {
      var port := ports[PortOffset(pin)];
      port.odr := port.odr ^ RegBit(pin);
    }

    /** gpio_read: the ODR bit of a pin recorded as output, the IDR bit otherwise, as 1 or 0. */
    method Read(pin: bv32) returns (r: bv16)
      requires Valid() && PinNumber(pin)
      ensures var port := ports[PortOffset(pin)];
        r == Level(if Output(pin) then port.odr else port.idr, pin)
    {
      var port := ports[PortOffset(pin)];
      if Output(pin) {
        r := if port.odr & RegBit(pin) != 0 then 1 else 0;
      } else {
        r := if port.idr & RegBit(pin) != 0 then 1 else 0;
      }
    }
  }

  /**
   * gpio_write followed by gpio_read on a pin recorded as output reads
   * back the state written; the masks are untouched by the write.
   */
  method WriteThenRead(pins: Pins, pin: bv32, state: bv16) returns (r: bv16)
    requires pins.Valid() && PinNumber(pin) && pins.Output(pin)
    modifies pins.ports[PortOffset(pin)]
    ensures r == if state != 0 then 1 else 0
  {
    pins.Write(pin, state);
    r := pins.Read(pin);
  }

  /** IS_GPIO_PIN_NUMBER as written in gpio.h: nonzero exactly when bits above 0x7F are set. */
  predicate PinNumberAsWritten(pin: bv32)
  {
    pin & !0x7F != 0
  }

  /** With assertions enabled, the check as written rejects every valid pin (PA0 here) and accepts GPIO_NC. */
  lemma PinNumberAsWrittenInverted()
    ensures PinNumber(0x00) && !PinNumberAsWritten(0x00)
    ensures !PinNumber(GPIO_NC) && PinNumberAsWritten(GPIO_NC)
  {
  }

  /** The intended check: a valid pin number is exactly its port bits and its index bits. */
  lemma PinNumberDecomposes(pin: bv32)
    ensures PinNumber(pin) <==> pin == (pin & 0x70) | PinIndex(pin)
  {
  }
}
