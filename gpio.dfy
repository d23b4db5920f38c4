/** Pin mode and output level: read-modify-write of a port's MODER and ODR
    registers and of the port clock enable bits in RCC_AHB1ENR.  The port
    is selected by index pin/16 (0..5) into the table of register blocks,
    and the pin within the port is pin%16. */
module Gpio {
  import GpioReg

  const PORT_COUNT: nat := 6

  /** The mode codes: input, output, alternate function, analog. */
  const GPIO_INPUT: nat := 0
  const GPIO_OUTPUT: nat := 1
  const GPIO_AF: nat := 2
  const GPIO_ANALOG: nat := 3

  const GPIO_LOW: nat := 0
  const GPIO_HIGH: nat := 1

  /** `GET_PORT`: the index of the pin's register block. */
  function PortIndex(pin: nat): nat
  {
    pin / 16
  }

  /** `GET_PIN`. */
  function PinIndex(pin: nat): nat
  {
    pin % 16
  }

  /** A small index as a 32-bit shift amount, counted up one at a time. */
  function ShiftOf(n: nat): (b: bv32)
    requires n < 16
    ensures b < 16 && b as nat == n
  {
    if n == 0 then 0 else var b := ShiftOf(n - 1); ShiftSucc(b); b + 1
  }

  lemma ShiftSucc(b: bv32)
    requires b < 15
    ensures b + 1 < 16 && (b + 1) as nat == b as nat + 1
  {
  }

  /** The pin within its port as a shift amount. */
  function PinShift(pin: nat): (p: bv32)
    ensures p < 16 && p as nat == pin % 16
  {
    ShiftOf(pin % 16)
  }

  /** The clock enable bit of the pin's port in RCC_AHB1ENR: bit pin/16. */
  function PortBit(pin: nat): bv32
    requires pin < GpioReg.PIN_COUNT
  {
    1 << ShiftOf(pin / 16)
  }

  /** The two mode bits [2p+1:2p] of pin p in a MODER value. */
  function ModeOf(moder: bv32, p: bv32): bv32
    requires p < 16
  {
    (moder >> (2 * p)) & 3
  }

  /** MODER with pin p's field cleared and then set to mode & 3. */
  function WithMode(moder: bv32, p: bv32, mode: bv32): bv32
    requires p < 16
  {
    (moder & !(3 << (2 * p))) | ((mode & 3) << (2 * p))
  }

  /** Bit p of an ODR value. */
  function LevelOf(odr: bv32, p: bv32): bool
    requires p < 16
  {
    (odr >> p) & 1 == 1
  }

  /** ODR with bit p set for a nonzero state and cleared for GPIO_LOW. */
  function WithLevel(odr: bv32, p: bv32, state: nat): bv32
    requires p < 16
  {
    if state != 0 then odr | (1 << p) else odr & !(1 << p)
  }

  /** The field written reads back as mode & 3, and every other pin's field
      is as it was. */
  lemma WithModeFields(moder: bv32, p: bv32, mode: bv32, q: bv32)
    requires p < 16 && q < 16
    ensures ModeOf(WithMode(moder, p, mode), p) == mode & 3
    ensures q != p ==> ModeOf(WithMode(moder, p, mode), q) == ModeOf(moder, q)
  {
  }

  /** The bit written reads back as the state, and every other bit is as it was. */
  lemma WithLevelBits(odr: bv32, p: bv32, state: nat, q: bv32)
    requires p < 16 && q < 16
    ensures LevelOf(WithLevel(odr, p, state), p) == (state != 0)
    ensures q != p ==> LevelOf(WithLevel(odr, p, state), q) == LevelOf(odr, q)
  {
    if state != 0 {
      SetLevelBits(odr, p, q);
    } else {
      ClearLevelBits(odr, p, q);
    }
  }

  lemma SetLevelBits(odr: bv32, p: bv32, q: bv32)
    requires p < 16 && q < 16
    ensures LevelOf(odr | (1 << p), p)
    ensures q != p ==> LevelOf(odr | (1 << p), q) == LevelOf(odr, q)
  {
  }

  lemma ClearLevelBits(odr: bv32, p: bv32, q: bv32)
    requires p < 16 && q < 16
    ensures !LevelOf(odr & !(1 << p), p)
    ensures q != p ==> LevelOf(odr & !(1 << p), q) == LevelOf(odr, q)
  {
  }

  /** The register block index here is pin/16: it agrees with the header's
      port number for PA..PE, but the PH pins use index 5 where the header
      remaps them to port number 7. */
  lemma PortIndexAgainstHeader(pin: nat)
    requires pin < GpioReg.PIN_COUNT
    ensures pin < GpioReg.PH00 ==> PortIndex(pin) == GpioReg.PortNumber(pin)
    ensures GpioReg.PH00 <= pin ==> PortIndex(pin) == 5 && GpioReg.PortNumber(pin) == 7
    ensures PinIndex(pin) == GpioReg.Pin(pin) && PinShift(pin) as nat == GpioReg.Pin(pin)
  {
    var port := pin / 16;
    assert port < 6;
    if pin < GpioReg.PH00 {
      assert port < 5;
    } else {
      assert port == 5;
    }
  }

  class Ports {
    var ahb1enr: bv32
    /** MODER and ODR of the register blocks, by port index. */
    var moder: seq<bv32>
    var odr: seq<bv32>

    ghost predicate Valid()
      reads this
    {
      |moder| == PORT_COUNT && |odr| == PORT_COUNT
    }

    constructor ()
      ensures Valid() && ahb1enr == 0
      ensures forall i :: 0 <= i < PORT_COUNT ==> moder[i] == 0 && odr[i] == 0
    {
      ahb1enr := 0;
      moder := [0, 0, 0, 0, 0, 0];
      odr := [0, 0, 0, 0, 0, 0];
    }

    /** `hal_gpio_setmode`: enable the port's clock if it is off, then
        write the pin's two mode bits. */
    method SetMode(pin: nat, mode: bv32)
      requires Valid() && pin < GpioReg.PIN_COUNT
      modifies this
      ensures Valid()
      ensures ahb1enr == old(ahb1enr) | PortBit(pin)
      ensures moder == old(moder)[PortIndex(pin) := WithMode(old(moder[PortIndex(pin)]), PinShift(pin), mode)]
      ensures odr == old(odr)
    {
      var port := pin / 16;
      var p := PinShift(pin);
      var k := ShiftOf(port);
      var bit := 1 << k;
      if ahb1enr & bit == 0 {
        ahb1enr := ahb1enr | bit;
      } else {
        SingleBitSet(ahb1enr, k);
      }
      moder := moder[port := WithMode(moder[port], p, mode)];
    }

    /** `hal_gpio_digitalwrite`. */
    method DigitalWrite(pin: nat, state: nat)
      requires Valid() && pin < GpioReg.PIN_COUNT
      modifies this`odr
      ensures Valid()
      ensures odr == old(odr)[PortIndex(pin) := WithLevel(old(odr[PortIndex(pin)]), PinShift(pin), state)]
    {
      var port := pin / 16;
      var p := PinShift(pin);
      odr := odr[port := WithLevel(odr[port], p, state)];
    }
  }

  /** Setting a bit that is already set changes nothing: the clock enable
      is written only when it is clear, with the same result. */
  lemma SingleBitSet(w: bv32, k: bv32)
    requires k < 16 && w & (1 << k) != 0
    ensures w | (1 << k) == w
  {
  }
}
