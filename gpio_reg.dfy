/** The pin-number arithmetic of the GPIO register header: a pin number
    0..95 names PA00..PE15 (0..79) and PH00..PH15 (80..95), sixteen pins a
    port; the port number, the register-block address and the pin within
    its port are computed from it. */
module GpioReg {

  const GPIOA_BASE_ADDR: nat := 0x4002_0000
  const GPIOB_BASE_ADDR: nat := 0x4002_0400
  const GPIOC_BASE_ADDR: nat := 0x4002_0800
  const GPIOD_BASE_ADDR: nat := 0x4002_0C00
  const GPIOE_BASE_ADDR: nat := 0x4002_1000
  const GPIOH_BASE_ADDR: nat := 0x4002_1C00

  /** Pin numbers of the pin enumeration: PA00 = 0 ... PE15 = 79, PH00 = 80 ... PH15 = 95. */
  const PH00: nat := 80
  const PIN_COUNT: nat := 96

  /** `GPIO_GET_PORT_NUMBER`: pin/16, except that 5 becomes 7 (port H). */
  function PortNumber(n: nat): nat
  {
    if n / 16 == 5 then 7 else n / 16
  }

  /** `GPIO_GET_PORT`: the address of the pin's register block. */
  function PortAddr(n: nat): nat
  {
    GPIOA_BASE_ADDR + PortNumber(n) * 0x400
  }

  /** `GPIO_GET_PIN`. */
  function Pin(n: nat): nat
  {
    n % 16
  }

  /** The base address the header names for port A (0) ... E (4). */
  function NamedBase(port: nat): nat
    requires port < 5
  {
    match port
    case 0 => GPIOA_BASE_ADDR
    case 1 => GPIOB_BASE_ADDR
    case 2 => GPIOC_BASE_ADDR
    case 3 => GPIOD_BASE_ADDR
    case 4 => GPIOE_BASE_ADDR
  }

  /** A pin of PA..PE lives in the register block of its own port; a pin of
      PH in that of port H; the pin within the port is always 0..15. */
  lemma PortAddrNamed(n: nat)
    requires n < PIN_COUNT
    ensures n < PH00 ==> PortAddr(n) == NamedBase(n / 16)
    ensures PH00 <= n ==> PortAddr(n) == GPIOH_BASE_ADDR
    ensures Pin(n) < 16
  {
  }

  /** Port block and pin together name the pin: distinct pins differ in one
      of them. */
  lemma PortPinInjective(n: nat, m: nat)
    requires n < PIN_COUNT && m < PIN_COUNT
    requires PortAddr(n) == PortAddr(m) && Pin(n) == Pin(m)
    ensures n == m
  {
    assert PortNumber(n) == PortNumber(m);
    assert n / 16 == m / 16;
    assert n == 16 * (n / 16) + Pin(n);
    assert m == 16 * (m / 16) + Pin(m);
  }
}
