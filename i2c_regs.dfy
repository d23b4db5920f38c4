/** The I2C peripheral's registers as the driver writes them, and the timing
    registers programmed at initialisation. */
module I2cRegs {
  datatype Speed = StandardMode | FastMode

  /** The registers of one peripheral that the driver writes. */
  datatype Regs = Regs(cr1: bv32, cr2: bv32, ccr: bv32, trise: bv32)

  const CR1_PE: bv32 := 0x1
  const CR1_ACK: bv32 := 0x400
  const CR1_SWRST: bv32 := 0x8000
  const CR2_FREQ: bv32 := 0x3F
  const CCR_CCR: bv32 := 0xFFF
  const CCR_FS: bv32 := 0x8000

  // ---------------------------------------------------------------------
  // The ACK bit

  /** CR1 with the ACK bit (bit 10, mask 0x400) set (`on`) or cleared and
      every other bit kept: the read-modify-write the driver does to CR1.
      The masks are written as literals so that the solver can compute
      with them directly. */
  function WithAck(cr1: bv32, on: bool): bv32
  {
    if on then cr1 | 0x400 else cr1 & 0xFFFF_FBFF
  }

  /** An ACK write changes no other bit and leaves ACK as asked. */
  lemma WithAckBits(cr1: bv32, on: bool)
    ensures WithAck(cr1, on) & 0xFFFF_FBFF == cr1 & 0xFFFF_FBFF
    ensures WithAck(cr1, on) & CR1_ACK == if on then CR1_ACK else 0
  {
  }

  /** A second ACK write overrides the first. */
  lemma WithAckTwice(cr1: bv32, a: bool, b: bool)
    ensures WithAck(WithAck(cr1, a), b) == WithAck(cr1, b)
  {
    if a && b {
      SetThenSet(cr1);
    } else if a {
      SetThenClear(cr1);
    } else if b {
      ClearThenSet(cr1);
    } else {
      ClearThenClear(cr1);
    }
  }

  lemma SetThenSet(c: bv32)
    ensures WithAck(WithAck(c, true), true) == WithAck(c, true)
  {
  }

  lemma SetThenClear(c: bv32)
    ensures WithAck(WithAck(c, true), false) == WithAck(c, false)
  {
  }

  lemma ClearThenSet(c: bv32)
    ensures WithAck(WithAck(c, false), true) == WithAck(c, true)
  {
  }

  lemma ClearThenClear(c: bv32)
    ensures WithAck(WithAck(c, false), false) == WithAck(c, false)
  {
  }

  // ---------------------------------------------------------------------
  // Initialisation timing

  /** CR1 after the software reset: PE cleared, then SWRST pulsed. */
  function SoftReset(cr1: bv32): bv32
  {
    ((cr1 & !CR1_PE) | CR1_SWRST) & !CR1_SWRST
  }

  /** CR1 after initialisation: the software reset, then PE set. */
  function InitCr1(cr1: bv32): bv32
  {
    SoftReset(cr1) | CR1_PE
  }

  /** CR2 with FREQ set to the APB1 clock in MHz. */
  function InitCr2(cr2: bv32, apb1clk: bv32): bv32
  {
    (cr2 & !CR2_FREQ) | ((apb1clk / 1000000) & CR2_FREQ)
  }

  /** CCR cleared, then APB1 / (2 * 100 kHz) in standard mode, or FS and
      APB1 / (3 * 400 kHz) in fast mode. */
  function InitCcr(ccr: bv32, speed: Speed, apb1clk: bv32): bv32
  {
    var cleared := ccr & !(CCR_CCR | CCR_FS);
    if speed == StandardMode then cleared | (apb1clk / 200000) else cleared | CCR_FS | (apb1clk / 1200000)
  }

  /** TRISE from the programmed CR2. */
  function InitTrise(cr2: bv32, speed: Speed): bv32
  {
    if speed == StandardMode then (cr2 & 0x1F) + 1 else (cr2 & CR2_FREQ) * 300 / 1000 + 1
  }

  /** The registers of a bus after the initialisation sequence. */
  function InitRegs(r: Regs, speed: Speed, apb1clk: bv32): Regs
  {
    var cr2 := InitCr2(r.cr2, apb1clk);
    Regs(InitCr1(r.cr1), cr2, InitCcr(r.ccr, speed, apb1clk), InitTrise(cr2, speed))
  }

  /** Writing `v` into the bits `field` of `x` and keeping the rest. */
  lemma FieldWrite(x: bv32, field: bv32, v: bv32)
    ensures ((x & !field) | (v & field)) & field == v & field
    ensures ((x & !field) | (v & field)) & !field == x & !field
  {
  }

  lemma CcrStandard(ccr: bv32, y: bv32)
    requires y < 0x8000
    ensures ((ccr & !(CCR_CCR | CCR_FS)) | y) & CCR_FS == 0
    ensures ((ccr & !(CCR_CCR | CCR_FS)) | y) & CCR_CCR == y & CCR_CCR
  {
  }

  lemma CcrFast(ccr: bv32, y: bv32)
    ensures ((ccr & !(CCR_CCR | CCR_FS)) | CCR_FS | y) & CCR_FS == CCR_FS
    ensures ((ccr & !(CCR_CCR | CCR_FS)) | CCR_FS | y) & CCR_CCR == y & CCR_CCR
  {
  }

  lemma Cr1Init(cr1: bv32)
    ensures var c := (((cr1 & !CR1_PE) | CR1_SWRST) & !CR1_SWRST) | CR1_PE;
      && c & CR1_PE == CR1_PE && c & CR1_SWRST == 0
      && c & !(CR1_PE | CR1_SWRST) == cr1 & !(CR1_PE | CR1_SWRST)
  {
  }

  lemma StandardDivBound(apb1clk: bv32)
    ensures apb1clk / 200000 < 0x8000
  {
  }

  /** Initialisation leaves the peripheral enabled and out of reset and
      keeps every other CR1 bit. */
  lemma InitRegsCr1(r: Regs, speed: Speed, apb1clk: bv32)
    ensures InitRegs(r, speed, apb1clk).cr1 & CR1_PE == CR1_PE
    ensures InitRegs(r, speed, apb1clk).cr1 & CR1_SWRST == 0
    ensures InitRegs(r, speed, apb1clk).cr1 & !(CR1_PE | CR1_SWRST) == r.cr1 & !(CR1_PE | CR1_SWRST)
  {
    Cr1Init(r.cr1);
  }

  /** Initialisation puts the APB1 frequency in MHz in FREQ and keeps the
      other CR2 bits. */
  lemma InitRegsCr2(r: Regs, speed: Speed, apb1clk: bv32)
    ensures InitRegs(r, speed, apb1clk).cr2 & CR2_FREQ == (apb1clk / 1000000) & CR2_FREQ
    ensures InitRegs(r, speed, apb1clk).cr2 & !CR2_FREQ == r.cr2 & !CR2_FREQ
  {
    FieldWrite(r.cr2, CR2_FREQ, apb1clk / 1000000);
  }

  /** Standard mode clears FS and puts APB1 / (2 * 100 kHz) in the CCR field. */
  lemma InitRegsStandard(r: Regs, apb1clk: bv32)
    ensures InitRegs(r, StandardMode, apb1clk).ccr & CCR_FS == 0
    ensures InitRegs(r, StandardMode, apb1clk).ccr & CCR_CCR == (apb1clk / 200000) & CCR_CCR
  {
    StandardDivBound(apb1clk);
    CcrStandard(r.ccr, apb1clk / 200000);
  }

  /** Fast mode sets FS and puts APB1 / (3 * 400 kHz) in the CCR field. */
  lemma InitRegsFast(r: Regs, apb1clk: bv32)
    ensures InitRegs(r, FastMode, apb1clk).ccr & CCR_FS == CCR_FS
    ensures InitRegs(r, FastMode, apb1clk).ccr & CCR_CCR == (apb1clk / 1200000) & CCR_CCR
  {
    CcrFast(r.ccr, apb1clk / 1200000);
  }

  /** In standard mode TRISE is one more than the low five bits of the
      programmed CR2, so at most 32. */
  lemma InitTriseStandard(r: Regs, apb1clk: bv32)
    ensures InitRegs(r, StandardMode, apb1clk).trise == (InitRegs(r, StandardMode, apb1clk).cr2 & 0x1F) + 1
    ensures 1 <= InitRegs(r, StandardMode, apb1clk).trise <= 32
  {
    TriseStandardBits(InitCr2(r.cr2, apb1clk));
  }

  lemma TriseStandardBits(cr2: bv32)
    ensures InitTrise(cr2, StandardMode) == (cr2 & 0x1F) + 1
    ensures 1 <= InitTrise(cr2, StandardMode) <= 32
  {
  }

  /** In fast mode TRISE is FREQ * 300 / 1000 + 1: 300 ns of the bus clock,
      at most 19. */
  lemma InitTriseFast(r: Regs, apb1clk: bv32)
    ensures InitRegs(r, FastMode, apb1clk).trise == (InitRegs(r, FastMode, apb1clk).cr2 & CR2_FREQ) * 300 / 1000 + 1
    ensures 1 <= InitRegs(r, FastMode, apb1clk).trise <= 19
  {
    TriseFastBits(InitCr2(r.cr2, apb1clk));
  }

  lemma TriseFastBits(cr2: bv32)
    ensures InitTrise(cr2, FastMode) == (cr2 & CR2_FREQ) * 300 / 1000 + 1
    ensures 1 <= InitTrise(cr2, FastMode) <= 19
  {
  }

  lemma FreqFieldSmall(cr2: bv32, v: bv32)
    requires v < 64
    ensures ((cr2 & !CR2_FREQ) | (v & CR2_FREQ)) & CR2_FREQ == v
  {
  }

  lemma FreqDivBound(apb1clk: bv32)
    requires apb1clk < 64000000
    ensures apb1clk / 1000000 < 64
  {
  }

  /** Below 64 MHz the FREQ field holds the APB1 clock in whole MHz. */
  lemma InitFreqExact(r: Regs, speed: Speed, apb1clk: bv32)
    requires apb1clk < 64000000
    ensures InitRegs(r, speed, apb1clk).cr2 & CR2_FREQ == apb1clk / 1000000
  {
    FreqDivBound(apb1clk);
    FreqFieldSmall(r.cr2, apb1clk / 1000000);
  }
}
