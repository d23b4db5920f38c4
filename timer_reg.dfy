/** The timer register header: the timer number to register-block address
    switch, the capture/compare enable mask of a channel, and the positions
    of a channel's preload-enable bit and output-compare mode field in
    CCMR1 (channels 1, 2) or CCMR2 (channels 3, 4). */
module TimerReg {

  const TIM1_BASE_ADDR: nat := 0x4001_0000
  const GPTIMx_BASE_ADDR: nat := 0x4000_0000
  const TIM9_BASE_ADDR: nat := 0x4001_4000
  /** The NULL pointer. */
  const NULL: nat := 0

  /** `GET_TIMx_BASE`: the register block of TIMn, or NULL. */
  function GetTimxBase(n: nat): nat
  {
    match n
    case 1 => TIM1_BASE_ADDR
    case 2 => GPTIMx_BASE_ADDR + 0x000
    case 3 => GPTIMx_BASE_ADDR + 0x400
    case 4 => GPTIMx_BASE_ADDR + 0x800
    case 5 => GPTIMx_BASE_ADDR + 0xC00
    case 9 => TIM9_BASE_ADDR
    case 10 => TIM9_BASE_ADDR + 0x400
    case 11 => TIM9_BASE_ADDR + 0x800
    case _ => NULL
  }

  /** The timers the header has a register block for. */
  predicate HasBlock(n: nat)
  {
    1 <= n <= 5 || 9 <= n <= 11
  }

  /** NULL exactly for the timers without a block, and distinct timers have
      distinct, non-overlapping blocks (a block spans 0x54 bytes, up to OR). */
  lemma BaseBlocks(n: nat, m: nat)
    ensures GetTimxBase(n) != NULL <==> HasBlock(n)
    ensures HasBlock(n) && HasBlock(m) && n != m ==>
              GetTimxBase(n) + 0x54 <= GetTimxBase(m) || GetTimxBase(m) + 0x54 <= GetTimxBase(n)
  {
  }

  // ---------------------------------------------------------------------
  // CCER

  /** The shift of `TIMx_CCER_CCxE_MASK(n)` as written: ((n % 4) - 1) * 4. */
  function CcxeShiftAsWritten(n: nat): int
  {
    ((n % 4) - 1) * 4
  }

  /** As written, channel 4 gets a negative shift (undefined in C) instead
      of CC4E's position 12; channels 1..3 get 0, 4 and 8. */
  lemma CcxeChannelFour()
    ensures CcxeShiftAsWritten(4) == -4
    ensures CcxeShiftAsWritten(1) == 0 && CcxeShiftAsWritten(2) == 4 && CcxeShiftAsWritten(3) == 8
  {
  }

  /** The corrected shift: CCnE is bit 4(n-1) of CCER. */
  function CcxeShift(n: nat): bv32
    requires 1 <= n <= 4
  {
    if n == 1 then 0 else if n == 2 then 4 else if n == 3 then 8 else 12
  }

  /** The corrected enable mask of channel n. */
  function CcxeMask(n: nat): bv32
    requires 1 <= n <= 4
  {
    1 << CcxeShift(n)
  }

  /** The corrected masks: one bit each, at 4(n-1), agreeing with the macro
      on channels 1..3, and disjoint between channels. */
  lemma CcxeMaskBits(n: nat, m: nat)
    requires 1 <= n <= 4 && 1 <= m <= 4
    ensures CcxeShift(n) as int == 4 * (n - 1)
    ensures n <= 3 ==> CcxeShift(n) as int == CcxeShiftAsWritten(n)
    ensures n != m ==> CcxeMask(n) & CcxeMask(m) == 0
    ensures CcxeMask(n) != 0
  {
    if n == 1 {
      assert CcxeShift(n) as int == 0;
    } else if n == 2 {
      assert CcxeShift(n) as int == 4;
    } else if n == 3 {
      assert CcxeShift(n) as int == 8;
    } else {
      assert CcxeShift(n) as int == 12;
    }
  }

  // ---------------------------------------------------------------------
  // CCMR

  /** `TIMx_CCMRy_OCzPE_Pos` as written: 3 for odd channels, 0x11 for even. */
  function OcPePosAsWritten(ch: nat): bv32
  {
    if ch % 2 == 1 then 0x3 else 0x11
  }

  /** `TIMx_CCMRy_OCzM_Pos` as written: 4 for odd channels, 0x12 for even. */
  function OcMPosAsWritten(ch: nat): bv32
  {
    if ch % 2 == 1 then 0x4 else 0x12
  }

  /** `TIMx_CCMRy_OCzM_MASK` and `TIMx_CCMRy_OCxPE` as written. */
  function OcMMaskAsWritten(ch: nat): bv32
  {
    0x7 << OcMPosAsWritten(ch)
  }

  function OcPeAsWritten(ch: nat): bv32
  {
    0x1 << OcPePosAsWritten(ch)
  }

  /** As written, an even channel's preload bit and mode field land at bits
      17 and 20..18, in the reserved upper half of the 16-bit CCMR register,
      instead of at the channel's OC2PE (bit 11) and OC2M (bits 14..12). */
  lemma EvenChannelReserved(ch: nat)
    requires ch % 2 == 0
    ensures OcPePosAsWritten(ch) == 17 && OcMPosAsWritten(ch) == 18
    ensures OcMMaskAsWritten(ch) & 0xFFFF == 0 && OcPeAsWritten(ch) & 0xFFFF == 0
  {
  }

  /** The corrected positions: the odd channel's positions plus 8. */
  function OcPePos(ch: nat): (p: bv32)
    ensures p == 3 || p == 11
  {
    if ch % 2 == 1 then 3 else 11
  }

  function OcMPos(ch: nat): (p: bv32)
    ensures p == 4 || p == 12
  {
    if ch % 2 == 1 then 4 else 12
  }

  /** `TIMx_CCMRy_OCzM_MASK`. */
  function OcMMask(ch: nat): bv32
  {
    0x7 << OcMPos(ch)
  }

  /** `TIMx_CCMRy_OCzM_PWM_MODE1_MASK`: mode 0b110 in the field. */
  function PwmMode1(ch: nat): bv32
  {
    0x6 << OcMPos(ch)
  }

  /** `TIMx_CCMRy_OCxM_PWM_MODE2_MASK`: mode 0b111 in the field. */
  function PwmMode2(ch: nat): bv32
  {
    0x7 << OcMPos(ch)
  }

  /** `TIMx_CCMRy_OCxPE`. */
  function OcPe(ch: nat): bv32
  {
    0x1 << OcPePos(ch)
  }

  /** The corrected fields sit in the low 16 bits; PWM mode 1 and 2 read
      back as 6 and 7 from the mode field; the preload bit is outside the
      mode field; and the two channels of a register use disjoint bits. */
  lemma CcmrFields(ch: nat)
    ensures OcMMask(ch) & 0xFFFF == OcMMask(ch) && OcPe(ch) & 0xFFFF == OcPe(ch)
    ensures (PwmMode1(ch) >> OcMPos(ch)) & 7 == 6
    ensures (PwmMode2(ch) >> OcMPos(ch)) & 7 == 7
    ensures PwmMode1(ch) & !OcMMask(ch) == 0 && PwmMode2(ch) & !OcMMask(ch) == 0
    ensures OcPe(ch) & OcMMask(ch) == 0
    ensures (OcMMask(ch) | OcPe(ch)) & (OcMMask(ch + 1) | OcPe(ch + 1)) == 0
  {
    if ch % 2 == 1 {
      assert (ch + 1) % 2 == 0;
    } else {
      assert (ch + 1) % 2 == 1;
    }
  }

  /** The odd channels are placed as written. */
  lemma OddChannelsAsWritten(ch: nat)
    requires ch % 2 == 1
    ensures OcPePos(ch) == OcPePosAsWritten(ch) && OcMPos(ch) == OcMPosAsWritten(ch)
  {
  }
}
