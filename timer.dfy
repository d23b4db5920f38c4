/** SysTick bookkeeping and the TIM1..TIM5, TIM9..TIM11 drivers.

    The tick counter is the 64-bit `systick_ticks` that the SysTick handler
    increments; the timers are register blocks keyed by timer number, with
    the RCC clock enable registers beside them.  The NVIC is the `Nvic` of
    the interrupt helpers. */
module Timer {
  import opened Common
  import TimerReg
  import Interrupt

  /** `hal_timer_t`: TIM0 = 0 ... TIM12 = 12. */
  const TIM1: nat := 1
  const TIM2: nat := 2
  const TIM3: nat := 3
  const TIM4: nat := 4
  const TIM5: nat := 5
  const TIM9: nat := 9
  const TIM10: nat := 10
  const TIM11: nat := 11

  const TIM1_BASE: nat := 0x4001_0000
  const TIM2_BASE: nat := 0x4000_0000
  const TIM3_BASE: nat := 0x4000_0400
  const TIM4_BASE: nat := 0x4000_0800
  const TIM5_BASE: nat := 0x4000_0C00
  const TIM9_BASE: nat := 0x4001_4000
  const TIM10_BASE: nat := 0x4001_4400
  const TIM11_BASE: nat := 0x4001_4800

  /** The timers' update-interrupt positions in the STM32F40x/41x vector
      table (table 61 of the RM0090 reference manual); the driver's headers
      that define these numbers are not part of this model. */
  const TIM1_BRK_TIM9_IRQn: int := 24
  const TIM2_IRQn: int := 28
  const TIM3_IRQn: int := 29
  const TIM4_IRQn: int := 30
  const TIM5_IRQn: int := 50

  /** SysTick CSR: ENABLE (bit 0), TICKINT (bit 1), CLKSOURCE (bit 2). */
  const SYST_CSR_ENABLE: bv32 := 0x7

  // ---------------------------------------------------------------------
  // SysTick

  /** The reload value `systick_init` computes: (ahbclk/1000000)*tick_us - 1
      in 64-bit unsigned arithmetic, then masked to the 24 bits of RVR. */
  function ReloadValue(ahbclk: nat, tickUs: nat): nat
  {
    (((ahbclk / 1_000_000) * tickUs - 1) % TWO_64) % TWO_24
  }

  /** SysTick counts reload+1 core cycles per tick: for a tick of 1 to 2^24
      cycles that is exactly the tick; a tick of zero cycles wraps to the
      largest reload, 0xFFFFFF; the value always fits RVR. */
  lemma ReloadPeriod(ahbclk: nat, tickUs: nat)
    requires ahbclk < TWO_32 && tickUs < TWO_32
    ensures ReloadValue(ahbclk, tickUs) < TWO_24
    ensures 1 <= (ahbclk / 1_000_000) * tickUs <= TWO_24 ==>
              ReloadValue(ahbclk, tickUs) + 1 == (ahbclk / 1_000_000) * tickUs
    ensures (ahbclk / 1_000_000) * tickUs == 0 ==> ReloadValue(ahbclk, tickUs) == TWO_24 - 1
  {
    var c := (ahbclk / 1_000_000) * tickUs;
    assert c < TWO_64 by {
      MulBound(ahbclk / 1_000_000, tickUs);
    }
    if c == 0 {
      assert (c - 1) % TWO_64 == TWO_64 - 1;
    }
  }

  lemma MulBound(a: nat, b: nat)
    requires a < TWO_32 && b < TWO_32
    ensures a * b < TWO_64
  {
    MulLe(a, TWO_32 - 1, b);
    MulLe(b, TWO_32 - 1, TWO_32 - 1);
  }

  lemma MulLe(x: nat, y: nat, c: nat)
    requires x <= y
    ensures x * c <= y * c
  {
  }

  /** The ticks `delay_us` waits for: us/duration, at least one. */
  function TicksNeeded(us: nat, duration: nat): (n: nat)
    requires duration > 0
    ensures n >= 1 && (us >= duration ==> n * duration <= us < (n + 1) * duration)
  {
    DivFloor(us, duration);
    if us / duration == 0 then 1 else us / duration
  }

  /** The quotient of a division, times the divisor, is within one divisor
      below the dividend. */
  lemma DivFloor(x: nat, y: nat)
    requires y > 0
    ensures (x / y) * y <= x < (x / y + 1) * y
  {
  }

  /** Whether the delay loop stops at tick `now`, for a start tick `start`,
      as written: `start` is stored in a uint32, and the difference is
      taken in 64 bits. */
  function DelayDoneAsWritten(start: nat, now: nat, needed: nat): bool
  {
    (now - start % TWO_32) % TWO_64 >= needed
  }

  /** Once the counter has passed 2^32, the truncated start makes the delay
      end at once: starting and stopping at tick 2^32, no tick has passed
      but a one-tick delay is over. */
  lemma DelayTruncatedStart()
    ensures DelayDoneAsWritten(TWO_32, TWO_32, 1)
  {
  }

  /** The corrected test: the start tick kept in 64 bits. */
  function DelayDone(start: nat, now: nat, needed: nat): bool
  {
    (now - start) % TWO_64 >= needed
  }

  /** The corrected test holds exactly when `needed` ticks have passed; the
      written one agrees with it while the counter is below 2^32. */
  lemma DelayDoneElapsed(start: nat, now: nat, needed: nat)
    requires start <= now < TWO_64
    ensures DelayDone(start, now, needed) <==> now - start >= needed
    ensures start < TWO_32 ==> (DelayDoneAsWritten(start, now, needed) <==> DelayDone(start, now, needed))
  {
  }

  /** Micros after a tick: the product grows by one duration, modulo 2^32,
      also where the 64-bit tick counter wraps. */
  lemma MicrosStep(ticks: nat, duration: nat)
    ensures (((ticks + 1) % TWO_64) * duration) % TWO_32 == ((ticks * duration) % TWO_32 + duration) % TWO_32
  {
    var t := (ticks + 1) % TWO_64;
    var q := (ticks + 1) / TWO_64;
    assert ticks + 1 == q * TWO_64 + t;
    assert TWO_64 == TWO_32 * TWO_32;
    assert (ticks + 1) * duration == t * duration + (q * TWO_32 * duration) * TWO_32 by {
      assert (ticks + 1) * duration == (q * TWO_64 + t) * duration;
    }
    ModMultiple(t * duration, q * TWO_32 * duration);
    var p := ticks * duration;
    assert p + duration == (p % TWO_32 + duration) + (p / TWO_32) * TWO_32;
    ModMultiple(p % TWO_32 + duration, p / TWO_32);
  }

  lemma SmallMod(x: nat, m: nat)
    requires x < m
    ensures x % m == x
  {
  }

  lemma ModMultiple(a: nat, k: nat)
    ensures (a + k * TWO_32) % TWO_32 == a % TWO_32
  {
  }

  class SysTick {
    /** `systick_ticks`, `tick_duration_us` and `tick_reload_value`. */
    var ticks: nat
    var duration: nat
    var reload: nat
    /** SYST_RVR, SYST_CVR and SYST_CSR. */
    var rvr: nat
    var cvr: nat
    var csr: bv32

    ghost predicate Valid()
      reads this
    {
      ticks < TWO_64 && duration < TWO_32
    }

    /** The static initial values: no tick yet, a 1 us tick. */
    constructor ()
      ensures Valid() && ticks == 0 && duration == 1 && reload == 0
    {
      ticks := 0;
      duration := 1;
      reload := 0;
      rvr := 0;
      cvr := 0;
      csr := 0;
    }

    /** `systick_init`; `ahbclk` is the value `hal_clock_get_ahbclk` returns. */
    method Init(tickUs: nat, ahbclk: nat)
      requires Valid() && tickUs < TWO_32 && ahbclk < TWO_32
      modifies this
      ensures Valid() && ticks == old(ticks)
      ensures duration == tickUs
      ensures reload == rvr == ReloadValue(ahbclk, tickUs) && reload < TWO_24
      ensures cvr == 0 && csr == SYST_CSR_ENABLE
    {
      duration := tickUs;
      var reloadValue := (((ahbclk / 1_000_000) * tickUs - 1) % TWO_64) % TWO_24;
      reload := reloadValue;
      rvr := reloadValue;
      cvr := 0;
      csr := 0x1 | 0x2 | 0x4;
    }

    /** `SysTick_Handler`: one tick, in 64-bit arithmetic. */
    method Handler()
      requires Valid()
      modifies this`ticks
      ensures Valid() && ticks == (old(ticks) + 1) % TWO_64
      ensures Micros() == (old(Micros()) + duration) % TWO_32
    {
      MicrosStep(ticks, duration);
      ticks := (ticks + 1) % TWO_64;
    }

    /** `hal_get_micros`: the 64-bit product returned as a uint32. */
    function Micros(): (m: nat)
      reads this
      ensures m < TWO_32
    {
      (ticks * duration) % TWO_32
    }

    /** `hal_get_millis`. */
    function Millis(): (m: nat)
      reads this
      ensures m * 1000 <= Micros() < (m + 1) * 1000 && m < TWO_32 / 1000 + 1
    {
      Micros() / 1000
    }

    /** `delay_us` with the start tick kept in 64 bits; each pass of the
        spin loop is taken to last until the next SysTick interrupt.  It
        waits exactly max(1, us/duration) ticks. */
    method DelayUs(us: nat)
      requires Valid() && duration > 0 && ticks + TicksNeeded(us, duration) < TWO_64
      modifies this`ticks
      ensures Valid() && ticks == old(ticks) + TicksNeeded(us, duration)
    {
      var needed := if us / duration == 0 then 1 else us / duration;
      assert needed == TicksNeeded(us, duration);
      var start := ticks;
      DelayDoneElapsed(start, ticks, needed);
      while !DelayDone(start, ticks, needed)
        invariant Valid() && start <= ticks <= start + needed < TWO_64
        invariant DelayDone(start, ticks, needed) <==> ticks - start >= needed
        decreases start + needed - ticks
      {
        ghost var t0 := ticks;
        Handler();
        SmallMod(t0 + 1, TWO_64);
        DelayDoneElapsed(start, ticks, needed);
      }
    }

    /** `delay_ms`: `ms * 1000` is a uint32 product. */
    method DelayMs(ms: nat)
      requires Valid() && duration > 0 && ms < TWO_32
      requires ticks + TicksNeeded((ms * 1000) % TWO_32, duration) < TWO_64
      modifies this`ticks
      ensures Valid() && ticks == old(ticks) + TicksNeeded((ms * 1000) % TWO_32, duration)
    {
      DelayUs((ms * 1000) % TWO_32);
    }
  }

  // ---------------------------------------------------------------------
  // Timer numbers

  /** `_get_timer_base`: the register block of a timer, 0 for the rest. */
  function TimerBase(timer: nat): nat
  {
    if timer == TIM1 then TIM1_BASE
    else if timer == TIM2 then TIM2_BASE
    else if timer == TIM3 then TIM3_BASE
    else if timer == TIM4 then TIM4_BASE
    else if timer == TIM5 then TIM5_BASE
    else if timer == TIM9 then TIM9_BASE
    else if timer == TIM10 then TIM10_BASE
    else if timer == TIM11 then TIM11_BASE
    else 0
  }

  /** The advanced timer, the general purpose timers on APB1, and those on APB2. */
  predicate IsAdvanced(timer: nat) { timer == TIM1 }
  predicate IsGp1(timer: nat) { TIM2 <= timer <= TIM5 }
  predicate IsGp2(timer: nat) { TIM9 <= timer <= TIM11 }

  predicate Supported(timer: nat)
  {
    IsAdvanced(timer) || IsGp1(timer) || IsGp2(timer)
  }

  /** The driver's base table and the header's switch agree on every timer
      number, and a timer has a base exactly when one of the three init
      routines handles it. */
  lemma TimerBaseAgrees(timer: nat)
    ensures TimerBase(timer) == TimerReg.GetTimxBase(timer)
    ensures TimerBase(timer) != 0 <==> Supported(timer)
  {
  }

  /** The clock enable bit of a timer in RCC_APB1ENR (TIM2..TIM5 at bits
      0..3), or 0. */
  function Apb1Bit(timer: nat): bv32
  {
    if timer == TIM2 then 0x1
    else if timer == TIM3 then 0x2
    else if timer == TIM4 then 0x4
    else if timer == TIM5 then 0x8
    else 0
  }

  /** The clock enable bit of a timer in RCC_APB2ENR (TIM1 at bit 0, TIM9,
      TIM10, TIM11 at bits 16, 17, 18), or 0. */
  function Apb2Bit(timer: nat): bv32
  {
    if timer == TIM1 then 0x1
    else if timer == TIM9 then 0x1_0000
    else if timer == TIM10 then 0x2_0000
    else if timer == TIM11 then 0x4_0000
    else 0
  }

  /** Each supported timer has one clock enable bit, on APB1 for TIM2..TIM5
      and on APB2 for the others, and no two timers share a bit. */
  lemma RccBits(timer: nat, other: nat)
    ensures Supported(timer) ==> (Apb1Bit(timer) != 0 <==> IsGp1(timer)) && (Apb2Bit(timer) != 0 <==> !IsGp1(timer))
    ensures !Supported(timer) ==> Apb1Bit(timer) == 0 && Apb2Bit(timer) == 0
    ensures timer != other ==> Apb1Bit(timer) & Apb1Bit(other) == 0 && Apb2Bit(timer) & Apb2Bit(other) == 0
  {
  }

  /** The interrupt line `timer_enable_interrupt` enables: TIM2..TIM5, and
      TIM9 on the line it shares with TIM1's break interrupt. */
  function TimerIrq(timer: nat): Option<int>
  {
    if timer == TIM2 then Some(TIM2_IRQn)
    else if timer == TIM3 then Some(TIM3_IRQn)
    else if timer == TIM4 then Some(TIM4_IRQn)
    else if timer == TIM5 then Some(TIM5_IRQn)
    else if timer == TIM9 then Some(TIM1_BRK_TIM9_IRQn)
    else None
  }

  /** Lines are given only to TIM2..TIM5 and TIM9, all distinct and within
      the callback table. */
  lemma TimerIrqLines(timer: nat, other: nat)
    ensures TimerIrq(timer).Some? <==> IsGp1(timer) || timer == TIM9
    ensures TimerIrq(timer).Some? ==> 0 <= TimerIrq(timer).value < Interrupt.MAX_IRQ
    ensures TimerIrq(timer).Some? && timer != other ==> TimerIrq(timer) != TimerIrq(other)
  {
  }

  // ---------------------------------------------------------------------
  // Register values

  const CR1_CEN: bv32 := 0x1
  const EGR_UG: bv32 := 0x1
  const SR_UIF: bv32 := 0x1
  const DIER_UIE: bv32 := 0x1

  /** The registers the driver touches; the counter, prescaler and
      auto-reload values are the numbers held. */
  datatype Regs = Regs(cr1: bv32, dier: bv32, sr: bv32, egr: bv32, cnt: nat, psc: nat, arr: nat)

  /** The prescaler `timer_init` leaves: TIM9..TIM11 take it through a
      16-bit store. */
  function PscValue(timer: nat, prescaler: nat): nat
  {
    if IsGp2(timer) then prescaler % TWO_16 else prescaler
  }

  /** The auto-reload value: the upper 16 bits are dropped except on the
      32-bit timers TIM2 and TIM5. */
  function ArrValue(timer: nat, autoReload: nat): nat
  {
    if timer == TIM2 || timer == TIM5 then autoReload else autoReload % TWO_16
  }

  /** The 16-bit timers hold 16-bit values, the 32-bit ones the value given:
      what a timer is programmed with reads back unchanged when it fits. */
  lemma InitValues(timer: nat, prescaler: nat, autoReload: nat)
    requires Supported(timer)
    ensures IsGp2(timer) ==> PscValue(timer, prescaler) < TWO_16
    ensures prescaler < TWO_16 || !IsGp2(timer) ==> PscValue(timer, prescaler) == prescaler
    ensures timer != TIM2 && timer != TIM5 ==> ArrValue(timer, autoReload) < TWO_16
    ensures autoReload < TWO_16 || timer == TIM2 || timer == TIM5 ==> ArrValue(timer, autoReload) == autoReload
  {
  }

  /** A register with bit 0 (CEN, UIE) set. */
  function SetBit0(w: bv32): bv32
  {
    w | 0x1
  }

  /** A register with bit 0 (CEN, UIF) cleared. */
  function ClearBit0(w: bv32): bv32
  {
    w & 0xFFFF_FFFE
  }

  /** Setting bit 0 sets it and keeps every other bit. */
  lemma SetBit0Sets(w: bv32)
    ensures SetBit0(w) & 1 == 1
  {
  }

  lemma SetBit0Keeps(w: bv32)
    ensures SetBit0(w) & 0xFFFF_FFFE == w & 0xFFFF_FFFE
  {
  }

  /** Clearing bit 0 clears it and keeps every other bit. */
  lemma ClearBit0Clears(w: bv32)
    ensures ClearBit0(w) & 1 == 0
  {
  }

  lemma ClearBit0Keeps(w: bv32)
    ensures ClearBit0(w) & 0xFFFF_FFFE == w & 0xFFFF_FFFE
  {
  }

  /** A clear undoes a set of a clear bit. */
  lemma ClearUndoesSet(w: bv32)
    requires w & 1 == 0
    ensures ClearBit0(SetBit0(w)) == w
  {
  }

  /** CR1 with CEN set. */
  function Started(r: Regs): Regs
  {
    r.(cr1 := SetBit0(r.cr1))
  }

  /** CR1 with CEN cleared. */
  function Stopped(r: Regs): Regs
  {
    r.(cr1 := ClearBit0(r.cr1))
  }

  /** SR with UIF cleared. */
  function FlagCleared(r: Regs): Regs
  {
    r.(sr := ClearBit0(r.sr))
  }

  /** DIER with UIE set. */
  function UieSet(r: Regs): Regs
  {
    r.(dier := SetBit0(r.dier))
  }

  /** A stop undoes a start of a stopped timer. */
  lemma StopUndoesStart(r: Regs)
    requires r.cr1 & 1 == 0
    ensures Stopped(Started(r)) == r
  {
    ClearUndoesSet(r.cr1);
  }

  class Timers {
    var apb1enr: bv32
    var apb2enr: bv32
    /** The register blocks of TIM1..TIM5 and TIM9..TIM11. */
    var regs: map<nat, Regs>

    ghost predicate Valid()
      reads this
    {
      regs.Keys == {1, 2, 3, 4, 5, 9, 10, 11}
    }

    constructor ()
      ensures Valid() && apb1enr == 0 && apb2enr == 0
    {
      apb1enr := 0;
      apb2enr := 0;
      var z := Regs(0, 0, 0, 0, 0, 0, 0);
      regs := map[1 := z, 2 := z, 3 := z, 4 := z, 5 := z, 9 := z, 10 := z, 11 := z];
    }

    /** `_enable_timer_rcc`. */
    method EnableRcc(timer: nat)
      modifies this`apb1enr, this`apb2enr
      ensures apb1enr == old(apb1enr) | Apb1Bit(timer)
      ensures apb2enr == old(apb2enr) | Apb2Bit(timer)
    {
      if IsGp1(timer) {
        apb1enr := apb1enr | Apb1Bit(timer);
        assert Apb2Bit(timer) == 0;
        apb2enr := apb2enr | 0;
      } else if Supported(timer) {
        apb2enr := apb2enr | Apb2Bit(timer);
        assert Apb1Bit(timer) == 0;
        apb1enr := apb1enr | 0;
      } else {
        assert Apb1Bit(timer) == 0 && Apb2Bit(timer) == 0;
        apb1enr := apb1enr | 0;
        apb2enr := apb2enr | 0;
      }
    }

    /** `timer_init`: the routine of the timer's class, none for the others. */
    method Init(timer: nat, prescaler: nat, autoReload: nat)
      requires Valid() && prescaler < TWO_32 && autoReload < TWO_32
      modifies this
      ensures Valid()
      ensures !Supported(timer) ==> apb1enr == old(apb1enr) && apb2enr == old(apb2enr) && regs == old(regs)
      ensures Supported(timer) ==>
                apb1enr == old(apb1enr) | Apb1Bit(timer) && apb2enr == old(apb2enr) | Apb2Bit(timer)
                && regs == old(regs)[timer := Initialised(old(regs[timer]), timer, prescaler, autoReload)]
    {
      if timer == TIM1 {
        AdvInit(timer, prescaler, autoReload);
      } else if TIM2 <= timer <= TIM5 {
        Gp1Init(timer, prescaler, autoReload);
      } else if TIM9 <= timer <= TIM11 {
        Gp2Init(timer, prescaler, autoReload);
      }
    }

    /** `_timer_adv_init`. */
    method AdvInit(timer: nat, prescaler: nat, autoReload: nat)
      requires Valid() && timer == TIM1
      modifies this
      ensures Valid()
      ensures apb1enr == old(apb1enr) | Apb1Bit(timer) && apb2enr == old(apb2enr) | Apb2Bit(timer)
      ensures regs == old(regs)[timer := Initialised(old(regs[timer]), timer, prescaler, autoReload)]
    {
      EnableRcc(timer);
      var r := regs[timer];
      r := Stopped(r);
      r := r.(psc := prescaler);
      r := r.(cnt := 0);
      var arr := if timer == TIM2 || timer == TIM5 then autoReload else autoReload % TWO_16;
      r := r.(arr := arr);
      r := r.(egr := 0x1);
      r := r.(cr1 := 0x1);
      regs := regs[timer := r];
    }

    /** `_timer_gp1_init`. */
    method Gp1Init(timer: nat, prescaler: nat, autoReload: nat)
      requires Valid() && IsGp1(timer)
      modifies this
      ensures Valid()
      ensures apb1enr == old(apb1enr) | Apb1Bit(timer) && apb2enr == old(apb2enr) | Apb2Bit(timer)
      ensures regs == old(regs)[timer := Initialised(old(regs[timer]), timer, prescaler, autoReload)]
    {
      EnableRcc(timer);
      var r := regs[timer];
      r := Stopped(r);
      r := r.(psc := prescaler);
      r := r.(cnt := 0);
      var arr := if timer == TIM2 || timer == TIM5 then autoReload else autoReload % TWO_16;
      r := r.(arr := arr);
      r := r.(egr := 0x1);
      r := r.(cr1 := 0x1);
      regs := regs[timer := r];
    }

    /** `_timer_gp2_init`: PSC, CNT and ARR are written through 16-bit stores. */
    method Gp2Init(timer: nat, prescaler: nat, autoReload: nat)
      requires Valid() && IsGp2(timer)
      modifies this
      ensures Valid()
      ensures apb1enr == old(apb1enr) | Apb1Bit(timer) && apb2enr == old(apb2enr) | Apb2Bit(timer)
      ensures regs == old(regs)[timer := Initialised(old(regs[timer]), timer, prescaler, autoReload)]
    {
      EnableRcc(timer);
      var r := regs[timer];
      r := Stopped(r);
      r := r.(psc := prescaler % TWO_16);
      r := r.(cnt := 0);
      r := r.(arr := autoReload % TWO_16);
      r := r.(egr := 0x1);
      r := r.(cr1 := 0x1);
      regs := regs[timer := r];
    }

    /** `timer_start`. */
    method Start(timer: nat)
      requires Valid()
      modifies this`regs
      ensures Valid()
      ensures Supported(timer) ==> regs == old(regs)[timer := Started(old(regs[timer]))]
      ensures !Supported(timer) ==> regs == old(regs)
    {
      if Supported(timer) {
        regs := regs[timer := Started(regs[timer])];
      }
    }

    /** `timer_stop`. */
    method Stop(timer: nat)
      requires Valid()
      modifies this`regs
      ensures Valid()
      ensures Supported(timer) ==> regs == old(regs)[timer := Stopped(old(regs[timer]))]
      ensures !Supported(timer) ==> regs == old(regs)
    {
      if Supported(timer) {
        regs := regs[timer := Stopped(regs[timer])];
      }
    }

    /** `timer_reset`. */
    method Reset(timer: nat)
      requires Valid()
      modifies this`regs
      ensures Valid()
      ensures Supported(timer) ==> regs == old(regs)[timer := old(regs[timer]).(cnt := 0)]
      ensures !Supported(timer) ==> regs == old(regs)
    {
      if Supported(timer) {
        regs := regs[timer := regs[timer].(cnt := 0)];
      }
    }

    /** `timer_get_count`. */
    function GetCount(timer: nat): (c: nat)
      reads this
      requires Valid()
      ensures Supported(timer) <== c != 0
      ensures Supported(timer) ==> c == regs[timer].cnt
      ensures !Supported(timer) ==> c == 0
    {
      if Supported(timer) then regs[timer].cnt else 0
    }

    /** `timer_clear_interrupt_flag`: UIF is cleared for TIM2..TIM5 and
        TIM9..TIM11; TIM1's status is not touched. */
    method ClearInterruptFlag(timer: nat)
      requires Valid()
      modifies this`regs
      ensures Valid()
      ensures IsGp1(timer) || IsGp2(timer) ==> regs == old(regs)[timer := FlagCleared(old(regs[timer]))]
      ensures !(IsGp1(timer) || IsGp2(timer)) ==> regs == old(regs)
    {
      if IsGp1(timer) || IsGp2(timer) {
        regs := regs[timer := FlagCleared(regs[timer])];
      }
    }

    /** `_set_interrupt_enable_bit`. */
    method SetInterruptEnableBit(timer: nat)
      requires Valid()
      modifies this`regs
      ensures Valid()
      ensures Supported(timer) ==> regs == old(regs)[timer := UieSet(old(regs[timer]))]
      ensures !Supported(timer) ==> regs == old(regs)
    {
      if Supported(timer) {
        regs := regs[timer := UieSet(regs[timer])];
      }
    }

    /** `timer_enable_interrupt`: the NVIC line of TIM2..TIM5 and TIM9 is
        enabled; UIE is set for every supported timer, TIM1 included. */
    method EnableInterrupt(timer: nat, nvic: Interrupt.Nvic)
      requires Valid() && nvic.Valid()
      modifies this`regs, nvic`iser
      ensures Valid() && nvic.Valid()
      ensures TimerIrq(timer).Some? ==> nvic.iser == Interrupt.SetLine(old(nvic.iser), TimerIrq(timer).value)
      ensures TimerIrq(timer).None? ==> nvic.iser == old(nvic.iser)
      ensures Supported(timer) ==> regs == old(regs)[timer := UieSet(old(regs[timer]))]
      ensures !Supported(timer) ==> regs == old(regs)
    {
      var irq := TimerIrq(timer);
      if irq.Some? {
        var _ := nvic.Enable(irq.value);
      }
      SetInterruptEnableBit(timer);
    }

    /** `timer_attach_callback`: only for the timers with a line. */
    method AttachCallback(timer: nat, cb: Option<Interrupt.Handler>, nvic: Interrupt.Nvic)
      requires nvic.Valid()
      modifies nvic`callbacks
      ensures nvic.Valid()
      ensures TimerIrq(timer).Some? ==> nvic.callbacks == Interrupt.Attached(old(nvic.callbacks), TimerIrq(timer).value, cb)
      ensures TimerIrq(timer).None? ==> nvic.callbacks == old(nvic.callbacks)
    {
      var irq := TimerIrq(timer);
      if irq.Some? {
        nvic.AttachCallback(irq.value, cb);
      }
    }

    /** `timer_detach_callback`. */
    method DetachCallback(timer: nat, nvic: Interrupt.Nvic)
      requires nvic.Valid()
      modifies nvic`callbacks
      ensures nvic.Valid()
      ensures TimerIrq(timer).Some? ==> nvic.callbacks == Interrupt.Attached(old(nvic.callbacks), TimerIrq(timer).value, None)
      ensures TimerIrq(timer).None? ==> nvic.callbacks == old(nvic.callbacks)
    {
      var irq := TimerIrq(timer);
      if irq.Some? {
        nvic.DetachCallback(irq.value);
      }
    }
  }

  /** The block `timer_init` leaves: CR1 exactly CEN, the prescaler and the
      auto-reload value of the timer's class, the counter at 0, an update
      event requested; DIER and SR as they were. */
  function Initialised(r: Regs, timer: nat, prescaler: nat, autoReload: nat): Regs
  {
    r.(cr1 := 0x1, psc := PscValue(timer, prescaler), cnt := 0,
       arr := ArrValue(timer, autoReload), egr := 0x1)
  }

  /** After init a timer is running from 0 with its programmed values, and
      an interrupt flag or enable set before init is kept. */
  lemma InitialisedRuns(r: Regs, timer: nat, prescaler: nat, autoReload: nat)
    requires Supported(timer) && prescaler < TWO_16 && autoReload < TWO_16
    ensures Initialised(r, timer, prescaler, autoReload).cr1 & CR1_CEN == CR1_CEN
    ensures Initialised(r, timer, prescaler, autoReload).cnt == 0
    ensures Initialised(r, timer, prescaler, autoReload).psc == prescaler
    ensures Initialised(r, timer, prescaler, autoReload).arr == autoReload
    ensures Initialised(r, timer, prescaler, autoReload).dier == r.dier
  {
    InitValues(timer, prescaler, autoReload);
  }
}
