# NavHAL STM32F4 core, modelled in Dafny

NavHAL is a bare-metal hardware-abstraction layer for STM32F4 (Cortex-M4)
microcontrollers. This project models the parts of it that hold
deterministic integer and bit logic, each against an abstract register
file, and proves what the code promises about them:

- `I2cRegs`, `I2c` (`i2c.c`): the per-bus initialisation mask, the
  FREQ/CCR/TRISE timing programmed at initialisation, and the blocking
  write, read and write-then-read transactions. The hardware is an
  oracle: each wait on a status flag has a poll count, DR delivers a
  sequence of bytes, and every bus action (START, address, data, STOP,
  ACK on/off) is recorded in a trace. The transaction contracts hold for
  every hardware behaviour.
- `Flash` (`flash.c`, with `hal_memcpy` from `util.c` as `Util`): the
  key/value log of 6-byte headers and half-word-packed values in a byte
  array, the XOR checksum, the two header walks, save (mark the old
  record DELETED, append the new one) and read.
- `Clock` (`clock.c`): PLLCFGR/CFGR/FLASH_ACR programming in
  `hal_clock_init`, the SYSCLK decode and the AHB/APB prescaler tables,
  with the PLL encode/decode round trip.
- `Timer`, `TimerReg` (`timer.c`, `timer_reg.h`): SysTick reload and tick
  arithmetic, the timer-number to register-block map, the per-class
  initialisation rules with their 16-bit truncations, and the CEN, UIF
  and UIE bits.
- `Interrupt` (`interrupt.c`): ISER/ICER word and bit selection, the
  128-entry callback table, and 4-bit priorities in IPR and SHPR byte
  lanes with their set/get round trip.
- `Gpio`, `GpioReg` (`gpio.c`, `gpio_reg.h`): MODER, ODR and AHB1ENR
  read-modify-writes and the pin to port, pin and address arithmetic.
- `Conversion`, `Uart` (`conversion.c`, `uart.c`): `str_to_int`, the
  rounded BRR divisor, and the decimal and string writers, whose output
  is a character sequence.

`Common` holds the shared `Option`, `byte` and word-size constants.

## Model

| member | source | states |
|---|---|---|
| `Conversion.StrToInt` | src/conversion.c:3-30 | the returned value is the sign of the first non-blank character times the decimal value of the digit run after the blanks and the optional sign; it lies within ±INT32_MAX |
| `Conversion.SkipBlankChars` | src/conversion.c:8-10 | the index returned is the first character that is neither ' ' nor '\t', and skipping blanks from there leaves what skipping from the start leaves |
| `Conversion.ReadDigits` | src/conversion.c:23-27 | the accumulator loop computes exactly the decimal value of the digit run, staying within 0..INT32_MAX on every turn |
| `Conversion.SignStep` | src/conversion.c:12-21 | after the blanks, a '-' gives sign -1 and a '+' sign 1, each consuming one character; anything else consumes nothing and gives sign 1 |
| `Conversion.DigitRunAt` | src/conversion.c:23 | the digit run stops exactly at the first character that is not '0'..'9', and consists of the string's own characters |
| `Conversion.DecimalStep` | src/conversion.c:25 | `result * 10 + digit` is the value of the digit prefix one longer, and never exceeds the value of the whole run |
| `Conversion.DecimalPrefix` | src/conversion.c:25 | every value the accumulator passes through is between 0 and the final value, so the bound on the run keeps each step within int32 |
| `Conversion.DigitRunDigits` | src/conversion.c:23 | the run read is made of decimal digits only and is no longer than the input |
| `Conversion.DecimalNonNeg` | src/conversion.c:25 | a digit string has a value of at least 0 |
| `Conversion.BlanksSkipped` | src/conversion.c:8-10 | any number of leading spaces and tabs changes neither what is read nor the value |
| `Conversion.OtherFirstIsZero` | src/conversion.c:9-27 | a first character that is no blank, sign or digit stops the parser with result 0 |
| `Conversion.DigitRunStops` | src/conversion.c:23 | characters after the first non-digit are not read |
| `Conversion.FirstCharacter` | src/conversion.c:12-27 | a leading digit is read as part of the number, a leading '-' negates the value of the digits after it, a leading '+' keeps it |
| `Conversion.DigitsThen` | src/conversion.c:23-29 | digits followed by a non-digit tail are read as the digits' decimal value |
| `Conversion.SignedDigits` | src/conversion.c:13-29 | one sign before the digits: '-' yields minus their value, '+' their value |
| `Conversion.TwoSigns` | src/conversion.c:13-23 | only one sign is consumed: a second sign leaves no digit to read, so the result is 0 |
| `Conversion.ResultMagnitude` | src/conversion.c:29 | the result is plus or minus the digits' value, and 0 when no digit is read |
| `Util.Memcpy` | src/util.c:3-10 | after the count-down loop the `len` destination bytes equal the source bytes, every other destination byte is unchanged, and the source is not written |
| `Uart.BrrNearest` | src/core/cortex-m4/uart/uart.c:10 | without 32-bit overflow, `(apb1clk + baud/2) / baud` is the divisor whose multiple of the baud rate lies nearest the clock, a tie going to the larger divisor |
| `Uart.Closest` | src/core/cortex-m4/uart/uart.c:10 | a multiple p of the baud rate with p <= clock + baud/2 < p + baud is at least as near the clock as any other multiple, and strictly nearer than any larger one |
| `Uart.Usart2.Init` | src/core/cortex-m4/uart/uart.c:5-13 | USART2EN is or-ed into APB1ENR, BRR is the rounded divisor computed in 32-bit unsigned arithmetic, CR1 is TE then TE \| UE, and no character is written |
| `Uart.Usart2.WriteChar` | src/core/cortex-m4/uart/uart.c:15-20 | exactly the character is appended to what the transmitter sent |
| `Uart.Usart2.WriteInt` | src/core/cortex-m4/uart/uart.c:22-49 | the characters sent are "0" for zero, else '-' for a negative number followed by the decimal digits of its magnitude |
| `Uart.Usart2.WriteDigits` | src/core/cortex-m4/uart/uart.c:39-48 | the two loops together send the digits of the number most significant first |
| `Uart.Usart2.FillDigits` | src/core/cortex-m4/uart/uart.c:39-43 | the 12-character buffer holds the digits least significant first: reversed, its first `top` characters are the digits |
| `Uart.Usart2.WriteBackwards` | src/core/cortex-m4/uart/uart.c:45-48 | the characters sent are buf[top-1] down to buf[0] |
| `Uart.Usart2.WriteString` | src/core/cortex-m4/uart/uart.c:68-74 | the characters sent are those before the first NUL, in order |
| `Uart.FillStep` | src/core/cortex-m4/uart/uart.c:41-42 | storing `'0' + n % 10` and dividing by ten keeps "digits still to produce, then the buffer reversed" equal to the digits of the number |
| `Uart.DigitsForm` | src/core/cortex-m4/uart/uart.c:39-43 | the text produced for a positive number is all digits with no leading '0', and is empty exactly for 0 |
| `Uart.Int32Digits` | src/core/cortex-m4/uart/uart.c:24 | an int32 magnitude has at most ten digits, so the 12-character buffer is large enough |
| `Uart.DigitsLength` | src/core/cortex-m4/uart/uart.c:24 | a number below 10^k has at most k digits |
| `Uart.DigitsValue` | src/core/cortex-m4/uart/uart.c:39-43 | the digits written read back, most significant first, as the number |
| `Uart.IntTextParses` | src/core/cortex-m4/uart/uart.c:22-49 | round trip: `str_to_int` reads back every number in ±INT32_MAX that `uart2_write_int` writes |
| `Uart.IntTextForm` | src/core/cortex-m4/uart/uart.c:27-43 | zero is written as "0", a positive number as digits without a leading zero, a negative one as '-' and the text of its magnitude |
| `Uart.CStringOf` | src/core/cortex-m4/uart/uart.c:70-73 | for text without NUL followed by a NUL, the characters written are exactly that text |
| `Uart.ReverseSnoc` | src/core/cortex-m4/uart/uart.c:45-48 | writing a buffer backwards puts its last character first |
| `Clock.SysClk` | src/core/cortex-m4/clock/clock.c:110-146 | the system clock decoded from SWS and PLLCFGR fits in 32 bits (16 MHz for HSI, 8 MHz for HSE, the PLL formula, 0 for the reserved code) |
| `Clock.PllP` | src/core/cortex-m4/clock/clock.c:132 | the PLLP divisor read back is one of 2, 4, 6, 8 |
| `Clock.AhbCode` | src/core/cortex-m4/clock/clock.c:148-173 | the HPRE encoding of a divisor is 0 or a code 8..15 |
| `Clock.ApbCode` | src/core/cortex-m4/clock/clock.c:175-192 | the PPRE encoding of a divisor is 0 or a code 4..7 |
| `Clock.AhbRoundTrip` | src/core/cortex-m4/clock/clock.c:148-173 | `_decode_prescaler` inverts the HPRE encoding on every divisor, and every code decodes to a divisor whose encoding is the code itself, or 0 for the codes that mean 1 |
| `Clock.ApbRoundTrip` | src/core/cortex-m4/clock/clock.c:175-192 | `_decode_apb_prescaler` inverts the PPRE encoding in the same two directions |
| `Clock.BusClocks` | src/core/cortex-m4/clock/clock.c:194-210 | AHB, APB1 and APB2 clocks never exceed SYSCLK, and the prescaler codes init writes give SYSCLK, SYSCLK/4 and SYSCLK/2 |
| `Clock.AhbQuotient` | src/core/cortex-m4/clock/clock.c:197 | dividing by a decoded HPRE divisor never increases the clock, and code 0 keeps it |
| `Clock.ApbQuotient` | src/core/cortex-m4/clock/clock.c:203-209 | dividing by a decoded PPRE divisor never increases the clock; codes 0b101 and 0b100 divide by 4 and 2 |
| `Clock.PackedM` | src/core/cortex-m4/clock/clock.c:59-62 | in a word packed from fields that fit their positions, PLLM reads back as the M packed |
| `Clock.PackedN` | src/core/cortex-m4/clock/clock.c:59-62 | PLLN reads back as the N packed |
| `Clock.PackedP` | src/core/cortex-m4/clock/clock.c:59-62 | the PLLP code reads back as the code packed |
| `Clock.PackedSrc` | src/core/cortex-m4/clock/clock.c:51-62 | PLLSRC reads back as 1 exactly when the source bit was set |
| `Clock.PackedQ` | src/core/cortex-m4/clock/clock.c:59-62 | PLLQ reads back as the Q packed |
| `Clock.ValidPackable` | src/core/cortex-m4/clock/clock.c:59-62 | for a valid configuration (1 <= M <= 63, N <= 432, P in 2, 4, 6, 8, Q <= 15) the `% 64`, `% 433` and `(P >> 1) - 1` fields fit their positions without overlapping |
| `Clock.MFieldValue` | src/core/cortex-m4/clock/clock.c:59 | `pll_m % 64` is M itself for 1 <= M <= 63 |
| `Clock.NFieldValue` | src/core/cortex-m4/clock/clock.c:60 | `pll_n % 433` is N itself for N <= 432 |
| `Clock.PFieldValue` | src/core/cortex-m4/clock/clock.c:61 | `(pll_p >> 1) - 1` maps P = 2, 4, 6, 8 to codes 0, 1, 2, 3 |
| `Clock.PllcfgrRoundTrip` | src/core/cortex-m4/clock/clock.c:45-62 | round trip: the PLLCFGR word init writes for a valid configuration reads back through the `hal_clock_get_sysclk` decoding (lines 128-135) as the same M (nonzero), N, P, Q and input frequency |
| `Clock.LatencyFive` | src/core/cortex-m4/clock/clock.c:68-71 | FLASH_ACR LATENCY reads 5 after init |
| `Clock.LatencyKeeps` | src/core/cortex-m4/clock/clock.c:70-71 | no FLASH_ACR bit outside LATENCY changes |
| `Clock.SwCode` | src/core/cortex-m4/clock/clock.c:84-106 | the SW code of a known source is below 3 |
| `Clock.CfgrHpre` | src/core/cortex-m4/clock/clock.c:76-80 | after init HPRE reads 0 (SYSCLK not divided) |
| `Clock.CfgrPpre1` | src/core/cortex-m4/clock/clock.c:76-81 | after init PPRE1 reads 0b101 (divide by 4) |
| `Clock.CfgrPpre2` | src/core/cortex-m4/clock/clock.c:76-82 | after init PPRE2 reads 0b100 (divide by 2) |
| `Clock.CfgrSws` | src/core/cortex-m4/clock/clock.c:84-106 | after init SWS reports the source selected |
| `Clock.CfgrSw` | src/core/cortex-m4/clock/clock.c:84-106 | after init SW holds the selected source's code |
| `Clock.CfgrKept` | src/core/cortex-m4/clock/clock.c:74-106 | init changes no CFGR bit outside HPRE, PPRE1, PPRE2, SW and SWS |
| `Clock.KeptHsi` | src/core/cortex-m4/clock/clock.c:85-90 | the HSI branch keeps the bits outside the five fields |
| `Clock.KeptHse` | src/core/cortex-m4/clock/clock.c:91-98 | the HSE branch keeps the bits outside the five fields |
| `Clock.KeptPll` | src/core/cortex-m4/clock/clock.c:99-106 | the PLL branch keeps the bits outside the five fields |
| `Clock.KeptOther` | src/core/cortex-m4/clock/clock.c:74-83 | with an unknown source only the prescalers change |
| `Clock.CfgrUnknownSource` | src/core/cortex-m4/clock/clock.c:84-106 | with an unknown source SW and SWS keep their values too |
| `Clock.CfgrAfterFields` | src/core/cortex-m4/clock/clock.c:73-106 | the whole CFGR contract of init: the three prescaler fields, SW and SWS for a known source, nothing else changed, and SW/SWS unchanged for an unknown source |
| `Clock.OscOnReady` | src/core/cortex-m4/clock/clock.c:6-19 | once the wait ends, the HSE or HSI on and ready bits are both set |
| `Clock.HseOn` | src/core/cortex-m4/clock/clock.c:9-11 | HSEON and HSERDY read set |
| `Clock.HsiOn` | src/core/cortex-m4/clock/clock.c:16-18 | HSION and HSIRDY read set |
| `Clock.OscOnKeeps` | src/core/cortex-m4/clock/clock.c:6-19 | switching an oscillator on clears no RCC_CR bit |
| `Clock.PllReady` | src/core/cortex-m4/clock/clock.c:40-65 | after the PLL restart PLLON and PLLRDY read set |
| `Clock.PllInputHse` | src/core/cortex-m4/clock/clock.c:25-31 | with an HSE input, HSE is on and ready after the PLL restart |
| `Clock.PllInputHsi` | src/core/cortex-m4/clock/clock.c:32-38 | with an HSI input, HSI is on and ready after the PLL restart |
| `Clock.PllKeeps` | src/core/cortex-m4/clock/clock.c:22-66 | the PLL branch clears no RCC_CR bit that was set before init |
| `Clock.CrAfterReady` | src/core/cortex-m4/clock/clock.c:3-66 | after init the system clock's oscillator is on and ready; for the PLL so are the PLL and its HSE or HSI input; no RCC_CR bit is cleared |
| `Clock.SysClkAfterInit` | src/core/cortex-m4/clock/clock.c:3-146 | after init SYSCLK reads 16 MHz for HSI, 8 MHz for HSE and (vco_in / M) * N / P for a valid PLL configuration, and the PLL decoding never divides by zero |
| `Clock.BusClocksAfterInit` | src/core/cortex-m4/clock/clock.c:73-210 | after init AHB runs at SYSCLK, APB1 at SYSCLK/4 and APB2 at SYSCLK/2 |
| `Clock.Rcc.Init` | src/core/cortex-m4/clock/clock.c:3-107 | RCC_CR, PLLCFGR (written only for the PLL source), FLASH_ACR and CFGR become the values of the specification functions the lemmas above describe |
| `Clock.Rcc.StartOscillator` | src/core/cortex-m4/clock/clock.c:6-19 | RCC_CR gets the oscillator's on bit and, once the wait ends, its ready bit |
| `Clock.Rcc.RestartPll` | src/core/cortex-m4/clock/clock.c:40-65 | RCC_CR goes through PLL off, PLL on and locked, and PLLCFGR holds the packed configuration |
| `Clock.Rcc.SelectSource` | src/core/cortex-m4/clock/clock.c:84-106 | CFGR gets SW for a known source and SWS reporting it, and is unchanged for an unknown one |
| `Interrupt.SetLine` | src/core/cortex-m4/interrupt/interrupt.c:12-16 | or-ing the line's bit into word irq/32 keeps the number of enable words |
| `Interrupt.SetLineBits` | src/core/cortex-m4/interrupt/interrupt.c:12-16 | the line's bit reads set in word irq/32, every other bit of that word and every other word are unchanged |
| `Interrupt.Attached` | src/core/cortex-m4/interrupt/interrupt.c:33-46 | the callback table keeps its 128 entries |
| `Interrupt.Dispatch` | src/core/cortex-m4/interrupt/interrupt.c:48-54 | a dispatch calls at most one callback |
| `Interrupt.AttachDispatch` | src/core/cortex-m4/interrupt/interrupt.c:33-54 | attaching then dispatching an in-range line calls the callback exactly once; detaching then dispatching calls nothing; neither changes what any other line dispatches |
| `Interrupt.OutOfRangeSilent` | src/core/cortex-m4/interrupt/interrupt.c:36-51 | for a line below 0 or at or above 128, attach and detach leave the table as it is and dispatch calls nothing |
| `Interrupt.LaneRoundTrip` | src/core/cortex-m4/interrupt/interrupt.c:79-94 | the byte lane written at a shift reads back (lines 117-132) as the byte written; every other lane keeps its byte |
| `Interrupt.LanesDistinct` | src/core/cortex-m4/interrupt/interrupt.c:76-99 | the six configurable exceptions use six different register lanes |
| `Interrupt.LaneShapes` | src/core/cortex-m4/interrupt/interrupt.c:76-99 | every lane is one byte (shift 0, 8, 16 or 24) of SHPR1, SHPR2 or SHPR3 |
| `Interrupt.LaneReadBack` | src/core/cortex-m4/interrupt/interrupt.c:63-137 | a priority written into a lane reads back through `>> 4` as the priority's low four bits |
| `Interrupt.PrioNibble` | src/core/cortex-m4/interrupt/interrupt.c:66 | the normalised byte's upper half is the priority's low four bits |
| `Interrupt.ExceptionPriorityRoundTrip` | src/core/cortex-m4/interrupt/interrupt.c:63-139 | round trip for a system exception: reading after writing gives the priority's low four bits for MemManage, BusFault, UsageFault, SVCall, PendSV and SysTick, and 0xFF for the others |
| `Interrupt.OtherLaneKept` | src/core/cortex-m4/interrupt/interrupt.c:79-94 | a lane write keeps every other lane of the three registers |
| `Interrupt.ExceptionPriorityOthers` | src/core/cortex-m4/interrupt/interrupt.c:63-139 | writing one exception's priority leaves what every other exception reads |
| `Interrupt.Nvic.Enable` | src/core/cortex-m4/interrupt/interrupt.c:7-18 | FAILURE with ISER untouched for a system exception; SUCCESS with the line's bit set in ISER word irq/32 otherwise |
| `Interrupt.Nvic.Disable` | src/core/cortex-m4/interrupt/interrupt.c:20-31 | FAILURE with ICER untouched for a system exception; SUCCESS with the line's bit set in ICER word irq/32 otherwise |
| `Interrupt.Nvic.AttachCallback` | src/core/cortex-m4/interrupt/interrupt.c:33-39 | the table becomes the attached table: the entry stored for an in-range line, nothing otherwise |
| `Interrupt.Nvic.DetachCallback` | src/core/cortex-m4/interrupt/interrupt.c:41-46 | the entry of an in-range line becomes NULL, nothing else changes |
| `Interrupt.Nvic.HandleInterrupt` | src/core/cortex-m4/interrupt/interrupt.c:48-54 | the recorded calls grow by exactly what the table dispatches for the line |
| `Interrupt.Nvic.SetPriority` | src/core/cortex-m4/interrupt/interrupt.c:63-101 | an NVIC line's IPR byte becomes the normalised priority and the SHPRs stay; an exception updates only its SHPR lane; the priority read afterwards is the low four bits, or 0xFF for an exception without a lane |
| `Interrupt.Nvic.SetSystemPriority` | src/core/cortex-m4/interrupt/interrupt.c:76-99 | the SHPR registers become the exception's lane write, unchanged for NMI, HardFault and DebugMonitor |
| `Interrupt.Nvic.GetPriority` | src/core/cortex-m4/interrupt/interrupt.c:103-139 | the value read is a 4-bit priority, or 0xFF for an exception with no lane |
| `TimerReg.BaseBlocks` | include/core/cortex-m4/timer_reg.h:47-72 | `GET_TIMx_BASE` is NULL exactly for the timers other than 1-5 and 9-11, and the register blocks of distinct timers do not overlap |
| `TimerReg.CcxeChannelFour` | include/core/cortex-m4/timer_reg.h:102 | as written, the CCER enable mask shifts by 0, 4, 8 for channels 1-3 and by -4 for channel 4 |
| `TimerReg.CcxeMaskBits` | include/core/cortex-m4/timer_reg.h:102 | the corrected mask of channel n is the single bit 4(n-1), equal to the macro on channels 1-3, and the masks of distinct channels are disjoint |
| `TimerReg.EvenChannelReserved` | include/core/cortex-m4/timer_reg.h:106-121 | as written, an even channel's preload bit is bit 17 and its mode field starts at bit 18, both outside the 16 bits of a CCMR register |
| `TimerReg.OcPePos` | include/core/cortex-m4/timer_reg.h:106 | the corrected preload-enable position is bit 3 or bit 11 |
| `TimerReg.OcMPos` | include/core/cortex-m4/timer_reg.h:107 | the corrected mode-field position is bit 4 or bit 12 |
| `TimerReg.CcmrFields` | include/core/cortex-m4/timer_reg.h:106-121 | with the corrected positions, mask and preload bit lie in the low 16 bits; PWM mode 1 and 2 read back from the mode field as 6 and 7 and lie inside it; the preload bit is outside the mode field; the two channels of a register use disjoint bits |
| `TimerReg.OddChannelsAsWritten` | include/core/cortex-m4/timer_reg.h:106-107 | for odd channels the corrected positions are those the header writes |
| `Timer.ReloadPeriod` | src/core/cortex-m4/timer/timer.c:12-20 | the reload value fits the 24 bits of RVR; for a tick of 1 to 2^24 core cycles, reload + 1 is exactly the cycles per tick; a tick of zero cycles wraps to 0xFFFFFF |
| `Timer.MulBound` | src/core/cortex-m4/timer/timer.c:16 | the product of two 32-bit values fits the 64-bit arithmetic the reload computation uses |
| `Timer.TicksNeeded` | src/core/cortex-m4/timer/timer.c:30-33 | the ticks waited are at least one, and for a delay of at least one tick they are the whole ticks that fit the delay |
| `Timer.DelayTruncatedStart` | src/core/cortex-m4/timer/timer.c:34-35 | as written, once the tick counter reaches 2^32 a one-tick delay started at that tick ends with no tick elapsed |
| `Timer.DelayDoneElapsed` | src/core/cortex-m4/timer/timer.c:34-35 | the corrected loop test holds exactly when the needed ticks have passed, and the written test agrees with it while the counter is below 2^32 |
| `Timer.MicrosStep` | src/core/cortex-m4/timer/timer.c:47-50 | one SysTick interrupt advances the 32-bit microsecond count by one tick duration modulo 2^32, also across the 64-bit counter's wrap |
| `Timer.SysTick.constructor` | src/core/cortex-m4/timer/timer.c:8-10 | no tick yet, a 1 us tick duration and a zero reload value |
| `Timer.SysTick.Init` | src/core/cortex-m4/timer/timer.c:12-27 | the tick duration is stored, RVR and the stored reload get the 24-bit reload value, CVR is cleared, CSR gets ENABLE, TICKINT and CLKSOURCE, and the tick count is kept |
| `Timer.SysTick.Handler` | src/core/cortex-m4/timer/timer.c:50 | the 64-bit tick counter grows by one, and the microsecond count by one tick duration |
| `Timer.SysTick.Micros` | src/core/cortex-m4/timer/timer.c:47-49 | the microsecond count is the tick product truncated to 32 bits |
| `Timer.SysTick.Millis` | src/core/cortex-m4/timer/timer.c:46 | the millisecond count is the microsecond count divided by 1000, rounded down |
| `Timer.SysTick.DelayUs` | src/core/cortex-m4/timer/timer.c:29-38 | with the start tick kept in 64 bits, the delay returns after exactly max(1, us/duration) ticks |
| `Timer.SysTick.DelayMs` | src/core/cortex-m4/timer/timer.c:40 | a millisecond delay is the microsecond delay of `ms * 1000` computed in 32 bits |
| `Timer.TimerBaseAgrees` | src/core/cortex-m4/timer/timer.c:51-72 | `_get_timer_base` and the header's `GET_TIMx_BASE` agree on every timer number, and a timer has a base exactly when it is TIM1..TIM5 or TIM9..TIM11 |
| `Timer.RccBits` | src/core/cortex-m4/timer/timer.c:74-103 | a supported timer has its clock bit on APB1 exactly when it is TIM2..TIM5 and on APB2 otherwise; unsupported timers have none; no two timers share a bit |
| `Timer.TimerIrqLines` | src/core/cortex-m4/timer/timer.c:336-409 | only TIM2..TIM5 and TIM9 get an interrupt line, the lines are distinct and inside the callback table |
| `Timer.InitValues` | src/core/cortex-m4/timer/timer.c:105-216 | TIM9..TIM11 hold a 16-bit prescaler and every timer but TIM2 and TIM5 a 16-bit auto-reload; a value that fits reads back unchanged |
| `Timer.SetBit0Sets` | src/core/cortex-m4/timer/timer.c:231 | setting CEN or UIE sets bit 0 |
| `Timer.SetBit0Keeps` | src/core/cortex-m4/timer/timer.c:231 | setting bit 0 keeps every other bit |
| `Timer.ClearBit0Clears` | src/core/cortex-m4/timer/timer.c:248 | clearing CEN or UIF clears bit 0 |
| `Timer.ClearBit0Keeps` | src/core/cortex-m4/timer/timer.c:248 | clearing bit 0 keeps every other bit |
| `Timer.ClearUndoesSet` | src/core/cortex-m4/timer/timer.c:226-258 | clearing bit 0 undoes setting it when it was clear |
| `Timer.StopUndoesStart` | src/core/cortex-m4/timer/timer.c:226-258 | `timer_stop` after `timer_start` restores the registers of a stopped timer |
| `Timer.InitialisedRuns` | src/core/cortex-m4/timer/timer.c:105-216 | after init a timer runs (CEN set) from count 0 with its prescaler and auto-reload, and its interrupt enable is kept |
| `Timer.Timers.EnableRcc` | src/core/cortex-m4/timer/timer.c:74-103 | exactly the timer's clock bit is or-ed into APB1ENR or APB2ENR |
| `Timer.Timers.Init` | src/core/cortex-m4/timer/timer.c:217-224 | a supported timer gets its clock enabled and its block initialised; any other timer number changes nothing |
| `Timer.Timers.AdvInit` | src/core/cortex-m4/timer/timer.c:180-216 | TIM1's clock bit is set and its block becomes the initialised block |
| `Timer.Timers.Gp1Init` | src/core/cortex-m4/timer/timer.c:105-141 | TIM2..TIM5: clock bit set, block initialised with a 32-bit auto-reload only on TIM2 and TIM5 |
| `Timer.Timers.Gp2Init` | src/core/cortex-m4/timer/timer.c:143-178 | TIM9..TIM11: clock bit set, block initialised with 16-bit prescaler and auto-reload |
| `Timer.Timers.Start` | src/core/cortex-m4/timer/timer.c:226-241 | CEN is set in the timer's CR1; unsupported timers change nothing |
| `Timer.Timers.Stop` | src/core/cortex-m4/timer/timer.c:243-258 | CEN is cleared in the timer's CR1; unsupported timers change nothing |
| `Timer.Timers.Reset` | src/core/cortex-m4/timer/timer.c:259-269 | the timer's counter becomes 0; nothing else changes |
| `Timer.Timers.GetCount` | src/core/cortex-m4/timer/timer.c:271-281 | CNT of the timer's block for TIM1-5 and TIM9-11, and 0 for every other number, so a nonzero count is only ever read from a supported timer |
| `Timer.Timers.ClearInterruptFlag` | src/core/cortex-m4/timer/timer.c:283-292 | UIF is cleared for TIM2..TIM5 and TIM9..TIM11; TIM1 and the others are not touched |
| `Timer.Timers.SetInterruptEnableBit` | src/core/cortex-m4/timer/timer.c:319-334 | UIE is set in the DIER of every supported timer |
| `Timer.Timers.EnableInterrupt` | src/core/cortex-m4/timer/timer.c:336-360 | the NVIC line of TIM2..TIM5 or TIM9 is enabled and UIE is set for every supported timer, TIM1 included |
| `Timer.Timers.AttachCallback` | src/core/cortex-m4/timer/timer.c:362-385 | the callback is attached to the timer's line for TIM2..TIM5 and TIM9, and the table is unchanged for the others |
| `Timer.Timers.DetachCallback` | src/core/cortex-m4/timer/timer.c:386-409 | the entry of the timer's line becomes NULL for TIM2..TIM5 and TIM9, and the table is unchanged for the others |
| `GpioReg.PortAddrNamed` | include/core/cortex-m4/gpio_reg.h:37-74 | `GPIO_GET_PORT` gives a PA..PE pin the block of its own port and a PH pin the block at GPIOH_BASE_ADDR; `GPIO_GET_PIN` is below 16 |
| `GpioReg.PortPinInjective` | include/core/cortex-m4/gpio_reg.h:55-74 | two pins with the same port block and the same pin number are the same pin |
| `Gpio.PinShift` | src/core/cortex-m4/gpio/gpio.c:4 | the pin within its port, as a shift amount, is `pin % 16` |
| `Gpio.WithModeFields` | src/core/cortex-m4/gpio/gpio.c:20-24 | after clearing and setting, the pin's two MODER bits read back as `mode & 3` and every other pin's mode is unchanged |
| `Gpio.WithLevelBits` | src/core/cortex-m4/gpio/gpio.c:35-38 | the pin's ODR bit reads back as the requested state (set for any nonzero state) and every other bit is unchanged |
| `Gpio.SetLevelBits` | src/core/cortex-m4/gpio/gpio.c:36 | or-ing the pin's bit sets it and keeps the others |
| `Gpio.ClearLevelBits` | src/core/cortex-m4/gpio/gpio.c:38 | and-ing with the inverted bit clears it and keeps the others |
| `Gpio.PortIndexAgainstHeader` | src/core/cortex-m4/gpio/gpio.c:3-4 | the driver's index pin/16 is the header's port number (gpio_reg.h line 55) for PA..PE, but 5 where the header uses 7 for PH |
| `Gpio.SingleBitSet` | src/core/cortex-m4/gpio/gpio.c:15-16 | setting a port clock bit that reads set changes nothing, so the conditional write equals an unconditional or |
| `Gpio.Ports.SetMode` | src/core/cortex-m4/gpio/gpio.c:9-25 | AHB1ENR gets the port's clock bit, only the pin's port MODER changes (to the two-bit mode write) and ODR is unchanged |
| `Gpio.Ports.DigitalWrite` | src/core/cortex-m4/gpio/gpio.c:26-38 | only the pin's port ODR changes, to the bit write for the state |
| `Flash.Padded` | src/core/cortex-m4/flash/flash.c:125-139 | the programmed bytes have the padded length, start with the data, and an odd-length value is followed by one 0xFF pad byte |
| `Flash.PaddedSizeWraps` | src/core/cortex-m4/flash/flash.c:125 | the `uint8_t` padded size is the intended even count for every size below 255 and wraps to 0 for 255 |
| `Flash.WriteReadRoundTrip` | src/core/cortex-m4/flash/flash.c:120-171 | after a (corrected) write of `d` at `a`, the bytes at `a` read back as `d`, and nothing before `a` or after the padded range changes |
| `Flash.MaxOddValueLost` | src/core/cortex-m4/flash/flash.c:125-128 | as written, a 255-byte write programs nothing, so a 255-byte value starting with 0 over erased flash does not read back |
| `Flash.ProgrammedAt` | src/core/cortex-m4/flash/flash.c:128-142 | byte by byte: inside the padded range the flash holds the padded data, outside it the old bytes |
| `Flash.LowOfHalfWord` | src/core/cortex-m4/flash/flash.c:133 | the low byte of the half-word `(hi << 8) OR lo` is `lo` |
| `Flash.HighOfHalfWord` | src/core/cortex-m4/flash/flash.c:161 | the high byte of the half-word `(hi << 8) OR lo` is `hi` |
| `Flash.XorUpdate` | src/core/cortex-m4/flash/flash.c:80-90 | changing one byte of a value changes its XOR checksum by exactly old-byte xor new-byte |
| `Flash.XorDetects` | src/core/cortex-m4/flash/flash.c:212 | the XOR checksum detects every single-byte corruption of the value |
| `Flash.Crc` | src/core/cortex-m4/flash/flash.c:80-90 | the loop's result is the XOR of the first `size` bytes, 0 for size 0 |
| `Flash.FreeFrom` | src/core/cortex-m4/flash/flash.c:91-103 | the header walk stops at a slot at or past its start whose header has no magic byte or lies at or past the storage end |
| `Flash.FirstValid` | src/core/cortex-m4/flash/flash.c:105-119 | a record found is on the walk, carries the key and the valid status, and ends no later than the free slot |
| `Flash.LookupRecord` | src/core/cortex-m4/flash/flash.c:204-215 | a first valid record whose value XOR matches its crc byte makes the read return that value |
| `Flash.LookupAt` | src/core/cortex-m4/flash/flash.c:204-215 | the read through a first valid record gives its value bytes when the checksum matches and nothing otherwise |
| `Flash.WalkFrame` | src/core/cortex-m4/flash/flash.c:91-119 | bytes at or past the free slot do not change the walk up to it or the records it finds there |
| `Flash.BelowFrame` | src/core/cortex-m4/flash/flash.c:91-119 | a byte changed below the walk's position does not change where the walk stops or what it finds |
| `Flash.MarkFrame` | src/core/cortex-m4/flash/flash.c:178-188 | marking the key's first valid record with another status keeps the free slot, and the key's first valid record becomes the next one after it |
| `Flash.RewriteStatus` | src/core/cortex-m4/flash/flash.c:181-185 | rewriting a header with only its status changed changes exactly the status byte |
| `Flash.MarkedIs` | src/core/cortex-m4/flash/flash.c:178-188 | the first step of a save changes only the marked record's status byte, to DELETED |
| `Flash.MarkedWalk` | src/core/cortex-m4/flash/flash.c:178-188 | the first step of a save keeps the free slot and every byte from it on, and leaves the record after the marked one as the key's first valid record |
| `Flash.MarkedNone` | src/core/cortex-m4/flash/flash.c:178-188 | with at most one valid record of the key, none is left after the first step |
| `Flash.SizeByte` | src/core/cortex-m4/flash/flash.c:193 | the `uint8_t` size field of a value below 256 bytes reads back as the value's length |
| `Flash.HeaderFields` | include/core/cortex-m4/flash.h:14-22 | the six header bytes read back as magic, key, size, status, reserved and crc in the struct's field order |
| `Flash.SavedHeader` | src/core/cortex-m4/flash/flash.c:190-196 | a save writes the header {magic, key, size, valid, reserved, crc} at the old free slot |
| `Flash.SavedValue` | src/core/cortex-m4/flash/flash.c:199-200 | a save writes the value right after the six header bytes, with the corrected padded count of the `flash.c:125` finding |
| `Flash.SavedBelow` | src/core/cortex-m4/flash/flash.c:190-200 | below the old free slot a save leaves the flash as the first step left it |
| `Flash.RecordAt` | src/core/cortex-m4/flash/flash.c:105-119 | a header and value written at a slot below the end form a walk step with the key, the valid status, the length, the value and its checksum |
| `Flash.SavedRecord` | src/core/cortex-m4/flash/flash.c:173-201 | the appended record sits at the old free slot with the magic byte, the key, the valid status, the value's length, the value and its XOR, with the corrected padded count of the `flash.c:125` finding |
| `Flash.SavedWalk` | src/core/cortex-m4/flash/flash.c:173-201 | after a save the walk up to the old free slot finds no valid record of the key and reaches that slot |
| `Flash.SavedFirstValid` | src/core/cortex-m4/flash/flash.c:173-201 | after a save the key's first valid record is the new one |
| `Flash.SaveThenLookup` | src/core/cortex-m4/flash/flash.c:173-215 | reading a key after saving a 1..255-byte value under it returns exactly that value, when the log had a free slot and at most one valid record of the key, with the corrected padded count of the `flash.c:125` finding |
| `Flash.SavedErasedFrom` | src/core/cortex-m4/flash/flash.c:173-201 | a save over an erased tail leaves every byte past the new value erased |
| `Flash.StopsAfter` | src/core/cortex-m4/flash/flash.c:95-99 | a walk step followed by an erased byte ends the walk right there |
| `Flash.SavedFree` | src/core/cortex-m4/flash/flash.c:173-201 | after a save the free slot is just past the new record's value |
| `Flash.SaveKeepsShape` | src/core/cortex-m4/flash/flash.c:173-201 | a save keeps the log in shape: the free slot moves past the new record, everything after it stays erased and the key has at most one valid record (other keys: `Flash.SaveKeepsOthers`) |
| `Flash.SaveKeepsOthers` | src/core/cortex-m4/flash/flash.c:173-215 | a save under one key leaves every other key as it was: the same first valid record, at most one valid record if there was at most one before, and the same result from `read_data_from_flash` |
| `Flash.SaveTwiceLookup` | src/core/cortex-m4/flash/flash.c:173-215 | after saves under two different keys, each key reads back the value saved under it |
| `Flash.SavedOthersFirst` | src/core/cortex-m4/flash/flash.c:105-120 | after a save, the walk of `_flash_find_first_valid_entry_` finds the same first valid record of every other key |
| `Flash.SavedOtherRecord` | src/core/cortex-m4/flash/flash.c:173-201 | the first valid record of another key keeps its size, crc and value bytes through a save, and the walk past it finds the same next valid record |
| `Flash.MarkedOthers` | src/core/cortex-m4/flash/flash.c:178-188 | marking the saved key's old record DELETED keeps the free slot and the first valid record of every other key |
| `Flash.StatusFrame` | src/core/cortex-m4/flash/flash.c:105-120 | rewriting the status byte of a record whose key differs keeps the walk's end and the other key's first valid record |
| `Flash.OnWalkApart` | src/core/cortex-m4/flash/flash.c:92-98 | two records on the walk do not overlap: the earlier ends at or before the later, which the walk reaches from there |
| `Flash.RecordsApart` | src/core/cortex-m4/flash/flash.c:105-120 | the first valid records of two different keys do not overlap |
| `Flash.Storage.constructor` | src/core/cortex-m4/flash/flash.c:29-39 | a fresh storage of a well-formed layout is fully erased |
| `Flash.Storage.ProgramHalfWord` | src/core/cortex-m4/flash/flash.c:56-69 | programming a half-word writes its low byte at `addr` and its high byte at `addr + 1` and nothing else |
| `Flash.Storage.ReadHalfWord` | src/core/cortex-m4/flash/flash.c:76-79 | the half-word read has the byte at `addr` as its low byte and the next one as its high byte |
| `Flash.Storage.WriteData` | src/core/cortex-m4/flash/flash.c:120-145 | size 0 gives FLASH_ERR_WRITE with the flash unchanged; otherwise FLASH_OK with exactly the padded data programmed at `addr`, with the corrected padded count of the `flash.c:125` finding |
| `Flash.Storage.ReadData` | src/core/cortex-m4/flash/flash.c:147-171 | size 0 gives FLASH_ERR_NOT_FOUND with the buffer unchanged; otherwise FLASH_OK with the first `size` bytes copied from `addr` and the rest of the buffer unchanged, with the corrected padded count of the `flash.c:125` finding |
| `Flash.Storage.FindNextFree` | src/core/cortex-m4/flash/flash.c:91-103 | the result is the walk's stopping slot, or None when that is at or past the storage end |
| `Flash.Storage.FindFirstValid` | src/core/cortex-m4/flash/flash.c:105-119 | the result is the key's first valid record on the walk |
| `Flash.Storage.MarkDeleted` | src/core/cortex-m4/flash/flash.c:181-187 | the record's header is copied, its status set to DELETED and written back over it |
| `Flash.Storage.MarkLast` | src/core/cortex-m4/flash/flash.c:178-188 | the key's first valid record, if any, is marked DELETED and nothing else changes |
| `Flash.Storage.Append` | src/core/cortex-m4/flash/flash.c:190-201 | the new header is programmed at the free slot and the value right after it, with the corrected padded count of the `flash.c:125` finding |
| `Flash.Storage.Save` | src/core/cortex-m4/flash/flash.c:173-201 | with no free slot or size 0, FLASH_ERR_NOT_FOUND and no change; otherwise FLASH_OK and the flash as `Saved` describes, with the corrected padded count of the `flash.c:125` finding |
| `Flash.Storage.Read` | src/core/cortex-m4/flash/flash.c:204-215 | FLASH_ERR_NOT_FOUND without touching size or buffer when the key has no valid record; otherwise the size and value are copied out, and FLASH_OK exactly when the lookup finds a value, which is the one copied |
| `Flash.Storage.ReadRecord` | src/core/cortex-m4/flash/flash.c:209-214 | the record's size and value are copied out whatever the checksum, and FLASH_OK exactly when their XOR matches the crc byte |
| `I2cRegs.WithAckBits` | src/core/cortex-m4/i2c/i2c.c:274-278 | setting or clearing CR1.ACK (bit 10) leaves ACK as asked and every other CR1 bit as it was |
| `I2cRegs.WithAckTwice` | src/core/cortex-m4/i2c/i2c.c:357-360 | of two successive ACK writes the second one decides the bit |
| `I2cRegs.InitRegsCr1` | src/core/cortex-m4/i2c/i2c.c:71-95 | after initialisation PE is set, SWRST is clear and every other CR1 bit is as before |
| `I2cRegs.InitRegsCr2` | src/core/cortex-m4/i2c/i2c.c:79-80 | FREQ holds the low six bits of the APB1 clock in MHz and the other CR2 bits are kept |
| `I2cRegs.InitFreqExact` | src/core/cortex-m4/i2c/i2c.c:79-80 | below 64 MHz, FREQ holds the APB1 clock in whole MHz exactly |
| `I2cRegs.InitRegsStandard` | src/core/cortex-m4/i2c/i2c.c:83-87 | in standard mode FS is clear and the CCR field is APB1 / (2 * 100 kHz) |
| `I2cRegs.InitRegsFast` | src/core/cortex-m4/i2c/i2c.c:83-91 | in fast mode FS is set and the CCR field is APB1 / (3 * 400 kHz) |
| `I2cRegs.InitTriseStandard` | src/core/cortex-m4/i2c/i2c.c:89 | in standard mode TRISE is the low five bits of the programmed CR2 plus one, so between 1 and 32 |
| `I2cRegs.InitTriseFast` | src/core/cortex-m4/i2c/i2c.c:92-93 | in fast mode TRISE is FREQ * 300 / 1000 + 1, so between 1 and 19 |
| `I2cRegs.FieldWrite` | src/core/cortex-m4/i2c/i2c.c:79-80 | a clear-then-or write of a field puts the value's field bits there and keeps the bits outside the field |
| `I2c.InitMaskAdd` | src/core/cortex-m4/i2c/i2c.c:96-108 | adding a bus's bit to a mask that lacks it sets exactly that bit and keeps the mask within bits 0 to 2 |
| `I2c.AddrDirection` | src/core/cortex-m4/i2c/i2c.c:215 | the address byte carries the low seven address bits above the direction bit, which is 0 for a write and 1 for a read |
| `I2c.RunSpec` | src/core/cortex-m4/i2c/i2c.c:124-129 | the counted run is a prefix of successful waits ended by the planned count or by a wait that times out |
| `I2c.RunIs` | src/core/cortex-m4/i2c/i2c.c:124-129 | a prefix of successful waits ended by the planned count or a timeout is the counted run |
| `I2c.RunShift` | src/core/cortex-m4/i2c/i2c.c:205-234 | after a series of successful waits, the rest of a transaction's waits form a fresh series |
| `I2c.RunGrow` | src/core/cortex-m4/i2c/i2c.c:222-228 | one more successful wait lengthens a run that has not stopped |
| `I2c.RunStop` | src/core/cortex-m4/i2c/i2c.c:222-228 | a run that has not stopped stops at the next wait that times out |
| `I2c.RunExtend` | src/core/cortex-m4/i2c/i2c.c:205-234 | a series that stopped early stops at the same wait however many more waits were planned |
| `I2c.AckAfterAppend` | src/core/cortex-m4/i2c/i2c.c:271-292 | following the ACK writes of two runs of bus actions is following the first, then the second |
| `I2c.AckAfterNoAck` | src/core/cortex-m4/i2c/i2c.c:205-234 | bus actions that write no ACK leave the ACK bit as it was |
| `I2c.DataEventsAt` | src/core/cortex-m4/i2c/i2c.c:222-228 | a write puts exactly one data action per byte on the bus, in order |
| `I2c.DataEventsPlain` | src/core/cortex-m4/i2c/i2c.c:178-186 | data actions are neither START, STOP nor ACK writes |
| `I2c.HalfUpAt` | src/core/cortex-m4/i2c/i2c.c:178-186 | with two waits per byte, 2i successful waits have sent i bytes and 2i+1 have sent i+1 |
| `I2c.WriteTraceOk` | src/core/cortex-m4/i2c/i2c.c:205-234 | a write whose waits all succeed issues START, the address, every byte in order and STOP |
| `I2c.TxTraceFull` | src/core/cortex-m4/i2c/i2c.c:326-343 | a transmit phase whose waits all succeed issues START, the address and every byte, without STOP |
| `I2c.SendTraceFull` | src/core/cortex-m4/i2c/i2c.c:222-228 | a data loop whose waits all succeed puts every byte on the bus |
| `I2c.WriteTraceStop` | src/core/cortex-m4/i2c/i2c.c:205-234 | a write ends with its only STOP unless its START timed out, and then it issues none |
| `I2c.WriteTraceSent` | src/core/cortex-m4/i2c/i2c.c:215-231 | the bytes a write put on the bus before a timeout are a prefix of the data, and a STOP follows them |
| `I2c.AckControlsForm` | src/core/cortex-m4/i2c/i2c.c:271-279 | the receive loop turns ACK on before every byte but the last, and ACK off then STOP before the last |
| `I2c.AckControlsAck` | src/core/cortex-m4/i2c/i2c.c:271-279 | after the controls for m of len bytes ACK is on exactly when the last control was not for the last byte |
| `I2c.ReadTraceOk` | src/core/cortex-m4/i2c/i2c.c:254-295 | a read whose waits all succeed issues START, the address, ACK on before each byte but the last, ACK off and STOP before the last, and ACK on again |
| `I2c.ReadTraceStop` | src/core/cortex-m4/i2c/i2c.c:254-295 | a read issues STOP unless its START timed out, and after a timeout STOP is its last action |
| `I2c.RxTraceAck` | src/core/cortex-m4/i2c/i2c.c:271-292 | after the receive part of a read ACK is on unless the wait for the last byte timed out |
| `I2c.ReadAckTrace` | src/core/cortex-m4/i2c/i2c.c:254-295 | the closed form of a read's final ACK bit is what the ACK writes of its bus actions leave |
| `I2c.ReceivedAt` | src/core/cortex-m4/i2c/i2c.c:288 | the received bytes are the successive values of DR |
| `I2c.FilledForm` | src/core/cortex-m4/i2c/i2c.c:271-289 | a buffer filled in its first k places holds the k received values, then its old contents |
| `I2c.FilledNext` | src/core/cortex-m4/i2c/i2c.c:288 | storing the next DR value at the next index fills one more place |
| `I2c.WriteReadEarly` | src/core/cortex-m4/i2c/i2c.c:326-343 | a write-then-read whose write phase timed out issued only that phase's actions, stored nothing and left ACK alone |
| `I2c.WriteReadLate` | src/core/cortex-m4/i2c/i2c.c:345-407 | a write-then-read whose write phase went through issued the full write phase, then the read phase's actions |
| `I2c.WriteReadTraceOk` | src/core/cortex-m4/i2c/i2c.c:317-407 | a write-then-read whose waits all succeed issues START, address, bytes, a repeated START, the read address and the ACK and STOP sequence of the one-byte or the many-byte case |
| `I2c.ReadPhaseTraceOk` | src/core/cortex-m4/i2c/i2c.c:345-407 | a read phase that went through issues the repeated START, the read address and the ACK and STOP sequence of its case |
| `I2c.RxPhaseTraceOk` | src/core/cortex-m4/i2c/i2c.c:357-406 | a single byte is read with ACK on then off, then STOP; longer reads turn ACK on twice, off before the last byte, STOP, and on again |
| `I2c.WriteReadNoStopBeforeRestart` | src/core/cortex-m4/i2c/i2c.c:337-346 | once the write phase is through, the repeated START directly follows the last byte, with no STOP before it |
| `I2c.RxPhaseTimeoutNoStop` | src/core/cortex-m4/i2c/i2c.c:376-401 | a timeout before the last-but-one byte of a many-byte read phase returns without any STOP |
| `I2c.RxPhaseAckTrace` | src/core/cortex-m4/i2c/i2c.c:357-406 | the closed form of the read phase's ACK bit is what its ACK writes leave |
| `I2c.TxTraceNoAck` | src/core/cortex-m4/i2c/i2c.c:326-343 | the write phase writes no ACK |
| `I2c.WriteReadAckTrace` | src/core/cortex-m4/i2c/i2c.c:317-407 | the closed form of a write-then-read's final ACK bit is what the ACK writes of its bus actions leave |
| `I2c.ReadPhaseAckTrace` | src/core/cortex-m4/i2c/i2c.c:345-407 | the closed form of the ACK bit after the repeated START and read phase is what its ACK writes leave |
| `I2c.Peripheral.Configure` | src/core/cortex-m4/i2c/i2c.c:71-95 | the register writes of master initialisation leave CR1, CR2, CCR and TRISE as `InitRegs` describes |
| `I2c.Driver.constructor` | src/core/cortex-m4/i2c/i2c.c:33 | the initialisation mask starts at 0, no bus action or wait has happened and every bus is at its reset values |
| `I2c.Driver.GetInitStatus` | src/core/cortex-m4/i2c/i2c.c:42 | the mask returned uses only bits 0 to 2, one per bus |
| `I2c.Driver.Init` | src/core/cortex-m4/i2c/i2c.c:62-115 | an initialised bus gives ERR_REINIT, a non-master address ERR_BUS, both changing nothing; otherwise OK, the bus's bit set in the mask, its clock enabled and its registers programmed |
| `I2c.Driver.WaitFlag` | src/core/cortex-m4/i2c/i2c.c:124-129 | the wait succeeds exactly when its flag comes up within TIMEOUT polls |
| `I2c.Driver.StartCondition` | src/core/cortex-m4/i2c/i2c.c:137-143 | START is requested, then OK exactly when SB comes up in time, TIMEOUT otherwise |
| `I2c.Driver.StopCondition` | src/core/cortex-m4/i2c/i2c.c:150-152 | STOP is requested |
| `I2c.Driver.WriteAddress` | src/core/cortex-m4/i2c/i2c.c:161-169 | the address byte goes to DR, then OK exactly when ADDR comes up in time |
| `I2c.Driver.WriteData` | src/core/cortex-m4/i2c/i2c.c:178-186 | a TXE timeout sends nothing; otherwise the byte goes on the bus and OK exactly when BTF comes up in time |
| `I2c.Driver.AckControl` | src/core/cortex-m4/i2c/i2c.c:274-278 | CR1.ACK of the bus ends as asked |
| `I2c.Driver.ReadDr` | src/core/cortex-m4/i2c/i2c.c:288 | the byte is the next value DR delivers |
| `I2c.Driver.OpenTransfer` | src/core/cortex-m4/i2c/i2c.c:209-219 | START, then the address; a timeout on the address is followed by STOP, one on START by nothing |
| `I2c.Driver.SendBytes` | src/core/cortex-m4/i2c/i2c.c:221-228 | the bytes go out in order until the first wait that times out, and OK exactly when none does |
| `I2c.Driver.TransmitPhase` | src/core/cortex-m4/i2c/i2c.c:326-343 | START, address and data, with a STOP after any timeout past START, and OK exactly when every wait succeeds |
| `I2c.Driver.Write` | src/core/cortex-m4/i2c/i2c.c:205-234 | the bus actions are those of `WriteTrace` for the waits that succeeded, and OK exactly when all of them did |
| `I2c.Driver.ReceiveStore` | src/core/cortex-m4/i2c/i2c.c:282-288 | on RXNE the next DR value is stored at the next index; on a timeout the buffer is unchanged |
| `I2c.Driver.ReceiveByte` | src/core/cortex-m4/i2c/i2c.c:272-288 | one pass of the receive loop: the ACK control for the byte, then the byte stored, or STOP after a timeout |
| `I2c.Driver.ReceiveBytes` | src/core/cortex-m4/i2c/i2c.c:271-289 | the receive loop stores DR values in order until the first timeout, with ACK off exactly when the last byte's control was written |
| `I2c.Driver.ReceiveAll` | src/core/cortex-m4/i2c/i2c.c:271-294 | the receive loop, then ACK on again after a complete read |
| `I2c.Driver.ReadInto` | src/core/cortex-m4/i2c/i2c.c:261-294 | START, read address and receive loop; the stored bytes, actions and ACK bit follow from the number of successful waits |
| `I2c.Driver.Read` | src/core/cortex-m4/i2c/i2c.c:254-295 | a zero length or missing buffer gives ERR_BUS with nothing done; otherwise the bus actions are `ReadTrace`, the buffer holds the DR values received, and OK exactly when every wait succeeds |
| `I2c.Driver.RestartTransfer` | src/core/cortex-m4/i2c/i2c.c:346-355 | the repeated START, then the read address; STOP after a timeout on either |
| `I2c.Driver.ReceiveSingle` | src/core/cortex-m4/i2c/i2c.c:359-368 | ACK off and STOP, then the single byte stored when RXNE comes up in time |
| `I2c.Driver.ReceiveLeading` | src/core/cortex-m4/i2c/i2c.c:376-401 | the bytes before the last two are stored in order until the first timeout |
| `I2c.Driver.ReceiveLastTwo` | src/core/cortex-m4/i2c/i2c.c:377-395 | the last-but-one byte, then ACK off and STOP, then the last byte |
| `I2c.Driver.ReceiveMany` | src/core/cortex-m4/i2c/i2c.c:370-406 | a read phase of two or more bytes stores DR values in order until the first timeout, and ends with ACK on after a complete read |
| `I2c.Driver.ReceiveTail` | src/core/cortex-m4/i2c/i2c.c:377-406 | the last two bytes, then ACK on again once both arrived |
| `I2c.Driver.ReceivePhase` | src/core/cortex-m4/i2c/i2c.c:357-407 | ACK on, then the one-byte or many-byte read phase, as `RxPhaseTrace` and `RxPhaseAck` describe |
| `I2c.Driver.ReadPhase` | src/core/cortex-m4/i2c/i2c.c:345-407 | the repeated START, the read address and the read phase |
| `I2c.Driver.ReadAfterWrite` | src/core/cortex-m4/i2c/i2c.c:345-407 | after a complete write phase, the whole transaction's actions, stored bytes and ACK bit are those of `WriteReadTrace`, `RxStored` and `WriteReadAck` |
| `I2c.Driver.WriteReadInto` | src/core/cortex-m4/i2c/i2c.c:326-407 | the write phase, then the read phase when the write phase went through |
| `I2c.Driver.WriteRead` | src/core/cortex-m4/i2c/i2c.c:317-408 | a zero read length or missing buffer gives ERR_BUS with nothing done; otherwise the actions are `WriteReadTrace`, the buffer holds the DR values received, and OK exactly when every wait succeeds |

## Left out

- Busy-waits on hardware flags (clock ready and switch polls, the flash BSY wait, the UART TXE wait): each is taken to end, with the registers then holding what the hardware reports.
- The flash unlock/lock key sequence and the erase/program register choreography (`flash.c` lines 15-79): a half-word program writes two bytes, and erased storage is 0xFF bytes.
- The storage start and end, the magic byte and the VALID/DELETED codes come from a flash register header that is not part of this model; they are the fields of a `Layout`, with the magic byte taken to differ from 0xFF.
- The uninitialised `reserved` header byte is a parameter of `Flash.Storage.Save`, so every value it may hold is covered.
- The status checks in `save_data_to_flash` after its two inner writes cannot fail for the sizes written (6 bytes, and a size already checked nonzero), so they are not modelled as separate exits.
- Flash.Storage.Save: requires that the value buffer is not the flash array itself, which the C code takes for granted.
- Flash.Storage.WriteData: programs the corrected padded count (256 bytes for a 255-byte value, see Findings); as written, `_flash_write_data_` programs nothing for size 255 and still returns FLASH_OK (`Flash.MaxOddValueLost`).
- Flash.Storage.ReadData: reads the corrected padded count; as written, `_flash_read_data_` copies no byte for size 255 and still returns FLASH_OK.
- Flash.Storage.Append: programs the value through the corrected `Flash.Storage.WriteData`, so for a 255-byte value it states a write the code as written does not make.
- Flash.Storage.Save: ends in the state `Flash.Saved` describes, which holds the corrected write; as written, a 255-byte value leaves its value bytes erased.
- Flash.Saved: the value bytes it places are those of the corrected write, not the as-written one that drops a 255-byte value.
- Flash.SavedValue: holds for every size 1..255 only because of the corrected padded count; as written, a 255-byte value is not programmed.
- Flash.SavedRecord: the value and its XOR as stated hold for a 255-byte value only with the corrected padded count; as written, the header is programmed but the value bytes stay erased, so the stored XOR does not match.
- Flash.SaveThenLookup: the round trip for 255-byte values holds for the corrected write only; `Flash.MaxOddValueLost` shows it failing as written.
- Flash.Storage.ProgramHalfWord: half-word alignment is not modelled. A record takes `size + 6` bytes (`flash.c` lines 97 and 115), so after an odd-length value the next header starts at an odd address, and the model programs the two bytes there as if the x16 program of an odd address were allowed.
- `delete_data_from_flash`, `flash_storage_erase` and `flash_storage_needs_compaction` are declared in `flash.h` without a definition in the sources.
- Floating point: `str_to_float`, `uart2_write_float` and all of `pwm.c`. For a negative value, `uart2_write_float` zeroes it with `num -= num` where `num = -num` was evidently meant; this is not modelled.
- The timer IRQ handlers (`timer.c` lines 294-317) and the interleaving of the SysTick interrupt with the main program: the tick counter moves only through `Timer.SysTick.Handler`.
- Timer.SysTick.DelayUs: each pass of the spin loop is taken to last until the next tick, and the start tick is kept in 64 bits (the corrected form under Findings). It also requires a nonzero tick duration: `systick_init(0)` is accepted (`timer.c` lines 12-14) and `delay_us` then divides by zero (`timer.c` line 30).
- Timer.SysTick.DelayMs: calls `Timer.SysTick.DelayUs`, so it shares that member's 64-bit start tick and its nonzero tick duration; the 32-bit wrap of `ms * 1000` is modelled.
- The alternate-function pin set-up that `uart2_init` delegates to the GPIO driver is not modelled; the model covers the clock enable, BRR and CR1.
- Interrupt.Nvic.Enable: interrupt numbers are the `IRQn` range -16..239, the lines the 8 ISER words hold.
- Conversion.StrToInt: requires the digit run to fit in a signed 32-bit value, since the C code has no overflow check.
- Uart.Usart2.WriteInt: INT32_MIN is outside the domain, because the C code negates it.
- Uart.Usart2.WriteString: requires a NUL in the string, where the C loop stops.
- Util.Memcpy: requires the two regions not to overlap, as the C function assumes.
- I2C: the software reset's effect on the other registers, the acknowledge-failure flag and NACK handling (the code never reads it), slave mode, and pin binding. The code has none of the last three.
- The I2C driver's event trace, the flag delays and the received DR values form one record that all three buses share, so transactions on different buses are not told apart in the trace. `I2c.Driver.Write` also takes no bus argument: in `hal_i2c_write` the bus only picks the register block, and the trace does not record which block was used.
- I2c.Driver.Write: the length is below 2^16 (the `uint16_t` parameter); the same holds for the lengths of `I2c.Driver.Read` and `I2c.Driver.WriteRead`.
- Boot code (`startup.c`), the samples, the tests and the generated documentation.

## Findings

| source | as written | input that shows it | evidently intended | confidence | as-written member | corrected member |
|---|---|---|---|---|---|---|
| src/core/cortex-m4/flash/flash.c:125 | the padded size is a `uint8_t`, so `size + 1` wraps for size 255 | a 255-byte value: the padded size is 0, no half-word is programmed and FLASH_OK is returned | program 256 bytes (the value and one 0xFF pad byte) | not executed | `Flash.MaxOddValueLost` | `Flash.WriteReadRoundTrip` |
| src/core/cortex-m4/timer/timer.c:34-35 | the start tick is copied into a `uint32_t` | tick counter at 2^32 and a one-tick delay: the loop test sees 2^32 ticks elapsed and returns at once | keep the start tick in 64 bits | not executed | `Timer.DelayTruncatedStart` | `Timer.DelayDoneElapsed` |
| include/core/cortex-m4/timer_reg.h:102 | the CCER enable shift is `((n % 4) - 1) * 4` | channel 4: the shift is -4, undefined in C, instead of CC4E's position 12 | shift by 4(n-1) | not executed | `TimerReg.CcxeChannelFour` | `TimerReg.CcxeMaskBits` |
| include/core/cortex-m4/timer_reg.h:106-107 | even channels use positions `0x11` and `0x12` | channel 2: OC2PE lands at bit 17 and OC2M at bits 20..18, outside the 16-bit CCMR register | decimal 11 and 12 (OC2PE bit 11, OC2M bits 14..12) | not executed | `TimerReg.EvenChannelReserved` | `TimerReg.CcmrFields` |
