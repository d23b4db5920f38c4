/** The clock tree: `hal_clock_init` programs RCC_CR, RCC_PLLCFGR, RCC_CFGR
    and FLASH_ACR; the getters decode SYSCLK from CFGR.SWS and PLLCFGR and
    divide it by the AHB and APB prescalers.

    Each busy-wait on a ready or status flag is taken to end, with the
    register holding what the hardware reports then: the ready bit set or
    cleared, SWS equal to the SW just written. */
module Clock {
  import opened Common

  /** `hal_clock_source_t`. */
  const HSI: nat := 0
  const HSE: nat := 1
  const PLL: nat := 2

  const HSI_FREQ: nat := 16_000_000
  const HSE_FREQ: nat := 8_000_000

  /** `hal_pll_config_t`, with the C field widths. */
  datatype PllConfig = PllConfig(inputSrc: nat, m: bv8, n: bv16, p: bv8, q: bv8)

  // ---------------------------------------------------------------------
  // Register fields

  function SetBits(w: bv32, bits: bv32): bv32
  {
    w | bits
  }

  function ClearBits(w: bv32, bits: bv32): bv32
  {
    w & !bits
  }

  /** PLLCFGR fields: PLLM [5:0], PLLN [14:6], PLLP [17:16], PLLSRC [22], PLLQ [27:24]. */
  function PllM(w: bv32): bv32 { w & 0x3F }
  function PllN(w: bv32): bv32 { (w >> 6) & 0x1FF }
  function PllPCode(w: bv32): bv32 { (w >> 16) & 0x3 }
  function PllSrc(w: bv32): bv32 { (w >> 22) & 0x1 }
  function PllQ(w: bv32): bv32 { (w >> 24) & 0xF }

  /** The PLLP division factor the getter uses: (code + 1) * 2. */
  function PllP(w: bv32): (p: nat)
    ensures p == 2 || p == 4 || p == 6 || p == 8
  {
    var code := PllPCode(w);
    if code == 0 then 2 else if code == 1 then 4 else if code == 2 then 6 else 8
  }

  /** CFGR fields: SW [1:0], SWS [3:2], HPRE [7:4], PPRE1 [12:10], PPRE2 [15:13]. */
  function Sw(cfgr: bv32): bv32 { cfgr & 0x3 }
  function Sws(cfgr: bv32): bv32 { (cfgr >> 2) & 0x3 }
  function Hpre(cfgr: bv32): bv32 { (cfgr >> 4) & 0xF }
  function Ppre1(cfgr: bv32): bv32 { (cfgr >> 10) & 0x7 }
  function Ppre2(cfgr: bv32): bv32 { (cfgr >> 13) & 0x7 }

  /** FLASH_ACR LATENCY [2:0]. */
  function Latency(acr: bv32): bv32 { acr & 0x7 }

  // ---------------------------------------------------------------------
  // SYSCLK

  /** The PLL output in uint32 arithmetic: (vco_in / M) * N / P. */
  function PllClock(vcoIn: nat, m: nat, n: nat, p: nat): nat
    requires m > 0 && p > 0
  {
    (((vcoIn / m) * n) % TWO_32) / p
  }

  /** The PLL input the PLLSRC bit selects: HSE (8 MHz) or HSI (16 MHz). */
  function VcoIn(w: bv32): nat
  {
    if PllSrc(w) == 1 then HSE_FREQ else HSI_FREQ
  }

  /** The divisor PLLM reads as. */
  function MValue(w: bv32): nat
  {
    var m := PllM(w);
    m as nat
  }

  function NValue(w: bv32): nat
  {
    var n := PllN(w);
    n as nat
  }

  /** `hal_clock_get_sysclk`: by SWS, HSI, HSE, the PLL, or 0 for the
      reserved value 3.  For the PLL, PLLM must not be 0 (a division by
      zero in C). */
  function SysClk(cfgr: bv32, pllcfgr: bv32): (f: nat)
    requires Sws(cfgr) == 2 ==> PllM(pllcfgr) != 0
    ensures f < TWO_32
  {
    var sws := Sws(cfgr);
    if sws == 0 then HSI_FREQ
    else if sws == 1 then HSE_FREQ
    else if sws == 2 then PllClock(VcoIn(pllcfgr), MValue(pllcfgr), NValue(pllcfgr), PllP(pllcfgr))
    else 0
  }

  // ---------------------------------------------------------------------
  // Prescalers

  /** `_decode_prescaler`: HPRE codes 8..15 divide by 2, 4, 8, 16, 64, 128,
      256, 512; any other code by 1. */
  function DecodeAhb(code: nat): nat
  {
    match code
    case 8 => 2
    case 9 => 4
    case 10 => 8
    case 11 => 16
    case 12 => 64
    case 13 => 128
    case 14 => 256
    case 15 => 512
    case _ => 1
  }

  /** `_decode_apb_prescaler`: PPRE codes 4..7 divide by 2, 4, 8, 16; any
      other code by 1. */
  function DecodeApb(code: nat): nat
  {
    match code
    case 4 => 2
    case 5 => 4
    case 6 => 8
    case 7 => 16
    case _ => 1
  }

  /** The AHB divisors: 1 and the powers of two from 2 to 512 except 32. */
  predicate AhbDivisor(d: nat)
  {
    d in {1, 2, 4, 8, 16, 64, 128, 256, 512}
  }

  predicate ApbDivisor(d: nat)
  {
    d in {1, 2, 4, 8, 16}
  }

  /** The HPRE code of a divisor (the reference manual's encoding). */
  function AhbCode(d: nat): (code: nat)
    requires AhbDivisor(d)
    ensures code == 0 || 8 <= code <= 15
  {
    if d == 1 then 0
    else if d == 2 then 8
    else if d == 4 then 9
    else if d == 8 then 10
    else if d == 16 then 11
    else if d == 64 then 12
    else if d == 128 then 13
    else if d == 256 then 14
    else 15
  }

  /** The PPRE code of a divisor. */
  function ApbCode(d: nat): (code: nat)
    requires ApbDivisor(d)
    ensures code == 0 || 4 <= code <= 7
  {
    if d == 1 then 0
    else if d == 2 then 4
    else if d == 4 then 5
    else if d == 8 then 6
    else 7
  }

  /** Round trip for the AHB prescaler: every divisor encodes to a code
      that decodes back to it, and every code decodes to a divisor whose
      encoding is the code itself, or 0 for the codes that mean 1. */
  lemma AhbRoundTrip(d: nat, code: nat)
    requires AhbDivisor(d)
    ensures DecodeAhb(AhbCode(d)) == d
    ensures AhbDivisor(DecodeAhb(code))
    ensures AhbCode(DecodeAhb(code)) == (if 8 <= code <= 15 then code else 0)
  {
  }

  /** Round trip for the APB prescalers. */
  lemma ApbRoundTrip(d: nat, code: nat)
    requires ApbDivisor(d)
    ensures DecodeApb(ApbCode(d)) == d
    ensures ApbDivisor(DecodeApb(code))
    ensures ApbCode(DecodeApb(code)) == (if 4 <= code <= 7 then code else 0)
  {
  }

  /** `hal_clock_get_ahbclk`, `hal_clock_get_apb1clk`, `hal_clock_get_apb2clk`. */
  function AhbClk(cfgr: bv32, pllcfgr: bv32): nat
    requires Sws(cfgr) == 2 ==> PllM(pllcfgr) != 0
  {
    var code := Hpre(cfgr);
    SysClk(cfgr, pllcfgr) / DecodeAhb(code as nat)
  }

  function Apb1Clk(cfgr: bv32, pllcfgr: bv32): nat
    requires Sws(cfgr) == 2 ==> PllM(pllcfgr) != 0
  {
    var code := Ppre1(cfgr);
    SysClk(cfgr, pllcfgr) / DecodeApb(code as nat)
  }

  function Apb2Clk(cfgr: bv32, pllcfgr: bv32): nat
    requires Sws(cfgr) == 2 ==> PllM(pllcfgr) != 0
  {
    var code := Ppre2(cfgr);
    SysClk(cfgr, pllcfgr) / DecodeApb(code as nat)
  }

  /** The bus clocks never exceed SYSCLK, and with HPRE 0, PPRE1 0b101 and
      PPRE2 0b100 they are SYSCLK, SYSCLK/4 and SYSCLK/2. */
  lemma BusClocks(cfgr: bv32, pllcfgr: bv32)
    requires Sws(cfgr) == 2 ==> PllM(pllcfgr) != 0
    ensures AhbClk(cfgr, pllcfgr) <= SysClk(cfgr, pllcfgr)
    ensures Apb1Clk(cfgr, pllcfgr) <= SysClk(cfgr, pllcfgr)
    ensures Apb2Clk(cfgr, pllcfgr) <= SysClk(cfgr, pllcfgr)
    ensures Hpre(cfgr) == 0 ==> AhbClk(cfgr, pllcfgr) == SysClk(cfgr, pllcfgr)
    ensures Ppre1(cfgr) == 5 ==> Apb1Clk(cfgr, pllcfgr) == SysClk(cfgr, pllcfgr) / 4
    ensures Ppre2(cfgr) == 4 ==> Apb2Clk(cfgr, pllcfgr) == SysClk(cfgr, pllcfgr) / 2
  {
    var f := SysClk(cfgr, pllcfgr);
    AhbQuotient(f, Hpre(cfgr));
    ApbQuotient(f, Ppre1(cfgr));
    ApbQuotient(f, Ppre2(cfgr));
  }

  /** A clock divided by the AHB prescaler of a 4-bit code. */
  lemma AhbQuotient(f: nat, code: bv32)
    ensures f / DecodeAhb(code as nat) <= f
    ensures code == 0 ==> f / DecodeAhb(code as nat) == f
  {
    var c := code as nat;
    Quotient(f, DecodeAhb(c));
    if code == 0 {
      assert c == 0;
    }
  }

  /** A clock divided by the APB prescaler of a 3-bit code. */
  lemma ApbQuotient(f: nat, code: bv32)
    ensures f / DecodeApb(code as nat) <= f
    ensures code == 5 ==> f / DecodeApb(code as nat) == f / 4
    ensures code == 4 ==> f / DecodeApb(code as nat) == f / 2
  {
    var c := code as nat;
    Quotient(f, DecodeApb(c));
    if code == 5 {
      assert c == 5;
    } else if code == 4 {
      assert c == 4;
    }
  }

  lemma Quotient(f: nat, d: nat)
    requires d >= 1
    ensures f / d <= f
  {
  }

  // ---------------------------------------------------------------------
  // What `hal_clock_init` writes

  /** PLLSRC as init writes it: set unless the input is HSI. */
  function SrcBit(inputSrc: nat): bv32
  {
    if inputSrc == HSI then 0 else 0x40_0000
  }

  /** The field values init or-s in: M % 64, N % 433, P/2 - 1 and Q, in
      32-bit arithmetic (a P below 2 gives all ones). */
  function MField(c: PllConfig): bv32 { (c.m % 64) as bv32 }
  function NField(c: PllConfig): bv32 { (c.n % 433) as bv32 }
  function PField(c: PllConfig): bv32 { ((c.p >> 1) as bv32) - 1 }
  function QField(c: PllConfig): bv32 { c.q as bv32 }

  /** The fields or-ed in at their positions over `w`. */
  function Pack(w: bv32, m: bv32, n: bv32, p: bv32, q: bv32): bv32
  {
    w | m | (n << 6) | (p << 16) | (q << 24)
  }

  /** The PLLCFGR word: cleared, PLLSRC, then the fields. */
  function PllcfgrWord(c: PllConfig): bv32
  {
    Pack(SrcBit(c.inputSrc), MField(c), NField(c), PField(c), QField(c))
  }

  /** The configurations the reference manual allows, as far as the driver
      encodes them: 1 <= M <= 63, N <= 432, P one of 2, 4, 6, 8, Q <= 15. */
  predicate ValidPll(c: PllConfig)
  {
    1 <= c.m <= 63 && c.n <= 432 && (c.p == 2 || c.p == 4 || c.p == 6 || c.p == 8) && c.q <= 15
  }

  /** The bounds that keep the packed fields apart. */
  predicate Packable(src: bv32, m: bv32, n: bv32, p: bv32, q: bv32)
  {
    (src == 0 || src == 0x40_0000) && m < 64 && n < 512 && p < 4 && q < 16
  }

  // Each field of a packed word reads back as the value packed.

  lemma PackedM(src: bv32, m: bv32, n: bv32, p: bv32, q: bv32)
    requires Packable(src, m, n, p, q)
    ensures PllM(Pack(src, m, n, p, q)) == m
  {
  }

  lemma PackedN(src: bv32, m: bv32, n: bv32, p: bv32, q: bv32)
    requires Packable(src, m, n, p, q)
    ensures PllN(Pack(src, m, n, p, q)) == n
  {
  }

  lemma PackedP(src: bv32, m: bv32, n: bv32, p: bv32, q: bv32)
    requires Packable(src, m, n, p, q)
    ensures PllPCode(Pack(src, m, n, p, q)) == p
  {
  }

  lemma PackedSrc(src: bv32, m: bv32, n: bv32, p: bv32, q: bv32)
    requires Packable(src, m, n, p, q)
    ensures PllSrc(Pack(src, m, n, p, q)) == (if src == 0 then 0 else 1)
  {
  }

  lemma PackedQ(src: bv32, m: bv32, n: bv32, p: bv32, q: bv32)
    requires Packable(src, m, n, p, q)
    ensures PllQ(Pack(src, m, n, p, q)) == q
  {
  }

  /** A valid configuration's fields fit their positions. */
  lemma ValidPackable(c: PllConfig)
    requires ValidPll(c)
    ensures Packable(SrcBit(c.inputSrc), MField(c), NField(c), PField(c), QField(c))
  {
    PFieldValue(c.p);
  }

  lemma MFieldValue(c: PllConfig)
    requires 1 <= c.m <= 63
    ensures MField(c) as nat == c.m as nat
  {
  }

  lemma NFieldValue(c: PllConfig)
    requires c.n <= 432
    ensures NField(c) as nat == c.n as nat
  {
  }

  /** The code of a valid P, and the divisor it reads back as. */
  lemma PFieldValue(p: bv8)
    requires p == 2 || p == 4 || p == 6 || p == 8
    ensures ((p >> 1) as bv32) - 1 == (if p == 2 then 0 else if p == 4 then 1 else if p == 6 then 2 else 3)
  {
  }

  /** Round trip for the PLL: a valid configuration packed by init reads
      back as the same M, N, P, Q and input. */
  lemma PllcfgrRoundTrip(c: PllConfig)
    requires ValidPll(c)
    ensures MValue(PllcfgrWord(c)) == c.m as nat && PllM(PllcfgrWord(c)) != 0
    ensures NValue(PllcfgrWord(c)) == c.n as nat
    ensures PllP(PllcfgrWord(c)) == c.p as nat
    ensures PllQ(PllcfgrWord(c)) == c.q as bv32
    ensures VcoIn(PllcfgrWord(c)) == (if c.inputSrc == HSI then HSI_FREQ else HSE_FREQ)
  {
    var src, m, n, p, q := SrcBit(c.inputSrc), MField(c), NField(c), PField(c), QField(c);
    ValidPackable(c);
    PackedM(src, m, n, p, q);
    PackedN(src, m, n, p, q);
    PackedP(src, m, n, p, q);
    PackedSrc(src, m, n, p, q);
    PackedQ(src, m, n, p, q);
    MFieldValue(c);
    NFieldValue(c);
    PFieldValue(c.p);
  }

  /** FLASH_ACR with LATENCY cleared and set to 5 wait states. */
  function WithLatency(acr: bv32): bv32
  {
    SetBits(ClearBits(acr, 0x7), 0x5)
  }

  lemma LatencyFive(acr: bv32)
    ensures Latency(WithLatency(acr)) == 5
  {
  }

  lemma LatencyKeeps(acr: bv32)
    ensures WithLatency(acr) & 0xFFFF_FFF8 == acr & 0xFFFF_FFF8
  {
  }

  /** CFGR with HPRE, PPRE1, PPRE2 (mask 0xFCF0) cleared and then or-ed
      with HPRE_DIV1, PPRE1_DIV4 (0b101 at 10) and PPRE2_DIV2 (0b100 at 13). */
  function WithBusPrescalers(cfgr: bv32): bv32
  {
    SetBits(SetBits(SetBits(ClearBits(cfgr, 0xFCF0), 0x0), 0x1400), 0x8000)
  }

  /** CFGR with SWS reporting `sws`: the hardware's state once the switch is done. */
  function WithSws(cfgr: bv32, sws: bv32): bv32
    requires sws < 4
  {
    (cfgr & 0xFFFF_FFF3) | (sws << 2)
  }

  /** The SW code of a source. */
  function SwCode(source: nat): (sw: bv32)
    requires source <= PLL
    ensures sw < 3
  {
    if source == HSI then 0 else if source == HSE then 1 else 2
  }

  /** CFGR after the source selection: SW cleared, set for HSE and PLL,
      and SWS reporting the switch; unchanged for an unknown source. */
  function Selected(cfgr: bv32, source: nat): bv32
  {
    if source == HSI then WithSws(ClearBits(cfgr, 0x3), 0)
    else if source == HSE then WithSws(SetBits(ClearBits(cfgr, 0x3), 0x1), 1)
    else if source == PLL then WithSws(SetBits(ClearBits(cfgr, 0x3), 0x2), 2)
    else cfgr
  }

  /** CFGR after init. */
  function CfgrAfter(cfgr: bv32, source: nat): bv32
  {
    Selected(WithBusPrescalers(cfgr), source)
  }

  // What init leaves in CFGR, one field per lemma.

  lemma CfgrHpre(cfgr: bv32, source: nat)
    ensures Hpre(CfgrAfter(cfgr, source)) == 0
  {
  }

  lemma CfgrPpre1(cfgr: bv32, source: nat)
    ensures Ppre1(CfgrAfter(cfgr, source)) == 5
  {
  }

  lemma CfgrPpre2(cfgr: bv32, source: nat)
    ensures Ppre2(CfgrAfter(cfgr, source)) == 4
  {
  }

  lemma CfgrSws(cfgr: bv32, source: nat)
    requires source <= PLL
    ensures Sws(CfgrAfter(cfgr, source)) == SwCode(source)
  {
  }

  lemma CfgrSw(cfgr: bv32, source: nat)
    requires source <= PLL
    ensures Sw(CfgrAfter(cfgr, source)) == SwCode(source)
  {
  }

  lemma CfgrKept(cfgr: bv32, source: nat)
    ensures CfgrAfter(cfgr, source) & 0xFFFF_0300 == cfgr & 0xFFFF_0300
  {
    if source == HSI {
      KeptHsi(cfgr);
    } else if source == HSE {
      KeptHse(cfgr);
    } else if source == PLL {
      KeptPll(cfgr);
    } else {
      KeptOther(cfgr, source);
    }
  }

  lemma KeptHsi(cfgr: bv32)
    ensures CfgrAfter(cfgr, HSI) & 0xFFFF_0300 == cfgr & 0xFFFF_0300
  {
  }

  lemma KeptHse(cfgr: bv32)
    ensures CfgrAfter(cfgr, HSE) & 0xFFFF_0300 == cfgr & 0xFFFF_0300
  {
  }

  lemma KeptPll(cfgr: bv32)
    ensures CfgrAfter(cfgr, PLL) & 0xFFFF_0300 == cfgr & 0xFFFF_0300
  {
  }

  lemma KeptOther(cfgr: bv32, source: nat)
    requires source > PLL
    ensures CfgrAfter(cfgr, source) & 0xFFFF_0300 == cfgr & 0xFFFF_0300
  {
  }

  lemma CfgrUnknownSource(cfgr: bv32, source: nat)
    requires source > PLL
    ensures CfgrAfter(cfgr, source) & 0xFFFF_030F == cfgr & 0xFFFF_030F
  {
  }

  /** After init, HPRE, PPRE1, PPRE2 read 0, 0b101, 0b100; SW and SWS read
      a known source; no bit outside those five fields changes, and for an
      unknown source SW and SWS do not change either. */
  lemma CfgrAfterFields(cfgr: bv32, source: nat)
    ensures Hpre(CfgrAfter(cfgr, source)) == 0
    ensures Ppre1(CfgrAfter(cfgr, source)) == 5
    ensures Ppre2(CfgrAfter(cfgr, source)) == 4
    ensures source <= PLL ==> Sws(CfgrAfter(cfgr, source)) == SwCode(source) && Sw(CfgrAfter(cfgr, source)) == SwCode(source)
    ensures CfgrAfter(cfgr, source) & 0xFFFF_0300 == cfgr & 0xFFFF_0300
    ensures source > PLL ==> CfgrAfter(cfgr, source) & 0xFFFF_030F == cfgr & 0xFFFF_030F
  {
    CfgrHpre(cfgr, source);
    CfgrPpre1(cfgr, source);
    CfgrPpre2(cfgr, source);
    CfgrKept(cfgr, source);
    if source <= PLL {
      CfgrSws(cfgr, source);
      CfgrSw(cfgr, source);
    } else {
      CfgrUnknownSource(cfgr, source);
    }
  }

  /** RCC_CR after an oscillator is switched on (HSEON bit 16, HSION bit 0)
      and its ready flag (bit 17, bit 1) reads set. */
  function OscOn(cr: bv32, source: nat): bv32
  {
    if source == HSE then SetBits(SetBits(cr, 0x1_0000), 0x2_0000)
    else if source == HSI then SetBits(SetBits(cr, 0x1), 0x2)
    else cr
  }

  /** RCC_CR after PLLON (bit 24) is cleared, PLLRDY (bit 25) reads clear,
      PLLON is set and PLLRDY reads set. */
  function PllRestarted(cr: bv32): bv32
  {
    SetBits(SetBits(ClearBits(ClearBits(cr, 0x100_0000), 0x200_0000), 0x100_0000), 0x200_0000)
  }

  /** RCC_CR after init. */
  function CrAfter(cr: bv32, source: nat, pll: Option<PllConfig>): bv32
    requires source == PLL ==> pll.Some?
  {
    var c := OscOn(cr, source);
    if source == PLL then PllRestarted(OscOn(c, pll.value.inputSrc)) else c
  }

  /** The mask of the on and ready bits of a source. */
  function ReadyMask(source: nat): bv32
  {
    if source == HSE then 0x3_0000 else if source == HSI then 0x3 else if source == PLL then 0x300_0000 else 0
  }

  lemma OscOnReady(cr: bv32, source: nat)
    ensures OscOn(cr, source) & ReadyMask(source) == ReadyMask(source) || source == PLL
  {
    if source == HSE {
      HseOn(cr);
    } else if source == HSI {
      HsiOn(cr);
    }
  }

  lemma HseOn(cr: bv32)
    ensures SetBits(SetBits(cr, 0x1_0000), 0x2_0000) & 0x3_0000 == 0x3_0000
  {
  }

  lemma HsiOn(cr: bv32)
    ensures SetBits(SetBits(cr, 0x1), 0x2) & 0x3 == 0x3
  {
  }

  lemma OscOnKeeps(cr: bv32, source: nat)
    ensures OscOn(cr, source) & cr == cr
  {
  }

  lemma PllReady(cr: bv32, input: nat)
    ensures PllRestarted(OscOn(cr, input)) & 0x300_0000 == 0x300_0000
  {
  }

  lemma PllInputHse(cr: bv32)
    ensures PllRestarted(OscOn(cr, HSE)) & 0x3_0000 == 0x3_0000
  {
  }

  lemma PllInputHsi(cr: bv32)
    ensures PllRestarted(OscOn(cr, HSI)) & 0x3 == 0x3
  {
  }

  lemma PllKeeps(cr: bv32, input: nat)
    ensures PllRestarted(OscOn(cr, input)) & cr == cr
  {
  }

  /** After init the oscillator the system clock runs from is on and
      ready, for the PLL so is its input, and no bit of RCC_CR is cleared. */
  lemma CrAfterReady(cr: bv32, source: nat, pll: Option<PllConfig>)
    requires source == PLL ==> pll.Some?
    ensures source != PLL ==> CrAfter(cr, source, pll) & ReadyMask(source) == ReadyMask(source)
    ensures source == PLL ==> CrAfter(cr, source, pll) & 0x300_0000 == 0x300_0000
    ensures source == PLL && (pll.value.inputSrc == HSE || pll.value.inputSrc == HSI) ==>
              CrAfter(cr, source, pll) & ReadyMask(pll.value.inputSrc) == ReadyMask(pll.value.inputSrc)
    ensures CrAfter(cr, source, pll) & cr == cr
  {
    if source == PLL {
      var input := pll.value.inputSrc;
      PllReady(cr, input);
      PllKeeps(cr, input);
      if input == HSE {
        PllInputHse(cr);
      } else if input == HSI {
        PllInputHsi(cr);
      }
    } else {
      OscOnReady(cr, source);
      OscOnKeeps(cr, source);
    }
  }

  /** The system clock after init: 16 MHz from HSI, 8 MHz from HSE, and for
      a valid PLL configuration (vco_in / M) * N / P from the input chosen. */
  lemma SysClkAfterInit(cfgr: bv32, pllcfgr: bv32, source: nat, pll: Option<PllConfig>)
    requires source <= PLL && (source == PLL ==> pll.Some? && ValidPll(pll.value))
    requires source == PLL ==> pllcfgr == PllcfgrWord(pll.value)
    ensures Sws(CfgrAfter(cfgr, source)) == 2 ==> PllM(pllcfgr) != 0
    ensures source == HSI ==> SysClk(CfgrAfter(cfgr, source), pllcfgr) == HSI_FREQ
    ensures source == HSE ==> SysClk(CfgrAfter(cfgr, source), pllcfgr) == HSE_FREQ
    ensures source == PLL ==>
              SysClk(CfgrAfter(cfgr, source), pllcfgr)
              == PllClock(if pll.value.inputSrc == HSI then HSI_FREQ else HSE_FREQ,
                          pll.value.m as nat, pll.value.n as nat, pll.value.p as nat)
  {
    CfgrSws(cfgr, source);
    if source == PLL {
      PllcfgrRoundTrip(pll.value);
    }
  }

  /** After init the AHB clock is SYSCLK, APB1 a quarter and APB2 a half of it. */
  lemma BusClocksAfterInit(cfgr: bv32, pllcfgr: bv32, source: nat)
    requires Sws(CfgrAfter(cfgr, source)) == 2 ==> PllM(pllcfgr) != 0
    ensures AhbClk(CfgrAfter(cfgr, source), pllcfgr) == SysClk(CfgrAfter(cfgr, source), pllcfgr)
    ensures Apb1Clk(CfgrAfter(cfgr, source), pllcfgr) == SysClk(CfgrAfter(cfgr, source), pllcfgr) / 4
    ensures Apb2Clk(CfgrAfter(cfgr, source), pllcfgr) == SysClk(CfgrAfter(cfgr, source), pllcfgr) / 2
  {
    CfgrHpre(cfgr, source);
    CfgrPpre1(cfgr, source);
    CfgrPpre2(cfgr, source);
    BusClocks(CfgrAfter(cfgr, source), pllcfgr);
  }

  class Rcc {
    var cr: bv32
    var pllcfgr: bv32
    var cfgr: bv32
    /** FLASH_ACR. */
    var flashAcr: bv32

    constructor (cr0: bv32, pllcfgr0: bv32, cfgr0: bv32, acr0: bv32)
      ensures cr == cr0 && pllcfgr == pllcfgr0 && cfgr == cfgr0 && flashAcr == acr0
    {
      cr := cr0;
      pllcfgr := pllcfgr0;
      cfgr := cfgr0;
      flashAcr := acr0;
    }

    /** `hal_clock_init(cfg, pll_cfg)`: `pll` is None for a NULL pll_cfg,
        which only the PLL source dereferences. */
    method Init(source: nat, pll: Option<PllConfig>)
      requires source == PLL ==> pll.Some?
      modifies this
      ensures cr == CrAfter(old(cr), source, pll)
      ensures source == PLL ==> pllcfgr == PllcfgrWord(pll.value)
      ensures source != PLL ==> pllcfgr == old(pllcfgr)
      ensures flashAcr == WithLatency(old(flashAcr))
      ensures cfgr == CfgrAfter(old(cfgr), source)
    {
      StartOscillator(source);
      if source == PLL {
        StartOscillator(pll.value.inputSrc);
        RestartPll(pll.value);
      }
      flashAcr := ClearBits(flashAcr, 0x7);
      flashAcr := SetBits(flashAcr, 0x5);
      cfgr := ClearBits(cfgr, 0xFCF0);
      cfgr := SetBits(cfgr, 0x0);
      cfgr := SetBits(cfgr, 0x1400);
      cfgr := SetBits(cfgr, 0x8000);
      SelectSource(source);
    }

    /** Switch the HSE or HSI oscillator on and wait until it is ready. */
    method StartOscillator(source: nat)
      modifies this`cr
      ensures cr == OscOn(old(cr), source)
    {
      if source == HSE {
        cr := SetBits(cr, 0x1_0000);
        cr := SetBits(cr, 0x2_0000);
      } else if source == HSI {
        cr := SetBits(cr, 0x1);
        cr := SetBits(cr, 0x2);
      }
    }

    /** Stop the PLL, write PLLCFGR, start the PLL and wait until it locks. */
    method RestartPll(c: PllConfig)
      modifies this`cr, this`pllcfgr
      ensures cr == PllRestarted(old(cr))
      ensures pllcfgr == PllcfgrWord(c)
    {
      cr := ClearBits(cr, 0x100_0000);
      cr := ClearBits(cr, 0x200_0000);
      pllcfgr := 0;
      if c.inputSrc == HSI {
        pllcfgr := ClearBits(pllcfgr, 0x40_0000);
      } else {
        pllcfgr := SetBits(pllcfgr, 0x40_0000);
      }
      pllcfgr := Pack(pllcfgr, MField(c), NField(c), PField(c), QField(c));
      cr := SetBits(cr, 0x100_0000);
      cr := SetBits(cr, 0x200_0000);
    }

    /** Write SW for a known source and wait until SWS reports it. */
    method SelectSource(source: nat)
      modifies this`cfgr
      ensures cfgr == Selected(old(cfgr), source)
    {
      if source == HSI {
        cfgr := ClearBits(cfgr, 0x3);
        cfgr := WithSws(cfgr, 0);
      } else if source == HSE {
        cfgr := ClearBits(cfgr, 0x3);
        cfgr := SetBits(cfgr, 0x1);
        cfgr := WithSws(cfgr, 1);
      } else if source == PLL {
        cfgr := ClearBits(cfgr, 0x3);
        cfgr := SetBits(cfgr, 0x2);
        cfgr := WithSws(cfgr, 2);
      }
    }
  }
}
