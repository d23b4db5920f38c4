/** The NVIC helpers: enabling and disabling an interrupt line through the
    ISER/ICER words, a 128-entry table of callbacks with attach, detach and
    dispatch, and 4-bit priorities kept in the upper half of a byte: one
    IPR byte per interrupt line, and one byte lane of SHPR1..3 per
    configurable system exception. */
module Interrupt {
  import opened Common

  const MAX_IRQ: int := 128
  /** Interrupt lines of the NVIC: 8 enable words of 32 bits, 240 priority bytes. */
  const NVIC_LINES: int := 240
  const SUCCESS: int := 0
  const FAILURE: int := -1

  /** The Cortex-M4 system exception numbers (negative IRQn values). */
  const NonMaskableInt_IRQn: int := -14
  const HardFault_IRQn: int := -13
  const MemoryManagement_IRQn: int := -12
  const BusFault_IRQn: int := -11
  const UsageFault_IRQn: int := -10
  const SVCall_IRQn: int := -5
  const DebugMonitor_IRQn: int := -4
  const PendSV_IRQn: int := -2
  const SysTick_IRQn: int := -1

  /** An IRQn value: a system exception (-16..-1) or an NVIC line. */
  predicate IsIrqn(irq: int)
  {
    -16 <= irq < NVIC_LINES
  }

  /** A callback is named by an identity; a table entry may be NULL (None). */
  type Handler = nat

  // ---------------------------------------------------------------------
  // Enable and disable

  /** The bit of line `irq` within its ISER/ICER word irq/32. */
  function LineBit(irq: nat): bv32
  {
    1 << ((irq % 32) as bv32)
  }

  /** Word irq/32 of `words` with the line's bit set. */
  function SetLine(words: seq<bv32>, irq: nat): (r: seq<bv32>)
    requires irq / 32 < |words|
    ensures |r| == |words|
  {
    words[irq / 32 := words[irq / 32] | LineBit(irq)]
  }

  /** Setting a line's bit sets it and no other bit, in no other word. */
  lemma SetLineBits(words: seq<bv32>, irq: nat, j: nat)
    requires irq / 32 < |words| && j < |words|
    ensures j != irq / 32 ==> SetLine(words, irq)[j] == words[j]
    ensures SetLine(words, irq)[irq / 32] & LineBit(irq) == LineBit(irq)
    ensures SetLine(words, irq)[irq / 32] & !LineBit(irq) == words[irq / 32] & !LineBit(irq)
  {
    OrBit(words[irq / 32], LineBit(irq));
  }

  lemma OrBit(w: bv32, b: bv32)
    ensures (w | b) & b == b && (w | b) & !b == w & !b
  {
  }

  // ---------------------------------------------------------------------
  // The callback table

  /** The table after storing `cb` at `irq`: only in-range lines are stored. */
  function Attached(table: seq<Option<Handler>>, irq: int, cb: Option<Handler>): (r: seq<Option<Handler>>)
    requires |table| == MAX_IRQ
    ensures |r| == MAX_IRQ
  {
    if 0 <= irq < MAX_IRQ then table[irq := cb] else table
  }

  /** The callbacks a dispatch of `irq` invokes: the entry, once, when the
      line is in range and the entry is not NULL. */
  function Dispatch(table: seq<Option<Handler>>, irq: int): (r: seq<Handler>)
    requires |table| == MAX_IRQ
    ensures |r| <= 1
  {
    if 0 <= irq < MAX_IRQ && table[irq].Some? then [table[irq].value] else []
  }

  /** Attach then dispatch calls the callback; detach then dispatch calls
      nothing; neither changes what another line dispatches. */
  lemma AttachDispatch(table: seq<Option<Handler>>, irq: int, cb: Handler, other: int)
    requires |table| == MAX_IRQ && other != irq
    ensures 0 <= irq < MAX_IRQ ==> Dispatch(Attached(table, irq, Some(cb)), irq) == [cb]
    ensures Dispatch(Attached(table, irq, None), irq) == []
            || (irq < 0 || MAX_IRQ <= irq)
    ensures Dispatch(Attached(table, irq, Some(cb)), other) == Dispatch(table, other)
    ensures Dispatch(Attached(table, irq, None), other) == Dispatch(table, other)
  {
  }

  /** Out-of-range lines have no entry: nothing is ever dispatched for them. */
  lemma OutOfRangeSilent(table: seq<Option<Handler>>, irq: int, cb: Option<Handler>)
    requires |table| == MAX_IRQ && (irq < 0 || MAX_IRQ <= irq)
    ensures Attached(table, irq, cb) == table && Dispatch(table, irq) == []
  {
  }

  // ---------------------------------------------------------------------
  // Priorities

  /** The priority byte: the low four bits of `priority` in the upper half. */
  function PrioByte(priority: bv8): bv8
  {
    (priority & 0xF) << 4
  }

  /** The SHPR register (1, 2 or 3) and the shift of the lane holding a
      configurable system exception's priority byte. */
  datatype Lane = Lane(reg: nat, shift: bv32)

  function ExceptionLane(irq: int): Option<Lane>
  {
    if irq == MemoryManagement_IRQn then Some(Lane(1, 0))
    else if irq == BusFault_IRQn then Some(Lane(1, 8))
    else if irq == UsageFault_IRQn then Some(Lane(1, 16))
    else if irq == SVCall_IRQn then Some(Lane(2, 24))
    else if irq == PendSV_IRQn then Some(Lane(3, 16))
    else if irq == SysTick_IRQn then Some(Lane(3, 24))
    else None
  }

  /** The three system handler priority registers. */
  datatype Shpr = Shpr(r1: bv32, r2: bv32, r3: bv32)

  function Reg(s: Shpr, reg: nat): bv32
  {
    if reg == 1 then s.r1 else if reg == 2 then s.r2 else s.r3
  }

  function WithReg(s: Shpr, reg: nat, w: bv32): Shpr
  {
    if reg == 1 then s.(r1 := w) else if reg == 2 then s.(r2 := w) else s.(r3 := w)
  }

  /** The byte lane at `shift`. */
  function LaneOf(w: bv32, shift: bv32): bv32
    requires shift <= 24
  {
    (w >> shift) & 0xFF
  }

  /** `w` with the lane at `shift` replaced by `v`. */
  function WithLane(w: bv32, shift: bv32, v: bv8): bv32
    requires shift <= 24
  {
    (w & !(0xFF << shift)) | ((v as bv32) << shift)
  }

  /** The SHPR registers after a priority write for a negative IRQn: the
      exception's lane is replaced, and other exceptions change nothing. */
  function SetExceptionPriority(s: Shpr, irq: int, v: bv8): Shpr
  {
    match ExceptionLane(irq)
    case None => s
    case Some(l) => WithReg(s, l.reg, WithLane(Reg(s, l.reg), l.shift, v))
  }

  /** The priority a read reports for a negative IRQn: the lane's upper four
      bits, or 0xFF for an exception without a lane. */
  function ExceptionPriority(s: Shpr, irq: int): bv8
  {
    match ExceptionLane(irq)
    case None => 0xFF
    case Some(l) => (LaneOf(Reg(s, l.reg), l.shift) >> 4) as bv8
  }

  /** A lane written reads back, and the other lanes keep their bytes. */
  lemma LaneRoundTrip(w: bv32, shift: bv32, v: bv8, other: bv32)
    requires shift <= 24 && other <= 24 && shift % 8 == 0 && other % 8 == 0
    ensures LaneOf(WithLane(w, shift, v), shift) == v as bv32
    ensures other != shift ==> LaneOf(WithLane(w, shift, v), other) == LaneOf(w, other)
  {
  }

  /** The lanes of distinct exceptions are distinct. */
  lemma LanesDistinct(i: int, j: int)
    requires i != j && ExceptionLane(i).Some? && ExceptionLane(j).Some?
    ensures ExceptionLane(i) != ExceptionLane(j)
  {
  }

  /** A priority byte written into a lane reads back as the priority's low
      four bits. */
  lemma LaneReadBack(w: bv32, shift: bv32, priority: bv8)
    requires shift <= 24 && shift % 8 == 0
    ensures (LaneOf(WithLane(w, shift, PrioByte(priority)), shift) >> 4) as bv8 == priority & 0xF
  {
    LaneRoundTrip(w, shift, PrioByte(priority), shift);
    PrioNibble(priority);
  }

  /** Round trip for a system exception: a read after a write returns the
      written priority's low four bits when the exception has a lane, and
      0xFF when it has none. */
  lemma ExceptionPriorityRoundTrip(s: Shpr, irq: int, priority: bv8)
    ensures ExceptionPriority(SetExceptionPriority(s, irq, PrioByte(priority)), irq)
            == if ExceptionLane(irq).Some? then priority & 0xF else 0xFF
  {
    var lane := ExceptionLane(irq);
    if lane.Some? {
      var l := lane.value;
      var w := WithLane(Reg(s, l.reg), l.shift, PrioByte(priority));
      LaneReadBack(Reg(s, l.reg), l.shift, priority);
      assert Reg(WithReg(s, l.reg, w), l.reg) == w;
    }
  }

  predicate LaneShape(l: Lane)
  {
    1 <= l.reg <= 3 && l.shift <= 24 && l.shift % 8 == 0
  }

  /** Every lane is a byte of SHPR1, SHPR2 or SHPR3. */
  lemma LaneShapes(irq: int)
    ensures ExceptionLane(irq).Some? ==> LaneShape(ExceptionLane(irq).value)
  {
  }

  /** Writing one lane of the registers keeps every other lane's byte. */
  lemma OtherLaneKept(s: Shpr, l: Lane, m: Lane, v: bv8)
    requires l != m && LaneShape(l) && LaneShape(m)
    ensures LaneOf(Reg(WithReg(s, l.reg, WithLane(Reg(s, l.reg), l.shift, v)), m.reg), m.shift)
            == LaneOf(Reg(s, m.reg), m.shift)
  {
    var w := WithLane(Reg(s, l.reg), l.shift, v);
    if m.reg == l.reg {
      LaneRoundTrip(Reg(s, l.reg), l.shift, v, m.shift);
      assert Reg(WithReg(s, l.reg, w), m.reg) == w;
    } else {
      assert Reg(WithReg(s, l.reg, w), m.reg) == Reg(s, m.reg);
    }
  }

  /** A write for one exception leaves every other exception's priority as
      it was. */
  lemma ExceptionPriorityOthers(s: Shpr, irq: int, v: bv8, other: int)
    requires other != irq
    ensures ExceptionPriority(SetExceptionPriority(s, irq, v), other) == ExceptionPriority(s, other)
  {
    var lane := ExceptionLane(irq);
    var lane2 := ExceptionLane(other);
    if lane.Some? && lane2.Some? {
      var l := lane.value;
      var m := lane2.value;
      var s' := WithReg(s, l.reg, WithLane(Reg(s, l.reg), l.shift, v));
      assert SetExceptionPriority(s, irq, v) == s';
      LaneShapes(irq);
      LaneShapes(other);
      LanesDistinct(irq, other);
      OtherLaneKept(s, l, m, v);
      assert LaneOf(Reg(s', m.reg), m.shift) == LaneOf(Reg(s, m.reg), m.shift);
    }
  }

  /** The priority byte's upper half is the priority's low four bits. */
  lemma PrioNibble(priority: bv8)
    ensures ((PrioByte(priority) as bv32) >> 4) as bv8 == priority & 0xF
    ensures PrioByte(priority) >> 4 == priority & 0xF
  {
  }

  class Nvic {
    var iser: seq<bv32>
    var icer: seq<bv32>
    /** One priority byte per NVIC line. */
    var ipr: seq<bv8>
    var shpr1: bv32
    var shpr2: bv32
    var shpr3: bv32
    /** The callback table; None is a NULL entry. */
    var callbacks: seq<Option<Handler>>
    /** The callbacks invoked so far, in order. */
    var calls: seq<Handler>

    ghost predicate Valid()
      reads this
    {
      |iser| == 8 && |icer| == 8 && |ipr| == NVIC_LINES && |callbacks| == MAX_IRQ
    }

    function Shprs(): Shpr
      reads this
    {
      Shpr(shpr1, shpr2, shpr3)
    }

    /** The callback table starts all NULL. */
    constructor ()
      ensures Valid() && calls == []
      ensures forall i :: 0 <= i < MAX_IRQ ==> callbacks[i] == None
    {
      iser := seq(8, _ => 0);
      icer := seq(8, _ => 0);
      ipr := seq(NVIC_LINES, _ => 0);
      shpr1, shpr2, shpr3 := 0, 0, 0;
      callbacks := seq(MAX_IRQ, _ => None);
      calls := [];
    }

    /** `hal_enable_interrupt`: FAILURE for a system exception, otherwise
        the line's bit is set in ISER word irq/32. */
    method Enable(irq: int) returns (status: int)
      requires Valid() && IsIrqn(irq)
      modifies this`iser
      ensures Valid()
      ensures irq < 0 ==> status == FAILURE && iser == old(iser)
      ensures irq >= 0 ==> status == SUCCESS && iser == SetLine(old(iser), irq)
    {
      if irq < 0 {
        return FAILURE;
      }
      iser := iser[irq / 32 := iser[irq / 32] | LineBit(irq)];
      return SUCCESS;
    }

    /** `hal_disable_interrupt`: the same on ICER, whose set bits disable. */
    method Disable(irq: int) returns (status: int)
      requires Valid() && IsIrqn(irq)
      modifies this`icer
      ensures Valid()
      ensures irq < 0 ==> status == FAILURE && icer == old(icer)
      ensures irq >= 0 ==> status == SUCCESS && icer == SetLine(old(icer), irq)
    {
      if irq < 0 {
        return FAILURE;
      }
      icer := icer[irq / 32 := icer[irq / 32] | LineBit(irq)];
      return SUCCESS;
    }

    /** `hal_interrupt_attach_callback`. */
    method AttachCallback(irq: int, cb: Option<Handler>)
      requires Valid()
      modifies this`callbacks
      ensures Valid() && callbacks == Attached(old(callbacks), irq, cb)
    {
      if irq < 0 || irq >= MAX_IRQ {
        return;
      }
      callbacks := callbacks[irq := cb];
    }

    /** `hal_interrupt_detach_callback`. */
    method DetachCallback(irq: int)
      requires Valid()
      modifies this`callbacks
      ensures Valid() && callbacks == Attached(old(callbacks), irq, None)
    {
      if irq < 0 || irq >= MAX_IRQ {
        return;
      }
      callbacks := callbacks[irq := None];
    }

    /** `hal_handle_interrupt`: the call of a callback is recorded in `calls`. */
    method HandleInterrupt(irq: int)
      requires Valid()
      modifies this`calls
      ensures calls == old(calls) + Dispatch(callbacks, irq)
    {
      if irq < 0 || irq >= MAX_IRQ {
        return;
      }
      if callbacks[irq].Some? {
        calls := calls + [callbacks[irq].value];
      }
    }

    /** `hal_set_interrupt_priority`. */
    method SetPriority(irq: int, priority: bv8)
      requires Valid() && IsIrqn(irq)
      modifies this`ipr, this`shpr1, this`shpr2, this`shpr3
      ensures Valid()
      ensures irq >= 0 ==> ipr == old(ipr)[irq := PrioByte(priority)] && Shprs() == old(Shprs())
      ensures irq < 0 ==> ipr == old(ipr) && Shprs() == SetExceptionPriority(old(Shprs()), irq, PrioByte(priority))
      ensures GetPriority(irq) == if irq >= 0 || ExceptionLane(irq).Some? then priority & 0xF else 0xFF
    {
      var prio := PrioByte(priority);
      if irq >= 0 {
        ipr := ipr[irq := prio];
        PrioNibble(priority);
      } else {
        ghost var s0 := Shprs();
        SetSystemPriority(irq, prio);
        ExceptionPriorityRoundTrip(s0, irq, priority);
      }
    }

    /** The system exception branch of `hal_set_interrupt_priority`: the
        exception's byte lane of SHPR1, SHPR2 or SHPR3 is replaced. */
    method SetSystemPriority(irq: int, prio: bv8)
      requires irq < 0
      modifies this`shpr1, this`shpr2, this`shpr3
      ensures Shprs() == SetExceptionPriority(old(Shprs()), irq, prio)
    {
      if irq == MemoryManagement_IRQn {
        shpr1 := WithLane(shpr1, 0, prio);
      } else if irq == BusFault_IRQn {
        shpr1 := WithLane(shpr1, 8, prio);
      } else if irq == UsageFault_IRQn {
        shpr1 := WithLane(shpr1, 16, prio);
      } else if irq == SVCall_IRQn {
        shpr2 := WithLane(shpr2, 24, prio);
      } else if irq == PendSV_IRQn {
        shpr3 := WithLane(shpr3, 16, prio);
      } else if irq == SysTick_IRQn {
        shpr3 := WithLane(shpr3, 24, prio);
      }
    }

    /** `hal_get_interrupt_priority`: the upper four bits of the line's IPR
        byte, or of the exception's SHPR lane; 0xFF for an exception with
        no lane. */
    function GetPriority(irq: int): (p: bv8)
      reads this
      requires Valid() && IsIrqn(irq)
      ensures p <= 0xF || (irq < 0 && ExceptionLane(irq).None? && p == 0xFF)
    {
      if irq >= 0 then ipr[irq] >> 4 else ExceptionPriority(Shprs(), irq)
    }
  }
}
