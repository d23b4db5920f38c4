/** The I2C master driver: a per-bus initialisation bitmask, the clock-timing
    registers programmed at initialisation, and the blocking write, read and
    write-then-read transactions.

    The hardware is an oracle.  `delays` holds, for each successive wait on a
    status flag, the number of polls that see the flag clear before one sees it
    set (once it has run out, flags never come up); `rxFifo` holds the
    successive values the data register DR delivers (0 once it has run out);
    `trace` records the bus actions the driver causes.  START and STOP are
    requests the peripheral clears by itself, so they appear in the trace
    only; the ACK bit is a configuration bit and is kept both in CR1 and as
    AckOn/AckOff events. */
module I2c {
  import opened Common
  import opened I2cRegs

  datatype Status = Ok | ErrTimeout | ErrBus | ErrNack | ErrReinit

  datatype Bus = I2C1 | I2C2 | I2C3

  /** The configuration record; `acknowledge` is carried but never read. */
  datatype Config = Config(clockSpeed: Speed, ownAddress: byte, acknowledge: bool)

  /** Bus actions caused by the driver. */
  datatype Event = Start | Addr(addr: byte) | Data(b: byte) | Stop | AckOn | AckOff

  const I2C_MASTER: byte := 0
  const TIMEOUT: nat := 1000000

  /** Bit `bus` of the initialisation mask. */
  function InitBit(bus: Bus): bv8
  {
    match bus
    case I2C1 => 1
    case I2C2 => 2
    case I2C3 => 4
  }

  /** The peripheral clock enable bit of the bus in RCC_APB1ENR, bit 21 + bus. */
  function Apb1EnrMask(bus: Bus): bv32
  {
    match bus
    case I2C1 => 0x20_0000
    case I2C2 => 0x40_0000
    case I2C3 => 0x80_0000
  }

  /** Adding a bus's bit to a mask that lacks it is setting that bit. */
  lemma InitMaskAdd(mask: bv8, b: bv8)
    requires mask & b == 0 && mask & 0xF8 == 0 && b & 0xF8 == 0
    ensures mask + b == mask | b && (mask + b) & 0xF8 == 0
  {
  }

  // ---------------------------------------------------------------------
  // Address bytes

  /** The address byte of a write: the 7-bit address shifted left in 8 bits,
      direction bit 0. */
  function WriteAddr(devAddr: byte): byte
  {
    ((devAddr as int * 2) % 0x100) as byte
  }

  /** The address byte of a read: the 7-bit address shifted left in 8 bits,
      direction bit 1. */
  function ReadAddr(devAddr: byte): byte
  {
    ((devAddr as int * 2) % 0x100 + 1) as byte
  }

  /** Both address bytes carry the low seven bits of the address above the
      direction bit, which is 0 for a write and 1 for a read. */
  lemma AddrDirection(devAddr: byte)
    ensures WriteAddr(devAddr) as int % 2 == 0 && ReadAddr(devAddr) as int % 2 == 1
    ensures WriteAddr(devAddr) as int / 2 == devAddr as int % 128
    ensures ReadAddr(devAddr) as int / 2 == devAddr as int % 128
  {
    if devAddr >= 128 {
      assert (devAddr as int * 2) % 0x100 == (devAddr as int - 128) * 2;
    }
  }

  // ---------------------------------------------------------------------
  // Flag polling

  /** Wait number `w` (counted over the driver's life) sees its flag on poll
      `j`: the flag comes up after `delays[w]` clear polls, and never for a
      wait past the end of `delays`. */
  predicate FlagAt(delays: seq<nat>, w: nat, j: nat)
  {
    w < |delays| && j >= delays[w]
  }

  /** Wait number `w` sees its flag within TIMEOUT polls. */
  predicate WaitOk(delays: seq<nat>, w: nat)
  {
    w < |delays| && delays[w] < TIMEOUT
  }

  /** The `k` waits from number `w` on all succeed. */
  predicate AllOk(delays: seq<nat>, w: nat, k: nat)
  {
    forall j :: w <= j < w + k ==> WaitOk(delays, j)
  }

  /** The number of consecutive successful waits, out of `n` successive
      waits from number `w` on, before the first one that times out. */
  function Run(delays: seq<nat>, w: nat, n: nat): (r: nat)
    ensures r <= n
    decreases n
  {
    if n == 0 || !WaitOk(delays, w) then 0 else 1 + Run(delays, w + 1, n - 1)
  }

  /** Run counts successful waits that end at the limit or at a timeout. */
  lemma {:induction false} RunSpec(delays: seq<nat>, w: nat, n: nat)
    ensures AllOk(delays, w, Run(delays, w, n))
    ensures Run(delays, w, n) < n ==> !WaitOk(delays, w + Run(delays, w, n))
    decreases n
  {
    if n > 0 && WaitOk(delays, w) {
      RunSpec(delays, w + 1, n - 1);
    }
  }

  /** Successful waits that end at the limit or at a timeout are the run. */
  lemma {:induction false} RunIs(delays: seq<nat>, w: nat, n: nat, k: nat)
    requires k <= n && AllOk(delays, w, k)
    requires k < n ==> !WaitOk(delays, w + k)
    ensures Run(delays, w, n) == k
    decreases k
  {
    if k > 0 {
      assert WaitOk(delays, w);
      RunIs(delays, w + 1, n - 1, k - 1);
    }
  }

  /** After `k` successful waits the rest of a series is a fresh series:
      the `m` waits from number `v` on. */
  lemma {:induction false} RunShift(delays: seq<nat>, w: nat, k: nat, n: nat, v: nat, m: nat)
    requires Run(delays, w, k) == k && v == w + k && n == k + m
    ensures Run(delays, w, n) == k + Run(delays, v, m)
    decreases k
  {
    if k > 0 {
      RunShift(delays, w + 1, k - 1, n - 1, v, m);
    }
  }

  /** One more successful wait lengthens a run that has not stopped. */
  lemma {:induction false} RunGrow(delays: seq<nat>, w: nat, k: nat, v: nat, j: nat)
    requires v == w + k && j == k + 1
    requires Run(delays, w, k) == k && WaitOk(delays, v)
    ensures Run(delays, w, j) == j
    decreases k
  {
    if k > 0 {
      RunGrow(delays, w + 1, k - 1, v, j - 1);
    }
  }

  /** A run that has not stopped after `k` waits stops at the next timeout. */
  lemma {:induction false} RunStop(delays: seq<nat>, w: nat, k: nat, n: nat, v: nat)
    requires v == w + k && k < n
    requires Run(delays, w, k) == k && !WaitOk(delays, v)
    ensures Run(delays, w, n) == k
    decreases k
  {
    if k > 0 {
      RunStop(delays, w + 1, k - 1, n - 1, v);
    }
  }

  /** A series that stops early stops at the same wait however many more waits were planned. */
  lemma {:induction false} RunExtend(delays: seq<nat>, w: nat, a: nat, n: nat)
    requires a <= n && Run(delays, w, a) < a
    ensures Run(delays, w, n) == Run(delays, w, a)
    decreases a
  {
    if WaitOk(delays, w) {
      RunExtend(delays, w + 1, a - 1, n - 1);
    }
  }

  // ---------------------------------------------------------------------
  // The ACK bit follows the AckOn/AckOff events

  /** The ACK bit after the bus actions `evs`, starting from `ack`: the
      value of the last ACK write among them. */
  function AckAfter(ack: bool, evs: seq<Event>): bool
  {
    if evs == [] then ack
    else if evs[|evs| - 1] == AckOn then true
    else if evs[|evs| - 1] == AckOff then false
    else AckAfter(ack, evs[..|evs| - 1])
  }

  /** Following two runs of events is following the first, then the second. */
  lemma {:induction false} AckAfterAppend(ack: bool, s: seq<Event>, t: seq<Event>)
    ensures AckAfter(ack, s + t) == AckAfter(AckAfter(ack, s), t)
    decreases |t|
  {
    if t == [] {
      assert s + t == s;
    } else {
      assert (s + t)[..|s + t| - 1] == s + t[..|t| - 1];
      AckAfterAppend(ack, s, t[..|t| - 1]);
    }
  }

  /** No event of `evs` writes the ACK bit. */
  predicate NoAck(evs: seq<Event>)
  {
    forall i :: 0 <= i < |evs| ==> evs[i] != AckOn && evs[i] != AckOff
  }

  /** Events that write no ACK leave the ACK bit as it was. */
  lemma {:induction false} AckAfterNoAck(ack: bool, evs: seq<Event>)
    requires NoAck(evs)
    ensures AckAfter(ack, evs) == ack
    decreases |evs|
  {
    if evs != [] {
      var init := evs[..|evs| - 1];
      assert NoAck(init) by {
        forall i | 0 <= i < |init|
          ensures init[i] != AckOn && init[i] != AckOff
        {
          assert init[i] == evs[i];
        }
      }
      AckAfterNoAck(ack, init);
    }
  }

  // ---------------------------------------------------------------------
  // Transmission traces, as functions of the number of successful waits

  /** One Data event per byte, in order. */
  function DataEvents(data: seq<byte>): seq<Event>
  {
    if data == [] then [] else DataEvents(data[..|data| - 1]) + [Data(data[|data| - 1])]
  }

  /** The bytes reach the bus one by one and in order. */
  lemma {:induction false} DataEventsAt(data: seq<byte>)
    ensures |DataEvents(data)| == |data|
    ensures forall i :: 0 <= i < |data| ==> DataEvents(data)[i] == Data(data[i])
    decreases |data|
  {
    if data != [] {
      DataEventsAt(data[..|data| - 1]);
    }
  }

  /** One more byte sent is one more Data event. */
  lemma DataEventsSnoc(data: seq<byte>, i: nat)
    requires i < |data|
    ensures DataEvents(data[..i + 1]) == DataEvents(data[..i]) + [Data(data[i])]
  {
    assert data[..i + 1][..i] == data[..i];
  }

  /** Data events are neither START, STOP nor ACK writes. */
  lemma DataEventsPlain(data: seq<byte>)
    ensures NoAck(DataEvents(data)) && Stop !in DataEvents(data) && Start !in DataEvents(data)
  {
    DataEventsAt(data);
  }

  /** The bus actions that open a transfer to address byte `a` when the first
      `f` of its two waits (SB, then ADDR) succeeded: a STOP follows an
      address that was not acknowledged, none follows a START that timed out. */
  function OpenTrace(a: byte, f: nat): seq<Event>
    requires f <= 2
  {
    if f == 0 then [Start] else if f == 1 then [Start, Addr(a), Stop] else [Start, Addr(a)]
  }

  /** Half of `g`, rounded up: the bytes put on the bus by `g` successful
      waits of a data phase, which waits for TXE before each byte and for BTF
      after it. */
  function HalfUp(g: nat): (r: nat)
    ensures g <= 2 * r <= g + 1
  {
    if g <= 1 then g else 1 + HalfUp(g - 2)
  }

  lemma {:induction false} HalfUpAt(i: nat)
    ensures HalfUp(2 * i) == i && HalfUp(2 * i + 1) == i + 1
  {
    if i > 0 {
      HalfUpAt(i - 1);
    }
  }

  /** START, the address and two waits per byte (TXE, then BTF). */
  function WriteWaits(len: nat): nat { 2 + 2 * len }

  /** The bytes a data phase with `g` successful waits put on the bus. */
  function SendTrace(data: seq<byte>, g: nat): seq<Event>
    requires g <= 2 * |data|
  {
    DataEvents(data[..HalfUp(g)])
  }

  /** The transmit phase of a transaction whose first `f` waits succeeded:
      START, the address and the data, with a STOP after any timeout but a
      START timeout, and no STOP when everything went through. */
  function TxTrace(a: byte, data: seq<byte>, f: nat): seq<Event>
    requires f <= WriteWaits(|data|)
  {
    if f < 2 then OpenTrace(a, f)
    else OpenTrace(a, 2) + SendTrace(data, f - 2) + if f < WriteWaits(|data|) then [Stop] else []
  }

  /** The bus actions of a write whose first `f` waits succeeded. */
  function WriteTrace(a: byte, data: seq<byte>, f: nat): seq<Event>
    requires f <= WriteWaits(|data|)
  {
    TxTrace(a, data, f) + if f == WriteWaits(|data|) then [Stop] else []
  }

  /** A write that went through: START, the address, every byte, STOP. */
  lemma WriteTraceOk(a: byte, data: seq<byte>)
    ensures WriteTrace(a, data, WriteWaits(|data|)) == [Start, Addr(a)] + DataEvents(data) + [Stop]
  {
    TxTraceFull(a, data);
  }

  /** A transmit phase that went through: START, the address, every byte. */
  lemma TxTraceFull(a: byte, data: seq<byte>)
    ensures TxTrace(a, data, WriteWaits(|data|)) == [Start, Addr(a)] + DataEvents(data)
  {
    SendTraceFull(data);
    TxTraceDone(a, data);
  }

  /** A data phase that timed out waiting for TXE before byte `i`. */
  lemma SendStopTxe(data: seq<byte>, i: nat, g: nat)
    requires i < |data| && g == 2 * i
    ensures SendTrace(data, g) == DataEvents(data[..i]) && Min(g + 1, 2 * |data|) == 2 * i + 1
  {
    HalfUpAt(i);
  }

  /** A data phase that timed out waiting for BTF after byte `i`. */
  lemma SendStopBtf(data: seq<byte>, i: nat, g: nat)
    requires i < |data| && g == 2 * i + 1
    ensures SendTrace(data, g) == DataEvents(data[..i + 1]) && Min(g + 1, 2 * |data|) == 2 * i + 2
  {
    HalfUpAt(i);
  }

  /** A data phase whose waits all succeeded. */
  lemma SendDone(data: seq<byte>, g: nat)
    requires g == 2 * |data|
    ensures SendTrace(data, g) == DataEvents(data[..|data|]) && Min(g + 1, 2 * |data|) == 2 * |data|
  {
    HalfUpAt(|data|);
  }

  /** A transmit phase whose data phase made `g` successful waits, then
      timed out: the STOP follows the bytes sent. */
  lemma TxTraceStopped(a: byte, data: seq<byte>, f: nat, g: nat)
    requires g < 2 * |data| && f == g + 2
    ensures TxTrace(a, data, f) == OpenTrace(a, 2) + SendTrace(data, g) + [Stop]
  {
  }

  /** A transmit phase whose data phase went through. */
  lemma TxTraceSent(a: byte, data: seq<byte>, f: nat, g: nat)
    requires g == 2 * |data| && f == g + 2
    ensures TxTrace(a, data, f) == OpenTrace(a, 2) + SendTrace(data, g)
  {
    var none: seq<Event> := [];
    assert TxTrace(a, data, f) == OpenTrace(a, 2) + SendTrace(data, g) + none;
  }

  /** A transmit phase whose waits all succeeded issues no STOP. */
  lemma TxTraceDone(a: byte, data: seq<byte>)
    ensures TxTrace(a, data, WriteWaits(|data|)) == [Start, Addr(a)] + SendTrace(data, 2 * |data|)
  {
    var none: seq<Event> := [];
    assert TxTrace(a, data, WriteWaits(|data|)) == OpenTrace(a, 2) + SendTrace(data, 2 * |data|) + none;
  }

  /** A data phase whose waits all succeeded put every byte on the bus. */
  lemma SendTraceFull(data: seq<byte>)
    ensures SendTrace(data, 2 * |data|) == DataEvents(data)
  {
    HalfUpAt(|data|);
    assert data[..|data|] == data;
  }

  /** A write ends with STOP, its only one, unless its START timed out, in
      which case it issues none. */
  lemma WriteTraceStop(a: byte, data: seq<byte>, f: nat)
    requires f <= WriteWaits(|data|)
    ensures var t := WriteTrace(a, data, f);
      && (f == 0 <==> Stop !in t)
      && (f > 0 ==> t[|t| - 1] == Stop && Stop !in t[..|t| - 1])
  {
    var t := WriteTrace(a, data, f);
    if f >= 2 {
      var body := SendTrace(data, f - 2);
      DataEventsPlain(data[..HalfUp(f - 2)]);
      assert t == [Start, Addr(a)] + body + [Stop];
      assert t[..|t| - 1] == [Start, Addr(a)] + body;
    }
  }

  /** The bytes a write put on the bus before a timeout are the first ones
      of its data. */
  lemma WriteTraceSent(a: byte, data: seq<byte>, f: nat)
    requires 2 <= f <= WriteWaits(|data|)
    ensures var k := HalfUp(f - 2);
      && k <= |data|
      && WriteTrace(a, data, f) == [Start, Addr(a)] + DataEvents(data[..k]) + [Stop]
  {
  }

  // ---------------------------------------------------------------------
  // Reception traces

  /** START, the address and one RXNE wait per byte. */
  function ReadWaits(len: nat): nat { 2 + len }

  /** The bus actions before byte `i` of a `len`-byte read: ACK on, or ACK
      off then STOP before the last byte. */
  function ByteControl(len: nat, i: nat): seq<Event>
  {
    if i == len - 1 then [AckOff, Stop] else [AckOn]
  }

  /** The ACK controls written before the first `m` of `len` received bytes. */
  function AckControls(len: nat, m: nat): seq<Event>
    requires 1 <= len && m <= len
  {
    if m == 0 then [] else AckControls(len, m - 1) + ByteControl(len, m - 1)
  }

  /** ACK on before every byte but the last, ACK off then STOP before the last. */
  lemma {:induction false} AckControlsForm(len: nat, m: nat)
    requires 1 <= len && m <= len
    ensures AckControls(len, m) == seq(Min(m, len - 1), _ => AckOn) + if m == len then [AckOff, Stop] else []
  {
    if m > 0 {
      AckControlsForm(len, m - 1);
      if m - 1 < len - 1 {
        assert seq(m, _ => AckOn) == seq(m - 1, _ => AckOn) + [AckOn];
      }
    }
  }

  /** After the controls for `m` bytes ACK is on exactly when the last
      control written was not for the last byte. */
  lemma {:induction false} AckControlsAck(ack: bool, len: nat, m: nat)
    requires 1 <= len && m <= len
    ensures AckAfter(ack, AckControls(len, m)) == if m == 0 then ack else m < len
  {
    if m > 0 {
      AckAfterAppend(ack, AckControls(len, m - 1), ByteControl(len, m - 1));
    }
  }

  /** The receive loop of a read of `len` bytes whose first `g` RXNE waits
      succeeded: the ACK controls written before each byte it waited for, and
      STOP after a timeout. */
  function RxLoopTrace(len: nat, g: nat): seq<Event>
    requires 1 <= len && g <= len
  {
    AckControls(len, Min(g + 1, len)) + if g == len then [] else [Stop]
  }

  /** The controls for one more byte follow the controls for the bytes before it. */
  lemma AckControlsNext(len: nat, i: nat, j: nat)
    requires j == i + 1 <= len
    ensures AckControls(len, j) == AckControls(len, i) + ByteControl(len, i)
  {
  }

  /** A receive loop whose wait for byte `i` timed out wrote the controls
      for bytes up to `i` and STOP, after `i + 1` waits. */
  lemma RxLoopStop(len: nat, g: nat, j: nat)
    requires j == g + 1 <= len
    ensures RxLoopTrace(len, g) == AckControls(len, j) + [Stop] && Min(g + 1, len) == j
  {
  }

  /** A receive loop whose waits all succeeded wrote the controls for every
      byte, after `len` waits. */
  lemma RxLoopDone(len: nat, g: nat)
    requires 1 <= len && g == len
    ensures RxLoopTrace(len, g) == AckControls(len, len) && Min(g + 1, len) == len
  {
    assert RxLoopTrace(len, g) == AckControls(len, len) + [];
  }

  /** The receive part of a read, after the address was acknowledged: the
      receive loop, and ACK on again once every byte arrived. */
  function RxTrace(len: nat, g: nat): seq<Event>
    requires 1 <= len && g <= len
  {
    RxLoopTrace(len, g) + if g == len then [AckOn] else []
  }

  /** The bus actions of a read whose first `f` waits succeeded. */
  function ReadTrace(a: byte, len: nat, f: nat): seq<Event>
    requires 1 <= len && f <= ReadWaits(len)
  {
    if f < 2 then OpenTrace(a, f) else OpenTrace(a, 2) + RxTrace(len, f - 2)
  }

  /** A read that went through: ACK on before each byte but the last, ACK
      off and STOP before the last, then ACK on again. */
  lemma ReadTraceOk(a: byte, len: nat)
    requires 1 <= len
    ensures ReadTrace(a, len, ReadWaits(len)) ==
      [Start, Addr(a)] + seq(len - 1, _ => AckOn) + [AckOff, Stop, AckOn]
  {
    var acks := seq(len - 1, _ => AckOn);
    AckControlsForm(len, len);
    assert RxLoopTrace(len, len) == acks + [AckOff, Stop];
    assert RxTrace(len, len) == acks + [AckOff, Stop, AckOn];
    AppendAssoc([Start, Addr(a)], acks, [AckOff, Stop, AckOn]);
  }

  /** A read issues STOP unless its START timed out; after a timeout in the
      receive loop the STOP is the last action. */
  lemma ReadTraceStop(a: byte, len: nat, f: nat)
    requires 1 <= len && f <= ReadWaits(len)
    ensures var t := ReadTrace(a, len, f);
      && (f == 0 <==> Stop !in t)
      && (f < ReadWaits(len) && f > 0 ==> t[|t| - 1] == Stop)
  {
    var t := ReadTrace(a, len, f);
    if f >= 2 {
      var g := f - 2;
      var acks := AckControls(len, Min(g + 1, len));
      AckControlsForm(len, Min(g + 1, len));
      if g == len {
        assert t == OpenTrace(a, 2) + acks + [AckOn];
        assert t[|t| - 2] == Stop;
      } else {
        assert t == OpenTrace(a, 2) + acks + [Stop];
      }
    }
  }

  /** The ACK bit after a read whose first `f` waits succeeded: untouched
      if it failed to open the transfer, on after a timeout before the last
      byte and after a complete read, off after a timeout on the last byte. */
  function ReadAck(ack: bool, len: nat, f: nat): bool
  {
    if f < 2 then ack else f - 2 < len - 1 || f == ReadWaits(len)
  }

  /** The ACK bit after the receive part of a read: on unless the wait for
      the last byte was reached without the read completing. */
  lemma RxTraceAck(ack: bool, len: nat, g: nat)
    requires 1 <= len && g <= len
    ensures AckAfter(ack, RxTrace(len, g)) == (g < len - 1 || g == len)
  {
    var m := Min(g + 1, len);
    var tail: seq<Event> := if g == len then [AckOn] else [];
    AckAfterAppend(ack, RxLoopTrace(len, g), tail);
    AckAfterAppend(ack, AckControls(len, m), if g == len then [] else [Stop]);
    AckControlsAck(ack, len, m);
  }

  /** The closed form of a read's ACK bit is what the ACK writes of its trace do. */
  lemma ReadAckTrace(ack: bool, a: byte, len: nat, f: nat)
    requires 1 <= len && f <= ReadWaits(len)
    ensures ReadAck(ack, len, f) == AckAfter(ack, ReadTrace(a, len, f))
  {
    if f < 2 {
      AckAfterNoAck(ack, OpenTrace(a, f));
    } else {
      AckAfterAppend(ack, OpenTrace(a, 2), RxTrace(len, f - 2));
      AckAfterNoAck(ack, OpenTrace(a, 2));
      RxTraceAck(ack, len, f - 2);
    }
  }

  /** The value the `k`-th read of DR delivers: 0 once the FIFO has run out. */
  function DrAt(fifo: seq<byte>, k: nat): byte
  {
    if k < |fifo| then fifo[k] else 0
  }

  /** The `k` values DR delivers from its `from`-th read on. */
  function Received(fifo: seq<byte>, from: nat, k: nat): (r: seq<byte>)
    ensures |r| == k
  {
    if k == 0 then [] else Received(fifo, from, k - 1) + [DrAt(fifo, from + k - 1)]
  }

  /** The received bytes are the successive values of DR. */
  lemma {:induction false} ReceivedAt(fifo: seq<byte>, from: nat, k: nat)
    ensures forall j :: 0 <= j < k ==> Received(fifo, from, k)[j] == DrAt(fifo, from + j)
    decreases k
  {
    if k > 0 {
      ReceivedAt(fifo, from, k - 1);
    }
  }

  /** A receive buffer `buf` whose places `0` to `k - 1` were filled, in
      order, with the values DR delivered from its `from`-th read on. */
  function Filled(fifo: seq<byte>, from: nat, k: nat, buf: seq<byte>): (r: seq<byte>)
    requires k <= |buf|
    ensures |r| == |buf|
  {
    if k == 0 then buf else Filled(fifo, from, k - 1, buf)[k - 1 := DrAt(fifo, from + k - 1)]
  }

  /** A filled buffer holds the received values, then the rest of the
      buffer as it was. */
  lemma {:induction false} FilledForm(fifo: seq<byte>, from: nat, k: nat, buf: seq<byte>)
    requires k <= |buf|
    ensures Filled(fifo, from, k, buf) == Received(fifo, from, k) + buf[k..]
    decreases k
  {
    if k > 0 {
      FilledForm(fifo, from, k - 1, buf);
      assert buf[k - 1..] == [buf[k - 1]] + buf[k..];
    }
  }

  /** A buffer none of whose places was filled is unchanged. */
  lemma FilledNone(fifo: seq<byte>, from: nat, buf: seq<byte>)
    ensures Filled(fifo, from, 0, buf) == buf
  {
  }

  /** Storing DR value number `at` = `from + i` at index `i` fills one more place. */
  lemma FilledNext(fifo: seq<byte>, from: nat, i: nat, at: nat, buf: seq<byte>)
    requires i < |buf| && at == from + i
    ensures Filled(fifo, from, i, buf)[i := DrAt(fifo, at)] == Filled(fifo, from, i + 1, buf)
  {
  }

  /** The bytes a read stored after its first `f` waits succeeded: one per
      RXNE wait after START and the address. */
  function RxCount(f: nat): nat
  {
    if f >= 2 then f - 2 else 0
  }

  // ---------------------------------------------------------------------
  // Write-then-read traces

  /** The repeated START and the read address of a write-then-read, with
      `k` of their two waits successful: a STOP follows either timeout. */
  function RestartTrace(a: byte, k: nat): seq<Event>
    requires k <= 2
  {
    if k == 0 then [Start, Stop] else OpenTrace(a, k)
  }

  /** The read phase of a write-then-read after its address was
      acknowledged, with `g` of its `rxLen` RXNE waits successful.  A single
      byte is not acknowledged and STOP is requested before it arrives;
      longer reads acknowledge all bytes but the last, and turn ACK off and
      request STOP once the last-but-one has arrived.  A timeout issues no
      STOP. */
  function RxPhaseTrace(rxLen: nat, g: nat): seq<Event>
    requires 1 <= rxLen && g <= rxLen
  {
    if rxLen == 1 then [AckOn, AckOff, Stop]
    else [AckOn, AckOn] + (if g >= rxLen - 1 then [AckOff, Stop] else []) + if g == rxLen then [AckOn] else []
  }

  /** Write phase, repeated START, read address, one RXNE wait per byte. */
  function WriteReadWaits(txLen: nat, rxLen: nat): nat { WriteWaits(txLen) + 2 + rxLen }

  /** The repeated START, the read address and the read phase of a
      write-then-read, with `k` of their `2 + rxLen` waits successful. */
  function ReadPhaseTrace(a: byte, rxLen: nat, k: nat): (r: seq<Event>)
    requires 1 <= rxLen && k <= 2 + rxLen
    ensures |r| >= 1 && r[0] == Start
  {
    RestartTrace(a, Min(k, 2)) + if k >= 2 then RxPhaseTrace(rxLen, k - 2) else []
  }

  /** The bus actions of a write-then-read whose first `f` waits succeeded. */
  function WriteReadTrace(devAddr: byte, tx: seq<byte>, rxLen: nat, f: nat): seq<Event>
    requires 1 <= rxLen && f <= WriteReadWaits(|tx|, rxLen)
  {
    var w := WriteWaits(|tx|);
    if f < w then TxTrace(WriteAddr(devAddr), tx, f)
    else TxTrace(WriteAddr(devAddr), tx, w) + ReadPhaseTrace(ReadAddr(devAddr), rxLen, f - w)
  }

  /** The number of bytes a write-then-read stored, given its successful waits. */
  function RxStored(txLen: nat, f: nat): nat
  {
    if f >= WriteWaits(txLen) then RxCount(f - WriteWaits(txLen)) else 0
  }

  /** The ACK bit after the read phase of a write-then-read: it stays on
      only in a read of two or more bytes that timed out before the
      last-but-one byte arrived or that went through. */
  function RxPhaseAck(rxLen: nat, g: nat): bool
  {
    rxLen >= 2 && (g < rxLen - 1 || g == rxLen)
  }

  /** The ACK bit after the repeated START, the read address and the read
      phase, with `k` of their waits successful. */
  function ReadPhaseAck(ack: bool, rxLen: nat, k: nat): bool
  {
    if k < 2 then ack else RxPhaseAck(rxLen, k - 2)
  }

  /** The ACK bit after a write-then-read whose first `f` waits succeeded. */
  function WriteReadAck(ack: bool, txLen: nat, rxLen: nat, f: nat): bool
  {
    if f < WriteWaits(txLen) then ack else ReadPhaseAck(ack, rxLen, f - WriteWaits(txLen))
  }

  /** A write-then-read whose transmit phase timed out: its trace, what it
      stored and its ACK bit are those of the transmit phase alone. */
  lemma WriteReadEarly(ack: bool, devAddr: byte, tx: seq<byte>, rxLen: nat, f: nat)
    requires 1 <= rxLen && f < WriteWaits(|tx|)
    ensures WriteReadTrace(devAddr, tx, rxLen, f) == TxTrace(WriteAddr(devAddr), tx, f)
    ensures RxStored(|tx|, f) == 0 && WriteReadAck(ack, |tx|, rxLen, f) == ack
  {
  }

  /** A write-then-read whose transmit phase completed and whose read phase
      made `k` successful waits. */
  lemma WriteReadLate(ack: bool, devAddr: byte, tx: seq<byte>, rxLen: nat, f: nat, w: nat, k: nat)
    requires 1 <= rxLen && w == WriteWaits(|tx|) && f == w + k && k <= 2 + rxLen
    ensures WriteReadTrace(devAddr, tx, rxLen, f) == TxTrace(WriteAddr(devAddr), tx, w) + ReadPhaseTrace(ReadAddr(devAddr), rxLen, k)
    ensures RxStored(|tx|, f) == RxCount(k) && WriteReadAck(ack, |tx|, rxLen, f) == ReadPhaseAck(ack, rxLen, k)
  {
  }

  /** A write-then-read that went through. */
  lemma WriteReadTraceOk(devAddr: byte, tx: seq<byte>, rxLen: nat)
    requires 1 <= rxLen
    ensures WriteReadTrace(devAddr, tx, rxLen, WriteReadWaits(|tx|, rxLen)) ==
      [Start, Addr(WriteAddr(devAddr))] + DataEvents(tx) + [Start, Addr(ReadAddr(devAddr))] +
      if rxLen == 1 then [AckOn, AckOff, Stop] else [AckOn, AckOn, AckOff, Stop, AckOn]
  {
    var w := WriteWaits(|tx|);
    var f := WriteReadWaits(|tx|, rxLen);
    assert f - w == 2 + rxLen;
    assert WriteReadTrace(devAddr, tx, rxLen, f) ==
      TxTrace(WriteAddr(devAddr), tx, w) + ReadPhaseTrace(ReadAddr(devAddr), rxLen, 2 + rxLen);
    TxTraceFull(WriteAddr(devAddr), tx);
    ReadPhaseTraceOk(ReadAddr(devAddr), rxLen);
    AppendAssoc([Start, Addr(WriteAddr(devAddr))] + DataEvents(tx), [Start, Addr(ReadAddr(devAddr))],
      if rxLen == 1 then [AckOn, AckOff, Stop] else [AckOn, AckOn, AckOff, Stop, AckOn]);
  }

  /** A read phase that went through, from the repeated START on. */
  lemma ReadPhaseTraceOk(a: byte, rxLen: nat)
    requires 1 <= rxLen
    ensures ReadPhaseTrace(a, rxLen, 2 + rxLen) ==
      [Start, Addr(a)] + if rxLen == 1 then [AckOn, AckOff, Stop] else [AckOn, AckOn, AckOff, Stop, AckOn]
  {
    assert RestartTrace(a, 2) == [Start, Addr(a)];
    RxPhaseTraceOk(rxLen);
  }

  /** A read phase that went through: a single byte is read with ACK off;
      longer reads acknowledge, turn ACK off before the last byte, STOP, and
      turn ACK back on. */
  lemma RxPhaseTraceOk(rxLen: nat)
    requires 1 <= rxLen
    ensures RxPhaseTrace(rxLen, rxLen) ==
      if rxLen == 1 then [AckOn, AckOff, Stop] else [AckOn, AckOn, AckOff, Stop, AckOn]
  {
    if rxLen >= 2 {
      assert RxPhaseTrace(rxLen, rxLen) == [AckOn, AckOn] + [AckOff, Stop] + [AckOn];
    }
  }

  /** The write phase of a write-then-read that reached the repeated START
      issues no STOP: the repeated START follows the last byte directly. */
  lemma WriteReadNoStopBeforeRestart(devAddr: byte, tx: seq<byte>, rxLen: nat, f: nat)
    requires 1 <= rxLen && WriteWaits(|tx|) <= f <= WriteReadWaits(|tx|, rxLen)
    ensures var t := WriteReadTrace(devAddr, tx, rxLen, f);
      && |t| > 2 + |tx|
      && t[..2 + |tx| + 1] == [Start, Addr(WriteAddr(devAddr))] + DataEvents(tx) + [Start]
      && Stop !in t[..2 + |tx| + 1]
  {
    var head := [Start, Addr(WriteAddr(devAddr))] + DataEvents(tx);
    var rest := ReadPhaseTrace(ReadAddr(devAddr), rxLen, f - WriteWaits(|tx|));
    TxTraceFull(WriteAddr(devAddr), tx);
    DataEventsAt(tx);
    TakeOneMore(head, rest);
    assert Stop !in head + [Start] by {
      DataEventsPlain(tx);
    }
  }

  /** The prefix of `h + r` one longer than `h`. */
  lemma TakeOneMore<T>(h: seq<T>, r: seq<T>)
    requires |r| >= 1
    ensures (h + r)[..|h| + 1] == h + [r[0]]
  {
  }

  /** A timeout in the read phase of a write-then-read of two or more bytes,
      before the last-but-one byte arrived, leaves the bus without a STOP. */
  lemma RxPhaseTimeoutNoStop(rxLen: nat, g: nat)
    requires 2 <= rxLen && g < rxLen - 1
    ensures Stop !in RxPhaseTrace(rxLen, g)
  {
  }

  /** The closed form of the read phase's ACK bit is what its ACK writes do. */
  lemma RxPhaseAckTrace(ack: bool, rxLen: nat, g: nat)
    requires 1 <= rxLen && g <= rxLen
    ensures RxPhaseAck(rxLen, g) == AckAfter(ack, RxPhaseTrace(rxLen, g))
  {
    if rxLen >= 2 {
      var mid: seq<Event> := if g >= rxLen - 1 then [AckOff, Stop] else [];
      var tail: seq<Event> := if g == rxLen then [AckOn] else [];
      assert RxPhaseTrace(rxLen, g) == [AckOn, AckOn] + (mid + tail);
      AckAfterAppend(ack, [AckOn, AckOn], mid + tail);
      AckAfterAppend(true, mid, tail);
    }
  }

  /** Events of the transmit phase and the repeated START write no ACK. */
  lemma TxTraceNoAck(a: byte, data: seq<byte>, f: nat)
    requires f <= WriteWaits(|data|)
    ensures NoAck(TxTrace(a, data, f))
  {
    if f >= 2 {
      DataEventsPlain(data[..HalfUp(f - 2)]);
      var t := TxTrace(a, data, f);
      var body := SendTrace(data, f - 2);
      forall i | 0 <= i < |t|
        ensures t[i] != AckOn && t[i] != AckOff
      {
        if 2 <= i < 2 + |body| {
          assert t[i] == body[i - 2];
        }
      }
    }
  }

  /** The closed form of a write-then-read's ACK bit is what the ACK writes
      of its trace do. */
  lemma WriteReadAckTrace(ack: bool, devAddr: byte, tx: seq<byte>, rxLen: nat, f: nat)
    requires 1 <= rxLen && f <= WriteReadWaits(|tx|, rxLen)
    ensures WriteReadAck(ack, |tx|, rxLen, f) == AckAfter(ack, WriteReadTrace(devAddr, tx, rxLen, f))
  {
    var w := WriteWaits(|tx|);
    if f < w {
      TxTraceNoAck(WriteAddr(devAddr), tx, f);
      AckAfterNoAck(ack, TxTrace(WriteAddr(devAddr), tx, f));
    } else {
      var head := TxTrace(WriteAddr(devAddr), tx, w);
      TxTraceNoAck(WriteAddr(devAddr), tx, w);
      AckAfterNoAck(ack, head);
      AckAfterAppend(ack, head, ReadPhaseTrace(ReadAddr(devAddr), rxLen, f - w));
      ReadPhaseAckTrace(ack, ReadAddr(devAddr), rxLen, f - w);
    }
  }

  /** The ACK bit after the read phase of a write-then-read, from the
      repeated START on, with `k` successful waits. */
  lemma ReadPhaseAckTrace(ack: bool, a: byte, rxLen: nat, k: nat)
    requires 1 <= rxLen && k <= 2 + rxLen
    ensures AckAfter(ack, ReadPhaseTrace(a, rxLen, k)) == ReadPhaseAck(ack, rxLen, k)
  {
    var re := RestartTrace(a, Min(k, 2));
    var rx: seq<Event> := if k >= 2 then RxPhaseTrace(rxLen, k - 2) else [];
    assert NoAck(re);
    AckAfterNoAck(ack, re);
    AckAfterAppend(ack, re, rx);
    if k >= 2 {
      RxPhaseAckTrace(ack, rxLen, k - 2);
    }
  }

  /** Waits counted past `k` initial successful ones. */
  lemma WaitsShift(f: nat, g: nat, k: nat, m: nat, n: nat)
    requires f == g + k && m == n + k
    ensures Min(f + 1, m) == k + Min(g + 1, n)
  {
  }

  /** A sequence of waits that stopped within its first `a` waits made as
      many waits as its first `a` did. */
  lemma WaitsCut(f: nat, a: nat, n: nat)
    requires f < a <= n
    ensures Min(f + 1, n) == Min(f + 1, a)
  {
  }

  // ---------------------------------------------------------------------
  // The driver

  /** The register block of one I2C peripheral: the registers the driver
      writes.  CR1 is kept in two parts: its ACK bit in `ack`, which the
      transactions write, and its other bits in `cr1`, which initialisation
      writes; `Cr1` puts them together. */
  class Peripheral {
    var cr1: bv32
    var ack: bool
    var cr2: bv32
    var ccr: bv32
    var trise: bv32

    /** The reset values. */
    constructor ()
      ensures cr1 == 0 && !ack && cr2 == 0 && ccr == 0 && trise == 2
    {
      cr1, ack, cr2, ccr, trise := 0, false, 0, 0, 2;
    }

    /** CR1 as the hardware holds it. */
    function Cr1(): bv32
      reads this
    {
      WithAck(cr1, ack)
    }

    function Snapshot(): Regs
      reads this
    {
      Regs(cr1, cr2, ccr, trise)
    }

    /** The register writes of master-mode initialisation, in the driver's order. */
    method Configure(speed: Speed, apb1clk: bv32)
      modifies this
      ensures Snapshot() == InitRegs(old(Snapshot()), speed, apb1clk)
      ensures ack == old(ack)
    {
      cr1 := SoftReset(cr1);
      cr2 := InitCr2(cr2, apb1clk);
      ccr := InitCcr(ccr, speed, apb1clk);
      trise := InitTrise(cr2, speed);
      cr1 := cr1 | CR1_PE;
    }
  }

  class Driver {
    /** Bit n is set once bus n was initialised. */
    var initStatus: bv8
    /** RCC_APB1ENR, where each bus has its clock enable bit. */
    var apb1enr: bv32
    const i2c1: Peripheral
    const i2c2: Peripheral
    const i2c3: Peripheral
    var trace: seq<Event>
    /** The flag delays of all waits, and how many waits have been made. */
    const delays: seq<nat>
    var waits: nat
    /** The values DR delivers, and how many have been read. */
    const rxFifo: seq<byte>
    var received: nat

    /** The register block of `bus`. */
    function Block(bus: Bus): Peripheral
    {
      match bus
      case I2C1 => i2c1
      case I2C2 => i2c2
      case I2C3 => i2c3
    }

    ghost predicate Valid()
      reads this
    {
      i2c1 != i2c2 && i2c1 != i2c3 && i2c2 != i2c3 && initStatus & 0xF8 == 0
    }

    constructor (delays: seq<nat>, rxFifo: seq<byte>)
      ensures Valid()
      ensures initStatus == 0 && trace == [] && apb1enr == 0 && waits == 0 && received == 0
      ensures this.delays == delays && this.rxFifo == rxFifo
      ensures forall bus :: Block(bus).Snapshot() == Regs(0, 0, 0, 2)
      ensures fresh(i2c1) && fresh(i2c2) && fresh(i2c3)
    {
      initStatus := 0;
      apb1enr := 0;
      i2c1 := new Peripheral();
      i2c2 := new Peripheral();
      i2c3 := new Peripheral();
      trace := [];
      this.delays := delays;
      waits := 0;
      this.rxFifo := rxFifo;
      received := 0;
    }

    /** The whole initialisation mask: bit n is set once bus n was initialised. */
    function GetInitStatus(): (mask: bv8)
      reads this
      requires Valid()
      ensures mask & 0xF8 == 0
    {
      initStatus
    }

    method Init(bus: Bus, config: Config, apb1clk: bv32) returns (status: Status)
      requires Valid()
      modifies this`initStatus, this`apb1enr, Block(bus)
      ensures Valid()
      ensures old(initStatus) & InitBit(bus) != 0 ==>
        && status == ErrReinit && initStatus == old(initStatus) && apb1enr == old(apb1enr)
        && Block(bus).Snapshot() == old(Block(bus).Snapshot())
      ensures old(initStatus) & InitBit(bus) == 0 && config.ownAddress != I2C_MASTER ==>
        && status == ErrBus && initStatus == old(initStatus) && apb1enr == old(apb1enr)
        && Block(bus).Snapshot() == old(Block(bus).Snapshot())
      ensures old(initStatus) & InitBit(bus) == 0 && config.ownAddress == I2C_MASTER ==>
        && status == Ok
        && initStatus == old(initStatus) | InitBit(bus)
        && apb1enr == old(apb1enr) | Apb1EnrMask(bus)
        && Block(bus).Snapshot() == InitRegs(old(Block(bus).Snapshot()), config.clockSpeed, apb1clk)
      ensures Block(bus).ack == old(Block(bus).ack)
    {
      if initStatus & InitBit(bus) != 0 {
        return ErrReinit;
      }
      var i2c := Block(bus);
      if config.ownAddress == I2C_MASTER {
        apb1enr := apb1enr | Apb1EnrMask(bus);
        i2c.Configure(config.clockSpeed, apb1clk);
        InitMaskAdd(initStatus, InitBit(bus));
        initStatus := initStatus + InitBit(bus);
        return Ok;
      } else {
        return ErrBus;
      }
    }

    /** Polls a status flag until it is set or TIMEOUT polls have seen it clear:
        the wait succeeds exactly when one of its first TIMEOUT polls sees the flag. */
    method WaitFlag() returns (ok: bool)
      modifies this`waits
      ensures ok <==> exists j :: 0 <= j < TIMEOUT && FlagAt(delays, old(waits), j)
      ensures ok == WaitOk(delays, old(waits)) && waits == old(waits) + 1
    {
      var timeout := TIMEOUT;
      var running := true;
      var flag := false;
      while running
        invariant 0 <= timeout <= TIMEOUT
        invariant running ==> timeout > 0 && !flag
        invariant !flag ==> waits >= |delays| || delays[waits] >= TIMEOUT - timeout
        invariant flag ==> timeout > 0 && FlagAt(delays, waits, TIMEOUT - timeout)
        invariant !running && !flag ==> timeout == 0
        decreases timeout, running
      {
        flag := FlagAt(delays, waits, TIMEOUT - timeout);
        if flag {
          running := false;
        } else {
          timeout := timeout - 1;
          running := timeout != 0;
        }
      }
      ok := timeout > 0;
      if ok {
        assert FlagAt(delays, waits, TIMEOUT - timeout);
      }
      waits := waits + 1;
    }

    /** Requests START and waits for SB. */
    method StartCondition() returns (status: Status)
      modifies this`trace, this`waits
      ensures trace == old(trace) + [Start] && waits == old(waits) + 1
      ensures status == if WaitOk(delays, old(waits)) then Ok else ErrTimeout
    {
      trace := trace + [Start];
      var ok := WaitFlag();
      status := if ok then Ok else ErrTimeout;
    }

    /** Requests STOP. */
    method StopCondition()
      modifies this`trace
      ensures trace == old(trace) + [Stop]
    {
      trace := trace + [Stop];
    }

    /** Puts the address byte in DR and waits for ADDR. */
    method WriteAddress(addr: byte) returns (status: Status)
      modifies this`trace, this`waits
      ensures trace == old(trace) + [Addr(addr)] && waits == old(waits) + 1
      ensures status == if WaitOk(delays, old(waits)) then Ok else ErrTimeout
    {
      trace := trace + [Addr(addr)];
      var ok := WaitFlag();
      status := if ok then Ok else ErrTimeout;
    }

    /** Waits for TXE, puts the byte in DR and waits for BTF. */
    method WriteData(b: byte) returns (status: Status)
      modifies this`trace, this`waits
      ensures !WaitOk(delays, old(waits)) ==>
        status == ErrTimeout && trace == old(trace) && waits == old(waits) + 1
      ensures WaitOk(delays, old(waits)) ==>
        && trace == old(trace) + [Data(b)]
        && waits == old(waits) + 2
        && status == if WaitOk(delays, old(waits) + 1) then Ok else ErrTimeout
    {
      var ok := WaitFlag();
      if !ok {
        return ErrTimeout;
      }
      trace := trace + [Data(b)];
      ok := WaitFlag();
      status := if ok then Ok else ErrTimeout;
    }

    /** Sets or clears CR1.ACK of `bus`. */
    method AckControl(bus: Bus, on: bool)
      modifies this`trace, Block(bus)`ack
      ensures trace == old(trace) + [if on then AckOn else AckOff]
      ensures Block(bus).ack == on
    {
      trace := trace + [if on then AckOn else AckOff];
      Block(bus).ack := on;
    }

    /** Reads the data register. */
    method ReadDr() returns (b: byte)
      modifies this`received
      ensures b == DrAt(rxFifo, old(received)) && received == old(received) + 1
    {
      b := DrAt(rxFifo, received);
      received := received + 1;
    }

    /** START, then the address byte `a`; a STOP after an address that was
        not acknowledged. */
    method OpenTransfer(a: byte) returns (status: Status)
      modifies this`trace, this`waits
      ensures var f := Run(delays, old(waits), 2);
        && status == (if f == 2 then Ok else ErrTimeout)
        && trace == old(trace) + OpenTrace(a, f)
        && waits == old(waits) + Min(f + 1, 2)
    {
      ghost var w0 := waits;
      status := StartCondition();
      if status != Ok {
        RunIs(delays, w0, 2, 0);
        return;
      }
      status := WriteAddress(a);
      if status != Ok {
        RunIs(delays, w0, 2, 1);
        StopCondition();
        return;
      }
      RunIs(delays, w0, 2, 2);
    }

    /** The data loop of a write: each byte waits for TXE, goes to DR and waits
        for BTF, until a wait times out. */
    method SendBytes(data: seq<byte>) returns (status: Status)
      modifies this`trace, this`waits
      ensures var g := Run(delays, old(waits), 2 * |data|);
        && status == (if g == 2 * |data| then Ok else ErrTimeout)
        && trace == old(trace) + SendTrace(data, g)
        && waits == old(waits) + Min(g + 1, 2 * |data|)
    {
      ghost var w0 := waits;
      ghost var t0 := trace;
      ghost var n := 2 * |data|;
      var i := 0;
      while i < |data|
        invariant 0 <= i <= |data|
        invariant Run(delays, w0, 2 * i) == 2 * i && waits == w0 + 2 * i
        invariant trace == t0 + DataEvents(data[..i])
      {
        ghost var wi := waits;
        status := WriteData(data[i]);
        if status != Ok {
          if !WaitOk(delays, wi) {
            RunStop(delays, w0, 2 * i, n, wi);
            SendStopTxe(data, i, Run(delays, w0, n));
          } else {
            RunGrow(delays, w0, 2 * i, wi, 2 * i + 1);
            RunStop(delays, w0, 2 * i + 1, n, wi + 1);
            SendStopBtf(data, i, Run(delays, w0, n));
            DataEventsSnoc(data, i);
            AppendAssoc(t0, DataEvents(data[..i]), [Data(data[i])]);
          }
          return;
        }
        RunGrow(delays, w0, 2 * i, wi, 2 * i + 1);
        RunGrow(delays, w0, 2 * i + 1, wi + 1, 2 * (i + 1));
        DataEventsSnoc(data, i);
        AppendAssoc(t0, DataEvents(data[..i]), [Data(data[i])]);
        i := i + 1;
      }
      SendDone(data, Run(delays, w0, n));
      status := Ok;
    }

    /** START, the address byte `a` and the data, with a STOP after any
        timeout but one on START. */
    method TransmitPhase(a: byte, data: seq<byte>) returns (status: Status)
      modifies this`trace, this`waits
      ensures var f := Run(delays, old(waits), WriteWaits(|data|));
        && status == (if f == WriteWaits(|data|) then Ok else ErrTimeout)
        && trace == old(trace) + TxTrace(a, data, f)
        && waits == old(waits) + Min(f + 1, WriteWaits(|data|))
    {
      ghost var w0 := waits;
      ghost var t0 := trace;
      ghost var n := WriteWaits(|data|);
      status := OpenTransfer(a);
      if status != Ok {
        RunExtend(delays, w0, 2, n);
        WaitsCut(Run(delays, w0, 2), 2, n);
        return;
      }
      ghost var w1 := waits;
      RunShift(delays, w0, 2, n, w1, 2 * |data|);
      ghost var g := Run(delays, w1, 2 * |data|);
      status := SendBytes(data);
      AppendAssoc(t0, OpenTrace(a, 2), SendTrace(data, g));
      if status != Ok {
        StopCondition();
        TxTraceStopped(a, data, Run(delays, w0, n), g);
        AppendAssoc(t0, OpenTrace(a, 2) + SendTrace(data, g), [Stop]);
      } else {
        TxTraceSent(a, data, Run(delays, w0, n), g);
      }
      WaitsShift(Run(delays, w0, n), g, 2, n, 2 * |data|);
    }

    /** A write of `data` to the device at 7-bit address `devAddr`. */
    method Write(devAddr: byte, data: seq<byte>) returns (status: Status)
      requires |data| < TWO_16
      modifies this`trace, this`waits
      ensures var f := Run(delays, old(waits), WriteWaits(|data|));
        && status == (if f == WriteWaits(|data|) then Ok else ErrTimeout)
        && trace == old(trace) + WriteTrace(WriteAddr(devAddr), data, f)
        && waits == old(waits) + Min(f + 1, WriteWaits(|data|))
    {
      ghost var t0 := trace;
      status := TransmitPhase(WriteAddr(devAddr), data);
      ghost var t1 := trace;
      if status == Ok {
        StopCondition();
      }
    }

    /** Waits for RXNE and stores DR at `data[i]`, the next place of a
        buffer being filled from DR. */
    method ReceiveStore(data: array<byte>, i: nat, ghost from: nat, ghost buf: seq<byte>)
      returns (ok: bool, b: byte)
      requires i < data.Length == |buf| && data[..] == Filled(rxFifo, from, i, buf) && received == from + i
      modifies this`waits, this`received, data
      ensures ok == WaitOk(delays, old(waits)) && waits == old(waits) + 1
      ensures ok ==> data[..] == Filled(rxFifo, from, i + 1, buf) && received == old(received) + 1
      ensures !ok ==> data[..] == old(data[..]) && received == old(received)
    {
      ok := WaitFlag();
      if !ok {
        return ok, 0;
      }
      ghost var at := received;
      b := ReadDr();
      FilledNext(rxFifo, from, i, at, buf);
      data[i] := b;
    }

    /** One pass of the receive loop of a read: the ACK control for byte `i`,
        then the byte stored, or STOP after a timeout. */
    method ReceiveByte(bus: Bus, data: array<byte>, len: nat, i: nat, ghost from: nat, ghost buf: seq<byte>)
      returns (ok: bool)
      requires i < len <= data.Length == |buf| && data[..] == Filled(rxFifo, from, i, buf) && received == from + i
      modifies this`trace, this`waits, this`received, Block(bus)`ack, data
      ensures ok == WaitOk(delays, old(waits)) && waits == old(waits) + 1
      ensures trace == old(trace) + ByteControl(len, i) + if ok then [] else [Stop]
      ensures Block(bus).ack == (i < len - 1)
      ensures ok ==> data[..] == Filled(rxFifo, from, i + 1, buf) && received == old(received) + 1
      ensures !ok ==> data[..] == old(data[..]) && received == old(received)
    {
      ghost var t0 := trace;
      if i == len - 1 {
        AckControl(bus, false);
        StopCondition();
      } else {
        AckControl(bus, true);
      }
      assert trace == t0 + ByteControl(len, i);
      var b;
      ok, b := ReceiveStore(data, i, from, buf);
      if !ok {
        StopCondition();
      }
    }

    /** The receive loop of a read: ACK on before every byte but the last,
        ACK off and STOP before the last, then wait for RXNE and store DR; a
        timeout issues STOP and ends the loop. */
    method ReceiveBytes(bus: Bus, data: array<byte>, len: nat) returns (status: Status)
      requires 1 <= len <= data.Length
      modifies this`trace, this`waits, this`received, Block(bus)`ack, data
      ensures var g := Run(delays, old(waits), len);
        && status == (if g == len then Ok else ErrTimeout)
        && trace == old(trace) + RxLoopTrace(len, g)
        && waits == old(waits) + Min(g + 1, len)
        && data[..] == Filled(rxFifo, old(received), g, old(data[..]))
        && received == old(received) + g
        && Block(bus).ack == (g < len - 1)
    {
      ghost var w0 := waits;
      ghost var t0 := trace;
      ghost var r0 := received;
      ghost var d0 := data[..];
      ghost var a0 := Block(bus).ack;
      FilledNone(rxFifo, r0, d0);
      var i := 0;
      while i < len
        invariant 0 <= i <= len
        invariant Run(delays, w0, i) == i && waits == w0 + i
        invariant trace == t0 + AckControls(len, i)
        invariant data[..] == Filled(rxFifo, r0, i, d0) && received == r0 + i
        invariant Block(bus).ack == if i == 0 then a0 else i < len
      {
        var ok := ReceiveByte(bus, data, len, i, r0, d0);
        AckControlsNext(len, i, i + 1);
        AppendAssoc(t0, AckControls(len, i), ByteControl(len, i));
        if !ok {
          RunStop(delays, w0, i, len, w0 + i);
          RxLoopStop(len, i, i + 1);
          AppendAssoc(t0, AckControls(len, i + 1), [Stop]);
          return ErrTimeout;
        }
        RunGrow(delays, w0, i, w0 + i, i + 1);
        i := i + 1;
      }
      RxLoopDone(len, Run(delays, w0, len));
      status := Ok;
    }

    /** The receive part of a read: the receive loop, then ACK on again
        once every byte arrived. */
    method ReceiveAll(bus: Bus, data: array<byte>, len: nat) returns (status: Status)
      requires 1 <= len <= data.Length
      modifies this`trace, this`waits, this`received, Block(bus)`ack, data
      ensures var g := Run(delays, old(waits), len);
        && status == (if g == len then Ok else ErrTimeout)
        && trace == old(trace) + RxTrace(len, g)
        && waits == old(waits) + Min(g + 1, len)
        && data[..] == Filled(rxFifo, old(received), g, old(data[..]))
        && received == old(received) + g
        && Block(bus).ack == (g < len - 1 || g == len)
    {
      status := ReceiveBytes(bus, data, len);
      if status == Ok {
        AckControl(bus, true);
      }
    }

    /** A read of `len` bytes into `data` from the device whose address byte is `a`. */
    method ReadInto(bus: Bus, a: byte, data: array<byte>, len: nat) returns (status: Status)
      requires 1 <= len <= data.Length
      modifies this`trace, this`waits, this`received, Block(bus)`ack, data
      ensures var f := Run(delays, old(waits), ReadWaits(len));
        && status == (if f == ReadWaits(len) then Ok else ErrTimeout)
        && trace == old(trace) + ReadTrace(a, len, f)
        && waits == old(waits) + Min(f + 1, ReadWaits(len))
        && data[..] == Filled(rxFifo, old(received), RxCount(f), old(data[..]))
        && received == old(received) + RxCount(f)
        && Block(bus).ack == ReadAck(old(Block(bus).ack), len, f)
    {
      ghost var w0 := waits;
      ghost var t0 := trace;
      ghost var n := ReadWaits(len);
      ghost var d0 := data[..];
      status := OpenTransfer(a);
      if status != Ok {
        RunExtend(delays, w0, 2, n);
        WaitsCut(Run(delays, w0, 2), 2, n);
        return;
      }
      ghost var w1 := waits;
      RunShift(delays, w0, 2, n, w1, len);
      ghost var g := Run(delays, w1, len);
      WaitsShift(Run(delays, w0, n), g, 2, n, len);
      AppendAssoc(t0, OpenTrace(a, 2), RxTrace(len, g));
      assert data[..] == d0;
      status := ReceiveAll(bus, data, len);
    }

    /** A read of `len` bytes into `data` from the device at 7-bit address
        `devAddr`; an empty read or a missing buffer is refused. */
    method Read(bus: Bus, devAddr: byte, data: array?<byte>, len: nat) returns (status: Status)
      requires len < TWO_16
      requires data != null ==> len <= data.Length
      modifies this`trace, this`waits, this`received, Block(bus)`ack, data
      ensures len == 0 || data == null ==>
        && status == ErrBus && trace == old(trace) && waits == old(waits)
        && received == old(received) && Block(bus).ack == old(Block(bus).ack)
        && (data != null ==> data[..] == old(data[..]))
      ensures len > 0 && data != null ==>
        var f := Run(delays, old(waits), ReadWaits(len));
        && status == (if f == ReadWaits(len) then Ok else ErrTimeout)
        && trace == old(trace) + ReadTrace(ReadAddr(devAddr), len, f)
        && waits == old(waits) + Min(f + 1, ReadWaits(len))
        && data[..] == Filled(rxFifo, old(received), RxCount(f), old(data[..]))
        && received == old(received) + RxCount(f)
        && Block(bus).ack == ReadAck(old(Block(bus).ack), len, f)
    {
      if len == 0 || data == null {
        return ErrBus;
      }
      status := ReadInto(bus, ReadAddr(devAddr), data, len);
    }

    /** The repeated START and read address of a write-then-read; a STOP
        follows either timeout. */
    method RestartTransfer(a: byte) returns (status: Status)
      modifies this`trace, this`waits
      ensures var k := Run(delays, old(waits), 2);
        && status == (if k == 2 then Ok else ErrTimeout)
        && trace == old(trace) + RestartTrace(a, k)
        && waits == old(waits) + Min(k + 1, 2)
    {
      ghost var w0 := waits;
      status := StartCondition();
      if status != Ok {
        RunIs(delays, w0, 2, 0);
        StopCondition();
        return;
      }
      status := WriteAddress(a);
      if status != Ok {
        RunIs(delays, w0, 2, 1);
        StopCondition();
        return;
      }
      RunIs(delays, w0, 2, 2);
    }

    /** A single-byte read phase: ACK off and STOP, then the byte. */
    method ReceiveSingle(bus: Bus, data: array<byte>) returns (status: Status)
      requires 1 <= data.Length
      modifies this`trace, this`waits, this`received, Block(bus)`ack, data
      ensures var g := Run(delays, old(waits), 1);
        && status == (if g == 1 then Ok else ErrTimeout)
        && trace == old(trace) + [AckOff, Stop]
        && waits == old(waits) + 1
        && data[..] == Filled(rxFifo, old(received), g, old(data[..]))
        && received == old(received) + g
        && !Block(bus).ack
    {
      ghost var w0 := waits;
      ghost var r0 := received;
      ghost var d0 := data[..];
      FilledNone(rxFifo, r0, d0);
      AckControl(bus, false);
      StopCondition();
      var ok, b := ReceiveStore(data, 0, r0, d0);
      status := if ok then Ok else ErrTimeout;
      RunIs(delays, w0, 1, if ok then 1 else 0);
    }

    /** The bytes of a read phase before the last two: wait for RXNE and
        store DR; a timeout ends the phase without STOP. */
    method ReceiveLeading(data: array<byte>, n: nat) returns (status: Status)
      requires n <= data.Length
      modifies this`waits, this`received, data
      ensures var g := Run(delays, old(waits), n);
        && status == (if g == n then Ok else ErrTimeout)
        && waits == old(waits) + Min(g + 1, n)
        && data[..] == Filled(rxFifo, old(received), g, old(data[..]))
        && received == old(received) + g
    {
      ghost var w0 := waits;
      ghost var r0 := received;
      ghost var d0 := data[..];
      FilledNone(rxFifo, r0, d0);
      var i := 0;
      while i < n
        invariant 0 <= i <= n
        invariant Run(delays, w0, i) == i && waits == w0 + i
        invariant data[..] == Filled(rxFifo, r0, i, d0) && received == r0 + i
      {
        var ok, b := ReceiveStore(data, i, r0, d0);
        if !ok {
          RunStop(delays, w0, i, n, w0 + i);
          return ErrTimeout;
        }
        RunGrow(delays, w0, i, w0 + i, i + 1);
        i := i + 1;
      }
      status := Ok;
    }

    /** The last two bytes of a read phase: the last-but-one, then ACK off
        and STOP, then the last; a timeout ends the phase without STOP.  The
        buffer `buf` is being filled from DR value `from` on. */
    method ReceiveLastTwo(bus: Bus, data: array<byte>, rxLen: nat, ghost from: nat, ghost buf: seq<byte>)
      returns (status: Status)
      requires 2 <= rxLen <= data.Length == |buf|
      requires data[..] == Filled(rxFifo, from, rxLen - 2, buf) && received == from + (rxLen - 2)
      modifies this`trace, this`waits, this`received, Block(bus)`ack, data
      ensures var k := Run(delays, old(waits), 2);
        && status == (if k == 2 then Ok else ErrTimeout)
        && waits == old(waits) + Min(k + 1, 2)
        && trace == old(trace) + (if k >= 1 then [AckOff, Stop] else [])
        && Block(bus).ack == (if k >= 1 then false else old(Block(bus).ack))
        && data[..] == Filled(rxFifo, from, rxLen - 2 + k, buf)
        && received == old(received) + k
    {
      ghost var w0 := waits;
      ghost var t0 := trace;
      var ok, b := ReceiveStore(data, rxLen - 2, from, buf);
      if !ok {
        RunIs(delays, w0, 2, 0);
        return ErrTimeout;
      }
      AckControl(bus, false);
      StopCondition();
      var ok2, b2 := ReceiveStore(data, rxLen - 1, from, buf);
      assert trace == t0 + [AckOff, Stop];
      if !ok2 {
        RunIs(delays, w0, 2, 1);
        return ErrTimeout;
      }
      RunIs(delays, w0, 2, 2);
      status := Ok;
    }

    /** A read phase of two or more bytes, after ACK was turned on: the
        leading bytes, the last two, and ACK on again once all arrived. */
    method ReceiveMany(bus: Bus, data: array<byte>, rxLen: nat) returns (status: Status)
      requires 2 <= rxLen <= data.Length
      modifies this`trace, this`waits, this`received, Block(bus)`ack, data
      ensures var g := Run(delays, old(waits), rxLen);
        && status == (if g == rxLen then Ok else ErrTimeout)
        && waits == old(waits) + Min(g + 1, rxLen)
        && trace == old(trace) + (if g >= rxLen - 1 then [AckOff, Stop] else []) + (if g == rxLen then [AckOn] else [])
        && Block(bus).ack == (if g < rxLen - 1 then old(Block(bus).ack) else g == rxLen)
        && data[..] == Filled(rxFifo, old(received), g, old(data[..]))
        && received == old(received) + g
    {
      ghost var w0 := waits;
      ghost var r0 := received;
      ghost var d0 := data[..];
      ghost var g := Run(delays, w0, rxLen);
      status := ReceiveLeading(data, rxLen - 2);
      if status != Ok {
        RunExtend(delays, w0, rxLen - 2, rxLen);
        return;
      }
      ghost var w1 := waits;
      RunShift(delays, w0, rxLen - 2, rxLen, w1, 2);
      ghost var k := Run(delays, w1, 2);
      assert g == rxLen - 2 + k;
      status := ReceiveTail(bus, data, rxLen, r0, d0);
    }

    /** The end of a read phase of two or more bytes: the last two bytes,
        then ACK on again once both arrived. */
    method ReceiveTail(bus: Bus, data: array<byte>, rxLen: nat, ghost from: nat, ghost buf: seq<byte>)
      returns (status: Status)
      requires 2 <= rxLen <= data.Length == |buf|
      requires data[..] == Filled(rxFifo, from, rxLen - 2, buf) && received == from + (rxLen - 2)
      modifies this`trace, this`waits, this`received, Block(bus)`ack, data
      ensures var k := Run(delays, old(waits), 2);
        && status == (if k == 2 then Ok else ErrTimeout)
        && waits == old(waits) + Min(k + 1, 2)
        && trace == old(trace) + (if k >= 1 then [AckOff, Stop] else []) + (if k == 2 then [AckOn] else [])
        && Block(bus).ack == (if k >= 1 then k == 2 else old(Block(bus).ack))
        && data[..] == Filled(rxFifo, from, rxLen - 2 + k, buf)
        && received == old(received) + k
    {
      status := ReceiveLastTwo(bus, data, rxLen, from, buf);
      if status == Ok {
        AckControl(bus, true);
      }
    }

    /** The read phase of a write-then-read: ACK on, then a single byte or
        ACK on again and two or more. */
    method ReceivePhase(bus: Bus, data: array<byte>, rxLen: nat) returns (status: Status)
      requires 1 <= rxLen <= data.Length
      modifies this`trace, this`waits, this`received, Block(bus)`ack, data
      ensures var g := Run(delays, old(waits), rxLen);
        && status == (if g == rxLen then Ok else ErrTimeout)
        && trace == old(trace) + RxPhaseTrace(rxLen, g)
        && waits == old(waits) + Min(g + 1, rxLen)
        && data[..] == Filled(rxFifo, old(received), g, old(data[..]))
        && received == old(received) + g
        && Block(bus).ack == RxPhaseAck(rxLen, g)
    {
      ghost var t0 := trace;
      AckControl(bus, true);
      if rxLen == 1 {
        status := ReceiveSingle(bus, data);
        assert trace == t0 + [AckOn] + [AckOff, Stop];
      } else {
        AckControl(bus, true);
        ghost var t1 := trace;
        assert t1 == t0 + [AckOn, AckOn];
        status := ReceiveMany(bus, data, rxLen);
      }
    }

    /** The second half of a write-then-read: the repeated START with the
        read address `a`, then the read phase. */
    method ReadPhase(bus: Bus, a: byte, data: array<byte>, rxLen: nat) returns (status: Status)
      requires 1 <= rxLen <= data.Length
      modifies this`trace, this`waits, this`received, Block(bus)`ack, data
      ensures var k := Run(delays, old(waits), 2 + rxLen);
        && status == (if k == 2 + rxLen then Ok else ErrTimeout)
        && trace == old(trace) + ReadPhaseTrace(a, rxLen, k)
        && waits == old(waits) + Min(k + 1, 2 + rxLen)
        && data[..] == Filled(rxFifo, old(received), RxCount(k), old(data[..]))
        && received == old(received) + RxCount(k)
        && Block(bus).ack == ReadPhaseAck(old(Block(bus).ack), rxLen, k)
    {
      ghost var w0 := waits;
      ghost var t0 := trace;
      ghost var d0 := data[..];
      ghost var k := Run(delays, w0, 2 + rxLen);
      status := RestartTransfer(a);
      if status != Ok {
        RunExtend(delays, w0, 2, 2 + rxLen);
        WaitsCut(k, 2, 2 + rxLen);
        assert ReadPhaseTrace(a, rxLen, k) == RestartTrace(a, k) + [];
        return;
      }
      ghost var w1 := waits;
      RunShift(delays, w0, 2, 2 + rxLen, w1, rxLen);
      ghost var g := Run(delays, w1, rxLen);
      assert k == 2 + g && RxCount(k) == g;
      WaitsShift(k, g, 2, 2 + rxLen, rxLen);
      assert ReadPhaseTrace(a, rxLen, k) == RestartTrace(a, 2) + RxPhaseTrace(rxLen, g);
      AppendAssoc(t0, RestartTrace(a, 2), RxPhaseTrace(rxLen, g));
      assert data[..] == d0;
      status := ReceivePhase(bus, data, rxLen);
    }

    /** The read phase of a write-then-read whose transmit phase went
        through, stated for the whole transaction: the state on entry to it
        was `w0`, `t0`, `r0`, `d0` and `a0`. */
    method ReadAfterWrite(bus: Bus, devAddr: byte, tx: seq<byte>, data: array<byte>, rxLen: nat,
                          ghost w0: nat, ghost t0: seq<Event>, ghost r0: nat, ghost d0: seq<byte>, ghost a0: bool)
      returns (status: Status)
      requires 1 <= rxLen <= data.Length
      requires Run(delays, w0, WriteWaits(|tx|)) == WriteWaits(|tx|) && waits == w0 + WriteWaits(|tx|)
      requires trace == t0 + TxTrace(WriteAddr(devAddr), tx, WriteWaits(|tx|))
      requires received == r0 && data[..] == d0 && Block(bus).ack == a0
      modifies this`trace, this`waits, this`received, Block(bus)`ack, data
      ensures var f := Run(delays, w0, WriteReadWaits(|tx|, rxLen));
        && status == (if f == WriteReadWaits(|tx|, rxLen) then Ok else ErrTimeout)
        && trace == t0 + WriteReadTrace(devAddr, tx, rxLen, f)
        && waits == w0 + Min(f + 1, WriteReadWaits(|tx|, rxLen))
        && data[..] == Filled(rxFifo, r0, RxStored(|tx|, f), d0)
        && received == r0 + RxStored(|tx|, f)
        && Block(bus).ack == WriteReadAck(a0, |tx|, rxLen, f)
    {
      ghost var w := WriteWaits(|tx|);
      ghost var f := Run(delays, w0, WriteReadWaits(|tx|, rxLen));
      RunShift(delays, w0, w, WriteReadWaits(|tx|, rxLen), waits, 2 + rxLen);
      ghost var k := Run(delays, waits, 2 + rxLen);
      WriteReadLate(a0, devAddr, tx, rxLen, f, w, k);
      AppendAssoc(t0, TxTrace(WriteAddr(devAddr), tx, w), ReadPhaseTrace(ReadAddr(devAddr), rxLen, k));
      WaitsShift(f, k, w, WriteReadWaits(|tx|, rxLen), 2 + rxLen);
      status := ReadPhase(bus, ReadAddr(devAddr), data, rxLen);
    }

    /** A write-then-read to the device whose 7-bit address is `devAddr`. */
    method WriteReadInto(bus: Bus, devAddr: byte, tx: seq<byte>, data: array<byte>, rxLen: nat) returns (status: Status)
      requires 1 <= rxLen <= data.Length
      modifies this`trace, this`waits, this`received, Block(bus)`ack, data
      ensures var f := Run(delays, old(waits), WriteReadWaits(|tx|, rxLen));
        && status == (if f == WriteReadWaits(|tx|, rxLen) then Ok else ErrTimeout)
        && trace == old(trace) + WriteReadTrace(devAddr, tx, rxLen, f)
        && waits == old(waits) + Min(f + 1, WriteReadWaits(|tx|, rxLen))
        && data[..] == Filled(rxFifo, old(received), RxStored(|tx|, f), old(data[..]))
        && received == old(received) + RxStored(|tx|, f)
        && Block(bus).ack == WriteReadAck(old(Block(bus).ack), |tx|, rxLen, f)
    {
      ghost var w0 := waits;
      ghost var t0 := trace;
      ghost var d0 := data[..];
      ghost var r0 := received;
      ghost var a0 := Block(bus).ack;
      ghost var w := WriteWaits(|tx|);
      ghost var f := Run(delays, w0, WriteReadWaits(|tx|, rxLen));
      status := TransmitPhase(WriteAddr(devAddr), tx);
      if status != Ok {
        RunExtend(delays, w0, w, WriteReadWaits(|tx|, rxLen));
        WriteReadEarly(a0, devAddr, tx, rxLen, f);
        WaitsCut(f, w, WriteReadWaits(|tx|, rxLen));
        return;
      }
      assert data[..] == d0;
      status := ReadAfterWrite(bus, devAddr, tx, data, rxLen, w0, t0, r0, d0, a0);
    }

    /** A write-then-read; an empty read or a missing receive buffer is refused. */
    method WriteRead(bus: Bus, devAddr: byte, tx: seq<byte>, rxData: array?<byte>, rxLen: nat) returns (status: Status)
      requires |tx| < TWO_16 && rxLen < TWO_16
      requires rxData != null ==> rxLen <= rxData.Length
      modifies this`trace, this`waits, this`received, Block(bus)`ack, rxData
      ensures rxLen == 0 || rxData == null ==>
        && status == ErrBus && trace == old(trace) && waits == old(waits)
        && received == old(received) && Block(bus).ack == old(Block(bus).ack)
        && (rxData != null ==> rxData[..] == old(rxData[..]))
      ensures rxLen > 0 && rxData != null ==>
        var f := Run(delays, old(waits), WriteReadWaits(|tx|, rxLen));
        && status == (if f == WriteReadWaits(|tx|, rxLen) then Ok else ErrTimeout)
        && trace == old(trace) + WriteReadTrace(devAddr, tx, rxLen, f)
        && waits == old(waits) + Min(f + 1, WriteReadWaits(|tx|, rxLen))
        && rxData[..] == Filled(rxFifo, old(received), RxStored(|tx|, f), old(rxData[..]))
        && received == old(received) + RxStored(|tx|, f)
        && Block(bus).ack == WriteReadAck(old(Block(bus).ack), |tx|, rxLen, f)
    {
      if rxLen == 0 || rxData == null {
        return ErrBus;
      }
      status := WriteReadInto(bus, devAddr, tx, rxData, rxLen);
    }
  }
}
