/**
 * Value model of the interrupt-driven UART driver of src/main.cpp (and of its
 * copy in src/main/main.cpp): a transmit buffer and a receive buffer, both
 * `fifo<uint8_t, 16>`, the `send_stall` flag, and the UART0 registers the driver
 * writes. Each interrupt handler is one atomic step on a Port.
 */
module SerialPort {
  import opened Bytes
  import opened FifoModel
  import opened UartRegisters

  /** Both buffers are `fifo<uint8_t, 16>`. */
  const BufSize: nat := 16

  datatype Port = Port(
    send: FifoState,    // send_buf
    recv: FifoState,    // recv_buf
    stall: bool,        // send_stall
    tbl: seq<byte>,     // every byte written to U0TBL, oldest first
    u0mr: byte,
    u0c1: byte,
    u0ir: byte,
    errClears: nat)     // how many times clr_err has run

  predicate WfPort(p: Port)
  {
    Wf(p.send) && Wf(p.recv) && p.send.size == BufSize && p.recv.size == BufSize
  }

  /** The backpressure threshold of uart_putc, `send_buf.size() * 7 / 8`. */
  function Watermark(p: Port): (w: nat)
    requires WfPort(p)
    ensures w == 14 && w < p.send.size - 1
  {
    p.send.size * 7 / 8
  }

  /** Everything handed to the transmitter so far: the bytes already written to U0TBL, then the queued ones. */
  ghost function Sent(p: Port): seq<byte>
    requires WfPort(p)
  {
    p.tbl + Contents(p.send)
  }

  /** q differs from p at most in the transmit side: send_buf, send_stall, U0TBL and U0IR. */
  predicate TransmitSideOnly(p: Port, q: Port)
  {
    q.recv == p.recv && q.u0mr == p.u0mr && q.u0c1 == p.u0c1 && q.errClears == p.errClears
  }

  /** q was reached from p by moving the oldest queued byte to U0TBL. */
  ghost predicate MovedOldest(p: Port, q: Port)
    requires WfPort(p) && WfPort(q) && Len(p.send) > 0
  {
    q.tbl == p.tbl + [Contents(p.send)[0]] && Contents(q.send) == Contents(p.send)[1..]
  }

  /** Takes the oldest byte out of send_buf and writes it to U0TBL. */
  function TransmitOldest(p: Port): (q: Port)
    requires WfPort(p) && Len(p.send) > 0
    ensures WfPort(q) && MovedOldest(p, q) && Sent(q) == Sent(p)
    ensures q.stall == p.stall && q.u0ir == p.u0ir && TransmitSideOnly(p, q)
  {
    GetContents(p.send);
    var q := p.(send := Get(p.send).1, tbl := p.tbl + [Get(p.send).0]);
    TailAfterFirst(p.tbl, Contents(p.send), Contents(q.send));
    q
  }

  /**
   * `isend`, the transmit interrupt: send the oldest byte if there is one, else
   * stall; the transmit interrupt flag is cleared either way.
   */
  function Isend(p: Port): (q: Port)
    requires WfPort(p)
    ensures WfPort(q) && Sent(q) == Sent(p) && TransmitSideOnly(p, q)
    ensures OnlyBitSet(p.u0ir, q.u0ir, 7, false)
    ensures Len(p.send) > 0 ==> MovedOldest(p, q) && q.stall == p.stall
    ensures Len(p.send) == 0 ==> q.stall && q.send == p.send && q.tbl == p.tbl
  {
    var q := if Len(p.send) != 0 then TransmitOldest(p) else p.(stall := true);
    q.(u0ir := ClrTxIntr(p.u0ir))
  }

  /**
   * `irecv`, the receive interrupt: a word with any error flag is dropped and
   * the error latch cleared; otherwise its 8 data bits are put into recv_buf,
   * with no check for a full buffer. The receive interrupt flag is cleared either way.
   */
  function Irecv(p: Port, rb: bv16): (q: Port)
    requires WfPort(p)
    ensures WfPort(q) && OnlyBitSet(p.u0ir, q.u0ir, 6, false)
    ensures q.send == p.send && q.stall == p.stall && q.tbl == p.tbl && q.u0mr == p.u0mr
    ensures HasRecvError(rb) ==>
      q.recv == p.recv && OnlyBitSet(p.u0c1, q.u0c1, 2, true) && q.errClears == p.errClears + 1
    ensures !HasRecvError(rb) ==>
      q.recv == Put(p.recv, RecvB8(rb)) && q.u0c1 == p.u0c1 && q.errClears == p.errClears
    ensures !HasRecvError(rb) && Len(p.recv) < BufSize - 1 ==>
      Contents(q.recv) == Contents(p.recv) + [RecvB8(rb)] && Len(q.recv) == Len(p.recv) + 1
  {
    var q :=
      if HasRecvError(rb) then p.(u0c1 := ClrErr(p.u0c1), errClears := p.errClears + 1)
      else (
        var v := RecvB8(rb);
        PutLength(p.recv, v);
        assert Len(p.recv) < BufSize - 1 ==> Contents(Put(p.recv, v)) == Contents(p.recv) + [v] by {
          if Len(p.recv) < BufSize - 1 { PutContents(p.recv, v); }
        }
        p.(recv := Put(p.recv, v)));
    q.(u0ir := ClrRxIntr(p.u0ir))
  }

  /**
   * `resume_tx`: a stalled port with queued bytes sends one byte directly and
   * leaves the stall; in every other state nothing happens.
   */
  function ResumeTx(p: Port): (q: Port)
    requires WfPort(p)
    ensures WfPort(q) && Sent(q) == Sent(p) && TransmitSideOnly(p, q) && q.u0ir == p.u0ir
    ensures !(p.stall && Len(p.send) > 0) ==> q == p
    ensures p.stall && Len(p.send) > 0 ==> MovedOldest(p, q) && !q.stall
  {
    if p.stall && Len(p.send) > 0 then TransmitOldest(p).(stall := false) else p
  }

  /** Moving the first of s to the end of tbl and then the rest keeps tbl + s. */
  lemma TailAfterFirst<T>(tbl: seq<T>, s: seq<T>, t: seq<T>)
    requires s != [] && t == s[1..]
    ensures (tbl + [s[0]]) + t == tbl + s
  {
  }

  /**
   * The transmit interrupts that end the busy-wait `while (send_buf.length() != 0)`
   * of uart_putc: one isend per queued byte, until send_buf is empty.
   */
  function DrainTx(p: Port): (q: Port)
    requires WfPort(p)
    ensures WfPort(q) && Len(q.send) == 0 && TransmitSideOnly(p, q)
    ensures q.tbl == p.tbl + Contents(p.send)
    ensures q.stall == p.stall
    ensures Len(p.send) == 0 ==> q == p
    ensures Len(p.send) > 0 ==> OnlyBitSet(p.u0ir, q.u0ir, 7, false)
    decreases Len(p.send)
  {
    if Len(p.send) == 0 then p
    else
      var r := Isend(p);
      TailAfterFirst(p.tbl, Contents(p.send), Contents(r.send));
      var q := DrainTx(r);
      assert OnlyBitSet(p.u0ir, q.u0ir, 7, false) by {
        if Len(r.send) > 0 {
          OnlyBitSetTwice(p.u0ir, r.u0ir, q.u0ir, 7, false);
        }
      }
      q
  }

  /**
   * The port as uart_putc has it when it puts: at or above the watermark it
   * resumes a stalled transmitter and waits until the interrupts have emptied
   * send_buf; below the watermark nothing has changed.
   */
  function BeforePut(p: Port): (q: Port)
    requires WfPort(p)
    ensures WfPort(q) && Len(q.send) < Watermark(p) && Sent(q) == Sent(p) && TransmitSideOnly(p, q)
    ensures Len(p.send) < Watermark(p) ==> q == p
    ensures Len(p.send) >= Watermark(p) ==> Len(q.send) == 0 && q.tbl == Sent(p)
  {
    if Len(p.send) >= Watermark(p) then DrainTx(ResumeTx(p)) else p
  }

  /**
   * `uart_putc(c)`: the put always happens below the watermark, so send_buf
   * never overflows, and c is queued behind every byte given before it.
   */
  function UartPutc(p: Port, c: byte): (q: Port)
    requires WfPort(p)
    ensures WfPort(q) && Len(q.send) <= Watermark(p) && TransmitSideOnly(p, q)
    ensures Sent(q) == Sent(p) + [c]
    ensures p.stall && Len(p.send) == 0 ==> q.tbl == p.tbl + [c] && !q.stall && Len(q.send) == 0
  {
    var r := BeforePut(p);
    PutContents(r.send, c);
    PutLength(r.send, c);
    ResumeTx(r.(send := Put(r.send, c)))
  }

  /** C's `/` on int: the quotient truncated toward zero. */
  function CDiv(a: int, b: int): (q: int)
    requires b > 0
    ensures a >= 0 ==> q == a / b
  {
    if a >= 0 then a / b else -((-a) / b)
  }

  /** What `i -= (n * p)` leaves in i after `n = i / p`. */
  function CRest(i: int, p: int): (r: int)
    requires p > 0
    ensures i >= 0 ==> r == i % p
  {
    i - CDiv(i, p) * p
  }

  /** The seven `int` arguments of the uart_putc calls of `print(i)`, computed step by step as the source does. */
  function PrintCodes(i: int): (cs: seq<int>)
    ensures |cs| == 7 && cs[5] == 13 && cs[6] == 10
  {
    var i1 := CRest(i, 10000);
    var i2 := CRest(i1, 1000);
    var i3 := CRest(i2, 100);
    var i4 := CRest(i3, 10);
    ['0' as int + CDiv(i, 10000), '0' as int + CDiv(i1, 1000), '0' as int + CDiv(i2, 100),
     '0' as int + CDiv(i3, 10), '0' as int + i4, '\r' as int, '\n' as int]
  }

  /**
   * The bytes `print(i)` hands to uart_putc: each `int` argument converted to the
   * `uint8_t` parameter, which keeps it whenever it fits in a byte.
   */
  function PrintBytes(i: int): (bs: seq<byte>)
    ensures |bs| == 7 && bs[5] == 13 && bs[6] == 10
    ensures forall k | 0 <= k < 7 && 0 <= PrintCodes(i)[k] < 256 :: bs[k] as int == PrintCodes(i)[k]
  {
    var cs := PrintCodes(i);
    seq(7, k requires 0 <= k < 7 => ToUint8(cs[k]))
  }

  /** The byte that `print(i)` passes in its k-th call is the k-th code reduced to a `uint8_t`. */
  lemma PrintByteAt(i: int, k: nat, v: int)
    requires k < 7 && v == PrintCodes(i)[k]
    ensures PrintBytes(i)[k] == ToUint8(v)
  {
  }

  /** uart_putc called once for each byte of bs from index k on, in order. */
  function PutcFrom(p: Port, bs: seq<byte>, k: nat): (q: Port)
    requires WfPort(p)
    ensures WfPort(q) && TransmitSideOnly(p, q)
    decreases |bs| - k
  {
    if k >= |bs| then p else PutcFrom(UartPutc(p, bs[k]), bs, k + 1)
  }

  lemma PutcFromStep(p: Port, bs: seq<byte>, k: nat)
    requires WfPort(p) && k < |bs|
    ensures PutcFrom(p, bs, k) == PutcFrom(UartPutc(p, bs[k]), bs, k + 1)
  {
  }

  lemma AppendFirst<T>(a: seq<T>, bs: seq<T>, k: nat)
    requires k < |bs|
    ensures (a + [bs[k]]) + bs[k + 1..] == a + bs[k..]
  {
  }

  /** The bytes handed to uart_putc reach U0TBL after everything before them, in order. */
  lemma {:induction false} PutcFromSent(p: Port, bs: seq<byte>, k: nat)
    requires WfPort(p) && k <= |bs|
    ensures Sent(PutcFrom(p, bs, k)) == Sent(p) + bs[k..]
    ensures k < |bs| ==> Len(PutcFrom(p, bs, k).send) <= Watermark(p)
    decreases |bs| - k
  {
    if k < |bs| {
      var q := UartPutc(p, bs[k]);
      assert PutcFrom(p, bs, k) == PutcFrom(q, bs, k + 1);
      PutcFromSent(q, bs, k + 1);
      AppendFirst(Sent(p), bs, k);
    }
  }

  /** `print(i)`: seven uart_putc calls, one per byte of PrintBytes(i). */
  function Print(p: Port, i: int): (q: Port)
    requires WfPort(p)
    ensures WfPort(q) && TransmitSideOnly(p, q)
  {
    PutcFrom(p, PrintBytes(i), 0)
  }

  /** What print hands over reaches U0TBL behind what was queued before, and the buffer stays below the watermark. */
  lemma PrintSent(p: Port, i: int)
    requires WfPort(p)
    ensures Sent(Print(p, i)) == Sent(p) + PrintBytes(i)
    ensures Len(Print(p, i).send) <= Watermark(p)
  {
    PutcFromSent(p, PrintBytes(i), 0);
    assert PrintBytes(i)[0..] == PrintBytes(i);
  }

  /** An ASCII decimal digit. */
  predicate IsDigit(b: byte)
  {
    0x30 <= b as int <= 0x39
  }

  /** The number that a string of ASCII decimal digits denotes, most significant first. */
  function DecimalValue(ds: seq<byte>): int
    decreases |ds|
  {
    if ds == [] then 0 else DecimalValue(ds[..|ds| - 1]) * 10 + (ds[|ds| - 1] as int - 48)
  }

  /** For 0 <= i <= 99999 the codes are the five decimal digits of i in ASCII, most significant first. */
  lemma PrintCodesAreDigits(i: int)
    requires 0 <= i <= 99999
    ensures var cs := PrintCodes(i);
      && (forall k | 0 <= k < 5 :: 48 <= cs[k] <= 57)
      && (cs[0] - 48) * 10000 + (cs[1] - 48) * 1000 + (cs[2] - 48) * 100 + (cs[3] - 48) * 10 + (cs[4] - 48) == i
  {
  }

  /** For 0 <= i <= 99999, print writes i as five zero-padded decimal digits, then CR LF. */
  lemma PrintIsDecimal(i: int)
    requires 0 <= i <= 99999
    ensures var bs := PrintBytes(i);
      && (forall k | 0 <= k < 5 :: IsDigit(bs[k]))
      && DecimalValue(bs[..5]) == i
      && bs[5] as int == 13 && bs[6] as int == 10
  {
    PrintCodesAreDigits(i);
    DigitBytesValue(PrintBytes(i), PrintCodes(i), i);
  }

  /** Bytes equal to five ASCII digit codes of n, then CR LF, spell n. */
  lemma DigitBytesValue(bs: seq<byte>, cs: seq<int>, n: int)
    requires |bs| == 7 && |cs| == 7
    requires forall k | 0 <= k < 7 && 0 <= cs[k] < 256 :: bs[k] as int == cs[k]
    requires forall k | 0 <= k < 5 :: 48 <= cs[k] <= 57
    requires cs[5] == 13 && cs[6] == 10
    requires (cs[0] - 48) * 10000 + (cs[1] - 48) * 1000 + (cs[2] - 48) * 100 + (cs[3] - 48) * 10 + (cs[4] - 48) == n
    ensures forall k | 0 <= k < 5 :: IsDigit(bs[k])
    ensures DecimalValue(bs[..5]) == n
    ensures bs[5] as int == 13 && bs[6] as int == 10
  {
    var ds := bs[..5];
    assert forall k | 0 <= k < 5 :: ds[k] == bs[k];
    DecimalValue5(ds);
  }

  /** The value of five digits, written out. */
  lemma DecimalValue5(ds: seq<byte>)
    requires |ds| == 5
    ensures DecimalValue(ds) ==
      (ds[0] as int - 48) * 10000 + (ds[1] as int - 48) * 1000 + (ds[2] as int - 48) * 100
      + (ds[3] as int - 48) * 10 + (ds[4] as int - 48)
  {
    assert ds[..4][..3] == ds[..3] && ds[..3][..2] == ds[..2] && ds[..2][..1] == ds[..1];
    assert ds[..1][..0] == [];
    assert DecimalValue(ds[..1]) == ds[0] as int - 48;
    assert DecimalValue(ds[..2]) == DecimalValue(ds[..1]) * 10 + (ds[1] as int - 48);
    assert DecimalValue(ds[..3]) == DecimalValue(ds[..2]) * 10 + (ds[2] as int - 48);
    assert DecimalValue(ds[..4]) == DecimalValue(ds[..3]) * 10 + (ds[3] as int - 48);
    assert DecimalValue(ds) == DecimalValue(ds[..4]) * 10 + (ds[4] as int - 48);
  }

  /** init_uart: the framing, enables and interrupt enables it writes, and the stalled transmitter it leaves. */
  function InitUart(p: Port): (q: Port)
    requires WfPort(p)
    ensures WfPort(q) && q.stall
    ensures q.u0mr == 0x05 && q.u0c1 == 0x05 && q.u0ir == 0x0C
    ensures q.send == p.send && q.recv == p.recv && q.tbl == p.tbl && q.errClears == p.errClears
  {
    InitEncodings();
    p.(u0mr := WithStps(WithSmd(0, BitLen8), StopBit1),
       u0c1 := WithRe(WithTe(0, true), true),
       u0ir := WithTie(WithRie(0, true), true),
       stall := true)
  }

  /** The driver as static storage leaves it: zeroed buffers, no stall, nothing sent; the registers as reset. */
  function StaticPort(u0mr: byte, u0c1: byte, u0ir: byte): (p: Port)
    ensures WfPort(p) && Len(p.send) == 0 && Len(p.recv) == 0 && !p.stall && p.tbl == []
  {
    var empty := FifoState(BufSize, seq(BufSize, _ => 0), 0, 0);
    Port(empty, empty, false, [], u0mr, u0c1, u0ir, 0)
  }

  /** From start-up, the first uart_putc sends its byte at once and the transmitter leaves the stall. */
  lemma FirstPutcSendsAtOnce(u0mr: byte, u0c1: byte, u0ir: byte, c: byte)
    ensures var q := UartPutc(InitUart(StaticPort(u0mr, u0c1, u0ir)), c);
      q.tbl == [c] && !q.stall && Len(q.send) == 0
  {
  }

  /** What can happen to the port: a foreground uart_putc or one of the two interrupts. */
  datatype Event = Putc(c: byte) | TxInterrupt | RxInterrupt(rb: bv16)

  function Step(p: Port, e: Event): (q: Port)
    requires WfPort(p)
    ensures WfPort(q)
  {
    match e
    case Putc(c) => UartPutc(p, c)
    case TxInterrupt => Isend(p)
    case RxInterrupt(rb) => Irecv(p, rb)
  }

  /** The events one after the other. */
  function RunEvents(p: Port, es: seq<Event>): (q: Port)
    requires WfPort(p)
    ensures WfPort(q)
    decreases |es|
  {
    if es == [] then p else Step(RunEvents(p, es[..|es| - 1]), es[|es| - 1])
  }

  /** The bytes of the uart_putc calls among the events, in call order. */
  function PutcBytes(es: seq<Event>): seq<byte>
    decreases |es|
  {
    if es == [] then []
    else PutcBytes(es[..|es| - 1]) + (if es[|es| - 1].Putc? then [es[|es| - 1].c] else [])
  }

  /**
   * Whatever the interrupts do between foreground calls, bytes reach U0TBL in
   * uart_putc call order, none is lost or repeated, and send_buf stays below
   * overflow once it starts there.
   */
  lemma {:induction false} TransmitOrder(p: Port, es: seq<Event>)
    requires WfPort(p)
    ensures Sent(RunEvents(p, es)) == Sent(p) + PutcBytes(es)
    ensures RunEvents(p, es).tbl <= Sent(p) + PutcBytes(es)
    ensures Len(p.send) <= Watermark(p) ==> Len(RunEvents(p, es).send) <= Watermark(p)
    decreases |es|
  {
    if es != [] {
      var init := es[..|es| - 1];
      TransmitOrder(p, init);
      var r := RunEvents(p, init);
      match es[|es| - 1]
      case Putc(c) =>
      case TxInterrupt =>
        if Len(r.send) > 0 { GetLength(r.send); }
      case RxInterrupt(rb) =>
    }
  }
}
