/**
 * The UART driver of src/main.cpp and of its copy in src/main/main.cpp, as the
 * firmware runs it: the static objects
 * `send_buf`, `recv_buf` and `send_stall` updated in place by the two interrupt
 * handlers and by uart_putc. Every method is specified by the matching function
 * of SerialPort on the driver's value, `Model()`.
 */
module UartDriver {
  import opened Bytes
  import opened FifoModel
  import opened UartRegisters
  import opened FifoBuffer
  import SerialPort

  class Uart {
    const sendBuf: Fifo
    const recvBuf: Fifo
    var sendStall: bool
    var tbl: seq<byte>    // every byte written to U0TBL, oldest first
    var u0mr: byte
    var u0c1: byte
    var u0ir: byte
    var errClears: nat    // how many times clr_err has run

    ghost predicate Valid()
      reads this, sendBuf, recvBuf
    {
      sendBuf != recvBuf && sendBuf.buff != recvBuf.buff
      && sendBuf.Valid() && recvBuf.Valid()
      && sendBuf.size == SerialPort.BufSize && recvBuf.size == SerialPort.BufSize
    }

    /** The driver as a value. */
    ghost function Model(): (p: SerialPort.Port)
      reads this, sendBuf, sendBuf.buff, recvBuf, recvBuf.buff
      requires Valid()
      ensures SerialPort.WfPort(p)
    {
      SerialPort.Port(sendBuf.State(), recvBuf.State(), sendStall, tbl, u0mr, u0c1, u0ir, errClears)
    }

    /** Static storage: both buffers zeroed, no stall, nothing sent; the registers hold their reset values. */
    constructor (u0mr: byte, u0c1: byte, u0ir: byte)
      ensures Valid() && fresh(sendBuf) && fresh(recvBuf) && fresh(sendBuf.buff) && fresh(recvBuf.buff)
      ensures Model() == SerialPort.StaticPort(u0mr, u0c1, u0ir)
    {
      sendBuf := new Fifo(SerialPort.BufSize);
      recvBuf := new Fifo(SerialPort.BufSize);
      sendStall := false;
      tbl := [];
      this.u0mr, this.u0c1, this.u0ir := u0mr, u0c1, u0ir;
      errClears := 0;
      new;
      assert sendBuf.buff[..] == seq(SerialPort.BufSize, _ => 0);
      assert recvBuf.buff[..] == seq(SerialPort.BufSize, _ => 0);
    }

    /** init_uart: the framing, enables and interrupt enables, and the stalled start. */
    method InitUart()
      requires Valid()
      modifies this
      ensures Valid() && Model() == SerialPort.InitUart(old(Model()))
    {
      u0mr := WithStps(WithSmd(0, BitLen8), StopBit1);
      u0c1 := WithRe(WithTe(0, true), true);
      u0ir := WithTie(WithRie(0, true), true);
      sendStall := true;
    }

    /** isend, the transmit interrupt handler. */
    method Isend()
      requires Valid()
      modifies this, sendBuf
      ensures Valid() && Model() == SerialPort.Isend(old(Model()))
    {
      if sendBuf.Length() != 0 {
        var c := sendBuf.Get();
        tbl := tbl + [c];
      } else {
        sendStall := true;
      }
      u0ir := ClrTxIntr(u0ir);
    }

    /** irecv, the receive interrupt handler, given the word read from U0RB. */
    method Irecv(rb: bv16)
      requires Valid()
      modifies this, recvBuf, recvBuf.buff
      ensures Valid() && Model() == SerialPort.Irecv(old(Model()), rb)
    {
      if IsOvrErr(rb) || IsFrmErr(rb) || IsPrtyErr(rb) || IsSumErr(rb) {
        u0c1 := ClrErr(u0c1);
        errClears := errClears + 1;
      } else {
        recvBuf.Put(RecvB8(rb));
      }
      u0ir := ClrRxIntr(u0ir);
    }

    /** resume_tx; the wait for an empty transmit register is taken as already over. */
    method ResumeTx()
      requires Valid()
      modifies this, sendBuf
      ensures Valid() && Model() == SerialPort.ResumeTx(old(Model()))
    {
      if sendStall && sendBuf.Length() > 0 {
        var c := sendBuf.Get();
        sendStall := false;
        tbl := tbl + [c];
      }
    }

    /** The transmit interrupts that fire while uart_putc waits for send_buf to empty. */
    method TxInterruptsUntilEmpty()
      requires Valid()
      modifies this, sendBuf
      ensures Valid() && Model() == SerialPort.DrainTx(old(Model()))
      decreases sendBuf.Length()
    {
      if sendBuf.Length() != 0 {
        Isend();
        TxInterruptsUntilEmpty();
      }
    }

    /** uart_putc(c). */
    method UartPutc(c: byte)
      requires Valid()
      modifies this, sendBuf, sendBuf.buff
      ensures Valid() && Model() == SerialPort.UartPutc(old(Model()), c)
    {
      if sendBuf.Length() >= sendBuf.Size() * 7 / 8 {
        ResumeTx();
        TxInterruptsUntilEmpty();
      }
      sendBuf.Put(c);
      ResumeTx();
    }

    /** print(i): five digits then CR LF, through uart_putc. */
    method Print(i: int)
      requires Valid()
      modifies this, sendBuf, sendBuf.buff
      ensures Valid() && Model() == SerialPort.Print(old(Model()), i)
    {
      ghost var bs := SerialPort.PrintBytes(i);
      var cs := SerialPort.PrintCodes(i);
      SerialPort.PrintByteAt(i, 0, cs[0]);
      SerialPort.PutcFromStep(Model(), bs, 0);
      UartPutc(ToUint8(cs[0]));
      SerialPort.PrintByteAt(i, 1, cs[1]);
      SerialPort.PutcFromStep(Model(), bs, 1);
      UartPutc(ToUint8(cs[1]));
      SerialPort.PrintByteAt(i, 2, cs[2]);
      SerialPort.PutcFromStep(Model(), bs, 2);
      UartPutc(ToUint8(cs[2]));
      SerialPort.PrintByteAt(i, 3, cs[3]);
      SerialPort.PutcFromStep(Model(), bs, 3);
      UartPutc(ToUint8(cs[3]));
      SerialPort.PrintByteAt(i, 4, cs[4]);
      SerialPort.PutcFromStep(Model(), bs, 4);
      UartPutc(ToUint8(cs[4]));
      SerialPort.PrintByteAt(i, 5, cs[5]);
      SerialPort.PutcFromStep(Model(), bs, 5);
      UartPutc(ToUint8(cs[5]));
      SerialPort.PrintByteAt(i, 6, cs[6]);
      SerialPort.PutcFromStep(Model(), bs, 6);
      UartPutc(ToUint8(cs[6]));
      assert SerialPort.PutcFrom(Model(), bs, 7) == Model();
    }
  }
}
