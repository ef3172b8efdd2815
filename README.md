# UART driver and ring buffer of an R8C/M1x firmware, modelled in Dafny

The firmware drives UART0 of an R8C/M1x microcontroller. It has three parts,
and this project models and proves properties of each:

- **`utils::fifo<T, SIZE>`** (`src/common/fifo.hpp`) is a fixed-size ring buffer. It has two indices, `get_` and `put_`. `put` has no overflow check and `get` has no empty check. `length()` is `(put_ - get_) mod SIZE`.
  - `FifoModel` models it as a value (`FifoState`) with pure operations, and proves the queue properties there.
  - `FifoBuffer.Fifo` is the class over an `array`. Each of its methods is specified by the matching `FifoModel` function.
- **The interrupt-driven UART driver** appears twice, in `src/main.cpp` and `src/main/main.cpp`. Both copies have the same logic. It consists of:
  - two `fifo<uint8_t, 16>` buffers and the `send_stall` flag;
  - the transmit interrupt `isend` and the receive interrupt `irecv`;
  - `resume_tx`;
  - `uart_putc`, with backpressure at 7/8 of the buffer;
  - `print`;
  - `init_uart`.

  The model is split into three modules:
  - `UartRegisters` models the register bit fields of `src/main.cpp` (`u0mr_t`, `u0c1_t`, `u0ir_t`, `u0rb_t`) as functions on `bv8`/`bv16`.
  - `SerialPort` models the driver as a value `Port`. Each interrupt handler and each foreground call is one atomic step. Every byte written to `U0TBL` is recorded in the sequence `tbl`. The number of times `clr_err` has run is recorded as well.
  - `UartDriver.Uart` is the imperative form: a class holding two `Fifo` objects. Each of its methods is specified by the matching `SerialPort` function.

  The central theorem is `SerialPort.TransmitOrder`. No matter how the transmit and receive interrupts interleave between `uart_putc` calls:
  - bytes reach `U0TBL` in call order, none lost or repeated;
  - the send buffer never goes above the watermark, so it never overflows.
- **`to_count`** (`src/main/buzz.h`) is 32-bit unsigned arithmetic that turns a voltage into a buzzer timer count, modelled in the `Buzz` module.

The model follows the code in every branch but one. The ring buffer's
`SIZE == 256` branch departs from its evident intent. That branch is modelled
as written and written up under "## Findings", and the rest of the model uses
the corrected index wrap.

## Model

| member | source | states |
|---|---|---|
| FifoModel.ResetNext | src/common/fifo.hpp:53-56 | The reset-at-SIZE increment keeps the index below SIZE and equals (i+1) mod SIZE |
| FifoModel.MaskNext | src/common/fifo.hpp:50-51 | For SIZE in {8,16,32,64,128} the mask form `(i+1) & (SIZE-1)` equals the reset-at-SIZE form |
| FifoModel.BitAndLowMask | src/common/fifo.hpp:50-51 | A value up to 2^m masked with 2^m-1 is itself below 2^m and 0 at 2^m |
| FifoModel.NextAsWritten | src/common/fifo.hpp:49-57 | The index increment as written: (i+1) mod SIZE for every SIZE except 256, plain i+1 for SIZE 256 |
| FifoModel.Size256IndexLeavesRange | src/common/fifo.hpp:52 | With SIZE 256, incrementing index 255 gives 256, outside the buffer |
| FifoModel.Next | src/common/fifo.hpp:49-57 | The corrected increment stays below SIZE, is (i+1) mod SIZE, and agrees with the code for every SIZE other than 256 |
| FifoModel.Len | src/common/fifo.hpp:88-91 | length() is (put - get) mod SIZE and always below SIZE |
| FifoModel.Clear | src/common/fifo.hpp:38 | clear() zeroes both indices and keeps the slots, so the length is 0 and the contents empty |
| FifoModel.Put | src/common/fifo.hpp:47-58 | put writes only slot put_, advances put_ modulo SIZE and leaves get_ alone |
| FifoModel.Get | src/common/fifo.hpp:67-79 | get returns slot get_, advances get_ modulo SIZE and leaves the slots and put_ alone |
| FifoModel.PutLength | src/common/fifo.hpp:47-58 | A put raises the length from n to n+1 when n < SIZE-1 and from SIZE-1 to 0, because a full buffer looks empty |
| FifoModel.GetLength | src/common/fifo.hpp:67-79 | A get lowers the length from n > 0 to n-1, and on an empty buffer it wraps the length to SIZE-1 |
| FifoModel.PutContents | src/common/fifo.hpp:47-58 | Below SIZE-1, put appends its value to the queued contents |
| FifoModel.GetContents | src/common/fifo.hpp:67-79 | On a non-empty buffer, get returns the oldest queued value and removes exactly it |
| FifoModel.FifoOrder | src/common/fifo.hpp:4 | Any run of puts and gets in which each put finds fewer than SIZE-1 bytes and each get at least one returns and keeps exactly what a first-in first-out queue does |
| FifoModel.PutAllFromEmpty | src/common/fifo.hpp:47-58 | From empty, fewer than SIZE puts queue exactly their values; exactly SIZE puts bring put_ back to get_ and the length to 0 |
| FifoBuffer.Fifo.constructor | src/common/fifo.hpp:21-30 | A static buffer: SIZE zeroed slots, both indices 0 |
| FifoBuffer.Fifo.Clear | src/common/fifo.hpp:38 | The object's new state is FifoModel.Clear of the old one |
| FifoBuffer.Fifo.Put | src/common/fifo.hpp:47-58 | Only buff_[old put_] and put_ change; the new state is FifoModel.Put of the old one |
| FifoBuffer.Fifo.Get | src/common/fifo.hpp:67-79 | Returns buff_[old get_] and only get_ changes; result and state are FifoModel.Get of the old state |
| FifoBuffer.Fifo.Length | src/common/fifo.hpp:88-91 | The length is (put_ - get_) mod SIZE, below SIZE, and 0 exactly when the two indices are equal |
| FifoBuffer.Fifo.PosGet | src/common/fifo.hpp:100 | Returns get_ without changing anything |
| FifoBuffer.Fifo.PosPut | src/common/fifo.hpp:109 | Returns put_ without changing anything |
| FifoBuffer.Fifo.Size | src/common/fifo.hpp:118 | Returns SIZE, the number of slots |
| UartRegisters.SetBit | src/main.cpp:41-49 | Writing a one-bit field sets or clears exactly that bit and keeps the other seven |
| UartRegisters.SmdCode | src/main.cpp:28-34 | Every serial-mode code fits in the three-bit smd field |
| UartRegisters.WithSmd | src/main.cpp:56-59 | with_smd puts the mode code in bits 0-2 and keeps bits 3-7 |
| UartRegisters.WithStps | src/main.cpp:61-64 | with_stps sets bit 4 for two stop bits and clears it for one, changing no other bit |
| UartRegisters.WithTe | src/main.cpp:125-128 | with_te writes only bit 0 of U0C1 |
| UartRegisters.WithRe | src/main.cpp:130-133 | with_re writes only bit 2 of U0C1 |
| UartRegisters.ClrErr | src/main.cpp:135-138 | clr_err ends with re (bit 2) set and every other bit of U0C1 unchanged |
| UartRegisters.WithRie | src/main.cpp:160-163 | with_rie writes only bit 2 of U0IR |
| UartRegisters.WithTie | src/main.cpp:165-168 | with_tie writes only bit 3 of U0IR |
| UartRegisters.ClrTxIntr | src/main.cpp:178-180 | clr_tx_intr clears bit 7 of U0IR and nothing else |
| UartRegisters.ClrRxIntr | src/main.cpp:182-184 | clr_rx_intr clears bit 6 of U0IR and nothing else |
| UartRegisters.InitEncodings | src/main.cpp:633-642 | The init_uart register values encode to U0MR 0x05, U0C1 0x05 and U0IR 0x0C |
| UartRegisters.RecvB7 | src/main.cpp:255-257 | recv_b7 is below 0x80, the low seven bits |
| UartRegisters.RecvB9 | src/main.cpp:263-265 | recv_b9 is below 0x200, the low nine bits |
| UartRegisters.RecvB8 | src/main.cpp:259-261 | recv_b8, the byte irecv queues, is the low eight bits of recv_b9, and its low seven bits are recv_b7 |
| UartRegisters.IsOvrErr | src/main.cpp:239-241 | is_ovr_err reads bit 12, after the 8 data and 4 reserved bits of the b8 view |
| UartRegisters.IsFrmErr | src/main.cpp:243-245 | is_frm_err reads bit 13 |
| UartRegisters.IsPrtyErr | src/main.cpp:247-249 | is_prty_err reads bit 14 |
| UartRegisters.IsSumErr | src/main.cpp:251-253 | is_sum_err reads bit 15 |
| UartRegisters.HasRecvError | src/main.cpp:550 | irecv's error test holds exactly when one of the top four bits (12-15) of U0RB is set |
| UartRegisters.DecodeEncodeRb | src/main.cpp:205-265 | A U0RB word built from 9 data bits and the four flags gives back the data as recv_b9/b8/b7 and each flag from its predicate |
| UartRegisters.EncodeDecodeRb | src/main.cpp:205-233 | Every U0RB word with the reserved bits 9-11 clear is rebuilt from its decoded data and flags |
| SerialPort.Watermark | src/main.cpp:585 | The backpressure threshold `16 * 7 / 8` is 14, below SIZE-1 |
| SerialPort.TransmitOldest | src/main.cpp:536-537 | Writes the oldest queued byte to U0TBL and removes exactly that byte |
| SerialPort.Isend | src/main.cpp:533-543 | With bytes queued, isend moves the oldest to U0TBL and keeps the stall; with none, it sets send_stall and changes no buffer; it always clears only the TX interrupt bit |
| SerialPort.Irecv | src/main.cpp:545-557 | A word with any error flag leaves recv_buf unchanged and runs clr_err; otherwise exactly its low 8 bits are put into recv_buf; only the RX interrupt bit is cleared |
| SerialPort.ResumeTx | src/main.cpp:573-582 | A no-op unless stalled with bytes queued; then it moves exactly the oldest byte to U0TBL and clears send_stall |
| SerialPort.DrainTx | src/main.cpp:587-589 | The TX interrupts that end uart_putc's wait empty send_buf onto U0TBL in order, keeping the stall flag |
| SerialPort.BeforePut | src/main.cpp:585-590 | When uart_putc reaches its put, send_buf is below the watermark and nothing handed to the transmitter is lost |
| SerialPort.UartPutc | src/main.cpp:584-593 | The byte is queued behind everything before it, send_buf stays at most at the watermark, and a stalled empty port sends it at once |
| SerialPort.CDiv | src/main.cpp:596 | C's truncating `/` agrees with Euclidean division on non-negative operands |
| SerialPort.CRest | src/main.cpp:598 | What `i -= (n * p)` leaves is i mod p for non-negative i |
| SerialPort.PrintCodes | src/main.cpp:595-615 | print makes seven uart_putc calls, the last two with CR and LF |
| SerialPort.PrintBytes | src/main.cpp:597-614 | Each `int` argument of print, passed as a `uint8_t`, keeps its value whenever it fits in a byte; the last two bytes are CR and LF |
| SerialPort.PutcFrom | src/main.cpp:584-593 | A sequence of uart_putc calls keeps the port well formed and touches only its transmit side |
| SerialPort.PutcFromSent | src/main.cpp:584-593 | A sequence of uart_putc calls hands its bytes to the transmitter after everything before, in order |
| SerialPort.Print | src/main.cpp:595-615 | print changes only the transmit side of the port |
| SerialPort.PrintSent | src/main.cpp:595-615 | print(i) hands exactly its seven bytes to the transmitter, in order, and send_buf stays at most at the watermark |
| SerialPort.PrintCodesAreDigits | src/main.cpp:595-613 | For 0 <= i <= 99999 the first five codes are ASCII digits whose place values sum to i |
| SerialPort.PrintIsDecimal | src/main.cpp:595-615 | For 0 <= i <= 99999 print's bytes are the five zero-padded decimal digits of i, then CR LF |
| SerialPort.InitUart | src/main.cpp:617-645 | init_uart writes U0MR 0x05, U0C1 0x05 and U0IR 0x0C, leaves the buffers alone and sets send_stall |
| SerialPort.StaticPort | src/main.cpp:526-531 | At start-up both buffers are empty, nothing has been sent and send_stall is false |
| SerialPort.FirstPutcSendsAtOnce | src/main.cpp:644 | After init_uart, the first uart_putc writes its byte straight to U0TBL and leaves the stall |
| SerialPort.TransmitOrder | src/main.cpp:533-593 | Under any interleaving of uart_putc calls and interrupts, U0TBL receives a prefix of the putc bytes in call order, everything handed over is exactly those bytes, and send_buf never exceeds the watermark |
| UartDriver.Uart.constructor | src/main/main.cpp:10-15 | The driver's static state is SerialPort.StaticPort |
| UartDriver.Uart.InitUart | src/main/main.cpp:93-119 | The new driver state is SerialPort.InitUart of the old one |
| UartDriver.Uart.Isend | src/main/main.cpp:17-25 | The new driver state is SerialPort.Isend of the old one |
| UartDriver.Uart.Irecv | src/main/main.cpp:27-37 | The new driver state is SerialPort.Irecv of the old one |
| UartDriver.Uart.ResumeTx | src/main/main.cpp:49-58 | The new driver state is SerialPort.ResumeTx of the old one |
| UartDriver.Uart.TxInterruptsUntilEmpty | src/main/main.cpp:63-65 | The transmit interrupts that end the wait leave the state SerialPort.DrainTx of the old one |
| UartDriver.Uart.UartPutc | src/main/main.cpp:60-69 | The new driver state is SerialPort.UartPutc of the old one |
| UartDriver.Uart.Print | src/main/main.cpp:71-91 | Seven uart_putc calls leave the state SerialPort.Print of the old one |
| Buzz.Wrap32 | src/main/buzz.h:6 | A uint32_t result is the value reduced modulo 2^32 |
| Buzz.Product | src/main/buzz.h:6 | `uint32_t(4000 - 30) * voltage` does not overflow for any uint16_t voltage |
| Buzz.Hz | src/main/buzz.h:6 | The pitch is never 0; up to 503 it is 4000 - 3970*voltage/500, between 7 and 4000; from 504 on the subtraction wraps above 40,000,000 |
| Buzz.ToCount | src/main/buzz.h:5-8 | The count is defined for every voltage; up to 503 it lies in [10000, 5714285]; from 504 on it is 0 |
| Buzz.DivAntitone | src/main/buzz.h:7 | For a fixed dividend, a larger divisor gives a quotient no larger |
| Buzz.ToCountAtZero | src/main/buzz.h:5-8 | At voltage 0 the pitch is 4000 and the count 10000 |
| Buzz.ToCountAt500 | src/main/buzz.h:5-8 | At voltage 500 the pitch is 30 and the count 1333333 |
| Buzz.ToCountMonotone | src/main/buzz.h:6-7 | Up to 503 a higher voltage gives a lower or equal pitch and a larger or equal count |

## Left out

- Memory-mapped I/O is not modelled. This covers the `IO_t` layout, its address and `volatile`. Registers are plain bytes in `Port`, and U0TBL is the record `tbl` of bytes written.
- The clock, oscillator, pin-mux, module-stop and interrupt-priority setters and `init_device` are not modelled. They are one-shot hardware configuration and carry no logic.
- `init_uart`'s pin assignments, its U0C0 clock-divider setting and its write of 10 to the baud-rate register U0BRG are not modelled. The same holds for the interrupt-level writes. They fix the line speed and wiring and do not affect the driver's logic.
- Busy waits are not modelled as loops.
  - `resume_tx`'s wait for an empty transmit register is taken as already satisfied.
  - `uart_putc`'s `while (send_buf.length() != 0)` is modelled by its outcome: the transmit interrupts that empty the buffer (`SerialPort.DrainTx`, `UartDriver.Uart.TxInterruptsUntilEmpty`).
- Interrupts can really preempt foreground code mid-statement. The model does not capture this: each handler is one atomic step, and `TransmitOrder` interleaves them only between foreground calls.
- The `main` loops and delay loops are infinite timing loops and are not modelled. The test program is not modelled either; it exercises nothing in this code.
- Bit-field layout is implementation-defined in C++. The model assumes LSB-first allocation and does not prove it.
- `src/main/main.cpp` uses an io header that is not part of this model. Its register fields are taken to sit at the same bit positions as in `src/main.cpp`. The `UartDriver.Uart` methods cite its lines.
- UartRegisters.ClrErr: the transient `re = 0` write of `clr_err` is not kept as a register state. Instead, the counter `errClears` in `Port` records each call.
- SerialPort.Print: `int` is an unbounded integer with C's truncating division; the target's `int` width is not modelled. Each intermediate stays within max(|i|, 57), so no `int` of 16 bits or more overflows. `PrintIsDecimal` covers 0..99999, but the digits carry over only for the values the target's `int` can hold (0..32767 for a 16-bit `int`).
- FifoModel.Next: the `SIZE == 256` branch is modelled as written in `NextAsWritten`, but the rest of the model uses the corrected wrap (see Findings).
- The element type of `fifo` is modelled as bytes. The template parameter `T` is only the index type; the slots always hold `char`. The driver puts `uint8_t` values and reads them back as `uint8_t`, and that conversion to `char` and back gives the same byte, so bytes in, bytes out is what the driver sees.

## Findings

| source | as written | input that shows it | evidently intended | confidence | as-written member | corrected member |
|---|---|---|---|---|---|---|
| src/common/fifo.hpp:52 | For SIZE == 256, `put` and `get` increment the index with no wrap, relying on an 8-bit index type | `fifo<uint16_t, 256>`: a put at put_ == 255 leaves put_ at 256, and the next put writes past the buffer | The index wraps to 0, as for every other SIZE | not executed | FifoModel.Size256IndexLeavesRange | FifoModel.Next |
