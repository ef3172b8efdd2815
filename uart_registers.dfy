/**
 * The UART0 register bit fields that the driver in src/main.cpp touches, on the
 * assumption that the compiler allocates bit fields from the least significant
 * bit upwards (the C++ standard leaves the order to the implementation; the
 * firmware relies on this one).
 */
module UartRegisters {
  import opened Bytes

  /** The byte with only bit k set, bit 0 being the least significant. */
  function BitMask(k: nat): byte
    requires k < 8
  {
    if k == 0 then 0x01 else if k == 1 then 0x02 else if k == 2 then 0x04
    else if k == 3 then 0x08 else if k == 4 then 0x10 else if k == 5 then 0x20
    else if k == 6 then 0x40 else 0x80
  }

  /** Bit k of a register byte. */
  predicate Bit(r: byte, k: nat)
    requires k < 8
  {
    r & BitMask(k) != 0
  }

  /** r' has bit k equal to `on` and every other bit as in r. */
  predicate OnlyBitSet(r: byte, r': byte, k: nat, on: bool)
    requires k < 8
  {
    Bit(r', k) == on && forall j | 0 <= j < 8 && j != k :: Bit(r', j) == Bit(r, j)
  }

  /** Two assignments of the same bit to the same value amount to one. */
  lemma OnlyBitSetTwice(r: byte, r': byte, r'': byte, k: nat, on: bool)
    requires k < 8 && OnlyBitSet(r, r', k, on) && OnlyBitSet(r', r'', k, on)
    ensures OnlyBitSet(r, r'', k, on)
  {
  }

  /** Setting bit k sets it. */
  lemma SetOwnBit(r: byte, k: nat)
    requires k < 8
    ensures Bit(r | BitMask(k), k)
  {
  }

  /** Clearing bit k clears it. */
  lemma ClearOwnBit(r: byte, k: nat)
    requires k < 8
    ensures !Bit(r & !BitMask(k), k)
  {
  }

  /** Setting bit k leaves bit j alone. */
  lemma SetOtherBit(r: byte, k: nat, j: nat)
    requires k < 8 && j < 8 && j != k
    ensures Bit(r | BitMask(k), j) == Bit(r, j)
  {
  }

  /** Clearing bit k leaves bit j alone. */
  lemma ClearOtherBit(r: byte, k: nat, j: nat)
    requires k < 8 && j < 8 && j != k
    ensures Bit(r & !BitMask(k), j) == Bit(r, j)
  {
  }

  /** A one-bit field assignment `bits.f = on ? 1 : 0`. */
  function SetBit(r: byte, k: nat, on: bool): (r': byte)
    requires k < 8
    ensures OnlyBitSet(r, r', k, on)
  {
    if on then
      SetOwnBit(r, k);
      assert forall j | 0 <= j < 8 && j != k :: Bit(r | BitMask(k), j) == Bit(r, j) by {
        forall j | 0 <= j < 8 && j != k ensures Bit(r | BitMask(k), j) == Bit(r, j) {
          SetOtherBit(r, k, j);
        }
      }
      r | BitMask(k)
    else
      ClearOwnBit(r, k);
      assert forall j | 0 <= j < 8 && j != k :: Bit(r & !BitMask(k), j) == Bit(r, j) by {
        forall j | 0 <= j < 8 && j != k ensures Bit(r & !BitMask(k), j) == Bit(r, j) {
          ClearOtherBit(r, k, j);
        }
      }
      r & !BitMask(k)
  }

  // ---- U0MR: smd bits 0-2, ckdir bit 3, stps bit 4, pry bit 5, prye bit 6 ----

  /** `U0MR_SMD`: serial I/O mode select. */
  datatype Smd = Disabled | Sync | BitLen7 | BitLen8 | BitLen9

  function SmdCode(m: Smd): (c: byte)
    ensures c < 8
  {
    match m
    case Disabled => 0
    case Sync => 1
    case BitLen7 => 4
    case BitLen8 => 5
    case BitLen9 => 6
  }

  /** `U0MR_STPS`: stop bit length. */
  datatype Stps = StopBit1 | StopBit2

  /** `u0mr_t::with_smd`: the three low bits become the mode, the other five are kept. */
  function WithSmd(r: byte, m: Smd): (r': byte)
    ensures r' & 0x07 == SmdCode(m)
    ensures r' & 0xF8 == r & 0xF8
  {
    (r & 0xF8) | SmdCode(m)
  }

  /** `u0mr_t::with_stps`: bit 4 is set for two stop bits, cleared for one. */
  function WithStps(r: byte, s: Stps): (r': byte)
    ensures OnlyBitSet(r, r', 4, s == StopBit2)
  {
    SetBit(r, 4, s == StopBit2)
  }

  // ---- U0C1: te bit 0, ti bit 1, re bit 2, ri bit 3, u0irs bit 4, u0rrm bit 5 ----

  /** `u0c1_t::with_te`: transmit enable, bit 0. */
  function WithTe(r: byte, on: bool): (r': byte)
    ensures OnlyBitSet(r, r', 0, on)
  {
    SetBit(r, 0, on)
  }

  /** `u0c1_t::with_re`: receive enable, bit 2. */
  function WithRe(r: byte, on: bool): (r': byte)
    ensures OnlyBitSet(r, r', 2, on)
  {
    SetBit(r, 2, on)
  }

  /**
   * `u0c1_t::clr_err`: receive enable is written 0 and then 1, which resets the
   * error latch; the register ends with re set and every other bit as it was.
   */
  function ClrErr(r: byte): (r': byte)
    ensures OnlyBitSet(r, r', 2, true)
  {
    SetBit(SetBit(r, 2, false), 2, true)
  }

  // ---- U0IR: u0rie bit 2, u0tie bit 3, u0rif bit 6, u0tif bit 7 ----

  /** `u0ir_t::with_rie`: receive interrupt enable, bit 2. */
  function WithRie(r: byte, on: bool): (r': byte)
    ensures OnlyBitSet(r, r', 2, on)
  {
    SetBit(r, 2, on)
  }

  /** `u0ir_t::with_tie`: transmit interrupt enable, bit 3. */
  function WithTie(r: byte, on: bool): (r': byte)
    ensures OnlyBitSet(r, r', 3, on)
  {
    SetBit(r, 3, on)
  }

  /** `u0ir_t::clr_tx_intr`: clears the transmit interrupt flag, bit 7, and nothing else. */
  function ClrTxIntr(r: byte): (r': byte)
    ensures OnlyBitSet(r, r', 7, false)
  {
    SetBit(r, 7, false)
  }

  /** `u0ir_t::clr_rx_intr`: clears the receive interrupt flag, bit 6, and nothing else. */
  function ClrRxIntr(r: byte): (r': byte)
    ensures OnlyBitSet(r, r', 6, false)
  {
    SetBit(r, 6, false)
  }

  /** The values init_uart writes: 8-bit frames with one stop bit, TX and RX on, both interrupts on. */
  lemma InitEncodings()
    ensures WithStps(WithSmd(0, BitLen8), StopBit1) == 0x05
    ensures WithRe(WithTe(0, true), true) == 0x05
    ensures WithTie(WithRie(0, true), true) == 0x0C
  {
  }

  // ---- U0RB: data bits 0-8 (7, 8 or 9 of them), oer bit 12, fer bit 13, per bit 14, sum bit 15 ----

  /**
   * The four flags, read through the `b8` view: 8 data bits and 4 reserved bits
   * come first, so oer, fer, per and sum are bits 12 to 15 of the word.
   */

  /** `u0rb_t::is_ovr_err`: overrun error. */
  function IsOvrErr(rb: bv16): (b: bool)
    ensures b <==> (rb >> (8 + 4)) & 1 == 1
  {
    rb & 0x1000 != 0
  }

  /** `u0rb_t::is_frm_err`: framing error. */
  function IsFrmErr(rb: bv16): (b: bool)
    ensures b <==> (rb >> (8 + 4 + 1)) & 1 == 1
  {
    rb & 0x2000 != 0
  }

  /** `u0rb_t::is_prty_err`: parity error. */
  function IsPrtyErr(rb: bv16): (b: bool)
    ensures b <==> (rb >> (8 + 4 + 2)) & 1 == 1
  {
    rb & 0x4000 != 0
  }

  /** `u0rb_t::is_sum_err`: error sum flag. */
  function IsSumErr(rb: bv16): (b: bool)
    ensures b <==> (rb >> (8 + 4 + 3)) & 1 == 1
  {
    rb & 0x8000 != 0
  }

  /** The error test of irecv: some flag is set exactly when the top four bits are not all clear. */
  function HasRecvError(rb: bv16): (e: bool)
    ensures e <==> rb >> 12 != 0
  {
    IsOvrErr(rb) || IsFrmErr(rb) || IsPrtyErr(rb) || IsSumErr(rb)
  }

  /** `u0rb_t::recv_b7`: the 7 low data bits. */
  function RecvB7(rb: bv16): (d: byte)
    ensures d < 0x80
  {
    (rb & 0x7F) as bv8
  }

  /** `u0rb_t::recv_b8`: the 8 low data bits. */
  function RecvB8(rb: bv16): (d: byte)
    ensures d as bv16 == RecvB9(rb) & 0xFF
    ensures d & 0x7F == RecvB7(rb)
  {
    (rb & 0xFF) as bv8
  }

  /** `u0rb_t::recv_b9`: the 9 low data bits. */
  function RecvB9(rb: bv16): (d: bv16)
    ensures d < 0x200
  {
    rb & 0x1FF
  }

  /** The register word a receiver would present for 9 data bits and the four flags. */
  function EncodeRb(data: bv16, oer: bool, fer: bool, per: bool, sum: bool): bv16
    requires data < 0x200
  {
    data
    | (if oer then 0x1000 else 0) | (if fer then 0x2000 else 0)
    | (if per then 0x4000 else 0) | (if sum then 0x8000 else 0)
  }

  /** Decoding a word recovers its data and flags; the narrower data reads are its low bits. */
  lemma DecodeEncodeRb(data: bv16, oer: bool, fer: bool, per: bool, sum: bool)
    requires data < 0x200
    ensures var rb := EncodeRb(data, oer, fer, per, sum);
      && RecvB9(rb) == data
      && RecvB8(rb) == (data & 0xFF) as bv8
      && RecvB7(rb) == (data & 0x7F) as bv8
      && IsOvrErr(rb) == oer && IsFrmErr(rb) == fer
      && IsPrtyErr(rb) == per && IsSumErr(rb) == sum
  {
    var rb := EncodeRb(data, oer, fer, per, sum);
    FlagBits(rb);
    assert rb & 0x1FF == data;
    assert rb & 0x1000 == (if oer then 0x1000 else 0) && rb & 0x2000 == (if fer then 0x2000 else 0);
    assert rb & 0x4000 == (if per then 0x4000 else 0) && rb & 0x8000 == (if sum then 0x8000 else 0);
  }

  /** A word whose reserved bits 9-11 are clear is the encoding of what it decodes to. */
  lemma EncodeDecodeRb(rb: bv16)
    requires rb & 0x0E00 == 0
    ensures EncodeRb(RecvB9(rb), IsOvrErr(rb), IsFrmErr(rb), IsPrtyErr(rb), IsSumErr(rb)) == rb
  {
    FlagBits(rb);
    assert rb == (rb & 0x1FF) | (rb & 0x1000) | (rb & 0x2000) | (rb & 0x4000) | (rb & 0x8000);
  }

  /** Each flag read back as the bit it reads. */
  lemma FlagBits(rb: bv16)
    ensures (if IsOvrErr(rb) then 0x1000 else 0) == rb & 0x1000
    ensures (if IsFrmErr(rb) then 0x2000 else 0) == rb & 0x2000
    ensures (if IsPrtyErr(rb) then 0x4000 else 0) == rb & 0x4000
    ensures (if IsSumErr(rb) then 0x8000 else 0) == rb & 0x8000
  {
  }
}
