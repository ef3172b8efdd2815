/**
 * `utils::fifo<T, SIZE>` (src/common/fifo.hpp) as the object the firmware keeps:
 * SIZE byte slots in an array and the two indices `get_` and `put_`, which `put`
 * and `get` update in place. Each method is specified by the matching function
 * of FifoModel, whose lemmas carry the queue properties.
 */
module FifoBuffer {
  import opened Bytes
  import opened FifoModel

  class Fifo {
    const size: nat
    const buff: array<byte>
    var getIdx: nat
    var putIdx: nat

    ghost predicate Valid()
      reads this
    {
      0 < size && buff.Length == size && getIdx < size && putIdx < size
    }

    /** The buffer as a value. */
    ghost function State(): (s: FifoState)
      reads this, buff
      requires Valid()
      ensures Wf(s) && s.size == size
    {
      FifoState(size, buff[..], getIdx, putIdx)
    }

    /** A buffer in static storage: zeroed slots, both indices 0. */
    constructor (size: nat)
      requires 0 < size
      ensures Valid() && fresh(buff) && this.size == size
      ensures getIdx == 0 && putIdx == 0
      ensures forall k | 0 <= k < size :: buff[k] == 0
    {
      this.size := size;
      buff := new byte[size](_ => 0);
      getIdx, putIdx := 0, 0;
    }

    /** `clear()`: both indices to 0; the slots keep their bytes. */
    method Clear()
      requires Valid()
      modifies this
      ensures Valid() && getIdx == 0 && putIdx == 0
      ensures State() == FifoModel.Clear(old(State()))
    {
      getIdx, putIdx := 0, 0;
    }

    /** `put(v)`: writes one slot and advances the put index, with no check for a full buffer. */
    method Put(v: byte)
      requires Valid()
      modifies this, buff
      ensures Valid() && getIdx == old(getIdx)
      ensures buff[..] == old(buff[..])[old(putIdx) := v]
      ensures putIdx == (old(putIdx) + 1) % size
      ensures State() == FifoModel.Put(old(State()), v)
    {
      buff[putIdx] := v;
      putIdx := Next(size, putIdx);
    }

    /** `get()`: reads the slot at the get index and advances it, with no check for an empty buffer. */
    method Get() returns (v: byte)
      requires Valid()
      modifies this
      ensures Valid() && putIdx == old(putIdx)
      ensures v == buff[old(getIdx)]
      ensures getIdx == (old(getIdx) + 1) % size
      ensures (v, State()) == FifoModel.Get(old(State()))
    {
      v := buff[getIdx];
      getIdx := Next(size, getIdx);
    }

    /** `length()`: the occupancy, `(put_ - get_) mod SIZE`. */
    function Length(): (n: nat)
      reads this
      requires Valid()
      ensures n < size && n == (putIdx - getIdx) % size
      ensures n == 0 <==> putIdx == getIdx
    {
      FifoModel.ModNeg(putIdx - getIdx, size);
      if putIdx >= getIdx then putIdx - getIdx else size + putIdx - getIdx
    }

    /** `pos_get()`: the get index, always a valid slot. */
    function PosGet(): (i: nat)
      reads this
      requires Valid()
      ensures i < size && i == State().get
    {
      getIdx
    }

    /** `pos_put()`: the put index, always a valid slot. */
    function PosPut(): (i: nat)
      reads this
      requires Valid()
      ensures i < size && i == State().put
    {
      putIdx
    }

    /** `size()`: the capacity, which no operation changes. */
    function Size(): (n: nat)
      reads this
      requires Valid()
      ensures n > 0 && n == buff.Length
    {
      size
    }
  }
}
