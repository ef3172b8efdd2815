/**
 * Value model of `utils::fifo<T, SIZE>` (src/common/fifo.hpp): a fixed-size ring
 * buffer with a get index, a put index and SIZE byte slots. Nothing stops a put
 * into a full buffer or a get from an empty one; both are modelled as the code
 * runs them, and the lemmas say when the buffer behaves as a queue.
 */
module FifoModel {
  import opened Bytes

  datatype FifoState = FifoState(size: nat, buff: seq<byte>, get: nat, put: nat)

  /** A well-formed buffer: a positive capacity, SIZE slots, both indices in range. */
  predicate Wf(s: FifoState)
  {
    0 < s.size && |s.buff| == s.size && s.get < s.size && s.put < s.size
  }

  /** The capacities for which the source increments an index with a bit mask. */
  predicate IsMaskSize(size: nat)
  {
    size == 8 || size == 16 || size == 32 || size == 64 || size == 128
  }

  /** 2 to the power m. */
  function Pow2(m: nat): (p: nat)
    ensures p >= 1
  {
    if m == 0 then 1 else 2 * Pow2(m - 1)
  }

  /** Bitwise AND of two non-negative integers, bit by bit from the least significant. */
  function BitAnd(a: nat, b: nat): nat
  {
    if a == 0 || b == 0 then 0
    else 2 * BitAnd(a / 2, b / 2) + (if a % 2 == 1 && b % 2 == 1 then 1 else 0)
  }

  /**
   * Masking with 2^m - 1 keeps every value below 2^m and sends 2^m itself to 0:
   * for an index below a power-of-two SIZE, `(i + 1) & (SIZE - 1)` is the
   * conditional reset.
   */
  lemma {:induction false} BitAndLowMask(x: nat, m: nat)
    requires x <= Pow2(m)
    ensures BitAnd(x, Pow2(m) - 1) == if x < Pow2(m) then x else 0
  {
    if m > 0 && x > 0 {
      var h := Pow2(m - 1);
      assert (Pow2(m) - 1) / 2 == h - 1 && (Pow2(m) - 1) % 2 == 1;
      BitAndLowMask(x / 2, m - 1);
    }
  }

  /** A value below twice the modulus wraps at most once. */
  lemma ModOnce(a: int, n: int)
    requires 0 < n && 0 <= a < 2 * n
    ensures a % n == if a < n then a else a - n
  {
  }

  /** A difference of two indices is one modulus away from its residue at most. */
  lemma ModNeg(a: int, n: int)
    requires 0 < n && -n <= a < n
    ensures a % n == if a >= 0 then a else a + n
  {
  }

  /** The conditional-reset form of the increment, used for every other SIZE. */
  function ResetNext(size: nat, i: nat): (j: nat)
    requires 0 < size && i < size
    ensures j < size && j == (i + 1) % size
  {
    ModOnce(i + 1, size);
    if i + 1 >= size then 0 else i + 1
  }

  /** The mask form of the increment, `++i; i &= SIZE - 1`: the same as the conditional reset. */
  function MaskNext(size: nat, i: nat): (j: nat)
    requires IsMaskSize(size) && i < size
    ensures j == ResetNext(size, i)
  {
    var m := if size == 8 then 3 else if size == 16 then 4 else if size == 32 then 5
             else if size == 64 then 6 else 7;
    assert Pow2(m) == size;
    BitAndLowMask(i + 1, m);
    BitAnd(i + 1, size - 1)
  }

  /**
   * The index increment as the source writes it: the mask form for the five
   * power-of-two sizes, nothing at all for SIZE == 256, and otherwise a reset to
   * 0 once the index reaches SIZE.
   */
  function NextAsWritten(size: nat, i: nat): (j: nat)
    requires 0 < size && i < size
    ensures size != 256 ==> j == (i + 1) % size
    ensures size == 256 ==> j == i + 1
  {
    if IsMaskSize(size) then MaskNext(size, i)
    else if size == 256 then i + 1
    else ResetNext(size, i)
  }

  /**
   * An index value 256 is out of range for a buffer of 256 slots: the SIZE == 256
   * branch relies on an 8-bit index wrapping by itself, which it cannot do when
   * SIZE == 256 is representable in the index type.
   */
  lemma Size256IndexLeavesRange()
    ensures NextAsWritten(256, 255) == 256
    ensures !(NextAsWritten(256, 255) < 256)
  {
  }

  /**
   * The index increment used by the rest of the model: as written, except that
   * SIZE == 256 wraps to 0 as an 8-bit index would. Every form agrees with
   * `(i + 1) mod SIZE` and stays in range.
   */
  function Next(size: nat, i: nat): (j: nat)
    requires 0 < size && i < size
    ensures j < size
    ensures j == (i + 1) % size
    ensures size != 256 ==> j == NextAsWritten(size, i)
  {
    if IsMaskSize(size) then MaskNext(size, i)
    else ResetNext(size, i)
  }

  /** `length()`: the occupancy, derived from the two indices. */
  function Len(s: FifoState): (n: nat)
    requires Wf(s)
    ensures n < s.size
    ensures n == (s.put - s.get) % s.size
  {
    ModNeg(s.put - s.get, s.size);
    if s.put >= s.get then s.put - s.get else s.size + s.put - s.get
  }

  /** The slot k places after index i, wrapping once past the end. */
  function Slot(size: nat, i: nat, k: nat): (j: nat)
    requires i < size && k < size
    ensures j < size && j == (i + k) % size
  {
    ModOnce(i + k, size);
    if i + k < size then i + k else i + k - size
  }

  /** The bytes a sequence of gets would return, oldest first: `Len(s)` slots from `get`. */
  ghost function Contents(s: FifoState): (q: seq<byte>)
    requires Wf(s)
    ensures |q| == Len(s)
  {
    seq(Len(s), k requires 0 <= k < Len(s) => s.buff[Slot(s.size, s.get, k)])
  }

  /** `clear()`: both indices to 0, the slots left as they are. */
  function Clear(s: FifoState): (t: FifoState)
    requires Wf(s)
    ensures Wf(t) && t.size == s.size && t.buff == s.buff
    ensures t.get == 0 && t.put == 0
    ensures Len(t) == 0 && Contents(t) == []
  {
    FifoState(s.size, s.buff, 0, 0)
  }

  /** `put(v)`: store at the put index, then advance it; no check for a full buffer. */
  function Put(s: FifoState, v: byte): (t: FifoState)
    requires Wf(s)
    ensures Wf(t) && t.size == s.size && t.get == s.get
    ensures t.put == (s.put + 1) % s.size
    ensures t.buff[s.put] == v
    ensures forall k | 0 <= k < s.size && k != s.put :: t.buff[k] == s.buff[k]
  {
    FifoState(s.size, s.buff[s.put := v], s.get, Next(s.size, s.put))
  }

  /** `get()`: read the slot at the get index, then advance it; no check for an empty buffer. */
  function Get(s: FifoState): (r: (byte, FifoState))
    requires Wf(s)
    ensures Wf(r.1) && r.1.size == s.size && r.1.buff == s.buff && r.1.put == s.put
    ensures r.1.get == (s.get + 1) % s.size
    ensures r.0 == s.buff[s.get]
  {
    (s.buff[s.get], FifoState(s.size, s.buff, Next(s.size, s.get), s.put))
  }

  /** Below SIZE - 1 a put adds one to the length; at SIZE - 1 the full buffer reads as empty. */
  lemma PutLength(s: FifoState, v: byte)
    requires Wf(s)
    ensures Len(s) < s.size - 1 ==> Len(Put(s, v)) == Len(s) + 1
    ensures Len(s) == s.size - 1 ==> Len(Put(s, v)) == 0
  {
  }

  /** On a non-empty buffer a get takes one from the length; on an empty one it wraps to SIZE - 1. */
  lemma GetLength(s: FifoState)
    requires Wf(s)
    ensures Len(s) > 0 ==> Len(Get(s).1) == Len(s) - 1
    ensures Len(s) == 0 ==> Len(Get(s).1) == s.size - 1
  {
  }

  /** While the buffer holds fewer than SIZE - 1 bytes, a put appends to the queue. */
  lemma PutContents(s: FifoState, v: byte)
    requires Wf(s) && Len(s) < s.size - 1
    ensures Contents(Put(s, v)) == Contents(s) + [v]
  {
    var t := Put(s, v);
    PutLength(s, v);
    assert Slot(s.size, s.get, Len(s)) == s.put;
    forall k | 0 <= k < Len(t)
      ensures Contents(t)[k] == (Contents(s) + [v])[k]
    {
      if k < Len(s) {
        assert Slot(s.size, s.get, k) != s.put;
      }
    }
  }

  /** On a non-empty buffer a get returns the oldest byte and removes exactly it. */
  lemma GetContents(s: FifoState)
    requires Wf(s) && Len(s) > 0
    ensures Get(s).0 == Contents(s)[0]
    ensures Contents(Get(s).1) == Contents(s)[1..]
  {
    var t := Get(s).1;
    GetLength(s);
    forall k | 0 <= k < Len(t)
      ensures Contents(t)[k] == Contents(s)[1..][k]
    {
      assert Slot(s.size, t.get, k) == Slot(s.size, s.get, k + 1);
    }
  }

  /** One call on the buffer: `put(v)` or `get()`. */
  datatype Op = PutOp(v: byte) | GetOp

  /** Runs the calls in order; the final buffer and the bytes the gets returned. */
  function Run(s: FifoState, ops: seq<Op>): (r: (FifoState, seq<byte>))
    requires Wf(s)
    ensures Wf(r.0) && r.0.size == s.size
    decreases |ops|
  {
    if ops == [] then (s, [])
    else match ops[0]
      case PutOp(v) => Run(Put(s, v), ops[1..])
      case GetOp =>
        var r := Run(Get(s).1, ops[1..]);
        (r.0, [Get(s).0] + r.1)
  }

  /** The same calls on an unbounded queue: a put appends, a get removes the oldest. */
  function RunQueue(q: seq<byte>, ops: seq<Op>): (r: (seq<byte>, seq<byte>))
    decreases |ops|
  {
    if ops == [] then (q, [])
    else match ops[0]
      case PutOp(v) => RunQueue(q + [v], ops[1..])
      case GetOp =>
        if q == [] then RunQueue(q, ops[1..])
        else
          var r := RunQueue(q[1..], ops[1..]);
          (r.0, [q[0]] + r.1)
  }

  /**
   * Calls that never overfill and never underflow a buffer of the given size that
   * starts with n bytes: each put finds fewer than SIZE - 1 bytes, each get at least one.
   */
  predicate Fits(n: nat, ops: seq<Op>, size: nat)
    decreases |ops|
  {
    ops == [] ||
    match ops[0]
    case PutOp(_) => n + 1 < size && Fits(n + 1, ops[1..], size)
    case GetOp => n > 0 && Fits(n - 1, ops[1..], size)
  }

  /** First in, first out: within capacity the buffer behaves exactly as the queue. */
  lemma {:induction false} FifoOrder(s: FifoState, ops: seq<Op>)
    requires Wf(s) && Fits(Len(s), ops, s.size)
    ensures Contents(Run(s, ops).0) == RunQueue(Contents(s), ops).0
    ensures Run(s, ops).1 == RunQueue(Contents(s), ops).1
    decreases |ops|
  {
    if ops != [] {
      match ops[0]
      case PutOp(v) =>
        PutLength(s, v);
        PutContents(s, v);
        FifoOrder(Put(s, v), ops[1..]);
      case GetOp =>
        GetLength(s);
        GetContents(s);
        FifoOrder(Get(s).1, ops[1..]);
    }
  }

  /** Puts the bytes in order, with no get in between. */
  function PutAll(s: FifoState, vs: seq<byte>): (t: FifoState)
    requires Wf(s)
    ensures Wf(t) && t.size == s.size && t.get == s.get
    decreases |vs|
  {
    if vs == [] then s else Put(PutAll(s, vs[..|vs| - 1]), vs[|vs| - 1])
  }

  lemma LastSplit<T>(vs: seq<T>)
    requires vs != []
    ensures vs[..|vs| - 1] + [vs[|vs| - 1]] == vs
  {
  }

  /**
   * Into an empty buffer, fewer than SIZE puts are held in order; the SIZE-th put
   * brings the put index back to the get index, so the full buffer reads as empty.
   */
  lemma {:induction false} PutAllFromEmpty(s: FifoState, vs: seq<byte>)
    requires Wf(s) && Len(s) == 0 && |vs| <= s.size
    ensures |vs| < s.size ==> Len(PutAll(s, vs)) == |vs| && Contents(PutAll(s, vs)) == vs
    ensures |vs| == s.size ==> PutAll(s, vs).put == s.get && Len(PutAll(s, vs)) == 0
    decreases |vs|
  {
    if vs != [] {
      var init := vs[..|vs| - 1];
      var t := PutAll(s, init);
      PutAllFromEmpty(s, init);
      PutLength(t, vs[|vs| - 1]);
      if |vs| < s.size {
        PutContents(t, vs[|vs| - 1]);
        LastSplit(vs);
      }
    }
  }
}
