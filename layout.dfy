/** The 64-bit layout of a Snowflake ID (IdWorker.cs lines 10-31 and 94):
    from the most significant bit down, a sign bit that stays 0, 41 bits of
    milliseconds since `Twepoch`, 5 bits of datacenter id, 5 bits of worker id
    and 12 bits of per-millisecond sequence. */
module Layout {
  import opened Bits

  /** C#'s `long`. */
  newtype int64 = x: int | -0x8000_0000_0000_0000 <= x < 0x8000_0000_0000_0000

  /** The reference instant subtracted from every timestamp, in milliseconds. */
  const Twepoch: int64 := 1288834974657

  const WorkerIdBits: nat := 5
  const DatacenterIdBits: nat := 5
  const SequenceBits: nat := 12

  /** `-1L ^ (-1L << bits)`: the largest value that fits in `bits` bits. */
  const MaxWorkerId: nat := 31
  const MaxDatacenterId: nat := 31
  const SequenceMask: nat := 4095

  const WorkerIdShift: nat := 12
  const DatacenterIdShift: nat := 17
  const TimestampLeftShift: nat := 22

  /** What is left of the 63 non-sign bits for the timestamp offset. */
  const TimestampBits: nat := 41

  /** `2^TimestampBits`: the offsets the timestamp field can hold are below it. */
  const TimestampLimit: nat := 0x200_0000_0000

  /** How the source derives its constants from the three field widths. */
  lemma ConstantsFollowWidths()
    ensures MaxWorkerId == Pow2(WorkerIdBits) - 1
    ensures MaxDatacenterId == Pow2(DatacenterIdBits) - 1
    ensures SequenceMask == Pow2(SequenceBits) - 1
    ensures WorkerIdShift == SequenceBits
    ensures DatacenterIdShift == SequenceBits + WorkerIdBits
    ensures TimestampLeftShift == SequenceBits + WorkerIdBits + DatacenterIdBits
    ensures TimestampBits == 63 - TimestampLeftShift
    ensures TimestampLimit == Pow2(TimestampBits)
  {
    Pow2Values();
    Pow2Large();
  }

  /** The C# masks are built as `-1L ^ (-1L << bits)` on 64-bit words; on
      two's-complement words they are the low-ones values used here. */
  lemma MasksMatchSource()
    ensures 0xFFFF_FFFF_FFFF_FFFF ^ (0xFFFF_FFFF_FFFF_FFFF << 5) == 31 as bv64
    ensures 0xFFFF_FFFF_FFFF_FFFF ^ (0xFFFF_FFFF_FFFF_FFFF << 12) == 4095 as bv64
  {
  }

  /** The four fields each fit in their width. */
  predicate FieldsFit(offset: nat, datacenterId: nat, workerId: nat, sequence: nat)
  {
    offset < TimestampLimit && datacenterId <= MaxDatacenterId &&
    workerId <= MaxWorkerId && sequence <= SequenceMask
  }

  /** The fields placed at their weights, added. */
  function Pack(offset: nat, datacenterId: nat, workerId: nat, sequence: nat): nat
  {
    ShiftLeft(offset, TimestampLeftShift) +
    (ShiftLeft(datacenterId, DatacenterIdShift) + (ShiftLeft(workerId, WorkerIdShift) + sequence))
  }

  /** Line 94: `(offset << 22) | (datacenterId << 17) | (workerId << 12) | sequence`. */
  function ComposeId(offset: nat, datacenterId: nat, workerId: nat, sequence: nat): (id: int64)
    requires FieldsFit(offset, datacenterId, workerId, sequence)
    ensures id >= 0
    ensures id as int == Pack(offset, datacenterId, workerId, sequence)
  {
    ComposeIsPack(offset, datacenterId, workerId, sequence);
    PackBelowSignBit(offset, datacenterId, workerId, sequence);
    Or(Or(Or(ShiftLeft(offset, TimestampLeftShift), ShiftLeft(datacenterId, DatacenterIdShift)),
          ShiftLeft(workerId, WorkerIdShift)),
       sequence) as int64
  }

  /** `id >> 22`. */
  function TimestampOf(id: nat): nat
  {
    ShiftRight(id, TimestampLeftShift)
  }

  /** `(id >> 17) & 31`. */
  function DatacenterIdOf(id: nat): nat
  {
    And(ShiftRight(id, DatacenterIdShift), MaxDatacenterId)
  }

  /** `(id >> 12) & 31`. */
  function WorkerIdOf(id: nat): nat
  {
    And(ShiftRight(id, WorkerIdShift), MaxWorkerId)
  }

  /** `id & 4095`. */
  function SequenceOf(id: nat): nat
  {
    And(id, SequenceMask)
  }

  /** The packed value regrouped around each field boundary: above the
      sequence, above the worker id, above the datacenter id. */
  lemma PackNested(offset: nat, datacenterId: nat, workerId: nat, sequence: nat)
    ensures var high := ShiftLeft(offset, 5) + datacenterId;
      var middle := ShiftLeft(high, 5) + workerId;
      Pack(offset, datacenterId, workerId, sequence) == ShiftLeft(middle, 12) + sequence &&
      Pack(offset, datacenterId, workerId, sequence) == ShiftLeft(high, 17) + (ShiftLeft(workerId, 12) + sequence)
  {
    var high := ShiftLeft(offset, 5) + datacenterId;
    var middle := ShiftLeft(high, 5) + workerId;
    ShiftLeftTwice(offset, 5, 17);
    ShiftLeftAdd(ShiftLeft(offset, 5), datacenterId, 17);
    ShiftLeftTwice(high, 5, 12);
    ShiftLeftAdd(ShiftLeft(high, 5), workerId, 12);
  }

  /** The low fields together stay below the weight of the field above them. */
  lemma LowFieldsFit(offset: nat, datacenterId: nat, workerId: nat, sequence: nat)
    requires FieldsFit(offset, datacenterId, workerId, sequence)
    ensures ShiftLeft(workerId, 12) + sequence < Pow2(17)
    ensures ShiftLeft(datacenterId, 17) + (ShiftLeft(workerId, 12) + sequence) < Pow2(22)
    ensures Pack(offset, datacenterId, workerId, sequence) < Pow2(63)
  {
    Pow2Values();
    Pow2Large();
    FieldBelow(workerId, sequence, 5, 12);
    FieldBelow(datacenterId, ShiftLeft(workerId, 12) + sequence, 5, 17);
    FieldBelow(offset, ShiftLeft(datacenterId, 17) + (ShiftLeft(workerId, 12) + sequence), 41, 22);
  }

  /** When every field fits its width, OR-ing the shifted fields is adding them. */
  lemma ComposeIsPack(offset: nat, datacenterId: nat, workerId: nat, sequence: nat)
    requires FieldsFit(offset, datacenterId, workerId, sequence)
    ensures Or(Or(Or(ShiftLeft(offset, TimestampLeftShift), ShiftLeft(datacenterId, DatacenterIdShift)),
                  ShiftLeft(workerId, WorkerIdShift)),
               sequence)
            == Pack(offset, datacenterId, workerId, sequence)
  {
    Pow2Values();
    var high := ShiftLeft(offset, 5) + datacenterId;
    var middle := ShiftLeft(high, 5) + workerId;
    var upper := Or(ShiftLeft(offset, 22), ShiftLeft(datacenterId, 17));
    OrAtWeight(offset, datacenterId, 5, 17);
    assert upper == ShiftLeft(high, 17);
    var withWorker := Or(upper, ShiftLeft(workerId, 12));
    OrAtWeight(high, workerId, 5, 12);
    assert withWorker == ShiftLeft(middle, 12);
    OrDisjoint(middle, sequence, 12);
    assert Or(withWorker, sequence) == ShiftLeft(middle, 12) + sequence;
    PackNested(offset, datacenterId, workerId, sequence);
  }

  /** `(a << (k + n)) | (b << n)` is `((a << k) + b) << n` when `b` fits in `k` bits. */
  lemma OrAtWeight(a: nat, b: nat, k: nat, n: nat)
    requires b < Pow2(k)
    ensures Or(ShiftLeft(a, k + n), ShiftLeft(b, n)) == ShiftLeft(ShiftLeft(a, k) + b, n)
  {
    ShiftLeftTwice(a, k, n);
    OrScaled(ShiftLeft(a, k), b, n);
    OrDisjoint(a, b, k);
  }

  /** A packed ID stays below the sign bit, so it is a non-negative `long`. */
  lemma PackBelowSignBit(offset: nat, datacenterId: nat, workerId: nat, sequence: nat)
    requires FieldsFit(offset, datacenterId, workerId, sequence)
    ensures Pack(offset, datacenterId, workerId, sequence) < 0x8000_0000_0000_0000
  {
    Pow2Large();
    LowFieldsFit(offset, datacenterId, workerId, sequence);
  }

  /** Shifting and masking an ID gives back each field that was packed into it. */
  lemma DecodePack(offset: nat, datacenterId: nat, workerId: nat, sequence: nat)
    requires FieldsFit(offset, datacenterId, workerId, sequence)
    ensures TimestampOf(Pack(offset, datacenterId, workerId, sequence)) == offset
    ensures DatacenterIdOf(Pack(offset, datacenterId, workerId, sequence)) == datacenterId
    ensures WorkerIdOf(Pack(offset, datacenterId, workerId, sequence)) == workerId
    ensures SequenceOf(Pack(offset, datacenterId, workerId, sequence)) == sequence
  {
    DecodeTimestamp(offset, datacenterId, workerId, sequence);
    DecodeDatacenterId(offset, datacenterId, workerId, sequence);
    DecodeWorkerId(offset, datacenterId, workerId, sequence);
    DecodeSequence(offset, datacenterId, workerId, sequence);
  }

  lemma DecodeTimestamp(offset: nat, datacenterId: nat, workerId: nat, sequence: nat)
    requires FieldsFit(offset, datacenterId, workerId, sequence)
    ensures TimestampOf(Pack(offset, datacenterId, workerId, sequence)) == offset
  {
    LowFieldsFit(offset, datacenterId, workerId, sequence);
    ShiftRightDropsLow(Pack(offset, datacenterId, workerId, sequence),
                       offset, ShiftLeft(datacenterId, 17) + (ShiftLeft(workerId, 12) + sequence), 22);
  }

  lemma DecodeDatacenterId(offset: nat, datacenterId: nat, workerId: nat, sequence: nat)
    requires FieldsFit(offset, datacenterId, workerId, sequence)
    ensures DatacenterIdOf(Pack(offset, datacenterId, workerId, sequence)) == datacenterId
  {
    Pow2Values();
    var high := ShiftLeft(offset, 5) + datacenterId;
    PackNested(offset, datacenterId, workerId, sequence);
    LowFieldsFit(offset, datacenterId, workerId, sequence);
    MaskedField(Pack(offset, datacenterId, workerId, sequence),
                high, ShiftLeft(workerId, 12) + sequence, offset, datacenterId, 17, 5);
  }

  lemma DecodeWorkerId(offset: nat, datacenterId: nat, workerId: nat, sequence: nat)
    requires FieldsFit(offset, datacenterId, workerId, sequence)
    ensures WorkerIdOf(Pack(offset, datacenterId, workerId, sequence)) == workerId
  {
    Pow2Values();
    var high := ShiftLeft(offset, 5) + datacenterId;
    var middle := ShiftLeft(high, 5) + workerId;
    PackNested(offset, datacenterId, workerId, sequence);
    MaskedField(Pack(offset, datacenterId, workerId, sequence), middle, sequence, high, workerId, 12, 5);
  }

  lemma DecodeSequence(offset: nat, datacenterId: nat, workerId: nat, sequence: nat)
    requires FieldsFit(offset, datacenterId, workerId, sequence)
    ensures SequenceOf(Pack(offset, datacenterId, workerId, sequence)) == sequence
  {
    Pow2Values();
    var high := ShiftLeft(offset, 5) + datacenterId;
    var middle := ShiftLeft(high, 5) + workerId;
    PackNested(offset, datacenterId, workerId, sequence);
    AndLowMask(Pack(offset, datacenterId, workerId, sequence), middle, sequence, 12);
  }

  /** A field `b` of width `k` at weight `n`, under higher bits `a`:
      `((((a << k) + b) << n) + low) >> n & (2^k - 1)` is `b`. */
  lemma MaskedField(id: nat, x: nat, low: nat, a: nat, b: nat, n: nat, k: nat)
    requires id == ShiftLeft(x, n) + low && low < Pow2(n)
    requires x == ShiftLeft(a, k) + b && b < Pow2(k)
    ensures And(ShiftRight(id, n), Pow2(k) - 1) == b
  {
    ShiftRightDropsLow(id, x, low, n);
    AndLowMask(x, a, b, k);
  }

  /** IDs compare by their timestamp field first: a later timestamp gives a
      larger ID whatever the lower fields hold; with equal timestamps and ids,
      the larger sequence gives the larger ID. */
  lemma PackOrder(offset1: nat, datacenterId1: nat, workerId1: nat, sequence1: nat,
                  offset2: nat, datacenterId2: nat, workerId2: nat, sequence2: nat)
    requires FieldsFit(offset1, datacenterId1, workerId1, sequence1)
    requires FieldsFit(offset2, datacenterId2, workerId2, sequence2)
    requires offset1 < offset2 ||
             (offset1 == offset2 && datacenterId1 == datacenterId2 && workerId1 == workerId2 && sequence1 < sequence2)
    ensures Pack(offset1, datacenterId1, workerId1, sequence1) < Pack(offset2, datacenterId2, workerId2, sequence2)
  {
    if offset1 < offset2 {
      LowFieldsFit(offset1, datacenterId1, workerId1, sequence1);
      PackNested(offset1, datacenterId1, workerId1, sequence1);
      PackNested(offset2, datacenterId2, workerId2, sequence2);
      ShiftLeftGap(offset1, offset2, 22);
    }
  }
}
