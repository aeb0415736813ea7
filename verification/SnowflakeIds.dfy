/** The 64-bit layout of a Snowflake ID: 41 bits of time, 5 of datacenter, 5 of worker, 12 of sequence. */
module SnowflakeIds {
  import opened IntegerBits

  const WORKER_ID_BITS := 5
  const DATACENTER_ID_BITS := 5
  const SEQUENCE_BITS := 12

  const MAX_WORKER_ID := 31
  const MAX_DATACENTER_ID := 31
  const SEQUENCE_MASK := 4095

  const WORKER_ID_SHIFT := 12
  const DATACENTER_ID_SHIFT := 17
  const TIMESTAMP_LEFT_SHIFT := 22

  const EPOCH: int := 1262275200000
  const CLOCK_BACKWARD_TOLERANCE_MS: int := 10_000

  lemma LayoutConstants()
    ensures Pow2(5) == 32 && Pow2(10) == 1024 && Pow2(12) == 4096 && Pow2(17) == 131072 && Pow2(22) == 4194304
    ensures MAX_WORKER_ID == Pow2(WORKER_ID_BITS) - 1
    ensures MAX_DATACENTER_ID == Pow2(DATACENTER_ID_BITS) - 1
    ensures SEQUENCE_MASK == Pow2(SEQUENCE_BITS) - 1
    ensures DATACENTER_ID_SHIFT == SEQUENCE_BITS + WORKER_ID_BITS
    ensures TIMESTAMP_LEFT_SHIFT == SEQUENCE_BITS + WORKER_ID_BITS + DATACENTER_ID_BITS
  {
  }

  lemma SequenceMaskIsMod(x: int)
    ensures And(x, SEQUENCE_MASK) == x % 4096
  {
    assert Pow2(12) == 4096;
    AndMaskIsMod(x, 12);
  }

  datatype Fields = Fields(timestamp: int, datacenterId: int, workerId: int, sequence: int) {
    predicate InRange() {
      0 <= datacenterId <= MAX_DATACENTER_ID && 0 <= workerId <= MAX_WORKER_ID && 0 <= sequence <= SEQUENCE_MASK
    }
  }

  function Pack(f: Fields): int {
    Or(Or(Or(Shl(f.timestamp - EPOCH, TIMESTAMP_LEFT_SHIFT),
             Shl(f.datacenterId, DATACENTER_ID_SHIFT)),
          Shl(f.workerId, WORKER_ID_SHIFT)),
       f.sequence)
  }

  function Parse(id: int): Fields {
    Fields(Shr(id, TIMESTAMP_LEFT_SHIFT) + EPOCH,
           And(Shr(id, DATACENTER_ID_SHIFT), MAX_DATACENTER_ID),
           And(Shr(id, WORKER_ID_SHIFT), MAX_WORKER_ID),
           And(id, SEQUENCE_MASK))
  }

  /** The fields as digits of one number: what the bit operations are meant to compute. */
  function Positional(f: Fields): int {
    (f.timestamp - EPOCH) * 4194304 + f.datacenterId * 131072 + f.workerId * 4096 + f.sequence
  }

  lemma AppendDatacenter(t: int, d: int)
    requires 0 <= d < 32
    ensures Or(Shl(t, 22), Shl(d, 17)) == Shl(t * 32 + d, 17)
  {
    LayoutConstants();
    OrOfDisjointAdds(t, 22, Shl(d, 17));
  }

  lemma AppendWorker(td: int, w: int)
    requires 0 <= w < 32
    ensures Or(Shl(td, 17), Shl(w, 12)) == Shl(td * 32 + w, 12)
  {
    LayoutConstants();
    OrOfDisjointAdds(td, 17, Shl(w, 12));
  }

  lemma AppendSequence(tdw: int, q: int)
    requires 0 <= q < 4096
    ensures Or(Shl(tdw, 12), q) == tdw * 4096 + q
  {
    LayoutConstants();
    OrOfDisjointAdds(tdw, 12, q);
  }

  lemma PackInThreeSteps(f: Fields, td: int, tdw: int)
    requires f.InRange()
    requires td == (f.timestamp - EPOCH) * 32 + f.datacenterId
    requires tdw == td * 32 + f.workerId
    ensures Pack(f) == Or(Shl(tdw, 12), f.sequence)
  {
    var t := f.timestamp - EPOCH;
    AppendDatacenter(t, f.datacenterId);
    AppendWorker(td, f.workerId);
  }

  lemma PackIsPositional(f: Fields)
    requires f.InRange()
    ensures Pack(f) == Positional(f)
  {
    var td := (f.timestamp - EPOCH) * 32 + f.datacenterId;
    var tdw := td * 32 + f.workerId;
    PackInThreeSteps(f, td, tdw);
    AppendSequence(tdw, f.sequence);
    assert tdw * 4096 + f.sequence == Positional(f);
  }

  lemma DigitsRecovered(t: int, d: int, w: int, q: int)
    requires 0 <= d < 32 && 0 <= w < 32 && 0 <= q < 4096
    ensures var id := t * 4194304 + d * 131072 + w * 4096 + q;
            id / 4194304 == t && (id / 131072) % 32 == d && (id / 4096) % 32 == w && id % 4096 == q
  {
    var td := t * 32 + d;
    var tdw := td * 32 + w;
    var id := tdw * 4096 + q;
    assert id / 4096 == tdw;
    assert id / 131072 == td;
  }

  /** Every ID gives back the fields it was made from, also one whose clock reads before the epoch. */
  lemma ParseInvertsPack(f: Fields)
    requires f.InRange()
    ensures Parse(Pack(f)) == f
  {
    PackIsPositional(f);
    DigitsRecovered(f.timestamp - EPOCH, f.datacenterId, f.workerId, f.sequence);
    ParseReadsDigits(Pack(f));
  }

  lemma ParseReadsDigits(id: int)
    ensures Parse(id) == Fields(id / 4194304 + EPOCH, (id / 131072) % 32, (id / 4096) % 32, id % 4096)
  {
    LayoutConstants();
    AndMaskIsMod(id, 12);
    AndMaskIsMod(Shr(id, 12), 5);
    AndMaskIsMod(Shr(id, 17), 5);
  }

  lemma PackIsInjective(f: Fields, g: Fields)
    requires f.InRange() && g.InRange()
    requires Pack(f) == Pack(g)
    ensures f == g
  {
    ParseInvertsPack(f);
    ParseInvertsPack(g);
  }

  /** An ID fits a signed 64-bit column exactly while its clock is within 2^41 ms of the epoch. */
  lemma FitsSignedColumnIff(f: Fields)
    requires f.InRange()
    ensures 0 <= Pack(f) < 0x8000_0000_0000_0000 <==> EPOCH <= f.timestamp < EPOCH + 0x200_0000_0000
  {
    PackIsPositional(f);
  }

  /** On one node the ID order is the order of (timestamp, sequence). */
  lemma PackOrder(f: Fields, g: Fields)
    requires f.InRange() && g.InRange()
    requires f.datacenterId == g.datacenterId && f.workerId == g.workerId
    ensures Pack(f) < Pack(g) <==> f.timestamp < g.timestamp || (f.timestamp == g.timestamp && f.sequence < g.sequence)
  {
    PackIsPositional(f);
    PackIsPositional(g);
  }
}
