/** The in-memory row buffer: two parallel lists and the time of the last drain. */
module Batcher {
  datatype BatchOffset = BatchOffset(topic: string, partition: int, offset: nat)

  function Min(a: nat, b: nat): nat {
    if a < b then a else b
  }

  /** `list.splice(-count, count)`: a start before the beginning is clamped, and -0 is 0. */
  function SpliceTail<T>(list: seq<T>, count: nat): (r: seq<T>)
    ensures r == list[..|list| - Min(count, |list|)]
  {
    var start := if count == 0 then 0 else |list| - Min(count, |list|);
    var deleted := Min(count, |list| - start);
    list[..start] + list[start + deleted..]
  }

  class Batcher<T> {
    const batchSize: nat
    const batchTimeoutMs: int
    var rows: seq<T>
    var offsets: seq<BatchOffset>
    var lastDrainAt: int

    /** Row `i` came from offset `i`. */
    ghost predicate Valid()
      reads this
    {
      |rows| == |offsets|
    }

    constructor (batchSize: nat, batchTimeoutMs: int, now: int)
      ensures this.batchSize == batchSize && this.batchTimeoutMs == batchTimeoutMs
      ensures Valid() && rows == [] && lastDrainAt == now
    {
      this.batchSize, this.batchTimeoutMs := batchSize, batchTimeoutMs;
      rows, offsets, lastDrainAt := [], [], now;
    }

    method Add(row: T, offset: nat, partition: int, topic: string)
      requires Valid()
      modifies this
      ensures Valid() && lastDrainAt == old(lastDrainAt)
      ensures rows == old(rows) + [row] && offsets == old(offsets) + [BatchOffset(topic, partition, offset)]
    {
      rows := rows + [row];
      offsets := offsets + [BatchOffset(topic, partition, offset)];
    }

    predicate IsEmpty()
      reads this
    {
      |rows| == 0
    }

    predicate IsSizeFull()
      reads this
    {
      |rows| >= batchSize
    }

    predicate IsTimeExpired(now: int)
      reads this
    {
      |rows| > 0 && now - lastDrainAt >= batchTimeoutMs
    }

    method Drain(now: int) returns (drained: seq<T>, from: seq<BatchOffset>)
      requires Valid()
      modifies this
      ensures Valid() && rows == [] && lastDrainAt == now
      ensures drained == old(rows) && from == old(offsets) && |drained| == |from|
    {
      drained, from := rows, offsets;
      rows, offsets := [], [];
      lastDrainAt := now;
    }

    method Rollback(count: nat)
      requires Valid()
      modifies this
      ensures Valid() && lastDrainAt == old(lastDrainAt)
      ensures rows == old(rows)[..|old(rows)| - Min(count, |old(rows)|)]
      ensures offsets == old(offsets)[..|old(rows)| - Min(count, |old(rows)|)]
    {
      rows := SpliceTail(rows, count);
      offsets := SpliceTail(offsets, count);
    }
  }
}
