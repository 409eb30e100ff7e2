/**
 * The host–RPU hardware queues (`hpqm.c`): a queue is a pair of registers.
 * Writing a value to the enqueue register appends it; reading the dequeue
 * register yields the head (0 when the queue is empty), and writing that
 * value back to the dequeue register removes it.
 *
 * The register accesses a call makes are recorded in order; whether each
 * access succeeds, and the value a read returns, are parameters.
 */
module Hpqm {
  import opened Common

  /** `struct host_rpu_hpq`. */
  datatype Hpq = Hpq(enqueueAddr: u32, dequeueAddr: u32)

  /** One access to an RPU register. */
  datatype RegAccess = RegRead(addr: u32) | RegWrite(addr: u32, val: u32)

  /** The accesses `hal_rpu_hpq_dequeue` makes: the read of the dequeue
   *  register, then, when it succeeded with a non-zero value, the write of
   *  that value back to it. */
  function DequeueAccesses(q: Hpq, readOk: bool, v: u32): (acc: seq<RegAccess>)
    ensures 1 <= |acc| <= 2 && acc[0] == RegRead(q.dequeueAddr)
    ensures |acc| == 2 <==> readOk && v != 0
    ensures |acc| == 2 ==> acc[1] == RegWrite(q.dequeueAddr, v)
  {
    [RegRead(q.dequeueAddr)] + (if readOk && v != 0 then [RegWrite(q.dequeueAddr, v)] else [])
  }

  /** The device side of a queue: what a read of its dequeue register
   *  returns. Queued values are never 0. */
  function HeadValue(items: seq<u32>): u32
  {
    if |items| == 0 then 0 else items[0]
  }

  /** The effect of one access on the device queue `items` of `q`. */
  function Apply(q: Hpq, items: seq<u32>, a: RegAccess): seq<u32>
  {
    match a
    case RegRead(_) => items
    case RegWrite(addr, v) =>
      if addr == q.enqueueAddr then items + [v]
      else if addr == q.dequeueAddr && |items| > 0 && items[0] == v then items[1..]
      else items
  }

  function ApplyAll(q: Hpq, items: seq<u32>, acc: seq<RegAccess>): seq<u32>
    decreases |acc|
  {
    if |acc| == 0 then items else ApplyAll(q, Apply(q, items, acc[0]), acc[1..])
  }

  /**
   * A dequeue against the device: when the read succeeds it returns the
   * head and removes exactly that value, and an empty queue (read 0) is
   * left as it is; a failed read changes nothing.
   */
  lemma DequeuePopsHead(q: Hpq, items: seq<u32>, readOk: bool)
    requires q.enqueueAddr != q.dequeueAddr
    requires forall i :: 0 <= i < |items| ==> items[i] != 0
    ensures var after := ApplyAll(q, items, DequeueAccesses(q, readOk, HeadValue(items)));
      && (readOk && |items| > 0 ==> after == items[1..])
      && (!readOk || |items| == 0 ==> after == items)
  {
    var acc := DequeueAccesses(q, readOk, HeadValue(items));
    if readOk && |items| > 0 {
      var w := RegWrite(q.dequeueAddr, items[0]);
      assert acc == [RegRead(q.dequeueAddr), w];
      assert acc[1..] == [w] && [w][1..] == [];
      calc {
        ApplyAll(q, items, acc);
        ApplyAll(q, items, [w]);
        ApplyAll(q, items[1..], []);
      }
    } else {
      assert acc[1..] == [];
    }
  }

  /** An enqueue appends its value to the device queue. */
  lemma EnqueueAppends(q: Hpq, items: seq<u32>, v: u32)
    ensures ApplyAll(q, items, [RegWrite(q.enqueueAddr, v)]) == items + [v]
  {
    assert [RegWrite(q.enqueueAddr, v)][1..] == [];
  }

  /** The register accesses made so far through one queue pair. */
  class HpqPort {
    const hpq: Hpq
    var accesses: seq<RegAccess>

    constructor (hpq: Hpq)
      ensures this.hpq == hpq && accesses == []
    {
      this.hpq := hpq;
      accesses := [];
    }

    /** `hal_rpu_hpq_enqueue`: exactly one write, of `val` to the enqueue
     *  register; the result is that write's. */
    method Enqueue(val: u32, writeOk: bool) returns (status: Status)
      modifies this`accesses
      ensures accesses == old(accesses) + [RegWrite(hpq.enqueueAddr, val)]
      ensures status == Success <==> writeOk
    {
      accesses := accesses + [RegWrite(hpq.enqueueAddr, val)];
      status := if writeOk then Success else Fail;
    }

    /**
     * `hal_rpu_hpq_dequeue`, the read returning `readVal` (or failing): the
     * accesses are `DequeueAccesses`; a failed read is FAIL, a zero read is
     * SUCCESS with no write, a non-zero one is the write-back's result; the
     * value returned is always the value read.
     */
    method Dequeue(readOk: bool, readVal: u32, writeOk: bool) returns (status: Status, val: u32)
      modifies this`accesses
      ensures accesses == old(accesses) + DequeueAccesses(hpq, readOk, readVal)
      ensures val == readVal
      ensures status == Success <==> readOk && (readVal == 0 || writeOk)
    {
      accesses := accesses + [RegRead(hpq.dequeueAddr)];
      val := readVal;
      if !readOk {
        return Fail, val;
      }
      status := Success;
      if val != 0 {
        accesses := accesses + [RegWrite(hpq.dequeueAddr, val)];
        status := if writeOk then Success else Fail;
      }
    }
  }
}
