/**
 * The 32-bit token queue over a single-producer single-consumer packet
 * buffer (`spsc_qm.c`). The packet buffer is an abstract bounded FIFO: a
 * 4-byte allocation succeeds while fewer than `capacity` tokens are queued.
 */
module Spsc {
  import opened Common

  /** `SPSC32_push` on the queue contents: appended exactly when there is
   *  room, otherwise refused and unchanged. */
  function PushSpec(items: seq<u32>, capacity: nat, v: u32): (r: (seq<u32>, bool))
    ensures r.1 <==> |items| < capacity
    ensures r.0 == if r.1 then items + [v] else items
  {
    if |items| < capacity then (items + [v], true) else (items, false)
  }

  /** `SPSC32_pop` on the queue contents: the oldest token, removed, or
   *  nothing from an empty queue. */
  function PopSpec(items: seq<u32>): (r: (seq<u32>, Option<u32>))
    ensures r.1.None? <==> |items| == 0
    ensures r.1.Some? ==> [r.1.value] + r.0 == items
    ensures r.1.None? ==> r.0 == items
  {
    if |items| == 0 then (items, None) else (items[1..], Some(items[0]))
  }

  /** An operation on the queue. */
  datatype QOp = Push(v: u32) | Pop

  /**
   * A sequence of operations from contents `items`: the final contents, the
   * tokens the pushes got in, and the tokens the pops got out, in order.
   */
  function Run(items: seq<u32>, capacity: nat, ops: seq<QOp>): (r: (seq<u32>, seq<u32>, seq<u32>))
    decreases |ops|
  {
    if |ops| == 0 then (items, [], [])
    else
      match ops[0]
      case Push(v) =>
        var (q, ok) := PushSpec(items, capacity, v);
        var (q', ins, outs) := Run(q, capacity, ops[1..]);
        (q', (if ok then [v] else []) + ins, outs)
      case Pop =>
        var (q, out) := PopSpec(items);
        var (q', ins, outs) := Run(q, capacity, ops[1..]);
        (q', ins, (if out.Some? then [out.value] else []) + outs)
  }

  /**
   * FIFO order for any interleaving of pushes and pops: what was queued
   * followed by what got in is exactly what came out followed by what is
   * left, so the tokens come out in the order they went in.
   */
  lemma {:induction false} RunFifo(items: seq<u32>, capacity: nat, ops: seq<QOp>)
    ensures var r := Run(items, capacity, ops); items + r.1 == r.2 + r.0
    decreases |ops|
  {
    if |ops| > 0 {
      match ops[0]
      case Push(v) =>
        var (q, ok) := PushSpec(items, capacity, v);
        RunFifo(q, capacity, ops[1..]);
        var (q', ins, outs) := Run(q, capacity, ops[1..]);
        if ok {
          assert Run(items, capacity, ops) == (q', [v] + ins, outs);
          assert items + ([v] + ins) == (items + [v]) + ins;
        } else {
          assert Run(items, capacity, ops) == (q', ins, outs) by {
            assert [] + ins == ins;
          }
        }
      case Pop =>
        var (q, out) := PopSpec(items);
        RunFifo(q, capacity, ops[1..]);
        var (q', ins, outs) := Run(q, capacity, ops[1..]);
        if out.Some? {
          assert Run(items, capacity, ops) == (q', ins, [out.value] + outs);
          assert items + ins == [out.value] + (q + ins);
        } else {
          assert Run(items, capacity, ops) == (q', ins, outs) by {
            assert [] + outs == outs;
          }
        }
    }
  }

  /** The queue never holds more than its capacity. */
  lemma {:induction false} RunBounded(items: seq<u32>, capacity: nat, ops: seq<QOp>)
    requires |items| <= capacity
    ensures |Run(items, capacity, ops).0| <= capacity
    decreases |ops|
  {
    if |ops| > 0 {
      match ops[0]
      case Push(v) => RunBounded(PushSpec(items, capacity, v).0, capacity, ops[1..]);
      case Pop => RunBounded(PopSpec(items).0, capacity, ops[1..]);
    }
  }

  /** `SPSC_QUEUE_T` seen through the `SPSC32_*` calls. */
  class Spsc32 {
    const capacity: nat
    var items: seq<u32>

    ghost predicate Valid()
      reads this
    {
      |items| <= capacity
    }

    /** `SPSC32_init`: an empty queue. */
    constructor (capacity: nat)
      ensures Valid() && this.capacity == capacity && items == []
    {
      this.capacity := capacity;
      items := [];
    }

    /** `SPSC32_push`. */
    method Push(v: u32) returns (ok: bool)
      requires Valid()
      modifies this`items
      ensures Valid() && (items, ok) == PushSpec(old(items), capacity, v)
    {
      if |items| >= capacity {
        return false;
      }
      items := items + [v];
      ok := true;
    }

    /** `SPSC32_pop`. */
    method Pop() returns (out: Option<u32>)
      requires Valid()
      modifies this`items
      ensures Valid() && (items, out) == PopSpec(old(items))
    {
      if |items| == 0 {
        return None;
      }
      out := Some(items[0]);
      items := items[1..];
    }

    /** `SPSC32_readHead`: the oldest token, left in place. */
    method ReadHead() returns (out: Option<u32>)
      ensures out == PopSpec(items).1
    {
      if |items| == 0 {
        return None;
      }
      out := Some(items[0]);
    }

    /** `SPSC32_isEmpty`: nothing can be claimed. */
    method IsEmpty() returns (b: bool)
      ensures b <==> PopSpec(items).1.None?
    {
      b := |items| == 0;
    }

    /** `SPSC32_isFull`: a 4-byte allocation would fail. */
    method IsFull() returns (b: bool)
      ensures b <==> !PushSpec(items, capacity, 0).1
    {
      b := |items| >= capacity;
    }
  }
}
