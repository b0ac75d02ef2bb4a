/** Staging slots, device memory and the asynchronous copy stream between them. */
module CopyStream {
  import opened Bytes

  /** Device bytes, each with the number of times it has been written. */
  datatype Memory = Memory(bytes: seq<Byte>, writes: seq<nat>)

  /** An enqueued copy reads its slot when it runs, not when it is enqueued. */
  datatype Copy = Copy(slot: nat, from: nat, amount: nat, to: nat)

  predicate Hits(c: Copy, p: int) {
    c.to <= p < c.to + c.amount
  }

  function ByteFrom(slots: seq<seq<Byte>>, c: Copy, p: int): Byte {
    if c.slot < |slots| && Hits(c, p) && c.from + (p - c.to) < |slots[c.slot]|
    then slots[c.slot][c.from + (p - c.to)]
    else 0
  }

  function Run(m: Memory, slots: seq<seq<Byte>>, c: Copy): (r: Memory)
    ensures |r.bytes| == |m.bytes| && |r.writes| == |m.writes|
  {
    Memory(seq(|m.bytes|, p requires 0 <= p < |m.bytes| => if Hits(c, p) then ByteFrom(slots, c, p) else m.bytes[p]),
           seq(|m.writes|, p requires 0 <= p < |m.writes| => if Hits(c, p) then m.writes[p] + 1 else m.writes[p]))
  }

  /** What memory will be once every queued copy has run. */
  function Drain(m: Memory, slots: seq<seq<Byte>>, queue: seq<Copy>): (r: Memory)
    ensures |r.bytes| == |m.bytes| && |r.writes| == |m.writes|
  {
    if queue == [] then m else Run(Drain(m, slots, queue[..|queue| - 1]), slots, queue[|queue| - 1])
  }

  lemma {:induction false} DrainHead(m: Memory, slots: seq<seq<Byte>>, queue: seq<Copy>)
    requires queue != []
    ensures Drain(m, slots, queue) == Drain(Run(m, slots, queue[0]), slots, queue[1..])
  {
    var n := |queue| - 1;
    if n > 0 {
      DrainHead(m, slots, queue[..n]);
      assert queue[..n][1..] == queue[1..][..n - 1];
    }
  }

  predicate Idle(queue: seq<Copy>, slot: nat) {
    forall k | 0 <= k < |queue| :: queue[k].slot != slot
  }

  /** Filling a slot that no queued copy reads does not change the outcome. */
  lemma {:induction false} DrainRefill(m: Memory, slots: seq<seq<Byte>>, queue: seq<Copy>, slot: nat, fill: seq<Byte>)
    requires slot < |slots| && Idle(queue, slot)
    ensures Drain(m, slots[slot := fill], queue) == Drain(m, slots, queue)
  {
    if queue != [] {
      DrainRefill(m, slots, queue[..|queue| - 1], slot, fill);
      var c := queue[|queue| - 1];
      assert forall p :: ByteFrom(slots[slot := fill], c, p) == ByteFrom(slots, c, p);
    }
  }

  /** A load stream with its ring of slots; `issued` counts the copies ever enqueued. */
  class Stage {
    var memory: Memory
    var slots: seq<seq<Byte>>
    var queue: seq<Copy>
    var issued: nat
    var events: seq<nat>
    var pending: seq<bool>
    const slotBytes: nat

    /** Memory once the stream is idle. */
    ghost function Outcome(): Memory
      reads this
    {
      Drain(memory, slots, queue)
    }

    /** Every queued copy lies in bounds, and outside the slot being filled it comes before its slot's event. */
    ghost predicate Valid(filling: int)
      reads this
    {
      && |events| == |pending| == |slots| && |queue| <= issued && |memory.bytes| == |memory.writes|
      && (forall s | 0 <= s < |slots| :: |slots[s]| == slotBytes && events[s] <= issued)
      && (forall k | 0 <= k < |queue| ::
            && queue[k].slot < |slots| && queue[k].from + queue[k].amount <= slotBytes
            && queue[k].to + queue[k].amount <= |memory.bytes|
            && (queue[k].slot != filling ==>
                  pending[queue[k].slot] && issued - |queue| + k < events[queue[k].slot]))
    }

    constructor (bytes: seq<Byte>, slotBytes: nat, slotCount: nat)
      ensures Valid(-1) && queue == [] && |slots| == slotCount && this.slotBytes == slotBytes
      ensures Outcome() == Memory(bytes, seq(|bytes|, i => 0))
    {
      this.slotBytes := slotBytes;
      memory, queue, issued := Memory(bytes, seq(|bytes|, i => 0)), [], 0;
      slots := seq(slotCount, s => seq(slotBytes, i => 0));
      events, pending := seq(slotCount, s => 0), seq(slotCount, s => false);
    }

    /** The stream runs its oldest copy. */
    method RunOldest(ghost filling: int)
      requires Valid(filling) && queue != []
      modifies `memory, `queue
      ensures Valid(filling) && Outcome() == old(Outcome()) && queue == old(queue)[1..]
    {
      DrainHead(memory, slots, queue);
      memory := Run(memory, slots, queue[0]);
      queue := queue[1..];
    }

    /** Time passes: the stream runs any number of its oldest copies. */
    method Elapse(ghost filling: int)
      requires Valid(filling)
      modifies `memory, `queue
      ensures Valid(filling) && Outcome() == old(Outcome())
      ensures |queue| <= |old(queue)| && queue == old(queue)[|old(queue)| - |queue|..]
    {
      var steps: nat := *;
      while steps > 0 && queue != []
        invariant Valid(filling) && Outcome() == old(Outcome())
        invariant |queue| <= |old(queue)| && queue == old(queue)[|old(queue)| - |queue|..]
        decreases |queue|
      {
        RunOldest(filling);
        steps := *;
      }
    }

    /** `Slot::wait`: afterwards no queued copy reads the slot. */
    method Wait(slot: nat)
      requires Valid(-1) && slot < |slots|
      modifies `memory, `queue, `pending
      ensures Valid(-1) && Outcome() == old(Outcome()) && Idle(queue, slot) && !pending[slot]
    {
      if pending[slot] {
        while issued - |queue| < events[slot]
          invariant Valid(-1) && Outcome() == old(Outcome()) && pending == old(pending)
          decreases |queue|
        {
          RunOldest(-1);
        }
        assert Idle(queue, slot);
        pending := pending[slot := false];
      }
    }

    /** Some time later the slot has been waited for. */
    method AwaitSlot(slot: nat)
      requires Valid(-1) && slot < |slots|
      modifies `memory, `queue, `pending
      ensures Valid(-1) && Outcome() == old(Outcome()) && Idle(queue, slot)
    {
      Elapse(-1);
      Wait(slot);
    }

    /** A direct read lands in an idle slot. */
    method Fill(slot: nat, data: seq<Byte>)
      requires Valid(-1) && slot < |slots| && Idle(queue, slot) && |data| <= slotBytes
      modifies `slots
      ensures Valid(slot) && Outcome() == old(Outcome()) && |slots| == |old(slots)| && data <= slots[slot]
    {
      DrainRefill(memory, slots, queue, slot, data + slots[slot][|data|..]);
      slots := slots[slot := data + slots[slot][|data|..]];
    }

    method Enqueue(c: Copy)
      requires Valid(c.slot) && c.slot < |slots| && c.from + c.amount <= slotBytes && c.to + c.amount <= |memory.bytes|
      modifies `queue, `issued
      ensures Valid(c.slot) && Outcome() == Run(old(Outcome()), slots, c)
    {
      assert (queue + [c])[..|queue|] == queue;
      queue, issued := queue + [c], issued + 1;
    }

    /** `cudaEventRecord` after the copies of a slot. */
    method Record(slot: nat)
      requires Valid(slot) && slot < |slots|
      modifies `events, `pending
      ensures Valid(-1) && Outcome() == old(Outcome())
    {
      events, pending := events[slot := issued], pending[slot := true];
    }

    /** `cudaStreamSynchronize`. */
    method Synchronize()
      requires Valid(-1)
      modifies `memory, `queue
      ensures Valid(-1) && queue == [] && memory == old(Outcome())
    {
      while queue != []
        invariant Valid(-1) && Outcome() == old(Outcome())
        decreases |queue|
      {
        RunOldest(-1);
      }
    }
  }
}
