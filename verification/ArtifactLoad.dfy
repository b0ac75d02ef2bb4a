/** Carrying out a binder's plan: device storage from a bump arena, then the direct load. */
module ArtifactLoad {
  import opened Wrappers
  import opened Alignment
  import opened ObjectTable
  import opened Binder
  import opened Bytes
  import opened CopyStream
  import CR = CopyRanges
  import M = Materializer

  class DeviceArena {
    const base: nat
    const capacity: nat
    var used: nat

    constructor (base: nat, capacity: nat)
      ensures this.base == base && this.capacity == capacity && used == 0
    {
      this.base, this.capacity, used := base, capacity, 0;
    }

    /** `alloc_bytes`: an offset from the base such that the address is aligned; `None` is an exception. */
    method AllocBytes(bytes: nat, alignment: nat) returns (offset: Option<nat>)
      requires alignment > 0
      modifies this
      ensures var at := AlignUp(base + old(used), alignment) - base;
              if bytes == 0 || at + bytes > capacity then offset.None? && used == old(used)
              else offset == Some(at) && used == at + bytes
    {
      if bytes == 0 { return None; }
      var at := AlignUp(base + used, alignment) - base;
      if at + bytes > capacity { return None; }
      used := at + bytes;
      return Some(at);
    }
  }

  /** An opened artifact: its bytes, its directory, and where the payload area starts. */
  datatype Artifact = Artifact(file: seq<Byte>, payloadStart: nat, objects: seq<Object>)

  ghost predicate Opened(a: Artifact) {
    a.payloadStart <= |a.file| && TableOk(a.objects, |a.file| - a.payloadStart)
  }

  function Begin(a: Artifact, handle: nat): nat
    requires handle < |a.objects|
  {
    a.payloadStart + a.objects[handle].offset
  }

  function RangeOf(a: Artifact, p: Placement): CR.CopyRange
    requires p.handle < |a.objects|
  {
    CR.CopyRange(Begin(a, p.handle), Begin(a, p.handle) + p.bytes, p.offset)
  }

  ghost predicate RangesOf(a: Artifact, device: seq<Placement>, rs: seq<CR.CopyRange>) {
    |rs| == |device| && forall i | 0 <= i < |device| :: device[i].handle < |a.objects| && rs[i] == RangeOf(a, device[i])
  }

  /** The ranges that a plan loads. */
  ghost function RangeList(payloadStart: nat, objects: seq<Object>, device: seq<Placement>): (rs: seq<CR.CopyRange>)
    requires Places(objects, device)
    ensures |rs| == |device|
  {
    seq(|device|, i requires 0 <= i < |device| => RangeOf(Artifact([], payloadStart, objects), device[i]))
  }

  lemma RangesAreList(a: Artifact, device: seq<Placement>, rs: seq<CR.CopyRange>)
    requires Places(a.objects, device) && RangesOf(a, device, rs)
    ensures rs == RangeList(a.payloadStart, a.objects, device)
  {
  }

  // ---- The ranges of a plan ----

  lemma PlacementFits(a: Artifact, plan: Plan, rs: seq<CR.CopyRange>, i: nat)
    requires Packed(plan.device) && plan.capacity == EndOf(plan.device) && RangesOf(a, plan.device, rs) && i < |rs|
    ensures rs[i].begin < rs[i].end && rs[i].dest + (rs[i].end - rs[i].begin) <= plan.capacity
    ensures forall j, p | 0 <= j < i && CR.Covers(rs[i], p) :: !CR.Covers(rs[j], p)
  {
    PackedApart(plan.device, i);
  }

  lemma PlanFitsDevice(a: Artifact, plan: Plan, rs: seq<CR.CopyRange>)
    requires Packed(plan.device) && plan.capacity == EndOf(plan.device) && RangesOf(a, plan.device, rs)
    ensures CR.DestinationsApart(rs, plan.capacity)
  {
    forall i | 0 <= i < |rs|
      ensures rs[i].begin < rs[i].end && rs[i].dest + (rs[i].end - rs[i].begin) <= plan.capacity
      ensures forall j, p | 0 <= j < i && CR.Covers(rs[i], p) :: !CR.Covers(rs[j], p)
    {
      PlacementFits(a, plan, rs, i);
    }
    forall q, r, p | q in rs && r in rs && CR.Covers(q, p) && CR.Covers(r, p)
      ensures q == r
    {
      var i :| 0 <= i < |rs| && rs[i] == q;
      var j :| 0 <= j < |rs| && rs[j] == r;
    }
  }

  lemma PlanInFile(a: Artifact, plan: Plan, rs: seq<CR.CopyRange>, i: nat)
    requires Opened(a) && PlanOk(a.objects, plan) && RangesOf(a, plan.device, rs) && i < |rs|
    ensures rs[i].end <= |a.file|
    ensures forall j | 0 <= j < |rs| && j != i :: CR.Separate(rs[i], rs[j])
  {
    var o := plan.device[i].handle;
    assert ObjectOk(a.objects[o], |a.file| - a.payloadStart);
    forall j | 0 <= j < |rs| && j != i
      ensures CR.Separate(rs[i], rs[j])
    {
      var u := plan.device[j].handle;
      assert u != o;
      assert if o < u then End(a.objects[o]) <= a.objects[u].offset else End(a.objects[u]) <= a.objects[o].offset;
    }
  }

  /** Pairwise separate ranges are disjoint. */
  lemma {:induction false} SeparateDisjoint(rs: seq<CR.CopyRange>)
    requires forall i, j | 0 <= i < j < |rs| :: CR.Separate(rs[j], rs[i])
    ensures CR.Disjoint(rs)
  {
    if rs != [] {
      SeparateDisjoint(rs[1..]);
      forall q | q in rs[1..]
        ensures CR.Separate(q, rs[0])
      {
        var j :| 0 <= j < |rs| - 1 && rs[1..][j] == q;
        assert CR.Separate(rs[j + 1], rs[0]);
      }
    }
  }

  /** Over an aligned base the arena hands out the offset that the plan computed. */
  method AllocatePlanned(arena: DeviceArena, p: Placement) returns (at: Option<nat>)
    requires arena.base % TENSOR_ALIGNMENT == 0 && p.alignment == TENSOR_ALIGNMENT && p.bytes > 0
    requires p.offset == AlignUp(arena.used, TENSOR_ALIGNMENT) && p.offset + p.bytes <= arena.capacity
    modifies arena
    ensures at == Some(p.offset) && arena.used == p.offset + p.bytes
  {
    AlignUpShift(arena.base, arena.used, TENSOR_ALIGNMENT);
    at := arena.AllocBytes(p.bytes, p.alignment);
  }

  /** Allocates the placements in order; every offset is the planned one, so no plan is refused. */
  method Allocate(a: Artifact, plan: Plan, base: nat) returns (matches: bool, rs: seq<CR.CopyRange>)
    requires PlanOk(a.objects, plan) && base % TENSOR_ALIGNMENT == 0
    ensures matches && RangesOf(a, plan.device, rs)
  {
    var arena := new DeviceArena(base, plan.capacity);
    rs, matches := [], true;
    for i := 0 to |plan.device|
      invariant matches && |rs| == i
      invariant forall j | 0 <= j < i :: plan.device[j].handle < |a.objects| && rs[j] == RangeOf(a, plan.device[j])
      invariant arena.used == EndOf(plan.device[..i])
    {
      var p := plan.device[i];
      PackedPrefix(plan.device, i);
      var at := AllocatePlanned(arena, p);
      matches := matches && at == Some(p.offset) && a.objects[p.handle].bytes == p.bytes;
      rs := rs + [RangeOf(a, p)];
    }
  }

  lemma {:induction false} PackedPrefix(device: seq<Placement>, i: nat)
    requires Packed(device) && i < |device|
    ensures Packed(device[..i]) && Packed(device[..i + 1]) && EndOf(device[..i + 1]) <= EndOf(device)
    ensures device[i].offset == AlignUp(EndOf(device[..i]), TENSOR_ALIGNMENT)
    ensures device[i].alignment == TENSOR_ALIGNMENT && device[i].bytes > 0
  {
    var n := |device| - 1;
    if i < n {
      assert device[..n][..i] == device[..i] && device[..n][..i + 1] == device[..i + 1];
      PackedPrefix(device[..n], i);
    } else {
      assert device[..i + 1] == device;
    }
  }

  datatype LoadError = NoBacking | PlanMismatch | TransferFailed(why: M.Failure)
  datatype Outcome = Refused(error: LoadError) | Loaded(memory: Memory)

  /** Device bytes `[offset, offset + bytes)` are the object's payload and were each written once. */
  ghost predicate Placed(a: Artifact, p: Placement, m: Memory)
    requires p.handle < |a.objects|
  {
    && p.offset + p.bytes <= |m.bytes| == |m.writes| && Begin(a, p.handle) + p.bytes <= |a.file|
    && m.bytes[p.offset..p.offset + p.bytes] == a.file[Begin(a, p.handle)..Begin(a, p.handle) + p.bytes]
    && forall x | p.offset <= x < p.offset + p.bytes :: m.writes[x] == 1
  }

  ghost predicate InPlacement(device: seq<Placement>, x: int) {
    exists i :: 0 <= i < |device| && device[i].offset <= x < device[i].offset + device[i].bytes
  }

  lemma DeliveredPlaced(a: Artifact, plan: Plan, rs: seq<CR.CopyRange>, initial: seq<Byte>, m: Memory, i: nat)
    requires Opened(a) && PlanOk(a.objects, plan) && RangesOf(a, plan.device, rs) && i < |rs|
    requires |initial| == plan.capacity && CR.Delivered(rs, a.file, initial, m)
    ensures Placed(a, plan.device[i], m)
  {
    PackedApart(plan.device, i);
    PlanInFile(a, plan, rs, i);
    RangeArrived(rs, a.file, initial, m, rs[i]);
  }

  lemma RangeArrived(rs: seq<CR.CopyRange>, file: seq<Byte>, initial: seq<Byte>, m: Memory, r: CR.CopyRange)
    requires CR.Delivered(rs, file, initial, m) && r in rs
    requires r.begin <= r.end <= |file| && r.dest + (r.end - r.begin) <= |initial|
    ensures m.bytes[r.dest..r.dest + (r.end - r.begin)] == file[r.begin..r.end]
    ensures forall x | r.dest <= x < r.dest + (r.end - r.begin) :: m.writes[x] == 1
  {
    forall x | r.dest <= x < r.dest + (r.end - r.begin)
      ensures m.bytes[x] == file[r.begin + (x - r.dest)] && m.writes[x] == 1
    {
      assert CR.Covers(r, x);
      assert CR.Arrived(r, x, file, m);
    }
  }

  lemma DeliveredElsewhere(a: Artifact, plan: Plan, rs: seq<CR.CopyRange>, initial: seq<Byte>, m: Memory, x: nat)
    requires RangesOf(a, plan.device, rs) && x < |initial| && !InPlacement(plan.device, x)
    requires CR.Delivered(rs, a.file, initial, m)
    ensures m.bytes[x] == initial[x] && m.writes[x] == 0
  {
    forall r | r in rs
      ensures !CR.Covers(r, x)
    {
      var i :| 0 <= i < |rs| && rs[i] == r;
    }
  }

  /** The ranges of a plan pass every check that comes before the load. */
  method PlanRanges(a: Artifact, plan: Plan, base: nat) returns (matches: bool, rs: seq<CR.CopyRange>)
    requires Opened(a) && PlanOk(a.objects, plan) && base % TENSOR_ALIGNMENT == 0
    ensures matches && RangesOf(a, plan.device, rs)
    ensures CR.DestinationsApart(rs, plan.capacity) && CR.Disjoint(rs) && forall r | r in rs :: r.end <= |a.file|
  {
    matches, rs := Allocate(a, plan, base);
    PlanFitsDevice(a, plan, rs);
    forall i | 0 <= i < |rs|
      ensures rs[i].end <= |a.file| && forall j | 0 <= j < |rs| && j != i :: CR.Separate(rs[i], rs[j])
    {
      PlanInFile(a, plan, rs, i);
    }
    SeparateDisjoint(rs);
  }

  /** Every placed tensor arrived, and every other device byte is as it was. */
  ghost predicate Complete(a: Artifact, plan: Plan, initial: seq<Byte>, m: Memory)
    requires |initial| == plan.capacity && Places(a.objects, plan.device)
  {
    && |m.bytes| == |m.writes| == plan.capacity
    && (forall i | 0 <= i < |plan.device| :: Placed(a, plan.device[i], m))
    && (forall x | 0 <= x < plan.capacity && !InPlacement(plan.device, x) :: m.bytes[x] == initial[x] && m.writes[x] == 0)
  }

  lemma DeliveredComplete(a: Artifact, plan: Plan, rs: seq<CR.CopyRange>, initial: seq<Byte>, m: Memory)
    requires Opened(a) && PlanOk(a.objects, plan) && RangesOf(a, plan.device, rs)
    requires |initial| == plan.capacity && CR.Delivered(rs, a.file, initial, m)
    ensures Complete(a, plan, initial, m)
  {
    forall i | 0 <= i < |plan.device| ensures Placed(a, plan.device[i], m) {
      DeliveredPlaced(a, plan, rs, initial, m, i);
    }
    forall x | 0 <= x < plan.capacity && !InPlacement(plan.device, x)
      ensures m.bytes[x] == initial[x] && m.writes[x] == 0
    {
      DeliveredElsewhere(a, plan, rs, initial, m, x);
    }
  }

  /** `materialize` of a binder's plan: it loads if and only if there is a tensor and every read delivers what it must. */
  method Materialize(a: Artifact, plan: Plan, base: nat, initial: seq<Byte>, supply: nat -> nat) returns (out: Outcome)
    requires Opened(a) && PlanOk(a.objects, plan) && base % TENSOR_ALIGNMENT == 0 && |initial| == plan.capacity
    ensures out.Refused? ==> out.error == (if plan.device == [] then NoBacking else TransferFailed(M.ShortRead))
    ensures out.Loaded? <==> plan.device != [] && M.Enough(RangeList(a.payloadStart, a.objects, plan.device), supply)
    ensures out.Loaded? ==> Complete(a, plan, initial, out.memory)
  {
    if plan.capacity == 0 { return Refused(NoBacking); }
    var matches, rs := PlanRanges(a, plan, base);
    var moved := M.Load(a.file, rs, initial, supply);
    out := if !matches then Refused(PlanMismatch) else
           if moved.Failed? then Refused(TransferFailed(moved.why)) else Loaded(moved.memory);
    RangesAreList(a, plan.device, rs);
    if moved.Done? { DeliveredComplete(a, plan, rs, initial, moved.memory); }
  }
}
