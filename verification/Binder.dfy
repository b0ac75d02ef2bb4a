/** Binding the objects of an artifact to a target, and planning where their bytes go. */
module Binder {
  import opened Wrappers
  import opened Alignment
  import opened Bytes
  import opened ObjectTable

  datatype Error =
    | NoError | Missing | BoundTwice | WrongKind | ContractMismatch | BadHandle | PlacedTwice | SizeOverflow
    | NotConsumed | NotPlaced

  datatype Placement = Placement(handle: nat, offset: nat, bytes: nat, alignment: nat)

  datatype Plan = Plan(device: seq<Placement>, capacity: nat, host: seq<nat>)

  // ---- What a plan promises ----

  function EndOf(device: seq<Placement>): nat {
    if device == [] then 0 else device[|device| - 1].offset + device[|device| - 1].bytes
  }

  /** Tensors follow each other from offset 0, each at the next multiple of its alignment. */
  ghost predicate Packed(device: seq<Placement>) {
    device == [] ||
    var front, last := device[..|device| - 1], device[|device| - 1];
    && Packed(front) && last.alignment == TENSOR_ALIGNMENT && last.bytes > 0
    && last.offset == AlignUp(EndOf(front), TENSOR_ALIGNMENT)
  }

  ghost predicate Places(objects: seq<Object>, device: seq<Placement>) {
    && (forall i | 0 <= i < |device| ::
          && device[i].handle < |objects| && objects[device[i].handle].kind.Tensor?
          && device[i].bytes == objects[device[i].handle].bytes)
    && (forall i, j | 0 <= i < j < |device| :: device[i].handle != device[j].handle)
  }

  ghost predicate Retains(objects: seq<Object>, host: seq<nat>) {
    && (forall i | 0 <= i < |host| :: host[i] < |objects| && objects[host[i]].kind.Resource?)
    && (forall i, j | 0 <= i < j < |host| :: host[i] != host[j])
  }

  /** The plan of a binder: every tensor placed at most once, packed, and the capacity is exactly what they take. */
  ghost predicate PlanOk(objects: seq<Object>, plan: Plan) {
    && Packed(plan.device) && Places(objects, plan.device) && Retains(objects, plan.host)
    && plan.capacity == EndOf(plan.device) && plan.capacity <= U64_MAX
  }

  /** Placements do not overlap and stay within the capacity. */
  lemma {:induction false} PackedApart(device: seq<Placement>, j: nat)
    requires Packed(device) && j < |device|
    ensures device[j].bytes > 0 && device[j].offset + device[j].bytes <= EndOf(device)
    ensures forall i | 0 <= i < j :: device[i].offset + device[i].bytes <= device[j].offset
  {
    var front := device[..|device| - 1];
    if j < |front| {
      PackedApart(front, j);
    } else {
      forall i | 0 <= i < j
        ensures device[i].offset + device[i].bytes <= device[j].offset
      {
        PackedApart(front, i);
      }
    }
  }

  lemma {:induction false} PackedAligned(device: seq<Placement>, j: nat)
    requires Packed(device) && j < |device|
    ensures device[j].offset % TENSOR_ALIGNMENT == 0
  {
    if j < |device| - 1 { PackedAligned(device[..|device| - 1], j); }
  }

  lemma PackedMore(device: seq<Placement>, p: Placement)
    requires Packed(device) && p.alignment == TENSOR_ALIGNMENT && p.bytes > 0
    requires p.offset == AlignUp(EndOf(device), TENSOR_ALIGNMENT)
    ensures Packed(device + [p]) && EndOf(device + [p]) == p.offset + p.bytes
  {
    assert (device + [p])[..|device|] == device;
  }

  // ---- The binder ----

  function Find(objects: seq<Object>, name: string, from: nat): (r: Option<nat>)
    ensures r.Some? ==> r.value < |objects| && objects[r.value].name == name
    ensures r.None? ==> forall i | from <= i < |objects| :: objects[i].name != name
    decreases |objects| - from
  {
    if from >= |objects| then None else if objects[from].name == name then Some(from) else Find(objects, name, from + 1)
  }

  class Binding {
    const objects: seq<Object>
    var consumed: seq<bool>
    var planned: seq<bool>
    var plan: Plan

    ghost predicate Valid()
      reads this
    {
      && |consumed| == |planned| == |objects| && PlanOk(objects, plan)
      && (forall i | 0 <= i < |plan.device| :: planned[plan.device[i].handle])
      && (forall i | 0 <= i < |plan.host| :: planned[plan.host[i]])
    }

    constructor (objects: seq<Object>)
      ensures Valid() && this.objects == objects && plan == Plan([], 0, [])
      ensures forall i | 0 <= i < |objects| :: !consumed[i] && !planned[i]
    {
      this.objects := objects;
      consumed, planned := seq(|objects|, i => false), seq(|objects|, i => false);
      plan := Plan([], 0, []);
    }

    /** `require_tensor` and `require_resource`; the object counts as consumed even if its contract does not match. */
    method Require(name: string, kind: Kind, contract: Contract) returns (e: Error, handle: nat)
      requires Valid()
      modifies `consumed
      ensures Valid()
      ensures var found := Find(objects, name, 0);
              if found.None? then e == Missing && consumed == old(consumed)
              else if old(consumed)[found.value] then e == BoundTwice && consumed == old(consumed)
              else
                && consumed == old(consumed)[found.value := true] && handle == found.value
                && e == if objects[handle].kind != kind then WrongKind else
                        if objects[handle].contract != contract then ContractMismatch else NoError
    {
      handle := 0;
      var found := Find(objects, name, 0);
      if found.None? { return Missing, 0; }
      if consumed[found.value] { return BoundTwice, 0; }
      consumed := consumed[found.value := true];
      handle := found.value;
      if objects[handle].kind != kind { return WrongKind, handle; }
      if objects[handle].contract != contract { return ContractMismatch, handle; }
      return NoError, handle;
    }

    /** Why an object cannot be placed as `kind`. */
    function Refusal(handle: nat, kind: Kind): Error
      requires |planned| == |objects|
      reads this
    {
      if handle >= |objects| then BadHandle else
      if objects[handle].kind != kind then WrongKind else
      if planned[handle] then PlacedTwice else NoError
    }

    method MaterializeOnDevice(handle: nat) returns (e: Error)
      requires Valid() && forall i | 0 <= i < |objects| :: objects[i].bytes > 0
      modifies `plan, `planned
      ensures Valid()
      ensures e != NoError ==> plan == old(plan) && planned == old(planned)
      ensures old(Refusal(handle, Tensor)) != NoError ==> e == old(Refusal(handle, Tensor))
      ensures old(Refusal(handle, Tensor)) == NoError ==>
                var offset := AlignUp(old(plan.capacity), TENSOR_ALIGNMENT);
                e == if old(plan.capacity) > U64_MAX - 255 || objects[handle].bytes > U64_MAX - offset
                     then SizeOverflow else NoError
      ensures e == NoError ==>
                && planned == old(planned)[handle := true] && plan.host == old(plan.host)
                && plan.device == old(plan.device)
                   + [Placement(handle, AlignUp(old(plan.capacity), TENSOR_ALIGNMENT), objects[handle].bytes, TENSOR_ALIGNMENT)]
    {
      if handle >= |objects| { return BadHandle; }
      if objects[handle].kind != Tensor { return WrongKind; }
      if planned[handle] { return PlacedTwice; }
      if plan.capacity > U64_MAX - 255 { return SizeOverflow; }
      var offset := AlignUp(plan.capacity, TENSOR_ALIGNMENT);
      if objects[handle].bytes > U64_MAX - offset { return SizeOverflow; }
      var p := Placement(handle, offset, objects[handle].bytes, TENSOR_ALIGNMENT);
      PackedMore(plan.device, p);
      plan := Plan(plan.device + [p], offset + p.bytes, plan.host);
      planned := planned[handle := true];
      return NoError;
    }

    method RetainOnHost(handle: nat) returns (e: Error)
      requires Valid()
      modifies `plan, `planned
      ensures Valid() && e == old(Refusal(handle, Resource))
      ensures e != NoError ==> plan == old(plan) && planned == old(planned)
      ensures e == NoError ==>
                planned == old(planned)[handle := true] && plan == old(plan).(host := old(plan.host) + [handle])
    {
      if handle >= |objects| { return BadHandle; }
      if objects[handle].kind != Resource { return WrongKind; }
      if planned[handle] { return PlacedTwice; }
      plan := plan.(host := plan.host + [handle]);
      planned := planned[handle := true];
      return NoError;
    }

    method ValidateOnly(handle: nat) returns (e: Error)
      requires Valid()
      modifies `planned
      ensures e == if handle >= |objects| then BadHandle else if old(planned)[handle] then PlacedTwice else NoError
      ensures Valid() && planned == if e == NoError then old(planned)[handle := true] else old(planned)
    {
      if handle >= |objects| { return BadHandle; }
      if planned[handle] { return PlacedTwice; }
      planned := planned[handle := true];
      return NoError;
    }

    /** `finish` gives the plan exactly when every object was consumed and placed. */
    method Finish() returns (e: Error, out: Plan)
      requires Valid()
      ensures e == if exists i :: 0 <= i < |consumed| && !consumed[i] then NotConsumed
                   else if exists i :: 0 <= i < |planned| && !planned[i] then NotPlaced else NoError
      ensures e == NoError ==> out == plan && PlanOk(objects, out)
    {
      out := plan;
      for i := 0 to |consumed|
        invariant forall j | 0 <= j < i :: consumed[j]
      {
        if !consumed[i] { return NotConsumed, out; }
      }
      for i := 0 to |planned|
        invariant forall j | 0 <= j < i :: planned[j]
      {
        if !planned[i] { return NotPlaced, out; }
      }
      return NoError, out;
    }
  }
}
