/** From the payloads given to the writer to the bytes on the device. */
module ArtifactRoundTrip {
  import opened Bytes
  import opened ObjectTable
  import C = Container
  import B = Binder
  import L = ArtifactLoad
  import M = Materializer
  import S = CopyStream

  /** A planned directory has what every reader promises. */
  lemma PlannedTable(specs: seq<C.Spec>, payloadBytes: nat)
    requires C.WellNamed(specs) && C.PlanEnd(C.Planned(specs)) <= payloadBytes
    ensures TableOk(C.Planned(specs), payloadBytes)
  {
    var objects := C.Planned(specs);
    C.WellNamedSpec(specs);
    forall i | 0 <= i < |objects| ensures objects[i].name == specs[i].name && objects[i].bytes > 0 { C.PlannedSpec(specs, i); }
    C.PlannedRanges(specs, payloadBytes);
    RangesTable(objects, payloadBytes);
  }

  /** A file that reads back as the planned directory is an opened artifact. */
  lemma WrittenOpened(c: C.Codec, identity: C.Identity, specs: seq<C.Spec>, contents: seq<seq<Byte>>, file: seq<Byte>)
    requires C.WellNamed(specs) && specs != []
    requires C.ReadsBack(c, C.Directory(identity, C.Planned(specs)), contents, file)
    ensures var d := C.Directory(identity, C.Planned(specs));
            L.Opened(L.Artifact(file, C.PayloadStart(|c.encode(d)|), d.objects))
  {
    var d := C.Directory(identity, C.Planned(specs));
    var last := |d.objects| - 1;
    assert C.PayloadStart(|c.encode(d)|) + End(d.objects[last]) <= |file|;
    PlannedTable(specs, |file| - C.PayloadStart(|c.encode(d)|));
  }

  /** A placed tensor holds the payload that was written for it. */
  lemma PlacedPayload(c: C.Codec, d: C.Directory, contents: seq<seq<Byte>>, file: seq<Byte>, p: B.Placement, m: S.Memory)
    requires C.ReadsBack(c, d, contents, file) && p.handle < |d.objects| && p.bytes == d.objects[p.handle].bytes
    requires L.Placed(L.Artifact(file, C.PayloadStart(|c.encode(d)|), d.objects), p, m)
    ensures m.bytes[p.offset..p.offset + p.bytes] == contents[p.handle]
  {
    var start := C.PayloadStart(|c.encode(d)|);
    assert C.Payload(file, start, d.objects[p.handle]) == contents[p.handle];
  }

  /** The reader with 64-bit arithmetic opens a written file as the planned directory. */
  lemma WrittenOpensChecked(c: C.Codec, d: C.Directory, contents: seq<seq<Byte>>, file: seq<Byte>)
    requires C.ReadsBack(c, d, contents, file) && |file| <= U64_MAX - (C.PAYLOAD_ALIGNMENT - 1)
    ensures C.OpenChecked(c, file) == C.Opened(d, C.PayloadStart(|c.encode(d)|))
  {
    C.ReadersAgree(c, file);
  }

  /** Write with the Python tools, open with the C++ reader, and load by any plan of a binder: the load succeeds if and only
      if every read delivers what it must, and then every placed tensor's device bytes are the chunks that were given to
      the writer for it, joined. */
  method WriteAndLoad(c: C.Codec, identity: C.Identity, specs: seq<C.Spec>, payloads: seq<seq<seq<Byte>>>, plan: B.Plan,
                      base: nat, initial: seq<Byte>, supply: nat -> nat)
    returns (out: L.Outcome)
    requires |payloads| == |specs| && specs != [] && C.WellNamed(specs) && C.Sized(specs, payloads)
    requires C.Faithful(c, C.Directory(identity, C.Planned(specs)))
    requires C.FileSize(c, C.Directory(identity, C.Planned(specs))) <= U64_MAX - (C.PAYLOAD_ALIGNMENT - 1)
    requires B.PlanOk(C.Planned(specs), plan) && plan.device != []
    requires base % TENSOR_ALIGNMENT == 0 && |initial| == plan.capacity
    ensures var start := C.PayloadStart(|c.encode(C.Directory(identity, C.Planned(specs)))|);
            out.Loaded? <==> M.Enough(L.RangeList(start, C.Planned(specs), plan.device), supply)
    ensures out.Loaded? ==>
              forall i | 0 <= i < |plan.device| ::
                var p := plan.device[i];
                && p.handle < |payloads| && p.offset + p.bytes <= |out.memory.bytes|
                && out.memory.bytes[p.offset..p.offset + p.bytes] == C.Join(payloads[p.handle])
  {
    var file := C.WriteArtifact(c, identity, specs, payloads);
    ghost var d, contents := C.Directory(identity, C.Planned(specs)), C.JoinAll(payloads);
    WrittenOpened(c, identity, specs, contents, file.value);
    WrittenOpensChecked(c, d, contents, file.value);
    var opening := C.OpenChecked(c, file.value);
    out := L.Materialize(L.Artifact(file.value, opening.payloadStart, opening.directory.objects), plan, base, initial, supply);
    if out.Loaded? {
      forall i | 0 <= i < |plan.device|
        ensures var p := plan.device[i];
                && p.handle < |payloads| && p.offset + p.bytes <= |out.memory.bytes|
                && out.memory.bytes[p.offset..p.offset + p.bytes] == C.Join(payloads[p.handle])
      {
        C.JoinFirstAt(payloads, |payloads|, plan.device[i].handle);
        PlacedPayload(c, d, contents, file.value, plan.device[i], out.memory);
      }
    }
  }
}
