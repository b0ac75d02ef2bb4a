/** The artifact container: writer and readers. */
module Container {
  import opened Wrappers
  import opened Alignment
  import opened Bytes
  import opened ObjectTable

  const MAGIC: seq<Byte> := [78, 73, 78, 70, 69, 82, 0, 2]
  const V1_MAGIC: seq<Byte> := [78, 73, 78, 70, 69, 82, 0, 1]
  const PREFIX_BYTES: nat := 16
  const PAYLOAD_ALIGNMENT: nat := 4096

  datatype Identity = Identity(model: string, weights: string)
  datatype Directory = Directory(identity: Identity, objects: seq<Object>)

  /** Encoding a directory as JSON text and parsing it back, with the field checks of the parser. */
  datatype Codec = Codec(encode: Directory -> seq<Byte>, parse: seq<Byte> -> Option<Directory>)

  ghost predicate Faithful(c: Codec, d: Directory) {
    0 < |c.encode(d)| <= U64_MAX && c.parse(c.encode(d)) == Some(d)
  }

  function PayloadStart(jsonBytes: nat): nat {
    AlignUp(PREFIX_BYTES + jsonBytes, PAYLOAD_ALIGNMENT)
  }

  // ---- Reading ----

  datatype OpenError = TooShort | OldVersion | BadMagic | NoDirectory | Truncated | BadDirectory | BadObjects
  datatype Opening = Rejected(error: OpenError) | Opened(directory: Directory, payloadStart: nat)

  /** `Artifact.__init__`. */
  function Open(c: Codec, file: seq<Byte>): Opening {
    if |file| < PREFIX_BYTES then Rejected(TooShort) else
    if file[..8] == V1_MAGIC then Rejected(OldVersion) else
    if file[..8] != MAGIC then Rejected(BadMagic) else
    var jsonBytes := Value(file[8..16]);
    if jsonBytes == 0 then Rejected(NoDirectory) else
    var start := PayloadStart(jsonBytes);
    if PREFIX_BYTES + jsonBytes > |file| || start > |file| then Rejected(Truncated) else
    OpenDirectory(c, file, jsonBytes, start)
  }

  function OpenDirectory(c: Codec, file: seq<Byte>, jsonBytes: nat, start: nat): Opening
    requires PREFIX_BYTES + jsonBytes <= |file| && start <= |file|
  {
    var d := c.parse(file[PREFIX_BYTES..PREFIX_BYTES + jsonBytes]);
    if d.None? then Rejected(BadDirectory) else
    if !NamesUnique(d.value.objects) || !RangesFrom(d.value.objects, 0, |file| - start) then Rejected(BadObjects) else
    Opened(d.value, start)
  }

  function Add(a: nat, b: nat): Option<nat>
    requires a <= U64_MAX
  {
    if b > U64_MAX - a then None else Some(a + b)
  }

  predicate CheckedRangesFrom(objects: seq<Object>, cursor: nat, payloadBytes: nat) {
    objects == [] ||
    (&& cursor <= objects[0].offset <= U64_MAX && objects[0].offset % AlignmentOf(objects[0].kind) == 0
     && var end := Add(objects[0].offset, objects[0].bytes);
        end.Some? && end.value <= payloadBytes && CheckedRangesFrom(objects[1..], end.value, payloadBytes))
  }

  /** `Reader::Impl`: the same reader with 64-bit checked arithmetic. */
  function OpenChecked(c: Codec, file: seq<Byte>): Opening {
    if |file| < PREFIX_BYTES then Rejected(TooShort) else
    if file[..8] == V1_MAGIC then Rejected(OldVersion) else
    if file[..8] != MAGIC then Rejected(BadMagic) else
    var jsonBytes := Value(file[8..16]);
    if jsonBytes == 0 then Rejected(NoDirectory) else
    var start := CheckedStart(jsonBytes);
    if start.None? || PREFIX_BYTES + jsonBytes > |file| || start.value > |file| then Rejected(Truncated) else
    CheckedDirectory(c, file, jsonBytes, start.value)
  }

  /** Where the payload begins; `None` if a sum does not fit. */
  function CheckedStart(jsonBytes: nat): Option<nat> {
    var end := Add(PREFIX_BYTES, jsonBytes);
    if end.None? then None else
    var biased := Add(end.value, PAYLOAD_ALIGNMENT - 1);
    if biased.None? then None else Some(biased.value / PAYLOAD_ALIGNMENT * PAYLOAD_ALIGNMENT)
  }

  function CheckedDirectory(c: Codec, file: seq<Byte>, jsonBytes: nat, start: nat): Opening
    requires PREFIX_BYTES + jsonBytes <= |file| && start <= |file|
  {
    var d := c.parse(file[PREFIX_BYTES..PREFIX_BYTES + jsonBytes]);
    if d.None? then Rejected(BadDirectory) else
    if !NamesUnique(d.value.objects) || !CheckedRangesFrom(d.value.objects, 0, |file| - start) then Rejected(BadObjects) else
    Opened(d.value, start)
  }

  lemma {:induction false} CheckedRanges(objects: seq<Object>, cursor: nat, payloadBytes: nat)
    requires payloadBytes <= U64_MAX
    ensures CheckedRangesFrom(objects, cursor, payloadBytes) <==> RangesFrom(objects, cursor, payloadBytes)
  {
    if objects != [] && End(objects[0]) <= payloadBytes {
      CheckedRanges(objects[1..], End(objects[0]), payloadBytes);
    }
  }

  lemma StartsAgree(jsonBytes: nat)
    ensures CheckedStart(jsonBytes) ==
            if PREFIX_BYTES + jsonBytes <= U64_MAX - (PAYLOAD_ALIGNMENT - 1) then Some(PayloadStart(jsonBytes)) else None
  {
  }

  lemma DirectoriesAgree(c: Codec, file: seq<Byte>, jsonBytes: nat, start: nat)
    requires PREFIX_BYTES + jsonBytes <= |file| <= U64_MAX && start <= |file|
    ensures CheckedDirectory(c, file, jsonBytes, start) == OpenDirectory(c, file, jsonBytes, start)
  {
    var d := c.parse(file[PREFIX_BYTES..PREFIX_BYTES + jsonBytes]);
    if d.Some? { CheckedRanges(d.value.objects, 0, |file| - start); }
  }

  /** The two readers agree on every file that leaves room for rounding in 64 bits. */
  lemma ReadersAgree(c: Codec, file: seq<Byte>)
    requires |file| <= U64_MAX - (PAYLOAD_ALIGNMENT - 1)
    ensures OpenChecked(c, file) == Open(c, file)
  {
    if |file| >= PREFIX_BYTES {
      var jsonBytes := Value(file[8..16]);
      var start := PayloadStart(jsonBytes);
      StartsAgree(jsonBytes);
      if PREFIX_BYTES + jsonBytes <= |file| && start <= |file| { DirectoriesAgree(c, file, jsonBytes, start); }
    }
  }

  /** What opening a file tells: it begins with the v2 prefix, and its objects are aligned extents of the file behind the
      directory, disjoint and with names of their own. */
  lemma OpenedSound(c: Codec, file: seq<Byte>)
    requires Open(c, file).Opened?
    ensures var d, start := Open(c, file).directory, Open(c, file).payloadStart;
            && |file| >= PREFIX_BYTES && file[..8] == MAGIC && 0 < Value(file[8..16]) <= start - PREFIX_BYTES && start <= |file|
            && start % PAYLOAD_ALIGNMENT == 0 && c.parse(file[PREFIX_BYTES..PREFIX_BYTES + Value(file[8..16])]) == Some(d)
            && (forall i | 0 <= i < |d.objects| ::
                  d.objects[i].offset % AlignmentOf(d.objects[i].kind) == 0 && start + End(d.objects[i]) <= |file|)
            && (forall i, j | 0 <= i < j < |d.objects| ::
                  End(d.objects[i]) <= d.objects[j].offset && d.objects[i].name != d.objects[j].name)
  {
    var d, start := Open(c, file).directory, Open(c, file).payloadStart;
    RangesPairwise(d.objects, 0, |file| - start);
  }

  /** The loop of `_validate_ranges`. */
  method ValidateRanges(objects: seq<Object>, payloadBytes: nat) returns (ok: bool)
    ensures ok <==> RangesFrom(objects, 0, payloadBytes)
  {
    var cursor: nat := 0;
    for i := 0 to |objects|
      invariant RangesFrom(objects, 0, payloadBytes) <==> RangesFrom(objects[i..], cursor, payloadBytes)
    {
      var o := objects[i];
      assert objects[i..][1..] == objects[i + 1..];
      if o.offset < cursor { return false; }
      if o.offset % AlignmentOf(o.kind) != 0 { return false; }
      if End(o) > payloadBytes { return false; }
      cursor := End(o);
    }
    return true;
  }

  /** The loop of `Reader::Impl`, with its checked sum and its index of names. */
  method ReadEntries(objects: seq<Object>, payloadBytes: nat) returns (ok: bool)
    requires payloadBytes <= U64_MAX
    ensures ok <==> RangesFrom(objects, 0, payloadBytes) && NamesUnique(objects)
  {
    CheckedRanges(objects, 0, payloadBytes);
    var cursor: nat := 0;
    var names: set<string> := {};
    for i := 0 to |objects|
      invariant CheckedRangesFrom(objects, 0, payloadBytes) <==> CheckedRangesFrom(objects[i..], cursor, payloadBytes)
      invariant names == (set j | 0 <= j < i :: objects[j].name) && NamesUnique(objects[..i])
    {
      var o := objects[i];
      assert objects[i..][1..] == objects[i + 1..];
      if o.offset > U64_MAX || o.offset < cursor { return false; }
      if o.offset % AlignmentOf(o.kind) != 0 { return false; }
      var end := Add(o.offset, o.bytes);
      if end.None? || end.value > payloadBytes { return false; }
      if o.name in names { return false; }
      names := names + {o.name};
      cursor := end.value;
    }
    assert objects[..|objects|] == objects;
    return true;
  }

  function Payload(file: seq<Byte>, start: nat, o: Object): seq<Byte>
    requires start + End(o) <= |file|
  {
    file[start + o.offset..start + End(o)]
  }

  // ---- Planning ----

  /** `bytes` is the size of a resource; a tensor's size follows from its contract. */
  datatype Spec = Spec(name: string, contract: Contract, bytes: int)

  /** The planned size; 0 for a shape that its layout refuses. */
  function SizeOf(s: Spec): int {
    if s.contract.RawBytes? then s.bytes else
    var size := EncodedSize(s.contract);
    if size.Some? then size.value else 0
  }

  function Names(specs: seq<Spec>): set<string> {
    if specs == [] then {} else Names(specs[..|specs| - 1]) + {specs[|specs| - 1].name}
  }

  /** Named, positive sizes, no name twice. */
  predicate WellNamed(specs: seq<Spec>) {
    specs == [] ||
    var front, last := specs[..|specs| - 1], specs[|specs| - 1];
    WellNamed(front) && last.name != "" && SizeOf(last) > 0 && last.name !in Names(front)
  }

  lemma {:induction false} NamesSpec(specs: seq<Spec>, i: nat)
    requires i < |specs|
    ensures specs[i].name in Names(specs)
  {
    if i < |specs| - 1 { NamesSpec(specs[..|specs| - 1], i); }
  }

  lemma {:induction false} WellNamedSpec(specs: seq<Spec>)
    requires WellNamed(specs)
    ensures forall i | 0 <= i < |specs| :: specs[i].name != "" && SizeOf(specs[i]) > 0
    ensures forall i, j | 0 <= i < j < |specs| :: specs[i].name != specs[j].name
  {
    if specs != [] {
      var front := specs[..|specs| - 1];
      WellNamedSpec(front);
      forall i | 0 <= i < |front|
        ensures specs[i].name != specs[|front|].name
      {
        NamesSpec(front, i);
      }
    }
  }

  function PlanEnd(objects: seq<Object>): nat {
    if objects == [] then 0 else End(objects[|objects| - 1])
  }

  /** A specification at the next multiple of its alignment. */
  function PlaceAt(s: Spec, cursor: nat): Object
    requires SizeOf(s) > 0
  {
    var kind := KindOf(s.contract);
    Object(s.name, kind, s.contract, AlignUp(cursor, AlignmentOf(kind)), SizeOf(s))
  }

  /** The planned directory: every object follows the one before. */
  function Planned(specs: seq<Spec>): (objects: seq<Object>)
    requires WellNamed(specs)
    ensures |objects| == |specs|
  {
    if specs == [] then [] else
    var front := Planned(specs[..|specs| - 1]);
    front + [PlaceAt(specs[|specs| - 1], PlanEnd(front))]
  }

  lemma {:induction false} PlannedSpec(specs: seq<Spec>, i: nat)
    requires WellNamed(specs) && i < |specs|
    ensures var o := Planned(specs)[i];
            o.name == specs[i].name && o.contract == specs[i].contract && o.kind == KindOf(o.contract) && o.bytes == SizeOf(specs[i]) > 0
  {
    if i < |specs| - 1 { PlannedSpec(specs[..|specs| - 1], i); }
  }

  /** The offset is the least multiple of the alignment at or after `cursor`. */
  ghost predicate LeastAt(o: Object, cursor: nat) {
    && cursor <= o.offset && o.offset % AlignmentOf(o.kind) == 0
    && forall x: nat | cursor <= x && x % AlignmentOf(o.kind) == 0 :: o.offset <= x
  }

  ghost predicate PackedAt(s: Spec, o: Object, cursor: nat) {
    && o.name == s.name && o.contract == s.contract && o.kind == (if s.contract.RawBytes? then Resource else Tensor)
    && o.bytes == SizeOf(s) && LeastAt(o, cursor)
  }

  /** Objects are as specified, and each begins as soon as it may after the one before. */
  ghost predicate Packed(specs: seq<Spec>, objects: seq<Object>) {
    |specs| == |objects| &&
    (specs == [] ||
     var n := |specs| - 1;
     Packed(specs[..n], objects[..n]) && PackedAt(specs[n], objects[n], PlanEnd(objects[..n])))
  }

  lemma PlacedLeast(s: Spec, cursor: nat)
    requires SizeOf(s) > 0
    ensures PackedAt(s, PlaceAt(s, cursor), cursor)
  {
    var a := AlignmentOf(KindOf(s.contract));
    forall x: nat | cursor <= x && x % a == 0 ensures AlignUp(cursor, a) <= x { LeastMultiple(cursor, a, x); }
  }

  lemma {:induction false} PlannedPacked(specs: seq<Spec>)
    requires WellNamed(specs)
    ensures Packed(specs, Planned(specs))
  {
    if specs != [] {
      var n := |specs| - 1;
      var front := Planned(specs[..n]);
      PlannedPacked(specs[..n]);
      PlacedLeast(specs[n], PlanEnd(front));
      assert Planned(specs)[..n] == front;
    }
  }

  /** `plan_objects`. */
  method PlanObjects(specs: seq<Spec>) returns (r: Option<seq<Object>>)
    ensures r.Some? <==> specs != [] && WellNamed(specs)
    ensures r.Some? ==> r.value == Planned(specs) && Packed(specs, r.value)
  {
    if specs == [] { return None; }
    var objects: seq<Object> := [];
    var names: set<string> := {};
    var cursor: nat := 0;
    for i := 0 to |specs|
      invariant WellNamed(specs[..i]) && names == Names(specs[..i])
      invariant objects == Planned(specs[..i]) && cursor == PlanEnd(objects)
    {
      var s := specs[i];
      assert specs[..i + 1][..i] == specs[..i];
      if s.name == "" || s.name in names || SizeOf(s) <= 0 {
        IllNamed(specs, i + 1);
        return None;
      }
      names := names + {s.name};
      var o := PlaceAt(s, cursor);
      objects := objects + [o];
      cursor := End(o);
    }
    assert specs[..|specs|] == specs;
    PlannedPacked(specs);
    return Some(objects);
  }

  lemma {:induction false} IllNamed(specs: seq<Spec>, i: nat)
    requires i <= |specs| && !WellNamed(specs[..i])
    ensures !WellNamed(specs)
  {
    var n := |specs| - 1;
    if i <= n {
      assert specs[..n][..i] == specs[..i];
      IllNamed(specs[..n], i);
    } else {
      assert specs[..i] == specs;
    }
  }

  lemma {:induction false} RangesMore(objects: seq<Object>, cursor: nat, payloadBytes: nat, o: Object)
    requires RangesFrom(objects, cursor, payloadBytes)
    requires (if objects == [] then cursor else End(objects[|objects| - 1])) <= o.offset
    requires o.offset % AlignmentOf(o.kind) == 0 && End(o) <= payloadBytes
    ensures RangesFrom(objects + [o], cursor, payloadBytes)
  {
    if objects != [] {
      RangesMore(objects[1..], End(objects[0]), payloadBytes, o);
      assert (objects + [o])[1..] == objects[1..] + [o];
    }
  }

  /** A plan passes the range checks of the readers. */
  lemma {:induction false} PlannedRanges(specs: seq<Spec>, payloadBytes: nat)
    requires WellNamed(specs) && PlanEnd(Planned(specs)) <= payloadBytes
    ensures RangesFrom(Planned(specs), 0, payloadBytes)
  {
    if specs != [] {
      var front := Planned(specs[..|specs| - 1]);
      var o := PlaceAt(specs[|specs| - 1], PlanEnd(front));
      assert Planned(specs) == front + [o];
      PlannedRanges(specs[..|specs| - 1], payloadBytes);
      RangesMore(front, 0, payloadBytes, o);
    }
  }

  // ---- The written file ----

  /** Prefix, directory and padding up to the payload area. */
  function Header(c: Codec, d: Directory): (h: seq<Byte>)
    ensures |h| == PayloadStart(|c.encode(d)|)
  {
    var json := c.encode(d);
    MAGIC + Digits(|json|, 8) + json + Zeros(PayloadStart(|json|) - PREFIX_BYTES - |json|)
  }

  /** Contents of the right sizes for objects that follow each other. */
  ghost predicate Filled(objects: seq<Object>, contents: seq<seq<Byte>>) {
    |objects| == |contents| &&
    (objects == [] ||
     var n := |objects| - 1;
     Filled(objects[..n], contents[..n]) && PlanEnd(objects[..n]) <= objects[n].offset && |contents[n]| == objects[n].bytes)
  }

  /** The payload area: each content at its offset, zeros between. */
  ghost function Image(objects: seq<Object>, contents: seq<seq<Byte>>): (image: seq<Byte>)
    requires Filled(objects, contents)
    ensures |image| == PlanEnd(objects)
  {
    if objects == [] then [] else
    var n := |objects| - 1;
    var front := Image(objects[..n], contents[..n]);
    front + Zeros(objects[n].offset - |front|) + contents[n]
  }

  /** The last content ends the image; what comes before is the image of the others. */
  lemma ImageEnds(objects: seq<Object>, contents: seq<seq<Byte>>)
    requires Filled(objects, contents) && objects != []
    ensures var n := |objects| - 1;
            var front := Image(objects[..n], contents[..n]);
            && |front| <= |Image(objects, contents)| && Image(objects, contents)[..|front|] == front
            && End(objects[n]) == |Image(objects, contents)| && Image(objects, contents)[objects[n].offset..] == contents[n]
  {
    var n := |objects| - 1;
    var front := Image(objects[..n], contents[..n]);
    ThreeParts(front, Zeros(objects[n].offset - |front|), contents[n]);
  }

  lemma ThreeParts(a: seq<Byte>, b: seq<Byte>, c: seq<Byte>)
    ensures (a + b + c)[..|a|] == a && (a + b + c)[|a| + |b|..] == c
  {
  }

  lemma {:induction false} ImagePayload(objects: seq<Object>, contents: seq<seq<Byte>>, i: nat)
    requires Filled(objects, contents) && i < |objects|
    ensures End(objects[i]) <= PlanEnd(objects)
    ensures Image(objects, contents)[objects[i].offset..End(objects[i])] == contents[i]
  {
    var n := |objects| - 1;
    ImageEnds(objects, contents);
    if i == n {
      var image := Image(objects, contents);
      assert image[objects[n].offset..|image|] == image[objects[n].offset..];
    } else {
      assert objects[..n][i] == objects[i] && contents[..n][i] == contents[i];
      ImagePayload(objects[..n], contents[..n], i);
      PrefixSlice(Image(objects, contents), Image(objects[..n], contents[..n]), objects[i].offset, End(objects[i]));
    }
  }

  lemma PrefixSlice(s: seq<Byte>, front: seq<Byte>, a: nat, b: nat)
    requires a <= b <= |front| <= |s| && s[..|front|] == front
    ensures s[a..b] == front[a..b]
  {
    assert s[..|front|][a..b] == s[a..b];
  }

  lemma HeaderParts(c: Codec, d: Directory, image: seq<Byte>)
    requires Faithful(c, d)
    ensures var file, json := Header(c, d) + image, c.encode(d);
            && |file| >= PREFIX_BYTES + |json| && file[..8] == MAGIC && Value(file[8..16]) == |json|
            && file[PREFIX_BYTES..PREFIX_BYTES + |json|] == json
  {
    var file, json := Header(c, d) + image, c.encode(d);
    WordValue(|json|);
    assert file[8..16] == Digits(|json|, 8);
    assert file[PREFIX_BYTES..PREFIX_BYTES + |json|] == json;
  }

  /** A written file opens as the directory it was written from. */
  lemma OpenWritten(c: Codec, d: Directory, contents: seq<seq<Byte>>)
    requires Faithful(c, d) && Filled(d.objects, contents) && RangesFrom(d.objects, 0, PlanEnd(d.objects)) && NamesUnique(d.objects)
    ensures Open(c, Header(c, d) + Image(d.objects, contents)) == Opened(d, PayloadStart(|c.encode(d)|))
  {
    HeaderParts(c, d, Image(d.objects, contents));
  }

  /** Every payload reads back. */
  lemma PayloadWritten(c: Codec, d: Directory, contents: seq<seq<Byte>>, i: nat)
    requires Filled(d.objects, contents) && i < |contents|
    ensures var file, start := Header(c, d) + Image(d.objects, contents), PayloadStart(|c.encode(d)|);
            start + End(d.objects[i]) <= |file| && Payload(file, start, d.objects[i]) == contents[i]
  {
    ImagePayload(d.objects, contents, i);
    var header, image := Header(c, d), Image(d.objects, contents);
    assert (header + image)[|header| + d.objects[i].offset..|header| + End(d.objects[i])]
        == image[d.objects[i].offset..End(d.objects[i])];
  }

  function Join(chunks: seq<seq<Byte>>): seq<Byte> {
    if chunks == [] then [] else Join(chunks[..|chunks| - 1]) + chunks[|chunks| - 1]
  }

  datatype WriteError = NoError | AlreadyFinished | AllWritten | WrongName | TooLong | TooFew | MissingPayload

  class ArtifactWriter {
    const directory: Directory
    const payloadStart: nat
    var file: seq<Byte>
    var next: nat
    var cursor: nat
    var finished: bool
    ghost const header: seq<Byte>
    ghost var contents: seq<seq<Byte>>

    /** What holds at all times, even after a refused payload. */
    ghost predicate Ready()
      reads this
    {
      && |header| == payloadStart && Follow(directory.objects) && next <= |directory.objects|
      && PlanEnd(directory.objects[..next]) <= cursor && payloadStart + cursor <= |file|
      && (next < |directory.objects| ==> cursor <= directory.objects[next].offset)
      && (next == |directory.objects| ==> cursor == PlanEnd(directory.objects)) && (finished ==> next == |directory.objects|)
    }

    /** The file is exactly the header and the payloads accepted so far, zero-padded to the cursor. */
    ghost predicate Valid()
      reads this
    {
      Ready() && RightFile(directory.objects[..next], contents, header, cursor, file)
    }

    constructor (c: Codec, d: Directory)
      requires Faithful(c, d) && Follow(d.objects)
      ensures Valid() && directory == d && header == Header(c, d) && contents == [] && !finished
    {
      directory, payloadStart, header := d, PayloadStart(|c.encode(d)|), Header(c, d);
      file := MAGIC + Digits(|c.encode(d)|, 8) + c.encode(d)
              + Zeros(PayloadStart(|c.encode(d)|) - PREFIX_BYTES - |c.encode(d)|);
      next, cursor, finished, contents := 0, 0, false, [];
    }

    /** Appends chunks until one would exceed the planned size. */
    method AppendChunks(chunks: seq<seq<Byte>>, bytes: nat) returns (written: nat, fits: bool)
      modifies `file
      ensures file == old(file) + Accepted(chunks, bytes) && written == |Accepted(chunks, bytes)|
      ensures fits <==> |Join(chunks)| <= bytes
    {
      written, fits := 0, true;
      for i := 0 to |chunks|
        invariant fits && written == |Join(chunks[..i])| <= bytes && file == old(file) + Join(chunks[..i])
      {
        assert chunks[..i + 1][..i] == chunks[..i];
        JoinPrefix(chunks, i + 1);
        if written + |chunks[i]| > bytes {
          AcceptedPrefix(chunks, bytes, i);
          fits := false;
          return;
        }
        file := file + chunks[i];
        written := written + |chunks[i]|;
      }
      assert chunks[..|chunks|] == chunks;
    }

    method PadTo(offset: nat)
      requires cursor <= offset
      modifies `file, `cursor
      ensures file == old(file) + Zeros(offset - old(cursor)) && cursor == offset
    {
      if offset > cursor {
        file := file + Zeros(offset - cursor);
        cursor := offset;
      }
    }

    /** Pads to the next object and appends its payload. */
    method WriteNext(o: Object, chunks: seq<seq<Byte>>) returns (e: WriteError)
      requires cursor <= o.offset
      modifies `file, `cursor
      ensures e == if |Join(chunks)| > o.bytes then TooLong else if |Join(chunks)| < o.bytes then TooFew else NoError
      ensures file == old(file) + Zeros(o.offset - old(cursor)) + Accepted(chunks, o.bytes)
      ensures cursor == if e == NoError then End(o) else o.offset
    {
      PadTo(o.offset);
      var written, fits := AppendChunks(chunks, o.bytes);
      if !fits { return TooLong; }
      if written != o.bytes { return TooFew; }
      cursor := End(o);
      return NoError;
    }

    /** The payload of the expected object. */
    method WriteExpected(chunks: seq<seq<Byte>>) returns (e: WriteError)
      requires Ready() && !finished && next < |directory.objects|
      modifies `file, `cursor, `next, `contents
      ensures Ready()
      ensures var o := directory.objects[old(next)];
              && e == (if |Join(chunks)| > o.bytes then TooLong else if |Join(chunks)| < o.bytes then TooFew else NoError)
              && file == old(file) + Zeros(o.offset - old(cursor)) + Accepted(chunks, o.bytes)
      ensures next == (if e == NoError then old(next) + 1 else old(next))
      ensures contents == (if e == NoError then old(contents) + [Join(chunks)] else old(contents))
      ensures old(Valid()) && e == NoError ==> Valid()
      ensures old(Valid()) && e != NoError ==> (Valid() <==> Accepted(chunks, directory.objects[next].bytes) == [])
    {
      var o := directory.objects[next];
      PrefixEnds(directory.objects, next);
      ghost var right, was, at := Valid(), file, cursor;
      e := WriteNext(o, chunks);
      if right { Extended(directory.objects, next, contents, header, at, was, Accepted(chunks, o.bytes), file); }
      if e == NoError {
        next := next + 1;
        contents := contents + [Join(chunks)];
      }
    }

    /** `write`: accepts the next object's payload, however it is cut into chunks. A refused payload leaves its accepted
        chunks in the file, so the writer stays right exactly when there were no bytes in them. */
    method Write(name: string, chunks: seq<seq<Byte>>) returns (e: WriteError)
      requires Ready()
      modifies `file, `cursor, `next, `contents
      ensures Ready()
      ensures e == if finished then AlreadyFinished else if old(next) >= |directory.objects| then AllWritten else
                   var o := directory.objects[old(next)];
                   if name != o.name then WrongName else if |Join(chunks)| > o.bytes then TooLong else
                   if |Join(chunks)| < o.bytes then TooFew else NoError
      ensures e == NoError ==> next == old(next) + 1 && contents == old(contents) + [Join(chunks)]
      ensures e == NoError || e == TooLong || e == TooFew ==>
                var o := directory.objects[old(next)];
                file == old(file) + Zeros(o.offset - old(cursor)) + Accepted(chunks, o.bytes)
      ensures e != NoError ==> next == old(next) && contents == old(contents)
      ensures e == AlreadyFinished || e == AllWritten || e == WrongName ==> file == old(file) && cursor == old(cursor)
      ensures old(Valid()) && (e == TooLong || e == TooFew) ==>
                (Valid() <==> Accepted(chunks, directory.objects[next].bytes) == [])
      ensures old(Valid()) && e != TooLong && e != TooFew ==> Valid()
    {
      if finished { return AlreadyFinished; }
      if next >= |directory.objects| { return AllWritten; }
      if name != directory.objects[next].name { return WrongName; }
      e := WriteExpected(chunks);
    }

    /** `finish`: the file ends with the last payload. */
    method Finish() returns (e: WriteError)
      requires Ready()
      modifies this
      ensures Ready() && contents == old(contents) && next == old(next) && cursor == old(cursor)
      ensures e == if old(finished) || next == |directory.objects| then NoError else MissingPayload
      ensures finished <==> e == NoError
      ensures file == if e == NoError && !old(finished) then old(file)[..payloadStart + cursor] else old(file)
      ensures old(Valid()) ==> Valid() && file == old(file)
    {
      if finished { return NoError; }
      if next != |directory.objects| { return MissingPayload; }
      file := file[..payloadStart + cursor];
      finished := true;
      return NoError;
    }
  }

  /** The chunks a write puts in the file: as many as fit in the planned size. */
  function Accepted(chunks: seq<seq<Byte>>, bytes: nat): (r: seq<Byte>)
    ensures |r| <= bytes && (|Join(chunks)| <= bytes ==> r == Join(chunks))
  {
    if |Join(chunks)| <= bytes then Join(chunks) else Accepted(chunks[..|chunks| - 1], bytes)
  }

  lemma {:induction false} AcceptedPrefix(chunks: seq<seq<Byte>>, bytes: nat, i: nat)
    requires i < |chunks| && |Join(chunks[..i])| <= bytes < |Join(chunks[..i + 1])|
    ensures |Join(chunks)| > bytes && Accepted(chunks, bytes) == Join(chunks[..i])
  {
    var front := chunks[..|chunks| - 1];
    JoinPrefix(chunks, i + 1);
    if i < |front| {
      assert front[..i] == chunks[..i] && front[..i + 1] == chunks[..i + 1];
      AcceptedPrefix(front, bytes, i);
    }
  }

  lemma PrefixEnds(objects: seq<Object>, n: nat)
    requires n < |objects| && Follow(objects)
    ensures PlanEnd(objects[..n + 1]) == End(objects[n]) && PlanEnd(objects[..n]) <= objects[n].offset
    ensures n + 1 < |objects| ==> End(objects[n]) <= objects[n + 1].offset
    ensures n + 1 == |objects| ==> objects[..n + 1] == objects
  {
    if n + 1 < |objects| { assert PlanEnd(objects[..n + 1]) <= objects[n + 1].offset; }
  }

  /** The file holds exactly these payloads after the header, zero-padded to the cursor. */
  ghost predicate RightFile(objects: seq<Object>, contents: seq<seq<Byte>>, header: seq<Byte>, cursor: nat, file: seq<Byte>) {
    && Filled(objects, contents) && PlanEnd(objects) <= cursor
    && file == header + Image(objects, contents) + Zeros(cursor - PlanEnd(objects))
  }

  /** A file that was right and is extended by `data` after padding is right exactly when the payload is complete or there
      is nothing of it. */
  lemma Extended(objects: seq<Object>, n: nat, contents: seq<seq<Byte>>, header: seq<Byte>, cursor: nat, file: seq<Byte>,
                 data: seq<Byte>, now: seq<Byte>)
    requires n < |objects| && RightFile(objects[..n], contents, header, cursor, file) && cursor <= objects[n].offset
    requires now == file + Zeros(objects[n].offset - cursor) + data
    ensures RightFile(objects[..n], contents, header, objects[n].offset, now) <==> data == []
    ensures |data| == objects[n].bytes ==> RightFile(objects[..n + 1], contents + [data], header, End(objects[n]), now)
  {
    var gap := Zeros(objects[n].offset - PlanEnd(objects[..n]));
    assert Zeros(cursor - PlanEnd(objects[..n])) + Zeros(objects[n].offset - cursor) == gap;
    var padded := header + Image(objects[..n], contents) + gap;
    assert now == padded + data;
    assert data == [] ==> padded + data == padded;
    if |data| == objects[n].bytes {
      FilledMore(objects, n, contents, data, header);
      assert padded + data + Zeros(0) == padded + data;
    }
  }

  /** Each object starts at or after the end of the one before. */
  ghost predicate Follow(objects: seq<Object>) {
    forall i | 0 <= i < |objects| :: PlanEnd(objects[..i]) <= objects[i].offset
  }

  lemma RangesFollow(objects: seq<Object>, payloadBytes: nat)
    requires RangesFrom(objects, 0, payloadBytes)
    ensures Follow(objects)
  {
    RangesPairwise(objects, 0, payloadBytes);
  }

  lemma FilledMore(objects: seq<Object>, n: nat, contents: seq<seq<Byte>>, data: seq<Byte>, header: seq<Byte>)
    requires n < |objects| && Filled(objects[..n], contents) && PlanEnd(objects[..n]) <= objects[n].offset
    requires |data| == objects[n].bytes
    ensures Filled(objects[..n + 1], contents + [data]) && PlanEnd(objects[..n + 1]) == End(objects[n])
    ensures header + Image(objects[..n + 1], contents + [data])
         == header + Image(objects[..n], contents) + Zeros(objects[n].offset - PlanEnd(objects[..n])) + data
  {
    assert objects[..n + 1][..n] == objects[..n] && (contents + [data])[..n] == contents;
  }

  /** The first `n` payloads, each joined. */
  ghost function JoinFirst(payloads: seq<seq<seq<Byte>>>, n: nat): (r: seq<seq<Byte>>)
    requires n <= |payloads|
    ensures |r| == n
  {
    if n == 0 then [] else JoinFirst(payloads, n - 1) + [Join(payloads[n - 1])]
  }

  ghost function JoinAll(payloads: seq<seq<seq<Byte>>>): (r: seq<seq<Byte>>)
    ensures |r| == |payloads|
  {
    JoinFirst(payloads, |payloads|)
  }

  lemma {:induction false} JoinFirstAt(payloads: seq<seq<seq<Byte>>>, n: nat, i: nat)
    requires i < n <= |payloads|
    ensures JoinFirst(payloads, n)[i] == Join(payloads[i])
  {
    if i < n - 1 { JoinFirstAt(payloads, n - 1, i); }
  }

  /** Every payload has the planned size. */
  ghost predicate Sized(specs: seq<Spec>, payloads: seq<seq<seq<Byte>>>) {
    |specs| == |payloads| && forall i | 0 <= i < |specs| :: |Join(payloads[i])| == SizeOf(specs[i])
  }

  ghost predicate Matches(specs: seq<Spec>, objects: seq<Object>) {
    |specs| == |objects| && forall i | 0 <= i < |specs| :: specs[i].name == objects[i].name && SizeOf(specs[i]) == objects[i].bytes
  }

  lemma NoPadding(file: seq<Byte>, data: seq<Byte>)
    ensures file + Zeros(0) + data == file + data
  {
  }

  /** A write of one chunk to a writer of one two-byte object at offset 0. */
  method WriteChunk(writer: ArtifactWriter, data: seq<Byte>) returns (ok: bool)
    requires writer.Ready() && !writer.finished && writer.next == writer.cursor == 0 && |data| <= 2
    requires writer.directory.objects == [Object("r", Resource, RawBytes, 0, 2)]
    modifies writer`file, writer`cursor, writer`next, writer`contents
    ensures writer.Ready() && writer.file == old(writer.file) + data && (ok <==> |data| == 2)
    ensures if ok then writer.next == 1 && writer.cursor == 2 else writer.next == writer.cursor == 0
  {
    JoinOne(data);
    NoPadding(writer.file, data);
    var e := writer.Write("r", [data]);
    ok := e == NoError;
  }

  /** Repeating a write after a refused one succeeds and puts the wrong bytes in the payload. */
  method RetryAfterRefusal(c: Codec, identity: Identity) returns (payload: seq<Byte>)
    requires Faithful(c, Directory(identity, [Object("r", Resource, RawBytes, 0, 2)]))
    ensures payload == [1, 7]
  {
    var writer := new ArtifactWriter(c, Directory(identity, [Object("r", Resource, RawBytes, 0, 2)]));
    var header := writer.file;
    var refused := WriteChunk(writer, [1]);
    var accepted := WriteChunk(writer, [7, 8]);
    assert writer.file == header + [1, 7, 8];
    var done := writer.Finish();
    payload := writer.file[|header|..];
  }

  lemma JoinOne(data: seq<Byte>)
    ensures Join([data]) == data
  {
    assert [data][..0] == [];
  }

  /** One expected write of a writer that is right. */
  method WriteOne(writer: ArtifactWriter, name: string, bytes: int, payload: seq<seq<Byte>>) returns (ok: bool)
    requires writer.Valid() && !writer.finished && writer.next < |writer.directory.objects|
    requires writer.directory.objects[writer.next].name == name && writer.directory.objects[writer.next].bytes == bytes
    modifies writer
    ensures ok <==> |Join(payload)| == bytes
    ensures ok ==> writer.Valid() && !writer.finished && writer.next == old(writer.next) + 1
    ensures ok ==> writer.contents == old(writer.contents) + [Join(payload)]
  {
    var e := writer.Write(name, payload);
    ok := e == NoError;
  }

  /** Every payload has the size of its object. */
  ghost predicate Complete(objects: seq<Object>, payloads: seq<seq<seq<Byte>>>) {
    |objects| == |payloads| && forall i | 0 <= i < |objects| :: |Join(payloads[i])| == objects[i].bytes
  }

  ghost predicate CompleteUpTo(objects: seq<Object>, payloads: seq<seq<seq<Byte>>>, n: nat)
    requires n <= |objects| == |payloads|
  {
    n == 0 || (CompleteUpTo(objects, payloads, n - 1) && |Join(payloads[n - 1])| == objects[n - 1].bytes)
  }

  lemma {:induction false} CompleteAll(objects: seq<Object>, payloads: seq<seq<seq<Byte>>>, n: nat)
    requires n <= |objects| == |payloads| && CompleteUpTo(objects, payloads, n)
    ensures forall i | 0 <= i < n :: |Join(payloads[i])| == objects[i].bytes
  {
    if n > 0 { CompleteAll(objects, payloads, n - 1); }
  }

  /** The writes of `write_artifact`. */
  method WriteAll(writer: ArtifactWriter, payloads: seq<seq<seq<Byte>>>) returns (ok: bool)
    requires writer.Valid() && writer.next == 0 && writer.contents == [] && !writer.finished
    requires |payloads| == |writer.directory.objects|
    modifies writer
    ensures ok <==> Complete(writer.directory.objects, payloads)
    ensures ok ==> writer.Valid() && writer.next == |payloads| && writer.contents == JoinAll(payloads)
  {
    var objects := writer.directory.objects;
    for i := 0 to |payloads|
      invariant writer.Valid() && writer.next == i && !writer.finished
      invariant writer.contents == JoinFirst(payloads, i)
      invariant CompleteUpTo(objects, payloads, i)
    {
      ok := WriteOne(writer, objects[i].name, objects[i].bytes, payloads[i]);
      if !ok { return; }
    }
    CompleteAll(objects, payloads, |payloads|);
    return true;
  }

  /** The file opens as `d`, and every payload reads back from it. */
  ghost predicate ReadsBack(c: Codec, d: Directory, contents: seq<seq<Byte>>, file: seq<Byte>) {
    var start := PayloadStart(|c.encode(d)|);
    && Open(c, file) == Opened(d, start) && |contents| == |d.objects|
    && forall i | 0 <= i < |contents| ::
         start + End(d.objects[i]) <= |file| && Payload(file, start, d.objects[i]) == contents[i]
  }

  /** What the writer and the readers need of a planned directory. */
  lemma PlannedDirectory(specs: seq<Spec>)
    requires WellNamed(specs)
    ensures var objects := Planned(specs);
            RangesFrom(objects, 0, PlanEnd(objects)) && Follow(objects) && NamesUnique(objects) && Matches(specs, objects)
  {
    var objects := Planned(specs);
    PlannedRanges(specs, PlanEnd(objects));
    RangesFollow(objects, PlanEnd(objects));
    WellNamedSpec(specs);
    forall i | 0 <= i < |specs| ensures specs[i].name == objects[i].name && SizeOf(specs[i]) == objects[i].bytes {
      PlannedSpec(specs, i);
    }
  }

  function FileSize(c: Codec, d: Directory): nat {
    PayloadStart(|c.encode(d)|) + PlanEnd(d.objects)
  }

  lemma WrittenReadsBack(c: Codec, d: Directory, contents: seq<seq<Byte>>, file: seq<Byte>)
    requires Faithful(c, d) && RangesFrom(d.objects, 0, PlanEnd(d.objects)) && NamesUnique(d.objects)
    requires RightFile(d.objects, contents, Header(c, d), PlanEnd(d.objects), file)
    ensures ReadsBack(c, d, contents, file) && |file| == FileSize(c, d)
  {
    assert file == Header(c, d) + Image(d.objects, contents);
    OpenWritten(c, d, contents);
    var start := PayloadStart(|c.encode(d)|);
    forall i | 0 <= i < |contents|
      ensures start + End(d.objects[i]) <= |file| && Payload(file, start, d.objects[i]) == contents[i]
    {
      PayloadWritten(c, d, contents, i);
    }
  }

  /** Writes the payloads of a planned directory; `None` if one has not the planned size. */
  method WriteDirectory(c: Codec, d: Directory, payloads: seq<seq<seq<Byte>>>) returns (file: Option<seq<Byte>>)
    requires |payloads| == |d.objects| && Faithful(c, d)
    requires RangesFrom(d.objects, 0, PlanEnd(d.objects)) && Follow(d.objects) && NamesUnique(d.objects)
    ensures file.Some? <==> Complete(d.objects, payloads)
    ensures file.Some? ==> ReadsBack(c, d, JoinAll(payloads), file.value) && |file.value| == FileSize(c, d)
  {
    var writer := new ArtifactWriter(c, d);
    var ok := WriteAll(writer, payloads);
    if !ok { return None; }
    var e := writer.Finish();
    assert d.objects[..|payloads|] == d.objects;
    WrittenReadsBack(c, d, writer.contents, writer.file);
    return Some(writer.file);
  }

  /** `write_artifact`: an acceptable inventory with payloads of the planned sizes gives a file that opens as the planned
      directory and from which every payload reads back, whatever the chunking; `None` is an `ArtifactError`. */
  method WriteArtifact(c: Codec, identity: Identity, specs: seq<Spec>, payloads: seq<seq<seq<Byte>>>)
    returns (file: Option<seq<Byte>>)
    requires |payloads| == |specs|
    requires WellNamed(specs) ==> Faithful(c, Directory(identity, Planned(specs)))
    ensures file.Some? <==> specs != [] && WellNamed(specs) && Sized(specs, payloads)
    ensures file.Some? ==> ReadsBack(c, Directory(identity, Planned(specs)), JoinAll(payloads), file.value)
    ensures file.Some? ==> |file.value| == FileSize(c, Directory(identity, Planned(specs)))
  {
    var objects := PlanObjects(specs);
    if objects.None? { return None; }
    PlannedDirectory(specs);
    assert Complete(objects.value, payloads) <==> Sized(specs, payloads);
    file := WriteDirectory(c, Directory(identity, objects.value), payloads);
  }

  lemma {:induction false} JoinPrefix(chunks: seq<seq<Byte>>, i: nat)
    requires i <= |chunks|
    ensures |Join(chunks[..i])| <= |Join(chunks)|
  {
    var n := |chunks| - 1;
    if i <= n {
      assert chunks[..n][..i] == chunks[..i];
      JoinPrefix(chunks[..n], i);
    } else {
      assert chunks[..i] == chunks;
    }
  }
}
