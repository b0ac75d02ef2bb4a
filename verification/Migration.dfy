/** The in-place migration of a published v1 artifact, with a power failure at any byte. */
module Migration {
  import opened Wrappers
  import opened Bytes
  import opened ObjectTable
  import opened Container

  /** The artifact and the recovery file next to it. */
  datatype Disk = Disk(artifact: seq<Byte>, backup: Option<seq<Byte>>)

  /** `published` gives the v2 directory for v1 directory text and a whole file that match a published artifact's
      model id, digests and inventory. */
  datatype Tools = Tools(codec: Codec, published: (seq<Byte>, seq<Byte>) -> Option<Directory>, known: set<Identity>)

  /** Bytes written over a file from `at` on; a file that is too short grows. */
  function Overlay(file: seq<Byte>, at: nat, data: seq<Byte>): (r: seq<Byte>)
    requires at <= |file|
    ensures at + |data| <= |file| ==> |r| == |file|
  {
    file[..at] + data + (if at + |data| <= |file| then file[at + |data|..] else [])
  }

  // ---- What the program reads ----

  datatype Version = NotV2 | InvalidV2 | ValidV2(identity: Identity)

  /** `_already_v2`. */
  function AlreadyV2(t: Tools, file: seq<Byte>): Version {
    if |file| < 8 || file[..8] != MAGIC then NotV2 else
    var r := Open(t.codec, file);
    if r.Rejected? || r.directory.identity !in t.known then InvalidV2 else ValidV2(r.directory.identity)
  }

  function V1Start(file: seq<Byte>): nat
    requires |file| >= PREFIX_BYTES
  {
    PayloadStart(Value(file[8..16]))
  }

  /** `_read_v1_directory`, the digests and `_validate_inventory`; `None` is a `MigrationError`. */
  function ReadV1(t: Tools, file: seq<Byte>): Option<Directory> {
    if |file| < PREFIX_BYTES || file[..8] != V1_MAGIC then None else
    var jsonBytes := Value(file[8..16]);
    if jsonBytes == 0 || PREFIX_BYTES + jsonBytes > |file| || V1Start(file) > |file| then None else
    t.published(file[PREFIX_BYTES..PREFIX_BYTES + jsonBytes], file)
  }

  /** The checks of `_restore_backup`. */
  predicate BackupOk(data: seq<Byte>) {
    |data| >= PREFIX_BYTES && data[..8] == V1_MAGIC && Value(data[8..16]) > 0 && V1Start(data) == |data|
  }

  // ---- A migration in progress ----

  datatype Job = Job(original: seq<Byte>, directory: Directory)

  function Json(t: Tools, job: Job): seq<Byte> { t.codec.encode(job.directory) }

  function Start(t: Tools, job: Job): nat { PayloadStart(|Json(t, job)|) }

  /** No proper prefix of the directory text parses, nor the text followed by a NUL. */
  ghost predicate SelfDelimiting(parse: seq<Byte> -> Option<Directory>, json: seq<Byte>) {
    && (forall k | 0 <= k < |json| :: parse(json[..k]).None?)
    && (forall s | json + [0] <= s :: parse(s).None?)
  }

  /** The original is a published artifact whose v2 directory fits in the same metadata area. */
  ghost predicate JobOk(t: Tools, job: Job) {
    && ReadV1(t, job.original) == Some(job.directory) && V1Start(job.original) == Start(t, job)
    && Faithful(t.codec, job.directory) && SelfDelimiting(t.codec.parse, Json(t, job))
    && job.directory.identity in t.known && NamesUnique(job.directory.objects) && RangesFrom(job.directory.objects, 0, |job.original| - Start(t, job))
  }

  ghost function OldMetadata(t: Tools, job: Job): seq<Byte>
    requires JobOk(t, job)
  {
    job.original[..Start(t, job)]
  }

  function NewPrefix(t: Tools, job: Job): (p: seq<Byte>)
    ensures |p| == PREFIX_BYTES
  {
    MAGIC + Digits(|Json(t, job)|, 8)
  }

  /** The directory text, its padding and the payload. */
  ghost function Tail(t: Tools, job: Job): seq<Byte>
    requires JobOk(t, job)
  {
    Json(t, job) + Zeros(Start(t, job) - PREFIX_BYTES - |Json(t, job)|) + job.original[Start(t, job)..]
  }

  /** The new body under a prefix of which `k` bytes are new. */
  ghost function Torn(t: Tools, job: Job, k: nat): seq<Byte>
    requires JobOk(t, job) && k <= PREFIX_BYTES
  {
    NewPrefix(t, job)[..k] + job.original[k..PREFIX_BYTES] + Tail(t, job)
  }

  ghost function Migrated(t: Tools, job: Job): seq<Byte>
    requires JobOk(t, job)
  {
    NewPrefix(t, job) + Tail(t, job)
  }

  /** What a power failure can leave behind. */
  ghost predicate Recoverable(t: Tools, job: Job, d: Disk)
    requires JobOk(t, job)
  {
    && |d.artifact| == |job.original| && d.artifact[Start(t, job)..] == job.original[Start(t, job)..]
    && (|| (d.artifact == job.original && (d.backup.Some? ==> d.backup.value <= OldMetadata(t, job)))
        || (d.artifact == Migrated(t, job) && (d.backup.Some? ==> d.backup.value == OldMetadata(t, job)))
        || (d.backup == Some(OldMetadata(t, job)) && Between(t, job, d.artifact)))
  }

  /** Neither version: a v1 magic over changed metadata, or a v2 magic with a length that is still partly old. */
  ghost predicate Between(t: Tools, job: Job, artifact: seq<Byte>)
    requires JobOk(t, job)
  {
    || (|artifact| >= 8 && artifact[..8] == V1_MAGIC)
    || (exists k :: 8 <= k < PREFIX_BYTES && artifact == Torn(t, job, k))
  }

  // ---- Torn prefixes ----

  lemma TornPrefix(t: Tools, job: Job, k: nat)
    requires JobOk(t, job) && 8 <= k <= PREFIX_BYTES
    ensures var file, word := Torn(t, job, k), Digits(|Json(t, job)|, 8);
            && |file| == |job.original| && file[..8] == MAGIC
            && file[8..16] == word[..k - 8] + job.original[8..16][k - 8..]
            && file[PREFIX_BYTES..] == Tail(t, job)
  {
  }

  /** A file whose directory text does not parse is rejected. */
  lemma UnreadableRejected(c: Codec, file: seq<Byte>, length: nat)
    requires |file| >= PREFIX_BYTES && length == Value(file[8..16])
    requires PREFIX_BYTES + length <= |file| ==> c.parse(file[PREFIX_BYTES..PREFIX_BYTES + length]).None?
    ensures Open(c, file).Rejected?
  {
  }

  /** The new length makes the migrated file. */
  lemma TornComplete(t: Tools, job: Job, k: nat)
    requires JobOk(t, job) && 8 <= k <= PREFIX_BYTES && Value(Torn(t, job, k)[8..16]) == |Json(t, job)|
    ensures Torn(t, job, k) == Migrated(t, job)
  {
    var file, word := Torn(t, job, k), Digits(|Json(t, job)|, 8);
    TornPrefix(t, job, k);
    WordValue(|Json(t, job)|);
    ValueInjective(file[8..16], word);
    assert file == file[..8] + file[8..16] + file[PREFIX_BYTES..];
  }

  /** With the length only partly new, either the number already is the new length, or the file does not open. */
  lemma TornRejected(t: Tools, job: Job, k: nat)
    requires JobOk(t, job) && 8 <= k <= PREFIX_BYTES
    ensures Torn(t, job, k) == Migrated(t, job) || Open(t.codec, Torn(t, job, k)).Rejected?
  {
    TornPrefix(t, job, k);
    var file := Torn(t, job, k);
    var length := Value(file[8..16]);
    if length == |Json(t, job)| {
      TornComplete(t, job, k);
    } else {
      if PREFIX_BYTES + length <= |file| { TornDirectory(t, job, k, length); }
      UnreadableRejected(t.codec, file, length);
    }
  }

  lemma TornDirectory(t: Tools, job: Job, k: nat, length: nat)
    requires JobOk(t, job) && 8 <= k <= PREFIX_BYTES
    requires var file := Torn(t, job, k);
             length == Value(file[8..16]) && length != |Json(t, job)| && PREFIX_BYTES + length <= |file|
    ensures t.codec.parse(Torn(t, job, k)[PREFIX_BYTES..PREFIX_BYTES + length]).None?
  {
    var file, json := Torn(t, job, k), Json(t, job);
    TornPrefix(t, job, k);
    var text := file[PREFIX_BYTES..PREFIX_BYTES + length];
    assert text == Tail(t, job)[..length];
    if length < |json| {
      assert text == json[..length];
    } else {
      TornShort(t, job, k, length);
      assert json + [0] <= text;
    }
  }

  /** When the new text fills its block exactly, a torn length cannot exceed it. */
  lemma TornShort(t: Tools, job: Job, k: nat, length: nat)
    requires JobOk(t, job) && 8 <= k <= PREFIX_BYTES && length == Value(Torn(t, job, k)[8..16]) && |Json(t, job)| < length
    ensures PREFIX_BYTES + |Json(t, job)| < Start(t, job)
  {
    var word, was := Digits(|Json(t, job)|, 8), job.original[8..16];
    TornPrefix(t, job, k);
    WordValue(|Json(t, job)|);
    if Value(was) <= |Json(t, job)| {
      TornValue(was, word, k - 8);
      assert false;
    }
  }

  // ---- Writes that can stop half way ----

  lemma OverlayStep(file: seq<Byte>, at: nat, data: seq<Byte>, done: nat)
    requires at <= |file| && done < |data|
    ensures var now := Overlay(file, at, data[..done]);
            at + done <= |now| && Overlay(now, at + done, [data[done]]) == Overlay(file, at, data[..done + 1])
  {
    assert data[..done] + [data[done]] == data[..done + 1];
  }

  /** A computer with `power` effects left before it fails; writes are durable in program order, byte by byte. */
  class Computer {
    var disk: Disk
    var power: nat

    constructor (disk: Disk, power: nat)
      ensures this.disk == disk && this.power == power
    {
      this.disk, this.power := disk, power;
    }

    /** Overwrites part of the artifact; `done` bytes of it reach the disk. */
    method WriteArtifact(at: nat, data: seq<Byte>) returns (done: nat)
      requires at <= |disk.artifact|
      modifies this
      ensures done <= |data| && disk == Disk(Overlay(old(disk.artifact), at, data[..done]), old(disk.backup))
      ensures power + done == old(power) && (done < |data| ==> power == 0)
    {
      done := 0;
      assert Overlay(disk.artifact, at, []) == disk.artifact;
      while done < |data| && power > 0
        invariant done <= |data| && disk == Disk(Overlay(old(disk.artifact), at, data[..done]), old(disk.backup))
        invariant power + done == old(power)
      {
        OverlayStep(old(disk.artifact), at, data, done);
        disk := Disk(Overlay(disk.artifact, at + done, [data[done]]), disk.backup);
        power, done := power - 1, done + 1;
      }
    }

    /** `_write_backup`: creates the recovery file and fills it. */
    method WriteBackup(data: seq<Byte>) returns (alive: bool)
      modifies this
      ensures disk.artifact == old(disk.artifact) && (alive <==> |data| < old(power))
      ensures power == if alive then old(power) - 1 - |data| else 0
      ensures disk.backup == if alive then Some(data) else if old(power) == 0 then old(disk.backup) else Some(data[..old(power) - 1])
    {
      if power == 0 { return false; }
      disk, power := Disk(disk.artifact, Some([])), power - 1;
      var done := 0;
      while done < |data| && power > 0
        invariant done <= |data| && disk == Disk(old(disk.artifact), Some(data[..done])) && done + power == old(power) - 1
      {
        assert data[..done] + [data[done]] == data[..done + 1];
        disk := Disk(disk.artifact, Some(disk.backup.value + [data[done]]));
        power, done := power - 1, done + 1;
      }
      alive := done == |data|;
      assert alive ==> data[..done] == data;
    }

    method RemoveBackup() returns (alive: bool)
      modifies this
      ensures disk == if alive then Disk(old(disk.artifact), None) else old(disk)
      ensures (alive <==> old(power) > 0) && power == if alive then old(power) - 1 else 0
    {
      if power == 0 { return false; }
      disk, power := Disk(disk.artifact, None), power - 1;
      alive := true;
    }
  }

  datatype Outcome = PowerLost | Failed | Done(identity: Identity)

  /** The two magics differ in their last byte only, so restoring bytes before it changes nothing. */
  lemma SameStart(artifact: seq<Byte>, metadata: seq<Byte>, done: nat)
    requires done < 8 <= |metadata| <= |artifact|
    requires metadata[..8] == MAGIC || metadata[..8] == V1_MAGIC
    requires artifact[..8] == MAGIC || artifact[..8] == V1_MAGIC
    ensures Overlay(artifact, 0, metadata[..done]) == artifact
  {
    forall i | 0 <= i < done
      ensures metadata[i] == artifact[i]
    {
      assert metadata[i] == metadata[..8][i] == V1_MAGIC[i] && artifact[i] == artifact[..8][i];
      assert V1_MAGIC[i] == MAGIC[i];
    }
    assert metadata[..done] == artifact[..done];
  }

  lemma KnownMagic(t: Tools, job: Job, artifact: seq<Byte>)
    requires JobOk(t, job) && |artifact| == |job.original|
    requires artifact == Migrated(t, job) || Between(t, job, artifact)
    ensures artifact[..8] == MAGIC || artifact[..8] == V1_MAGIC
  {
    if artifact == Migrated(t, job) {
      assert artifact[..8] == MAGIC;
    } else if artifact[..8] != V1_MAGIC {
      var k :| 8 <= k < PREFIX_BYTES && artifact == Torn(t, job, k);
      TornPrefix(t, job, k);
    }
  }

  /** A restore that stops half way leaves the file as it was or with the v1 magic back. */
  lemma RestoredPrefix(t: Tools, job: Job, artifact: seq<Byte>, done: nat)
    requires JobOk(t, job) && |artifact| == |job.original| && done <= Start(t, job)
    requires artifact[Start(t, job)..] == job.original[Start(t, job)..]
    requires artifact == Migrated(t, job) || Between(t, job, artifact)
    ensures var now := Overlay(artifact, 0, OldMetadata(t, job)[..done]);
            && now[Start(t, job)..] == job.original[Start(t, job)..]
            && (now == artifact || now[..8] == V1_MAGIC)
            && (done == Start(t, job) ==> now == job.original)
  {
    var metadata := OldMetadata(t, job);
    assert metadata[..8] == V1_MAGIC;
    if done < 8 {
      KnownMagic(t, job, artifact);
      SameStart(artifact, metadata, done);
    } else {
      assert Overlay(artifact, 0, metadata[..done])[..8] == metadata[..8];
    }
  }

  /** Of the recovery files a failure can leave, exactly the complete one passes the checks. */
  lemma CompleteBackup(t: Tools, job: Job, data: seq<Byte>)
    requires JobOk(t, job) && data <= OldMetadata(t, job)
    ensures BackupOk(data) <==> data == OldMetadata(t, job)
  {
    var all := OldMetadata(t, job);
    if |data| >= PREFIX_BYTES {
      assert data[8..16] == all[8..16] == job.original[8..16];
      assert data[..8] == all[..8] == job.original[..8];
    }
  }

  /** The disk is one that runs of the migration of `job`, interrupted anywhere, can have left. */
  ghost predicate Expected(t: Tools, job: Job, d: Disk) {
    JobOk(t, job) && Recoverable(t, job, d)
  }

  /** `_restore_backup`; `ok` is false when the recovery file fails its checks, and then nothing is changed. */
  method Restore(c: Computer, t: Tools, ghost job: Job) returns (ok: bool, alive: bool)
    requires c.disk.backup.Some?
    modifies c
    ensures ok <==> BackupOk(old(c.disk.backup).value)
    ensures !ok ==> alive && c.disk == old(c.disk) && c.power == old(c.power)
    ensures ok ==> (alive <==> |old(c.disk.backup).value| < old(c.power))
    ensures ok ==> c.power == if alive then old(c.power) - 1 - |old(c.disk.backup).value| else 0
    ensures ok && alive ==> c.disk == Disk(Overlay(old(c.disk.artifact), 0, old(c.disk.backup).value), None)
    ensures old(Expected(t, job, c.disk)) ==>
              && Expected(t, job, c.disk) && (ok <==> old(c.disk.backup) == Some(OldMetadata(t, job)))
              && (ok && alive ==> c.disk == Disk(job.original, None))
  {
    var data := c.disk.backup.value;
    ghost var expected, artifact := Expected(t, job, c.disk), c.disk.artifact;
    if expected { CompleteBackup(t, job, data); }
    if !BackupOk(data) { return false, true; }
    var done := c.WriteArtifact(0, data);
    if expected {
      assert Between(t, job, job.original);
      RestoredPrefix(t, job, artifact, done);
    }
    if done < |data| { return true, false; }
    assert data[..done] == data;
    alive := c.RemoveBackup();
    ok := true;
  }

  /** A body write that stops half way leaves a v1 magic over a complete backup. */
  lemma BodyPrefix(t: Tools, job: Job, body: seq<Byte>, done: nat)
    requires JobOk(t, job) && body == Json(t, job) + Zeros(Start(t, job) - PREFIX_BYTES - |Json(t, job)|) && done <= |body|
    ensures var now := Overlay(job.original, PREFIX_BYTES, body[..done]);
            && Recoverable(t, job, Disk(now, Some(OldMetadata(t, job))))
            && (done == |body| ==> now == Torn(t, job, 0))
  {
    var now := Overlay(job.original, PREFIX_BYTES, body[..done]);
    assert now[..8] == job.original[..8];
    if done == |body| {
      assert body[..done] == body;
      assert now == job.original[..PREFIX_BYTES] + (body + job.original[Start(t, job)..]);
      assert NewPrefix(t, job)[..0] + job.original[0..PREFIX_BYTES] == job.original[..PREFIX_BYTES];
    }
  }

  lemma TornPayload(t: Tools, job: Job, k: nat)
    requires JobOk(t, job) && k <= PREFIX_BYTES
    ensures |Torn(t, job, k)| == |job.original| && Torn(t, job, k)[Start(t, job)..] == job.original[Start(t, job)..]
    ensures k < 8 ==> Torn(t, job, k)[..8] == V1_MAGIC
    ensures k == PREFIX_BYTES ==> Torn(t, job, k) == Migrated(t, job)
  {
    var file, prefix := Torn(t, job, k), NewPrefix(t, job);
    assert file[PREFIX_BYTES..] == Tail(t, job);
    assert file[Start(t, job)..] == Tail(t, job)[Start(t, job) - PREFIX_BYTES..];
    if k < 8 {
      assert job.original[..8] == V1_MAGIC && prefix[..8] == MAGIC;
      SameStart(job.original, prefix, k);
      assert Overlay(job.original, 0, prefix[..k])[..8] == file[..8];
    }
  }

  /** A prefix write that stops half way leaves the v1 magic, or a v2 magic with a partly old length. */
  lemma PrefixWritten(t: Tools, job: Job, k: nat)
    requires JobOk(t, job) && k <= PREFIX_BYTES
    ensures var now := Overlay(Torn(t, job, 0), 0, NewPrefix(t, job)[..k]);
            && Recoverable(t, job, Disk(now, Some(OldMetadata(t, job))))
            && (k == PREFIX_BYTES ==> now == Migrated(t, job))
  {
    var torn, prefix := Torn(t, job, 0), NewPrefix(t, job);
    assert torn == job.original[..PREFIX_BYTES] + Tail(t, job);
    assert torn[k..] == job.original[k..PREFIX_BYTES] + Tail(t, job);
    assert Overlay(torn, 0, prefix[..k]) == prefix[..k] + torn[k..];
    assert Overlay(torn, 0, prefix[..k]) == Torn(t, job, k);
    TornPayload(t, job, k);
  }

  /** The converted artifact opens as the planned directory, so the verification after the writes cannot fail. */
  lemma MigratedOpens(t: Tools, job: Job)
    requires JobOk(t, job)
    ensures Open(t.codec, Migrated(t, job)) == Opened(job.directory, Start(t, job))
    ensures AlreadyV2(t, Migrated(t, job)) == ValidV2(job.directory.identity)
  {
    var file, json := Migrated(t, job), Json(t, job);
    HeaderParts(t.codec, job.directory, job.original[Start(t, job)..]);
    assert file == Header(t.codec, job.directory) + job.original[Start(t, job)..];
  }

  /** Backup, body, then the prefix that commits; each write may be the last. */
  method Convert(c: Computer, t: Tools, ghost job: Job, directory: Directory) returns (out: Outcome)
    requires c.disk.backup.None? && PayloadStart(|t.codec.encode(directory)|) <= |c.disk.artifact|
    modifies c
    ensures out.PowerLost? ==> c.power == 0
    ensures old(c.disk) == Disk(job.original, None) && directory == job.directory && JobOk(t, job) ==>
              && Recoverable(t, job, c.disk) && (out.PowerLost? || out == Done(directory.identity))
              && (out.Done? ==> c.disk == Disk(Migrated(t, job), None))
              && (out.Done? <==> 2 * Start(t, job) + 2 <= old(c.power))
  {
    ghost var expected := c.disk == Disk(job.original, None) && directory == job.directory && JobOk(t, job);
    var json := t.codec.encode(directory);
    var start := PayloadStart(|json|);
    var alive := c.WriteBackup(c.disk.artifact[..start]);
    if !alive { return PowerLost; }

    var body := json + Zeros(start - PREFIX_BYTES - |json|);
    var done := c.WriteArtifact(PREFIX_BYTES, body);
    if expected { BodyPrefix(t, job, body, done); }
    if done < |body| { return PowerLost; }
    assert body[..done] == body;

    var prefix := MAGIC + Digits(|json|, 8);
    done := c.WriteArtifact(0, prefix);
    if expected { PrefixWritten(t, job, done); }
    if done < |prefix| { return PowerLost; }

    if expected { MigratedOpens(t, job); }
    if Open(t.codec, c.disk.artifact) != Opened(directory, start) {
      var ok;
      ok, alive := Restore(c, t, job);
      return if alive then Failed else PowerLost;
    }
    alive := c.RemoveBackup();
    out := if alive then Done(directory.identity) else PowerLost;
  }

  /** What `_already_v2` says of a disk a failure can leave. */
  lemma VersionOf(t: Tools, job: Job, d: Disk)
    requires JobOk(t, job) && Recoverable(t, job, d)
    ensures match AlreadyV2(t, d.artifact)
            case ValidV2(id) => d.artifact == Migrated(t, job) && id == job.directory.identity
            case InvalidV2 => d.artifact != Migrated(t, job) && d.backup == Some(OldMetadata(t, job))
            case NotV2 =>
              d.artifact != Migrated(t, job) && (d.artifact == job.original || d.backup == Some(OldMetadata(t, job)))
  {
    MigratedOpens(t, job);
    if d.artifact == job.original {
      assert d.artifact[..8] == V1_MAGIC;
    } else if d.artifact != Migrated(t, job) && d.artifact[..8] != V1_MAGIC {
      var k :| 8 <= k < PREFIX_BYTES && d.artifact == Torn(t, job, k);
      TornRejected(t, job, k);
    }
  }

  /** The file is neither v2 nor a published v1 artifact that keeps its payload offset. */
  ghost predicate NotMigratable(t: Tools, file: seq<Byte>) {
    match AlreadyV2(t, file)
    case ValidV2(_) => false
    case InvalidV2 => true
    case NotV2 =>
      var d := ReadV1(t, file);
      d.None? || PayloadStart(|t.codec.encode(d.value)|) != V1Start(file)
  }

  /** The recovery file is there and not complete. */
  ghost predicate Stuck(t: Tools, job: Job, d: Disk)
    requires JobOk(t, job)
  {
    d.backup.Some? && d.backup != Some(OldMetadata(t, job))
  }

  /** How many effects separate a disk from the finished migration: restoring, then backup, body, prefix and removal. */
  ghost function Effects(t: Tools, job: Job, d: Disk): nat
    requires JobOk(t, job)
  {
    if d.artifact == Migrated(t, job) then (if d.backup.Some? then 1 else 0)
    else (if d.backup.Some? then Start(t, job) + 1 else 0) + 2 * Start(t, job) + 2
  }

  /** `_migrate`. From any disk that runs interrupted anywhere can have left, it leaves such a disk again wherever it is
      interrupted. It fails exactly when the recovery file is there and not complete; otherwise it ends in v2 exactly when
      power lasts for the effects that are left. A file without a recovery file is left alone if it is neither v1 nor v2,
      or not published, or already v2, when it is accepted exactly if it opens with a known identity. */
  method Migrate(c: Computer, t: Tools, ghost job: Job) returns (out: Outcome)
    modifies c
    ensures out.PowerLost? ==> c.power == 0
    ensures old(c.disk.backup.None? && NotMigratable(t, c.disk.artifact)) ==> out.Failed? && c.disk == old(c.disk)
    ensures old(c.disk.backup.None? && MAGIC <= c.disk.artifact) ==>
              && c.disk == old(c.disk)
              && (match Open(t.codec, old(c.disk.artifact))
                  case Rejected(_) => out.Failed?
                  case Opened(d, _) => out == if d.identity in t.known then Done(d.identity) else Failed)
    ensures old(c.disk.backup.None? && !(MAGIC <= c.disk.artifact) && !(V1_MAGIC <= c.disk.artifact)) ==>
              out.Failed? && c.disk == old(c.disk)
    ensures old(c.disk.backup.None? && !(MAGIC <= c.disk.artifact)) && (forall text :: t.published(text, old(c.disk.artifact)).None?) ==>
              out.Failed? && c.disk == old(c.disk)
    ensures old(Expected(t, job, c.disk)) ==>
              && Recoverable(t, job, c.disk)
              && (out.Done? ==> out == Done(job.directory.identity) && c.disk == Disk(Migrated(t, job), None))
              && (out.Failed? ==> c.disk == old(c.disk) && c.disk.artifact == job.original)
              && (out.Failed? <==> Stuck(t, job, old(c.disk)))
              && (out.Done? <==> !Stuck(t, job, old(c.disk)) && Effects(t, job, old(c.disk)) <= old(c.power))
  {
    ghost var expected := Expected(t, job, c.disk);
    if expected { VersionOf(t, job, c.disk); }
    var version := AlreadyV2(t, c.disk.artifact);
    if version.InvalidV2? && c.disk.backup.None? { return Failed; }
    if version.ValidV2? {
      if c.disk.backup.Some? {
        var alive := c.RemoveBackup();
        if !alive { return PowerLost; }
      }
      return Done(version.identity);
    }
    if c.disk.backup.Some? {
      var ok, alive := Restore(c, t, job);
      if !ok { return Failed; }
      if !alive { return PowerLost; }
    }
    var directory := ReadV1(t, c.disk.artifact);
    if directory.None? { return Failed; }
    if PayloadStart(|t.codec.encode(directory.value)|) != V1Start(c.disk.artifact) { return Failed; }
    out := Convert(c, t, job, directory.value);
  }

  /** Any number of runs, the i-th with power for `powers[i]` effects: at the end, as after every failure, the payload is
      untouched and the metadata is the original, or the planned v2, or the original is in the recovery file. */
  method Runs(t: Tools, job: Job, powers: seq<nat>) returns (d: Disk)
    requires JobOk(t, job)
    ensures Recoverable(t, job, d)
    ensures |d.artifact| == |job.original| && d.artifact[Start(t, job)..] == job.original[Start(t, job)..]
    ensures d.artifact == job.original || d.artifact == Migrated(t, job) || d.backup == Some(OldMetadata(t, job))
  {
    var c := new Computer(Disk(job.original, None), 0);
    for i := 0 to |powers|
      invariant Recoverable(t, job, c.disk)
    {
      c.power := powers[i];
      var out := Migrate(c, t, job);
    }
    d := c.disk;
  }

  /** A power failure while the recovery file is written stops the migration for good: every later run refuses. */
  method BlockedByTornBackup(t: Tools, job: Job, power: nat) returns (out: Outcome)
    requires JobOk(t, job)
    ensures out == Failed
  {
    var c := new Computer(Disk(job.original, None), 1);
    var alive := c.WriteBackup(job.original[..Start(t, job)]);
    assert c.disk == Disk(job.original, Some([]));
    c.power := power;
    out := Migrate(c, t, job);
  }
}
