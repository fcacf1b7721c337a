/** Chunked upload of internal/attachment/service.go, with the daemon stopping at any point between
    the writes of a call. */
module Upload {
  import opened Text

  datatype Stage = Uploading | Completed | Cancelled

  datatype Meta = Meta(owner: string, size: nat, received: nat, sha256: string, stage: Stage)

  datatype Error = NotFound | OwnerMismatch | InvalidOffset | QuotaExceeded | Checksum | InvalidState | BadChecksumText

  datatype Result<+T> = Ok(value: T) | Err(error: Error)

  /** Metadata records, .part files and .blob files, by blob id. */
  datatype Disk = Disk(meta: map<string, Meta>, parts: map<string, string>, blobs: map<string, string>)

  datatype Config = Config(maxBytes: nat, chunkSize: nat)

  /** os.File.WriteAt: fills a gap with zero bytes and keeps what lies beyond. */
  function WriteAt(file: string, data: string, offset: nat): string {
    (if offset <= |file| then file[..offset] else file + seq(offset - |file|, _ => '\0'))
    + data + (if offset + |data| <= |file| then file[offset + |data|..] else "")
  }

  predicate IsHex(c: char) { '0' <= c <= '9' || 'a' <= c <= 'f' || 'A' <= c <= 'F' }

  function Lower(c: char): char { if 'A' <= c <= 'Z' then c - 'A' + 'a' else c }

  function ToLower(s: string): string { seq(|s|, i requires 0 <= i < |s| => Lower(s[i])) }

  function Init(d: Disk, cfg: Config, id: string, owner: string, name: string, sha256: string, size: int): (Disk, Result<Meta>) {
    if owner == "" || name == "" || size < 0 || size > cfg.maxBytes then (d, Err(QuotaExceeded))
    else if |sha256| != 64 || !(forall i :: 0 <= i < |sha256| ==> IsHex(sha256[i])) then (d, Err(BadChecksumText))
    else
      var meta := Meta(owner, size, 0, ToLower(sha256), Uploading);
      (d.(meta := d.meta[id := meta], parts := d.parts[id := ""]), Ok(meta))
  }

  /** The checks a chunk passes before anything is written. */
  function CheckChunk(d: Disk, cfg: Config, owner: string, id: string, offset: int, data: string): Result<Meta> {
    if id !in d.meta then Err(NotFound)
    else
      var meta := d.meta[id];
      if meta.owner != owner then Err(OwnerMismatch)
      else if meta.stage != Uploading then Err(InvalidState)
      else if offset != meta.received then Err(InvalidOffset)
      else if |data| > cfg.chunkSize || meta.received + |data| > meta.size then Err(QuotaExceeded)
      else if id !in d.parts then Err(NotFound)
      else Ok(meta)
  }

  function PutChunk(d: Disk, cfg: Config, owner: string, id: string, offset: int, data: string): (Disk, Result<Meta>) {
    match CheckChunk(d, cfg, owner, id, offset, data)
    case Err(e) => (d, Err(e))
    case Ok(meta) =>
      var next := meta.(received := meta.received + |data|);
      (d.(parts := d.parts[id := WriteAt(d.parts[id], data, meta.received)], meta := d.meta[id := next]), Ok(next))
  }

  /** The checks of Complete; the digest is of the part file as it lies on disk. */
  function CheckComplete(d: Disk, digest: string -> string, owner: string, id: string): Result<Meta> {
    if id !in d.meta then Err(NotFound)
    else
      var meta := d.meta[id];
      if meta.owner != owner then Err(OwnerMismatch)
      else if meta.stage != Uploading || meta.received != meta.size then Err(InvalidState)
      else if id !in d.parts then Err(NotFound)
      else if digest(d.parts[id]) != meta.sha256 then Err(Checksum)
      else Ok(meta)
  }

  function Rename(d: Disk, id: string): Disk
    requires id in d.parts
  {
    d.(blobs := d.blobs[id := d.parts[id]], parts := d.parts - {id})
  }

  function Complete(d: Disk, digest: string -> string, owner: string, id: string): (Disk, Result<Meta>) {
    match CheckComplete(d, digest, owner, id)
    case Err(e) => (d, Err(e))
    case Ok(meta) =>
      var next := meta.(stage := Completed);
      (Rename(d, id).(meta := d.meta[id := next]), Ok(next))
  }

  function Cancel(d: Disk, owner: string, id: string): (Disk, Result<Meta>) {
    if id !in d.meta then (d, Err(NotFound))
    else if d.meta[id].owner != owner then (d, Err(OwnerMismatch))
    else if d.meta[id].stage == Completed then (d, Err(InvalidState))
    else
      var next := d.meta[id].(stage := Cancelled);
      (d.(meta := d.meta[id := next], parts := d.parts - {id}), Ok(next))
  }

  function ReadRange(d: Disk, cfg: Config, owner: string, id: string, start: int, end: int): Result<string> {
    if id !in d.meta then Err(NotFound)
    else
      var meta := d.meta[id];
      if meta.owner != owner then Err(OwnerMismatch)
      else if meta.stage != Completed then Err(InvalidState)
      else if start < 0 || end < start || end >= meta.size || end - start + 1 > cfg.chunkSize then Err(InvalidOffset)
      else if id !in d.blobs then Err(NotFound)
      else Ok(Fill(d.blobs[id], start, end))
  }

  /** A buffer of the range's length, filled from the file as far as it reaches. */
  function Fill(file: string, start: nat, end: int): string
    requires start <= end
  {
    seq(end - start + 1, i requires 0 <= i => if start + i < |file| then file[start + i] else '\0')
  }

  // ---- runs with crashes ----

  /** The disk, and per blob the bytes of the chunks whose call was acknowledged. */
  datatype World = World(disk: Disk, accepted: map<string, string>)

  datatype Action =
    | DoInit(id: string, owner: string, name: string, sha256: string, size: int)
    | DoPut(id: string, owner: string, offset: int, data: string)
    | DoComplete(id: string, owner: string)
    | DoCancel(id: string, owner: string)
    | CrashInit(id: string, owner: string, name: string, sha256: string, size: int) // no part file yet
    | CrashPut(id: string, owner: string, offset: int, data: string, written: nat)   // some bytes, no metadata
    | CrashComplete(id: string, owner: string)                                       // renamed, no metadata
    | CrashCancel(id: string, owner: string)                                         // removed, no metadata

  function Step(cfg: Config, digest: string -> string, w: World, a: Action): World {
    var d := w.disk;
    match a
    case DoInit(id, owner, name, sha256, size) =>
      if id in d.meta || id in d.parts || id in d.blobs then w // a UUID is not used twice
      else
        var (next, r) := Init(d, cfg, id, owner, name, sha256, size);
        if r.Ok? then World(next, w.accepted[id := ""]) else w
    case DoPut(id, owner, offset, data) =>
      var (next, r) := PutChunk(d, cfg, owner, id, offset, data);
      if r.Ok? && id in w.accepted then World(next, w.accepted[id := w.accepted[id] + data]) else w
    case DoComplete(id, owner) => w.(disk := Complete(d, digest, owner, id).0)
    case DoCancel(id, owner) => w.(disk := Cancel(d, owner, id).0)
    case CrashInit(id, owner, name, sha256, size) =>
      if id in d.meta || id in d.parts || id in d.blobs then w
      else
        var (next, r) := Init(d, cfg, id, owner, name, sha256, size);
        if r.Ok? then World(next.(parts := d.parts), w.accepted[id := ""]) else w
    case CrashPut(id, owner, offset, data, written) =>
      if CheckChunk(d, cfg, owner, id, offset, data).Ok? && written <= |data|
      then w.(disk := d.(parts := d.parts[id := WriteAt(d.parts[id], data[..written], d.meta[id].received)]))
      else w
    case CrashComplete(id, owner) =>
      if CheckComplete(d, digest, owner, id).Ok? then w.(disk := Rename(d, id)) else w
    case CrashCancel(id, owner) =>
      if Cancel(d, owner, id).1.Ok? then w.(disk := d.(parts := d.parts - {id})) else w
  }

  function Run(cfg: Config, digest: string -> string, actions: seq<Action>): World {
    if actions == [] then World(Disk(map[], map[], map[]), map[])
    else Step(cfg, digest, Run(cfg, digest, actions[..|actions| - 1]), actions[|actions| - 1])
  }

  /** What holds of one blob, whatever crashed. */
  predicate BlobFits(digest: string -> string, w: World, id: string)
    requires id in w.disk.meta
  {
    var meta := w.disk.meta[id];
    && id in w.accepted && meta.received == |w.accepted[id]| && meta.received <= meta.size
    && (id in w.disk.parts ==>
          && id !in w.disk.blobs
          && meta.received <= |w.disk.parts[id]| <= meta.size
          && w.disk.parts[id][..meta.received] == w.accepted[id])
    && (id in w.disk.blobs ==>
          w.disk.blobs[id] == w.accepted[id] && meta.received == meta.size && digest(w.disk.blobs[id]) == meta.sha256)
    && (meta.stage == Completed ==> id in w.disk.blobs)
  }

  predicate Inv(digest: string -> string, w: World) {
    && w.disk.parts.Keys <= w.disk.meta.Keys && w.disk.blobs.Keys <= w.disk.meta.Keys
    && forall id :: id in w.disk.meta ==> BlobFits(digest, w, id)
  }

  lemma WriteAtEnd(file: string, data: string, offset: nat)
    requires offset <= |file|
    ensures WriteAt(file, data, offset)[..offset + |data|] == file[..offset] + data
    ensures |WriteAt(file, data, offset)| == if offset + |data| <= |file| then |file| else offset + |data|
    ensures WriteAt(file, data, offset)[..offset] == file[..offset]
  {
  }

  lemma PutKeeps(cfg: Config, digest: string -> string, w: World, a: Action)
    requires Inv(digest, w) && (a.DoPut? || a.CrashPut?)
    ensures Inv(digest, Step(cfg, digest, w, a))
  {
    var d, w' := w.disk, Step(cfg, digest, w, a);
    if CheckChunk(d, cfg, a.owner, a.id, a.offset, a.data).Ok? {
      var meta := d.meta[a.id];
      assert BlobFits(digest, w, a.id);
      var data := if a.CrashPut? && a.written <= |a.data| then a.data[..a.written] else a.data;
      WriteAtEnd(d.parts[a.id], data, meta.received);
      assert BlobFits(digest, w', a.id);
      forall id | id in w'.disk.meta && id != a.id ensures BlobFits(digest, w', id) {
        assert BlobFits(digest, w, id);
      }
    }
  }

  lemma InitKeeps(cfg: Config, digest: string -> string, w: World, a: Action)
    requires Inv(digest, w) && (a.DoInit? || a.CrashInit?)
    ensures Inv(digest, Step(cfg, digest, w, a))
  {
    var w' := Step(cfg, digest, w, a);
    forall id | id in w'.disk.meta ensures BlobFits(digest, w', id) {
      assert id in w.disk.meta ==> BlobFits(digest, w, id);
    }
  }

  lemma OtherKeeps(cfg: Config, digest: string -> string, w: World, a: Action)
    requires Inv(digest, w) && !a.DoPut? && !a.CrashPut? && !a.DoInit? && !a.CrashInit?
    ensures Inv(digest, Step(cfg, digest, w, a))
  {
    var w' := Step(cfg, digest, w, a);
    forall id | id in w'.disk.meta ensures BlobFits(digest, w', id) {
      if id in w.disk.meta {
        assert BlobFits(digest, w, id);
        if id in w.disk.parts {
          var part, n := w.disk.parts[id], w.disk.meta[id].received;
          assert |part| == n ==> part[..n] == part;
        }
      }
    }
  }

  lemma {:induction false} RunKeeps(cfg: Config, digest: string -> string, actions: seq<Action>)
    ensures Inv(digest, Run(cfg, digest, actions))
    decreases |actions|
  {
    if actions != [] {
      var w, a := Run(cfg, digest, actions[..|actions| - 1]), actions[|actions| - 1];
      RunKeeps(cfg, digest, actions[..|actions| - 1]);
      if a.DoPut? || a.CrashPut? {
        PutKeeps(cfg, digest, w, a);
      } else if a.DoInit? || a.CrashInit? {
        InitKeeps(cfg, digest, w, a);
      } else {
        OtherKeeps(cfg, digest, w, a);
      }
    }
  }

  /** Upload under crashes. In every run the first `received` bytes of a part file are the accepted
      bytes and its length lies between `received` and `size`; and whatever has been published, by a
      call that returned or one that crashed after the rename, is exactly `size` accepted bytes with
      the announced digest. */
  lemma UploadUnderCrashes(cfg: Config, digest: string -> string, actions: seq<Action>, id: string)
    requires id in Run(cfg, digest, actions).disk.meta
    ensures var w := Run(cfg, digest, actions);
            var meta := w.disk.meta[id];
            && id in w.accepted && |w.accepted[id]| == meta.received <= meta.size
            && (id in w.disk.parts ==> meta.received <= |w.disk.parts[id]| <= meta.size
                                        && w.disk.parts[id][..meta.received] == w.accepted[id])
            && (meta.stage == Completed ==> id in w.disk.blobs)
            && (id in w.disk.blobs ==> w.disk.blobs[id] == w.accepted[id] && |w.disk.blobs[id]| == meta.size
                                        && digest(w.disk.blobs[id]) == meta.sha256)
  {
    RunKeeps(cfg, digest, actions);
    assert BlobFits(digest, Run(cfg, digest, actions), id);
  }

  lemma FillExact(file: string, start: nat, end: nat)
    requires start <= end < |file|
    ensures Fill(file, start, end) == file[start..end + 1]
  {
  }

  lemma ReadFits(digest: string -> string, w: World, cfg: Config, owner: string, id: string, start: int, end: int)
    requires ReadRange(w.disk, cfg, owner, id, start, end).Ok? && BlobFits(digest, w, id)
    ensures 0 <= start <= end < |w.accepted[id]|
    ensures ReadRange(w.disk, cfg, owner, id, start, end).value == w.accepted[id][start..end + 1]
  {
    FillExact(w.disk.blobs[id], start, end);
  }

  /** Every range the service reads out of a completed blob is that slice of the accepted bytes. */
  lemma ReadRangeExact(cfg: Config, digest: string -> string, actions: seq<Action>, owner: string, id: string, start: int, end: int)
    requires ReadRange(Run(cfg, digest, actions).disk, cfg, owner, id, start, end).Ok?
    ensures var w := Run(cfg, digest, actions);
            id in w.accepted && 0 <= start <= end < |w.accepted[id]|
            && ReadRange(w.disk, cfg, owner, id, start, end).value == w.accepted[id][start..end + 1]
  {
    RunKeeps(cfg, digest, actions);
    ReadFits(digest, Run(cfg, digest, actions), cfg, owner, id, start, end);
  }
}
