/** The attachment calls as they run under the service's mutex, write after write. The service keeps the
    invariant of every upload run, and a call touches one blob only. */
module UploadService {
  import opened Text
  import opened Upload

  /** No other blob's metadata or files differ. */
  predicate OnlyBlob(d: Disk, d': Disk, id: string) {
    && d'.meta.Keys + {id} == d.meta.Keys + {id} && d'.parts.Keys + {id} == d.parts.Keys + {id} && d'.blobs.Keys + {id} == d.blobs.Keys + {id}
    && (forall x <- d.meta :: x != id ==> d'.meta[x] == d.meta[x])
    && (forall x <- d.parts :: x != id ==> d'.parts[x] == d.parts[x])
    && (forall x <- d.blobs :: x != id ==> d'.blobs[x] == d.blobs[x])
  }

  lemma InitOnly(d: Disk, cfg: Config, id: string, owner: string, name: string, sha256: string, size: int)
    ensures OnlyBlob(d, Init(d, cfg, id, owner, name, sha256, size).0, id)
  {
  }

  lemma PutOnly(d: Disk, cfg: Config, owner: string, id: string, offset: int, data: string)
    ensures OnlyBlob(d, PutChunk(d, cfg, owner, id, offset, data).0, id)
  {
  }

  /** A chunk that passes its tests is written and accepted; any other leaves everything as it is. */
  lemma PutFacts(cfg: Config, digest: string -> string, w: World, owner: string, id: string, offset: int, data: string)
    requires Inv(digest, w)
    ensures var (d, r) := PutChunk(w.disk, cfg, owner, id, offset, data);
            && OnlyBlob(w.disk, d, id) && r.Ok? == CheckChunk(w.disk, cfg, owner, id, offset, data).Ok?
            && (r.Err? ==> d == w.disk)
            && (r.Ok? ==> id in w.accepted && offset == |w.accepted[id]| && Inv(digest, World(d, w.accepted[id := w.accepted[id] + data])))
  {
    PutKeeps(cfg, digest, w, DoPut(id, owner, offset, data));
    PutOnly(w.disk, cfg, owner, id, offset, data);
    assert id in w.disk.meta ==> BlobFits(digest, w, id);
  }

  lemma CompleteOnly(d: Disk, digest: string -> string, owner: string, id: string)
    ensures OnlyBlob(d, Complete(d, digest, owner, id).0, id)
  {
  }

  lemma CancelOnly(d: Disk, owner: string, id: string)
    ensures OnlyBlob(d, Cancel(d, owner, id).0, id)
  {
  }

  class Service {
    const config: Config
    const digest: string -> string
    var meta: map<string, Meta>
    var parts: map<string, string>
    var blobs: map<string, string>
    /** Per blob, the bytes of the chunks whose call succeeded. */
    ghost var accepted: map<string, string>

    function Contents(): Disk
      reads this
    {
      Disk(meta, parts, blobs)
    }

    ghost function Now(): World
      reads this
    {
      World(Contents(), accepted)
    }

    /** The part-file invariant of `Upload`: part files start with the accepted bytes, published blobs are them. */
    ghost predicate Valid()
      reads this
    {
      Inv(digest, Now())
    }

    constructor (maxBytes: int, chunkSize: int, digest: string -> string)
      ensures Valid() && Now() == World(Disk(map[], map[], map[]), map[]) && this.digest == digest
      ensures config == Config(if maxBytes <= 0 then 0x4000_0000 else maxBytes, if chunkSize <= 0 then 0x40_0000 else chunkSize)
    {
      config := Config(if maxBytes <= 0 then 0x4000_0000 else maxBytes, if chunkSize <= 0 then 0x40_0000 else chunkSize);
      this.digest := digest;
      meta, parts, blobs, accepted := map[], map[], map[], map[];
    }

    /** `id` is a new UUID. */
    method InitBlob(id: string, owner: string, name: string, sha256: string, size: int) returns (r: Result<Meta>)
      requires Valid() && id !in meta && id !in parts && id !in blobs
      modifies this
      ensures Valid() && OnlyBlob(old(Contents()), Contents(), id)
      ensures (Contents(), r) == Init(old(Contents()), config, id, owner, name, sha256, size)
      ensures accepted == if r.Ok? then old(accepted)[id := ""] else old(accepted)
    {
      InitKeeps(config, digest, Now(), DoInit(id, owner, name, sha256, size));
      InitOnly(Contents(), config, id, owner, name, sha256, size);
      if owner == "" || name == "" || size < 0 || size > config.maxBytes {
        return Err(QuotaExceeded);
      }
      if |sha256| != 64 {
        return Err(BadChecksumText);
      }
      if !(forall i :: 0 <= i < |sha256| ==> IsHex(sha256[i])) {
        return Err(BadChecksumText);
      }
      var value := Meta(owner, size, 0, ToLower(sha256), Uploading);
      meta := meta[id := value];
      parts := parts[id := ""];
      accepted := accepted[id := ""];
      return Ok(value);
    }

    /** An accepted chunk is appended to the accepted bytes, which the part file then starts with. */
    method Put(owner: string, id: string, offset: int, data: string) returns (r: Result<Meta>)
      requires Valid()
      modifies this
      ensures Valid() && OnlyBlob(old(Contents()), Contents(), id)
      ensures (Contents(), r) == PutChunk(old(Contents()), config, owner, id, offset, data)
      ensures r.Ok? ==> id in old(accepted) && accepted == old(accepted)[id := old(accepted)[id] + data] && offset == |old(accepted)[id]|
      ensures r.Err? ==> accepted == old(accepted)
    {
      PutFacts(config, digest, Now(), owner, id, offset, data);
      r := PutIfFit(owner, id, offset, data);
      if r.Ok? {
        accepted := accepted[id := accepted[id] + data];
      }
    }

    method PutIfFit(owner: string, id: string, offset: int, data: string) returns (r: Result<Meta>)
      modifies this`parts, this`meta
      ensures (Contents(), r) == PutChunk(old(Contents()), config, owner, id, offset, data)
    {
      var checked := Check(owner, id, offset, data);
      if checked.Err? {
        return checked;
      }
      var value := checked.value.(received := checked.value.received + |data|);
      WriteChunk(id, data, checked.value.received, value);
      return Ok(value);
    }

    /** First the part file, then the metadata. */
    method WriteChunk(id: string, data: string, offset: nat, value: Meta)
      requires id in parts
      modifies this`parts, this`meta
      ensures Contents() == old(Contents()).(parts := old(parts)[id := WriteAt(old(parts)[id], data, offset)], meta := old(meta)[id := value])
    {
      parts := parts[id := WriteAt(parts[id], data, offset)];
      meta := meta[id := value];
    }

    /** The tests a chunk has to pass, in order. */
    method Check(owner: string, id: string, offset: int, data: string) returns (r: Result<Meta>)
      ensures r == CheckChunk(Contents(), config, owner, id, offset, data)
    {
      if id !in meta {
        return Err(NotFound);
      }
      var value := meta[id];
      if value.owner != owner {
        return Err(OwnerMismatch);
      }
      if value.stage != Uploading {
        return Err(InvalidState);
      }
      if offset != value.received {
        return Err(InvalidOffset);
      }
      if |data| > config.chunkSize || value.received + |data| > value.size {
        return Err(QuotaExceeded);
      }
      if id !in parts {
        return Err(NotFound);
      }
      return Ok(value);
    }

    /** What is published is exactly the accepted bytes, all `size` of them, with the announced digest. */
    method CompleteBlob(owner: string, id: string) returns (r: Result<Meta>)
      requires Valid()
      modifies this`meta, this`parts, this`blobs
      ensures Valid() && OnlyBlob(old(Contents()), Contents(), id)
      ensures (Contents(), r) == Complete(old(Contents()), digest, owner, id)
      ensures r.Ok? ==> id in blobs && id in accepted && blobs[id] == accepted[id] && |blobs[id]| == r.value.size && digest(blobs[id]) == r.value.sha256
    {
      OtherKeeps(config, digest, Now(), DoComplete(id, owner));
      CompleteOnly(Contents(), digest, owner, id);
      if id !in meta {
        return Err(NotFound);
      }
      var value := meta[id];
      if value.owner != owner {
        return Err(OwnerMismatch);
      }
      if value.stage != Uploading || value.received != value.size {
        return Err(InvalidState);
      }
      if id !in parts {
        return Err(NotFound);
      }
      if digest(parts[id]) != value.sha256 {
        return Err(Checksum);
      }
      blobs := blobs[id := parts[id]];
      parts := parts - {id};
      value := value.(stage := Completed);
      meta := meta[id := value];
      assert Now() == Step(config, digest, old(Now()), DoComplete(id, owner));
      assert BlobFits(digest, Now(), id);
      return Ok(value);
    }

    method CancelBlob(owner: string, id: string) returns (r: Result<Meta>)
      requires Valid()
      modifies this`meta, this`parts
      ensures Valid() && OnlyBlob(old(Contents()), Contents(), id)
      ensures (Contents(), r) == Cancel(old(Contents()), owner, id)
      ensures r.Ok? ==> id !in parts
    {
      OtherKeeps(config, digest, Now(), DoCancel(id, owner));
      CancelOnly(Contents(), owner, id);
      if id !in meta {
        return Err(NotFound);
      }
      var value := meta[id];
      if value.owner != owner {
        return Err(OwnerMismatch);
      }
      if value.stage == Completed {
        return Err(InvalidState);
      }
      value := value.(stage := Cancelled);
      parts := parts - {id};
      meta := meta[id := value];
      assert Now() == Step(config, digest, old(Now()), DoCancel(id, owner));
      return Ok(value);
    }
  }
}
