/** When the calls of internal/attachment/service.go succeed and what they leave; and which uploads
    can still be completed after whatever crashes came before. */
module UploadLife {
  import opened Text
  import opened Upload

  // ---- one call ----

  predicate HexDigest(s: string) { |s| == 64 && forall i :: 0 <= i < 64 ==> s[i] in "0123456789abcdefABCDEF" }

  lemma HexDigits(c: char)
    ensures IsHex(c) <==> c in "0123456789abcdefABCDEF"
  {
    var digits := "0123456789abcdefABCDEF";
    if '0' <= c <= '9' {
      assert digits[c as int - '0' as int] == c;
    } else if 'a' <= c <= 'f' {
      assert digits[10 + c as int - 'a' as int] == c;
    } else if 'A' <= c <= 'F' {
      assert digits[16 + c as int - 'A' as int] == c;
    }
  }

  /** An upload is opened exactly for a named owner and file, a size within the limit and a hexadecimal
      SHA-256 digest; it starts with nothing received and an empty part file. */
  lemma InitExactly(d: Disk, cfg: Config, id: string, owner: string, name: string, sha256: string, size: int)
    ensures var (d', r) := Init(d, cfg, id, owner, name, sha256, size);
            && (r.Ok? <==> owner != "" && name != "" && 0 <= size <= cfg.maxBytes && HexDigest(sha256))
            && d' == (if r.Ok? then Disk(d.meta[id := r.value], d.parts[id := ""], d.blobs) else d)
            && (r.Ok? ==>
                && r.value.owner == owner && r.value.size == size && r.value.received == 0 && r.value.stage == Uploading
                && |r.value.sha256| == 64
                && forall i :: 0 <= i < 64 ==> r.value.sha256[i] == if 'A' <= sha256[i] <= 'F' then sha256[i] + ' ' else sha256[i])
  {
    forall c ensures IsHex(c) <==> c in "0123456789abcdefABCDEF" { HexDigits(c); }
  }

  /** An upload its owner may still add to. */
  predicate Open(w: World, owner: string, id: string) {
    id in w.disk.meta && w.disk.meta[id].owner == owner && w.disk.meta[id].stage == Uploading && id in w.disk.parts
  }

  /** The world with one blob's records replaced. */
  ghost predicate OnlyBlob(w: World, w': World, id: string) {
    && (forall x :: x != id ==> (x in w'.disk.meta <==> x in w.disk.meta) && (x in w'.disk.parts <==> x in w.disk.parts) && (x in w'.disk.blobs <==> x in w.disk.blobs))
    && (forall x <- w.disk.meta | x != id :: w'.disk.meta[x] == w.disk.meta[x])
    && (forall x <- w.disk.parts | x != id :: w'.disk.parts[x] == w.disk.parts[x])
    && (forall x <- w.disk.blobs | x != id :: w'.disk.blobs[x] == w.disk.blobs[x])
  }

  /** A chunk is taken exactly if the upload is open, it starts where the last one ended, and it fits the
      chunk limit and the announced size; a chunk that is not taken changes nothing. */
  lemma PutExactly(cfg: Config, digest: string -> string, w: World, owner: string, id: string, offset: int, data: string)
    requires Inv(digest, w)
    ensures var w' := Step(cfg, digest, w, DoPut(id, owner, offset, data));
            if Open(w, owner, id) && offset == |w.accepted[id]| && |data| <= cfg.chunkSize && offset + |data| <= w.disk.meta[id].size
            then Inv(digest, w') && OnlyBlob(w, w', id) && Open(w', owner, id) && w'.accepted == w.accepted[id := w.accepted[id] + data]
                 && w'.disk.meta[id] == w.disk.meta[id].(received := offset + |data|)
            else w' == w
  {
    if Open(w, owner, id) {
      assert BlobFits(digest, w, id);
      PutTaken(cfg, digest, w, owner, id, offset, data);
      PutKeeps(cfg, digest, w, DoPut(id, owner, offset, data));
    }
  }

  lemma PutTaken(cfg: Config, digest: string -> string, w: World, owner: string, id: string, offset: int, data: string)
    requires Open(w, owner, id) && BlobFits(digest, w, id)
    ensures var w' := Step(cfg, digest, w, DoPut(id, owner, offset, data));
            if offset == |w.accepted[id]| && |data| <= cfg.chunkSize && offset + |data| <= w.disk.meta[id].size
            then OnlyBlob(w, w', id) && Open(w', owner, id) && w'.accepted == w.accepted[id := w.accepted[id] + data]
                 && w'.disk.meta[id] == w.disk.meta[id].(received := offset + |data|)
            else w' == w
  {
  }

  /** Completion succeeds exactly for an open upload of which everything was accepted and whose bytes
      have the announced digest, and publishes the accepted bytes. */
  lemma CompleteExactly(cfg: Config, digest: string -> string, w: World, owner: string, id: string)
    requires Inv(digest, w)
    ensures var w' := Step(cfg, digest, w, DoComplete(id, owner));
            if Open(w, owner, id) && |w.accepted[id]| == w.disk.meta[id].size && digest(w.accepted[id]) == w.disk.meta[id].sha256
            then OnlyBlob(w, w', id) && w'.disk.meta[id] == w.disk.meta[id].(stage := Completed) && id in w'.disk.blobs
                 && w'.disk.blobs[id] == w.accepted[id] && id !in w'.disk.parts && w'.accepted == w.accepted
            else w' == w
  {
    if id in w.disk.meta {
      assert BlobFits(digest, w, id);
      if id in w.disk.parts {
        var part, n := w.disk.parts[id], w.disk.meta[id].received;
        assert |part| == n ==> part[..n] == part;
      }
    }
  }

  /** Cancelling succeeds exactly for the owner of an upload that is not completed. */
  lemma CancelExactly(cfg: Config, digest: string -> string, w: World, owner: string, id: string)
    ensures var w' := Step(cfg, digest, w, DoCancel(id, owner));
            if id in w.disk.meta && w.disk.meta[id].owner == owner && w.disk.meta[id].stage != Completed
            then OnlyBlob(w, w', id) && w'.disk.meta[id] == w.disk.meta[id].(stage := Cancelled) && id !in w'.disk.parts
                 && w'.disk.blobs == w.disk.blobs && w'.accepted == w.accepted
            else w' == w
  {
  }

  /** A range of a completed blob is read exactly by its owner, inside the blob and within the chunk
      limit, and is that slice of the accepted bytes. */
  lemma ReadExactly(cfg: Config, digest: string -> string, actions: seq<Action>, owner: string, id: string, start: int, end: int)
    ensures var w := Run(cfg, digest, actions);
            var r := ReadRange(w.disk, cfg, owner, id, start, end);
            && (r.Ok? <==>
                && id in w.disk.meta && w.disk.meta[id].owner == owner && w.disk.meta[id].stage == Completed
                && 0 <= start <= end < w.disk.meta[id].size && end + 1 - start <= cfg.chunkSize)
            && (r.Ok? ==> id in w.accepted && end < |w.accepted[id]| && r.value == w.accepted[id][start..end + 1])
  {
    RunKeeps(cfg, digest, actions);
    var w := Run(cfg, digest, actions);
    if id in w.disk.meta {
      assert BlobFits(digest, w, id);
      if ReadRange(w.disk, cfg, owner, id, start, end).Ok? { ReadFits(digest, w, cfg, owner, id, start, end); }
    }
  }

  // ---- what can still be completed ----

  function Concat(chunks: seq<string>): string { if chunks == [] then "" else chunks[0] + Concat(chunks[1..]) }

  /** The remaining chunks in order, then completion. */
  function Rest(owner: string, id: string, offset: nat, chunks: seq<string>): seq<Action>
    decreases chunks
  {
    if chunks == [] then [DoComplete(id, owner)]
    else [DoPut(id, owner, offset, chunks[0])] + Rest(owner, id, offset + |chunks[0]|, chunks[1..])
  }

  function Stepper(cfg: Config, digest: string -> string): (World, Action) -> World { (w, a) => Step(cfg, digest, w, a) }

  function Play(step: (World, Action) -> World, w: World, actions: seq<Action>): World
    decreases actions
  {
    if actions == [] then w else Play(step, step(w, actions[0]), actions[1..])
  }

  lemma {:induction false} PlaysOn(cfg: Config, digest: string -> string, actions: seq<Action>, more: seq<Action>)
    ensures Run(cfg, digest, actions + more) == Play(Stepper(cfg, digest), Run(cfg, digest, actions), more)
    decreases more
  {
    if more == [] {
      assert actions + more == actions;
    } else {
      var longer := actions + [more[0]];
      assert longer[..|actions|] == actions && longer + more[1..] == actions + more;
      PlaysOn(cfg, digest, longer, more[1..]);
    }
  }

  /** An open upload with the rest of its chunks. */
  predicate Fitting(cfg: Config, digest: string -> string, w: World, owner: string, id: string, chunks: seq<string>)
  {
    && Open(w, owner, id) && id in w.accepted
    && (forall i :: 0 <= i < |chunks| ==> |chunks[i]| <= cfg.chunkSize)
    && |w.accepted[id] + Concat(chunks)| == w.disk.meta[id].size && digest(w.accepted[id] + Concat(chunks)) == w.disk.meta[id].sha256
  }

  lemma PlayFirst(step: (World, Action) -> World, w: World, a: Action, more: seq<Action>)
    ensures Play(step, w, [a] + more) == Play(step, step(w, a), more)
  {
    assert ([a] + more)[1..] == more;
  }

  lemma NextFits(cfg: Config, digest: string -> string, w: World, owner: string, id: string, chunks: seq<string>) returns (w': World)
    requires Inv(digest, w) && Fitting(cfg, digest, w, owner, id, chunks) && chunks != []
    ensures w' == Stepper(cfg, digest)(w, DoPut(id, owner, |w.accepted[id]|, chunks[0]))
    ensures && Inv(digest, w') && Fitting(cfg, digest, w', owner, id, chunks[1..]) && w'.accepted[id] == w.accepted[id] + chunks[0]
            && w'.accepted[id] + Concat(chunks[1..]) == w.accepted[id] + Concat(chunks)
            && w'.disk.meta[id] == w.disk.meta[id].(received := |w.accepted[id]| + |chunks[0]|)
  {
    w' := Step(cfg, digest, w, DoPut(id, owner, |w.accepted[id]|, chunks[0]));
    PutExactly(cfg, digest, w, owner, id, |w.accepted[id]|, chunks[0]);
    assert w.accepted[id] + chunks[0] + Concat(chunks[1..]) == w.accepted[id] + (chunks[0] + Concat(chunks[1..]));
  }

  /** Blob `id` of `w'` is what `w` opened, completed with `content`. */
  predicate CompletedAs(w: World, w': World, id: string, content: string)
    requires id in w.disk.meta
  {
    && id in w'.disk.meta && w'.disk.meta[id] == w.disk.meta[id].(stage := Completed, received := w.disk.meta[id].size)
    && id in w'.disk.blobs && w'.disk.blobs[id] == content
  }

  lemma LastCompletes(cfg: Config, digest: string -> string, w: World, owner: string, id: string)
    requires Inv(digest, w) && Fitting(cfg, digest, w, owner, id, [])
    ensures CompletedAs(w, Play(Stepper(cfg, digest), w, [DoComplete(id, owner)]), id, w.accepted[id] + Concat([]))
  {
    assert w.accepted[id] + Concat([]) == w.accepted[id];
    CompleteExactly(cfg, digest, w, owner, id);
    assert BlobFits(digest, w, id);
    PlayFirst(Stepper(cfg, digest), w, DoComplete(id, owner), []);
    assert [DoComplete(id, owner)] + [] == [DoComplete(id, owner)];
  }

  lemma {:induction false} RestCompletes(cfg: Config, digest: string -> string, w: World, owner: string, id: string, chunks: seq<string>)
    requires Inv(digest, w) && Fitting(cfg, digest, w, owner, id, chunks)
    ensures CompletedAs(w, Play(Stepper(cfg, digest), w, Rest(owner, id, |w.accepted[id]|, chunks)), id, w.accepted[id] + Concat(chunks))
    decreases chunks
  {
    if chunks == [] {
      LastCompletes(cfg, digest, w, owner, id);
    } else {
      var w' := NextFits(cfg, digest, w, owner, id, chunks);
      RestCompletes(cfg, digest, w', owner, id, chunks[1..]);
      FirstCompletes(Stepper(cfg, digest), w, w', owner, id, chunks);
    }
  }

  lemma FirstCompletes(step: (World, Action) -> World, w: World, w': World, owner: string, id: string, chunks: seq<string>)
    requires chunks != [] && id in w.disk.meta && id in w.accepted && id in w'.disk.meta && id in w'.accepted
    requires w' == step(w, DoPut(id, owner, |w.accepted[id]|, chunks[0]))
    requires w'.accepted[id] == w.accepted[id] + chunks[0] && w'.disk.meta[id] == w.disk.meta[id].(received := |w'.accepted[id]|)
    requires CompletedAs(w', Play(step, w', Rest(owner, id, |w'.accepted[id]|, chunks[1..])), id, w'.accepted[id] + Concat(chunks[1..]))
    ensures CompletedAs(w, Play(step, w, Rest(owner, id, |w.accepted[id]|, chunks)), id, w.accepted[id] + Concat(chunks))
  {
    PlayFirst(step, w, DoPut(id, owner, |w.accepted[id]|, chunks[0]), Rest(owner, id, |w'.accepted[id]|, chunks[1..]));
    assert w.accepted[id] + chunks[0] + Concat(chunks[1..]) == w.accepted[id] + (chunks[0] + Concat(chunks[1..]));
  }

  /** After any run, crashes included, an upload that is still open takes the rest of its bytes, in
      chunks of any sizes within the limit, and completes. */
  lemma OpenUploadCompletes(cfg: Config, digest: string -> string, actions: seq<Action>, owner: string, id: string, chunks: seq<string>)
    requires Fitting(cfg, digest, Run(cfg, digest, actions), owner, id, chunks)
    ensures var w := Run(cfg, digest, actions);
            var w' := Run(cfg, digest, actions + Rest(owner, id, |w.accepted[id]|, chunks));
            && id in w'.disk.meta && w'.disk.meta[id].stage == Completed
            && id in w'.disk.blobs && w'.disk.blobs[id] == w.accepted[id] + Concat(chunks)
  {
    var w := Run(cfg, digest, actions);
    RunKeeps(cfg, digest, actions);
    RestCompletes(cfg, digest, w, owner, id, chunks);
    PlaysOn(cfg, digest, actions, Rest(owner, id, |w.accepted[id]|, chunks));
  }

  /** A blob whose part file is gone, though it is not completed. */
  predicate Stranded(w: World, id: string) { id in w.disk.meta && w.disk.meta[id].stage != Completed && id !in w.disk.parts }

  lemma StrandedStep(cfg: Config, digest: string -> string, w: World, a: Action, id: string)
    requires Stranded(w, id)
    ensures Stranded(Step(cfg, digest, w, a), id)
  {
  }

  lemma {:induction false} StrandedForGood(cfg: Config, digest: string -> string, actions: seq<Action>, n: nat, id: string)
    requires n <= |actions| && Stranded(Run(cfg, digest, actions[..n]), id)
    ensures Stranded(Run(cfg, digest, actions), id)
    decreases actions
  {
    if n == |actions| {
      assert actions[..n] == actions;
    } else {
      var front := actions[..|actions| - 1];
      assert front[..n] == actions[..n];
      StrandedForGood(cfg, digest, front, n, id);
      StrandedStep(cfg, digest, Run(cfg, digest, front), actions[|actions| - 1], id);
    }
  }

  predicate Completes(cfg: Config, digest: string -> string, actions: seq<Action>, more: seq<Action>, id: string, content: string) {
    var w := Run(cfg, digest, actions + more).disk;
    id in w.meta && w.meta[id].stage == Completed && id in w.blobs && w.blobs[id] == content
  }

  /** Exactly which unfinished uploads can still be completed with a content that continues the accepted
      bytes and has the announced size and digest: those whose part file is there and that were not
      cancelled. A daemon that stops between creating the metadata and the part file, or between
      publishing and recording it, loses the upload for good. */
  lemma ResumableExactly(cfg: Config, digest: string -> string, actions: seq<Action>, id: string, rest: string)
    requires cfg.chunkSize > 0 && id in Run(cfg, digest, actions).disk.meta && id in Run(cfg, digest, actions).accepted
    requires var w := Run(cfg, digest, actions);
             && w.disk.meta[id].stage != Completed && |w.accepted[id] + rest| == w.disk.meta[id].size
             && digest(w.accepted[id] + rest) == w.disk.meta[id].sha256
    ensures var w := Run(cfg, digest, actions);
            (exists more :: Completes(cfg, digest, actions, more, id, w.accepted[id] + rest)) <==> w.disk.meta[id].stage == Uploading && id in w.disk.parts
  {
    var w := Run(cfg, digest, actions);
    var content := w.accepted[id] + rest;
    if w.disk.meta[id].stage == Uploading && id in w.disk.parts {
      var chunks := Split(rest, cfg.chunkSize);
      OpenUploadCompletes(cfg, digest, actions, w.disk.meta[id].owner, id, chunks);
      assert Completes(cfg, digest, actions, Rest(w.disk.meta[id].owner, id, |w.accepted[id]|, chunks), id, content);
    } else {
      if w.disk.meta[id].stage == Cancelled { CancelledHasNoPart(cfg, digest, actions, id); }
      forall more ensures !Completes(cfg, digest, actions, more, id, content) {
        NeverCompletes(cfg, digest, actions, more, id, content);
      }
    }
  }

  lemma NeverCompletes(cfg: Config, digest: string -> string, actions: seq<Action>, more: seq<Action>, id: string, content: string)
    requires Stranded(Run(cfg, digest, actions), id)
    ensures !Completes(cfg, digest, actions, more, id, content)
  {
    assert (actions + more)[..|actions|] == actions;
    StrandedForGood(cfg, digest, actions + more, |actions|, id);
  }

  /** The content in chunks of the given length. */
  function Split(s: string, chunk: nat): (chunks: seq<string>)
    requires chunk > 0
    ensures Concat(chunks) == s && forall i :: 0 <= i < |chunks| ==> |chunks[i]| <= chunk
    decreases |s|
  {
    if s == "" then []
    else
      var n := if chunk < |s| then chunk else |s|;
      assert s[..n] + s[n..] == s;
      [s[..n]] + Split(s[n..], chunk)
  }

  predicate Tidy(w: World, id: string) {
    (id in w.disk.parts ==> id in w.disk.meta) && (id in w.disk.meta && w.disk.meta[id].stage == Cancelled ==> id !in w.disk.parts)
  }

  lemma TidyStep(cfg: Config, digest: string -> string, w: World, a: Action, id: string)
    requires Tidy(w, id)
    ensures Tidy(Step(cfg, digest, w, a), id)
  {
  }

  lemma {:induction false} CancelledHasNoPart(cfg: Config, digest: string -> string, actions: seq<Action>, id: string)
    ensures Tidy(Run(cfg, digest, actions), id)
    decreases actions
  {
    if actions != [] {
      var front := actions[..|actions| - 1];
      CancelledHasNoPart(cfg, digest, front, id);
      TidyStep(cfg, digest, Run(cfg, digest, front), actions[|actions| - 1], id);
    }
  }
}
