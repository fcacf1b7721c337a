/** Resumable download: Receive of internal/attachment/receiver.go against the blob endpoint of
    internal/gateway/blob.go, for an owner that serves its completed blob honestly. */
module Download {
  import opened Text
  import opened Decimal
  import opened Ranges
  import Upload

  /** What the receiver was told about the blob. */
  datatype Spec = Spec(size: nat, digest: string)

  /** The .part file ("" before it exists) and the .blob file. */
  datatype Files = Files(part: string, final: Option<string>)

  datatype Outcome = Done | Interrupted | BadOffset | BadRange | BadDigest

  /** One range request: answered and written; lost before anything is written; or answered and cut
      off after some bytes have reached the file. */
  datatype Exchange = Answered | Lost | Torn(bytes: nat)

  /** The owner's side. */
  datatype Owner = Owner(blob: string, chunk: nat)

  datatype Reply = PartialContent(range: string, content: string) | RangeNotSatisfiable | Unavailable

  predicate Inside(range: Option<(int, int)>, size: nat, limit: nat) {
    range.Some? ==> 0 <= range.value.0 <= range.value.1 < size && range.value.1 - range.value.0 + 1 <= limit
  }

  function Answer(blob: string, range: Option<(int, int)>): Reply {
    if range.None? || !Inside(range, |blob|, |blob|) then RangeNotSatisfiable
    else PartialContent(ContentRange(range.value.0, range.value.1, |blob|), blob[range.value.0..range.value.1 + 1])
  }

  /** blob: parse the range against the granted size, read it, answer 206. */
  function Serve(o: Owner, rangeHeader: string): Reply { Answer(o.blob, ParseRange(rangeHeader, |o.blob|, o.chunk)) }

  function AnswerFromDisk(d: Upload.Disk, cfg: Upload.Config, owner: string, id: string, size: nat, digest: string, range: Option<(int, int)>): Reply {
    match range
    case None => RangeNotSatisfiable
    case Some((start, end)) =>
      match Upload.ReadRange(d, cfg, owner, id, start, end)
      case Err(_) => Unavailable
      case Ok(content) =>
        if d.meta[id].sha256 != digest || d.meta[id].size != size then Unavailable
        else PartialContent(ContentRange(start, end, d.meta[id].size), content)
  }

  /** The same endpoint in terms of the owner's disk: the range is checked against the grant, read
      by the attachment service, and answered only if grant and metadata agree. */
  function ServeFromDisk(d: Upload.Disk, cfg: Upload.Config, owner: string, id: string, size: nat, digest: string, rangeHeader: string): Reply {
    AnswerFromDisk(d, cfg, owner, id, size, digest, ParseRange(rangeHeader, size, cfg.chunkSize))
  }

  lemma AnsweredExactly(d: Upload.Disk, cfg: Upload.Config, owner: string, id: string, blob: string, range: Option<(int, int)>)
    requires id in d.meta && d.meta[id].size == |blob| && Inside(range, |blob|, cfg.chunkSize)
    requires range.Some? ==> Upload.ReadRange(d, cfg, owner, id, range.value.0, range.value.1) == Upload.Ok(blob[range.value.0..range.value.1 + 1])
    ensures AnswerFromDisk(d, cfg, owner, id, |blob|, d.meta[id].sha256, range) == Answer(blob, range)
  {
  }

  lemma ParsedInside(rangeHeader: string, size: nat, limit: nat)
    ensures Inside(ParseRange(rangeHeader, size, limit), size, limit)
  {
    if ParseRange(rangeHeader, size, limit).Some? {
      ParsedRangeInside(rangeHeader, size, limit);
    }
  }

  lemma OwnerAnswers(digest: string -> string, w: Upload.World, cfg: Upload.Config, owner: string, id: string, range: Option<(int, int)>)
    requires id in w.disk.meta && Upload.BlobFits(digest, w, id)
    requires w.disk.meta[id].stage == Upload.Completed && w.disk.meta[id].owner == owner
    requires Inside(range, w.disk.meta[id].size, cfg.chunkSize)
    ensures AnswerFromDisk(w.disk, cfg, owner, id, w.disk.meta[id].size, w.disk.meta[id].sha256, range) == Answer(w.accepted[id], range)
  {
    if range.Some? {
      Upload.ReadFits(digest, w, cfg, owner, id, range.value.0, range.value.1);
    }
    AnsweredExactly(w.disk, cfg, owner, id, w.accepted[id], range);
  }

  lemma OwnerServes(digest: string -> string, w: Upload.World, cfg: Upload.Config, owner: string, id: string, rangeHeader: string)
    requires id in w.disk.meta && Upload.BlobFits(digest, w, id)
    requires w.disk.meta[id].stage == Upload.Completed && w.disk.meta[id].owner == owner
    ensures ServeFromDisk(w.disk, cfg, owner, id, w.disk.meta[id].size, w.disk.meta[id].sha256, rangeHeader) == Serve(Owner(w.accepted[id], cfg.chunkSize), rangeHeader)
  {
    ParsedInside(rangeHeader, w.disk.meta[id].size, cfg.chunkSize);
    OwnerAnswers(digest, w, cfg, owner, id, ParseRange(rangeHeader, w.disk.meta[id].size, cfg.chunkSize));
  }

  /** The endpoint serves exactly the ranges that the header spells, the service reads, and the grant's
      size and digest cover. */
  lemma ServedExactly(d: Upload.Disk, cfg: Upload.Config, owner: string, id: string, size: nat, digest: string, rangeHeader: string)
    ensures var range := ParseRange(rangeHeader, size, cfg.chunkSize);
            var reply := ServeFromDisk(d, cfg, owner, id, size, digest, rangeHeader);
            && (reply == RangeNotSatisfiable <==> range == None)
            && (reply.PartialContent? <==>
                && range.Some? && Upload.ReadRange(d, cfg, owner, id, range.value.0, range.value.1).Ok?
                && d.meta[id].sha256 == digest && d.meta[id].size == size)
            && (reply.PartialContent? ==>
                && reply.range == ContentRange(range.value.0, range.value.1, size)
                && reply.content == Upload.ReadRange(d, cfg, owner, id, range.value.0, range.value.1).value)
  {
  }

  /** With a grant made from the completed blob's metadata, the endpoint is the honest owner of the
      accepted bytes. */
  lemma HonestOwner(cfg: Upload.Config, digest: string -> string, actions: seq<Upload.Action>, owner: string, id: string, rangeHeader: string)
    requires id in Upload.Run(cfg, digest, actions).disk.meta
    requires Upload.Run(cfg, digest, actions).disk.meta[id].stage == Upload.Completed
    requires Upload.Run(cfg, digest, actions).disk.meta[id].owner == owner
    ensures var w := Upload.Run(cfg, digest, actions);
            var meta := w.disk.meta[id];
            id in w.accepted && ServeFromDisk(w.disk, cfg, owner, id, meta.size, meta.sha256, rangeHeader) == Serve(Owner(w.accepted[id], cfg.chunkSize), rangeHeader)
  {
    Upload.RunKeeps(cfg, digest, actions);
    OwnerServes(digest, Upload.Run(cfg, digest, actions), cfg, owner, id, rangeHeader);
  }

  /** The last byte asked for next. */
  function NextEnd(received: nat, size: nat, chunk: nat): nat
    requires received < size && chunk > 0
  {
    if received + chunk - 1 >= size then size - 1 else received + chunk - 1
  }

  function Checked(reply: Reply, range: string): Option<string> {
    if reply.PartialContent? && reply.range == range then Some(reply.content) else None
  }

  /** The content a request brings, if it is answered with the range asked for. */
  function Fetch(serve: string -> Reply, size: nat, chunk: nat, received: nat): Option<string> {
    if received >= size || chunk == 0 then None
    else
      var end := NextEnd(received, size, chunk);
      Checked(serve(RangeHeader(received, end)), ContentRange(received, end, size))
  }

  function Fetcher(o: Owner, size: nat, chunk: nat): nat -> Option<string> { (received: nat) => Fetch(Server(o), size, chunk, received) }

  function Server(o: Owner): string -> Reply { rangeHeader => Serve(o, rangeHeader) }

  /** The loop over any source of content. Exchanges beyond the script are answered. */
  function Rounds(fetch: nat -> Option<string>, size: nat, chunk: nat, part: string, script: seq<Exchange>): (string, Outcome)
    requires chunk > 0 && |part| <= size
    decreases size - |part|
  {
    if |part| == size then (part, Done)
    else
      var exchange := if script == [] then Answered else script[0];
      var content := fetch(|part|);
      if exchange.Lost? then (part, Interrupted)
      else if content.None? || |content.value| != NextEnd(|part|, size, chunk) - |part| + 1 then (part, BadRange)
      else if exchange.Torn? then (part + content.value[..Min(exchange.bytes, |content.value|)], Interrupted)
      else Rounds(fetch, size, chunk, part + content.value, if script == [] then [] else script[1..])
  }

  function Min(a: nat, b: nat): nat { if a <= b then a else b }

  /** After the loop: check the digest of the part file and publish it. */
  function Publish(spec: Spec, digest: string -> string, f: Files, part: string, outcome: Outcome): (Files, Outcome) {
    if outcome != Done then (f.(part := part), outcome)
    else if digest(part) != spec.digest then (f.(part := part), BadDigest)
    else (Files("", Some(part)), Done)
  }

  predicate AlreadyThere(spec: Spec, digest: string -> string, f: Files) {
    f.final.Some? && |f.final.value| == spec.size && digest(f.final.value) == spec.digest
  }

  /** One call against whatever answers the requests. */
  function ReceiveFrom(fetch: nat -> Option<string>, spec: Spec, digest: string -> string, chunk: nat, f: Files, script: seq<Exchange>): (Files, Outcome)
    requires chunk > 0
  {
    if AlreadyThere(spec, digest, f) then (f, Done)
    else if |f.part| > spec.size then (f, BadOffset)
    else
      var (part, outcome) := Rounds(fetch, spec.size, chunk, f.part, script);
      Publish(spec, digest, f, part, outcome)
  }

  function Receive(o: Owner, spec: Spec, digest: string -> string, chunk: nat, f: Files, script: seq<Exchange>): (Files, Outcome)
    requires chunk > 0
  {
    ReceiveFrom(Fetcher(o, spec.size, chunk), spec, digest, chunk, f, script)
  }

  // ---- an owner that need not be honest ----

  /** Whatever is sent, the part file only grows, and never past the announced size. */
  lemma {:induction false} RoundsGrow(fetch: nat -> Option<string>, size: nat, chunk: nat, part: string, script: seq<Exchange>)
    requires chunk > 0 && |part| <= size
    ensures var (next, outcome) := Rounds(fetch, size, chunk, part, script);
            part <= next && |next| <= size && (outcome == Done ==> |next| == size)
    decreases size - |part|
  {
    if |part| < size {
      var exchange := if script == [] then Answered else script[0];
      var content := fetch(|part|);
      if exchange.Answered? && content.Some? && |content.value| == NextEnd(|part|, size, chunk) - |part| + 1 {
        RoundsGrow(fetch, size, chunk, part + content.value, if script == [] then [] else script[1..]);
      }
    }
  }

  /** Content counts only in answer to the very range asked for. */
  lemma FetchedInRange(serve: string -> Reply, size: nat, chunk: nat, received: nat)
    ensures Fetch(serve, size, chunk, received).Some? <==>
            && received < size && chunk > 0
            && var end := if received + chunk < size then received + chunk - 1 else size - 1;
               var reply := serve(RangeHeader(received, end));
               reply.PartialContent? && reply.range == ContentRange(received, end, size)
    ensures Fetch(serve, size, chunk, received).Some? ==>
              Fetch(serve, size, chunk, received).value == serve(RangeHeader(received, NextEnd(received, size, chunk))).content
  {
  }

  /** Whatever the owner sends: a call that ends Done leaves a published file of the announced size and
      digest, a call that ends otherwise publishes nothing, and no call takes back bytes it holds
      unless it publishes them. */
  lemma PublishedMatches(fetch: nat -> Option<string>, spec: Spec, digest: string -> string, chunk: nat, f: Files, script: seq<Exchange>)
    requires chunk > 0
    ensures var (f', outcome) := ReceiveFrom(fetch, spec, digest, chunk, f, script);
            if outcome == Done then
              && f'.final.Some? && |f'.final.value| == spec.size && digest(f'.final.value) == spec.digest
              && (f' == f || (f.part <= f'.final.value && f'.part == ""))
            else f'.final == f.final && f.part <= f'.part
  {
    if !AlreadyThere(spec, digest, f) && |f.part| <= spec.size {
      RoundsGrow(fetch, spec.size, chunk, f.part, script);
    }
  }

  // ---- what an interrupted call keeps ----

  /** Exchanges that are answered, and then one that is lost. */
  function Broken(answered: nat): seq<Exchange> { seq(answered, _ => Answered) + [Lost] }

  lemma BrokenRest(n: nat)
    requires n > 0
    ensures Broken(n)[0] == Answered && Broken(n)[1..] == Broken(n - 1)
  {
  }

  /** The bytes held after n answered exchanges. */
  function HeldAfter(part: nat, size: nat, chunk: nat, n: nat): nat {
    if part + n * chunk < size then part + n * chunk else size
  }

  lemma {:induction false} RoundsKeep(fetch: nat -> Option<string>, blob: string, chunk: nat, limit: nat, part: string, n: nat)
    requires 0 < chunk <= limit && Honest(fetch, blob, chunk, limit) && IsPrefix(part, blob)
    ensures Rounds(fetch, |blob|, chunk, part, Broken(n)) ==
            (blob[..HeldAfter(|part|, |blob|, chunk, n)], if HeldAfter(|part|, |blob|, chunk, n) == |blob| then Done else Interrupted)
    decreases n
  {
    if |part| == |blob| {
      assert part == blob[..|blob|];
      Never(n, chunk);
    } else if n == 0 {
      assert Broken(0)[0] == Lost && part == blob[..|part|];
    } else {
      assert Brings(fetch, blob, chunk, limit, |part|);
      BrokenRest(n);
      var end := NextEnd(|part|, |blob|, chunk);
      PrefixGrows(part, blob, end, 0);
      RoundsKeep(fetch, blob, chunk, limit, part + blob[|part|..end + 1], n - 1);
      OneChunkMore(|part|, |blob|, chunk, n);
    }
  }

  lemma Never(n: nat, chunk: nat)
    ensures n * chunk >= 0
  {
  }

  lemma OneChunkMore(part: nat, size: nat, chunk: nat, n: nat)
    requires n > 0 && part < size && chunk > 0
    ensures HeldAfter(part, size, chunk, n) == HeldAfter(NextEnd(part, size, chunk) + 1, size, chunk, n - 1)
  {
    assert n * chunk == (n - 1) * chunk + chunk;
    Never(n - 1, chunk);
  }

  /** A call that is cut off after n answered requests keeps every byte they brought. */
  lemma InterruptedKeeps(o: Owner, spec: Spec, digest: string -> string, chunk: nat, f: Files, n: nat)
    requires Told(o, spec, digest) && 0 < chunk <= o.chunk && FilesFit(o, f) && f.final == None
    ensures var held := HeldAfter(|f.part|, spec.size, chunk, n);
            Receive(o, spec, digest, chunk, f, Broken(n)) ==
            if held == spec.size then (Files("", Some(o.blob)), Done) else (Files(o.blob[..held], None), Interrupted)
  {
    FetcherHonest(o, chunk);
    RoundsKeep(Fetcher(o, spec.size, chunk), o.blob, chunk, o.chunk, f.part, n);
    assert o.blob[..|o.blob|] == o.blob;
  }

  // ---- one range ----

  predicate Told(o: Owner, spec: Spec, digest: string -> string) { spec.size == |o.blob| < INT64_LIMIT && spec.digest == digest(o.blob) }

  function Allowed(start: nat, end: nat, size: nat, limit: nat): Option<(int, int)> {
    if start <= end < size && end - start + 1 <= limit then Some((start as int, end as int)) else None
  }

  lemma ServePrinted(o: Owner, start: nat, end: nat)
    requires start < INT64_LIMIT && end < INT64_LIMIT
    ensures Server(o)(RangeHeader(start, end)) == Answer(o.blob, Allowed(start, end, |o.blob|, o.chunk))
  {
    PrintedRangeParses(start, end, |o.blob|, o.chunk);
  }

  /** A request succeeds exactly when the server accepts its length, and brings the next bytes of the blob. */
  lemma FetchExact(serve: string -> Reply, blob: string, limit: nat, chunk: nat, received: nat)
    requires received < |blob| && chunk > 0
    requires var end := NextEnd(received, |blob|, chunk); serve(RangeHeader(received, end)) == Answer(blob, Allowed(received, end, |blob|, limit))
    ensures var end := NextEnd(received, |blob|, chunk);
            Fetch(serve, |blob|, chunk, received) == if end - received + 1 <= limit then Some(blob[received..end + 1]) else None
  {
  }

  predicate Brings(fetch: nat -> Option<string>, blob: string, chunk: nat, limit: nat, received: nat)
    requires received < |blob| && chunk > 0
  {
    var end := NextEnd(received, |blob|, chunk);
    fetch(received) == if end - received + 1 <= limit then Some(blob[received..end + 1]) else None
  }

  /** A source of the blob's bytes that refuses only ranges over its limit. */
  ghost predicate Honest(fetch: nat -> Option<string>, blob: string, chunk: nat, limit: nat)
    requires chunk > 0
  {
    forall received: nat :: received < |blob| ==> Brings(fetch, blob, chunk, limit, received)
  }

  lemma FetcherHonest(o: Owner, chunk: nat)
    requires |o.blob| < INT64_LIMIT && chunk > 0
    ensures Honest(Fetcher(o, |o.blob|, chunk), o.blob, chunk, o.chunk)
  {
    forall received: nat | received < |o.blob| ensures Brings(Fetcher(o, |o.blob|, chunk), o.blob, chunk, o.chunk, received) {
      ServePrinted(o, received, NextEnd(received, |o.blob|, chunk));
      FetchExact(Server(o), o.blob, o.chunk, chunk, received);
    }
  }

  predicate IsPrefix(a: string, b: string) { a <= b }

  lemma PrefixGrows(part: string, blob: string, end: nat, n: nat)
    requires IsPrefix(part, blob) && |part| <= end < |blob|
    ensures |blob[|part|..end + 1]| == end + 1 - |part|
    ensures IsPrefix(part + blob[|part|..end + 1], blob)
    ensures n <= |blob[|part|..end + 1]| ==> IsPrefix(part + blob[|part|..end + 1][..n], blob)
  {
  }

  /** Whatever happens on the way, the part file stays a prefix of the owner's blob and never shrinks. */
  lemma {:induction false} RoundsPrefix(fetch: nat -> Option<string>, blob: string, chunk: nat, limit: nat, part: string, script: seq<Exchange>)
    requires chunk > 0 && Honest(fetch, blob, chunk, limit) && IsPrefix(part, blob)
    ensures var (next, outcome) := Rounds(fetch, |blob|, chunk, part, script);
            && part <= next && IsPrefix(next, blob)
            && (outcome == Done ==> next == blob)
    decreases |blob| - |part|
  {
    if |part| < |blob| {
      assert Brings(fetch, blob, chunk, limit, |part|);
      var end := NextEnd(|part|, |blob|, chunk);
      var exchange := if script == [] then Answered else script[0];
      if !exchange.Lost? && end - |part| + 1 <= limit {
        var content := blob[|part|..end + 1];
        var n := if exchange.Torn? then Min(exchange.bytes, |content|) else 0;
        PrefixGrows(part, blob, end, n);
        if exchange.Answered? {
          RoundsPrefix(fetch, blob, chunk, limit, part + content, if script == [] then [] else script[1..]);
        }
      }
    }
  }

  /** A part file is a prefix of the blob, and a published file is the blob. */
  predicate FilesFit(o: Owner, f: Files) {
    IsPrefix(f.part, o.blob) && (f.final.Some? ==> f.final.value == o.blob)
  }

  lemma PublishKeeps(o: Owner, spec: Spec, digest: string -> string, f: Files, part: string, outcome: Outcome)
    requires Told(o, spec, digest) && FilesFit(o, f)
    requires IsPrefix(part, o.blob) && (outcome == Done ==> part == o.blob)
    ensures var (f', outcome') := Publish(spec, digest, f, part, outcome);
            && FilesFit(o, f') && outcome' == outcome
            && (outcome == Done ==> f'.final == Some(o.blob))
  {
  }

  lemma ReceiveKeeps(o: Owner, spec: Spec, digest: string -> string, chunk: nat, f: Files, script: seq<Exchange>)
    requires Told(o, spec, digest) && chunk > 0 && FilesFit(o, f)
    ensures var (f', outcome) := Receive(o, spec, digest, chunk, f, script);
            && FilesFit(o, f')
            && (outcome == Done ==> f'.final == Some(o.blob))
            && outcome == if AlreadyThere(spec, digest, f) then Done else Rounds(Fetcher(o, spec.size, chunk), spec.size, chunk, f.part, script).1
  {
    FetcherHonest(o, chunk);
    RoundsPrefix(Fetcher(o, spec.size, chunk), o.blob, chunk, o.chunk, f.part, script);
    var (part, outcome) := Rounds(Fetcher(o, spec.size, chunk), spec.size, chunk, f.part, script);
    PublishKeeps(o, spec, digest, f, part, outcome);
  }

  /** Many calls, each with its own interruptions. */
  function Calls(o: Owner, spec: Spec, digest: string -> string, chunk: nat, f: Files, scripts: seq<seq<Exchange>>): Files
    requires chunk > 0
    decreases scripts
  {
    if scripts == [] then f
    else Calls(o, spec, digest, chunk, Receive(o, spec, digest, chunk, f, scripts[0]).0, scripts[1..])
  }

  lemma {:induction false} CallsKeep(o: Owner, spec: Spec, digest: string -> string, chunk: nat, f: Files, scripts: seq<seq<Exchange>>)
    requires Told(o, spec, digest) && chunk > 0 && FilesFit(o, f)
    ensures FilesFit(o, Calls(o, spec, digest, chunk, f, scripts))
    decreases scripts
  {
    if scripts != [] {
      ReceiveKeeps(o, spec, digest, chunk, f, scripts[0]);
      CallsKeep(o, spec, digest, chunk, Receive(o, spec, digest, chunk, f, scripts[0]).0, scripts[1..]);
    }
  }

  /** With every exchange answered, the loop reaches the end exactly when no request is too long for the server. */
  lemma {:induction false} UninterruptedRounds(fetch: nat -> Option<string>, blob: string, chunk: nat, limit: nat, part: string)
    requires chunk > 0 && Honest(fetch, blob, chunk, limit) && IsPrefix(part, blob)
    ensures Rounds(fetch, |blob|, chunk, part, []).1 == if chunk <= limit || |blob| - |part| <= limit then Done else BadRange
    decreases |blob| - |part|
  {
    if |part| < |blob| {
      assert Brings(fetch, blob, chunk, limit, |part|);
      var end := NextEnd(|part|, |blob|, chunk);
      if end - |part| + 1 <= limit {
        PrefixGrows(part, blob, end, 0);
        UninterruptedRounds(fetch, blob, chunk, limit, part + blob[|part|..end + 1]);
      }
    }
  }

  /** The loop appends the rest of the blob to whatever the part file holds. */
  lemma {:induction false} RoundsAppend(fetch: nat -> Option<string>, blob: string, chunk: nat, limit: nat, part: string)
    requires 0 < chunk <= limit && Honest(fetch, blob, chunk, limit) && |part| <= |blob|
    ensures Rounds(fetch, |blob|, chunk, part, []) == (part + blob[|part|..], Done)
    decreases |blob| - |part|
  {
    if |part| < |blob| {
      assert Brings(fetch, blob, chunk, limit, |part|);
      var end := NextEnd(|part|, |blob|, chunk);
      var content := blob[|part|..end + 1];
      RoundsAppend(fetch, blob, chunk, limit, part + content);
      assert content + blob[end + 1..] == blob[|part|..];
      assert part + content + blob[end + 1..] == part + (content + blob[end + 1..]);
    } else {
      assert part + blob[|part|..] == part;
    }
  }

  /** Resuming from any part file, such as one that a dishonest owner or another download left: an
      uninterrupted call against the honest owner succeeds exactly when the bytes held are a prefix of
      its blob, if no other content has the blob's digest. Otherwise it changes no byte held, and a
      full part file is refused again by every later call. */
  lemma ResumesExactly(o: Owner, spec: Spec, digest: string -> string, chunk: nat, part: string)
    requires Told(o, spec, digest) && 0 < chunk <= o.chunk
    requires forall x :: digest(x) == digest(o.blob) ==> x == o.blob
    ensures var (f, outcome) := Receive(o, spec, digest, chunk, Files(part, None), []);
            && (outcome == Done <==> IsPrefix(part, o.blob))
            && (if outcome == Done then f == Files("", Some(o.blob)) else f.final == None && IsPrefix(part, f.part))
            && (outcome == BadDigest ==> forall fetch, script :: ReceiveFrom(fetch, spec, digest, chunk, f, script) == (f, BadDigest))
  {
    if |part| <= spec.size {
      FetcherHonest(o, chunk);
      RoundsAppend(Fetcher(o, spec.size, chunk), o.blob, chunk, o.chunk, part);
      assert (part + o.blob[|part|..])[..|part|] == part;
      if IsPrefix(part, o.blob) { assert part + o.blob[|part|..] == o.blob; }
    }
  }

  /** A receiver that asks for more than the server gives in one answer gets nothing at all. */
  lemma StuckRounds(fetch: nat -> Option<string>, blob: string, chunk: nat, limit: nat, script: seq<Exchange>)
    requires limit < chunk && limit < |blob| && Honest(fetch, blob, chunk, limit)
    ensures Rounds(fetch, |blob|, chunk, "", script).0 == "" && Rounds(fetch, |blob|, chunk, "", script).1 != Done
  {
    assert Brings(fetch, blob, chunk, limit, 0);
  }

  lemma {:induction false} StuckCalls(o: Owner, spec: Spec, digest: string -> string, chunk: nat, scripts: seq<seq<Exchange>>)
    requires Told(o, spec, digest) && o.chunk < chunk && o.chunk < spec.size
    ensures Calls(o, spec, digest, chunk, Files("", None), scripts) == Files("", None)
    decreases scripts
  {
    if scripts != [] {
      FetcherHonest(o, chunk);
      StuckRounds(Fetcher(o, spec.size, chunk), o.blob, chunk, o.chunk, scripts[0]);
      StuckCalls(o, spec, digest, chunk, scripts[1..]);
    }
  }

  /** Resumable transfer. After any number of interrupted calls the part file is a prefix of the
      owner's blob; and the next call, if not interrupted, publishes the blob byte for byte if and only
      if the receiver's chunk, or the whole blob, fits the server's chunk. Otherwise nothing is ever
      received. */
  lemma ResumableTransfer(o: Owner, spec: Spec, digest: string -> string, chunk: nat, scripts: seq<seq<Exchange>>)
    requires Told(o, spec, digest) && chunk > 0
    ensures var f := Calls(o, spec, digest, chunk, Files("", None), scripts);
            var (last, outcome) := Receive(o, spec, digest, chunk, f, []);
            && IsPrefix(f.part, o.blob) && (f.final.Some? ==> f.final == Some(o.blob))
            && (outcome == Done <==> chunk <= o.chunk || spec.size <= o.chunk)
            && (if outcome == Done then last.final == Some(o.blob) else outcome == BadRange && f == last == Files("", None))
  {
    CallsKeep(o, spec, digest, chunk, Files("", None), scripts);
    var f := Calls(o, spec, digest, chunk, Files("", None), scripts);
    ReceiveKeeps(o, spec, digest, chunk, f, []);
    FetcherHonest(o, chunk);
    UninterruptedRounds(Fetcher(o, spec.size, chunk), o.blob, chunk, o.chunk, f.part);
    assert f.final.Some? ==> AlreadyThere(spec, digest, f);
    if o.chunk < chunk && o.chunk < spec.size {
      StuckCalls(o, spec, digest, chunk, scripts);
      StuckRounds(Fetcher(o, spec.size, chunk), o.blob, chunk, o.chunk, []);
    }
  }

  /** Owner and receiver together: what the receiver publishes is what the owner's service accepted. */
  lemma UploadedThenDownloaded(cfg: Upload.Config, digest: string -> string, actions: seq<Upload.Action>, id: string,
                               chunk: nat, scripts: seq<seq<Exchange>>)
    requires id in Upload.Run(cfg, digest, actions).disk.meta && Upload.Run(cfg, digest, actions).disk.meta[id].stage == Upload.Completed
    requires Upload.Run(cfg, digest, actions).disk.meta[id].size < INT64_LIMIT
    requires 0 < chunk <= cfg.chunkSize
    ensures var w := Upload.Run(cfg, digest, actions);
            && id in w.disk.blobs && id in w.accepted
            && var o, spec := Owner(w.disk.blobs[id], cfg.chunkSize), Spec(w.disk.meta[id].size, w.disk.meta[id].sha256);
               var f := Calls(o, spec, digest, chunk, Files("", None), scripts);
               Receive(o, spec, digest, chunk, f, []).0.final == Some(w.accepted[id])
  {
    Upload.UploadUnderCrashes(cfg, digest, actions, id);
    var w := Upload.Run(cfg, digest, actions);
    var o, spec := Owner(w.disk.blobs[id], cfg.chunkSize), Spec(w.disk.meta[id].size, w.disk.meta[id].sha256);
    ResumableTransfer(o, spec, digest, chunk, scripts);
  }

  // ---- the loop as it runs ----

  class Receiver {
    const chunkSize: nat
    var part: string
    var final: Option<string>

    constructor (chunkSize: int)
      ensures this.chunkSize == (if chunkSize <= 0 then 0x40_0000 else chunkSize) && part == "" && final == None
    {
      this.chunkSize := if chunkSize <= 0 then 0x40_0000 else chunkSize;
      part, final := "", None;
    }

    /** One request and the check of the range it is answered with. */
    method Request(o: Owner, size: nat, received: nat) returns (content: Option<string>)
      requires received < size && chunkSize > 0
      ensures content == Fetcher(o, size, chunkSize)(received)
    {
      var end := received + chunkSize - 1;
      if end >= size {
        end := size - 1;
      }
      assert end == NextEnd(received, size, chunkSize);
      var reply := Server(o)(RangeHeader(received, end));
      return Checked(reply, ContentRange(received, end, size));
    }

    /** The loop over the ranges. */
    method ReceiveRanges(o: Owner, size: nat, script: seq<Exchange>) returns (received: nat, outcome: Outcome)
      requires chunkSize > 0 && |part| <= size
      modifies this`part
      ensures (part, outcome) == Rounds(Fetcher(o, size, chunkSize), size, chunkSize, old(part), script)
      ensures outcome == Done ==> received == |part| == size
    {
      received := |part|;
      ghost var fetch := Fetcher(o, size, chunkSize);
      var index := 0;
      assert script[0..] == script;
      while received < size
        invariant received == |part| <= size
        invariant 0 <= index <= |script|
        invariant Rounds(fetch, size, chunkSize, old(part), script) == Rounds(fetch, size, chunkSize, part, script[index..])
        decreases size - received
      {
        var exchange := if index < |script| then script[index] else Answered;
        if exchange.Lost? {
          return received, Interrupted;
        }
        var content := Request(o, size, received);
        if content.None? || |content.value| != NextEnd(received, size, chunkSize) - received + 1 {
          return received, BadRange;
        }
        if exchange.Torn? {
          part := part + content.value[..Min(exchange.bytes, |content.value|)];
          return received, Interrupted;
        }
        part := part + content.value;
        received := received + |content.value|;
        if index < |script| {
          assert script[index..][1..] == script[index + 1..];
          index := index + 1;
        }
      }
      return received, Done;
    }

    method ReceiveBlob(o: Owner, spec: Spec, digest: string -> string, script: seq<Exchange>) returns (received: nat, outcome: Outcome)
      requires chunkSize > 0
      modifies this
      ensures (Files(part, final), outcome) == Receive(o, spec, digest, chunkSize, old(Files(part, final)), script)
      ensures outcome == Done ==> received == spec.size
    {
      if final.Some? && |final.value| == spec.size && digest(final.value) == spec.digest {
        return spec.size, Done;
      }
      if |part| > spec.size {
        return |part|, BadOffset;
      }
      received, outcome := ReceiveRanges(o, spec.size, script);
      if outcome != Done {
        return;
      }
      if digest(part) != spec.digest {
        return received, BadDigest;
      }
      part, final := "", Some(part);
    }
  }
}
