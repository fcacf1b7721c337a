/** Round trip of signed frames, and what the hash chain binds. */
module SseChain {
  import opened Text
  import opened Sse
  import SseMeaning

  // ---- what a verifier does with a signed stream ----

  /** Parses and verifies each non-blank chunk in turn; the events, and the hash reached. */
  function VerifyChunks(k: Suite, chunks: seq<string>, previous: string): Result<(seq<string>, string)>
    decreases chunks
  {
    if chunks == [] then Ok(([], previous))
    else if Blank(chunks[0]) then VerifyChunks(k, chunks[1..], previous)
    else match ParseFrame(chunks[0] + "\n\n")
      case Err(e) => Err(e)
      case Ok((event, signed)) =>
        match VerifyEvent(k, event, signed, previous)
        case Err(e) => Err(e)
        case Ok(hash) =>
          match VerifyChunks(k, chunks[1..], hash)
          case Err(e) => Err(e)
          case Ok((events, last)) => Ok(([event] + events, last))
  }

  /** Frames of the bodies, one cursor each, and the signer's last hash. */
  function FrameAll(k: Suite, bodies: seq<string>, cursors: seq<string>, previous: string): (string, string)
    requires |cursors| == |bodies|
    decreases bodies
  {
    if bodies == [] then ("", previous)
    else
      var event := bodies[0] + "\n\n";
      var rest := FrameAll(k, bodies[1..], cursors[1..], EventHash(k, previous, Normalize(event), cursors[0]));
      (FrameText(k, previous, event, cursors[0]) + rest.0, rest.1)
  }

  // ---- event bodies ----

  predicate NoBlankLine(s: string) {
    !StartsWith(s, "\n\n") && (s != "" ==> NoBlankLine(s[1..]))
  }

  function LineEnd(event: string): (end: nat)
    requires '\n' in event
    ensures end == IndexOf(event, '\n')
  {
    IndexOf(event, '\n')
  }

  /** The first line of the closed event, as the frame parser sees it. */
  function FirstLine(body: string): string {
    var event := body + "\n\n";
    assert event[|body|] == '\n';
    TrimCr(event[..LineEnd(event)])
  }

  predicate Reserved(body: string) { TakeMetadata(FirstLine(body), Signed("", "", "")).Some? }

  /** Non-empty, no blank line inside, no line feed at either end. */
  predicate Shaped(body: string) {
    body != "" && body[0] != '\n' && body[|body| - 1] != '\n' && NoBlankLine(body)
  }

  // ---- splitting ----

  lemma {:induction false} SplitFirst(b: string, t: string)
    requires NoBlankLine(b) && (b != "" ==> b[|b| - 1] != '\n')
    ensures SplitBlank(b + "\n\n" + t) == [b] + SplitBlank(t)
    decreases b
  {
    var s := b + "\n\n" + t;
    if b == "" {
      assert s == "\n\n" + t && s[2..] == t;
    } else {
      assert s[1..] == b[1..] + "\n\n" + t;
      SplitFirst(b[1..], t);
      assert !StartsWith(s, "\n\n") by {
        if |b| >= 2 { assert s[..2] == b[..2]; } else { assert s[0] == b[0]; }
      }
      assert [s[0]] + b[1..] == b;
      assert ([b[1..]] + SplitBlank(t))[1..] == SplitBlank(t);
    }
  }

  lemma {:induction false} LineThenText(l: string, t: string)
    requires PlainText(l) && t != "" && t[0] != '\n' && NoBlankLine(t)
    ensures NoBlankLine(l + "\n" + t)
    decreases l
  {
    var s := l + "\n" + t;
    if l == "" {
      assert s[1..] == t && s[1] == t[0];
    } else {
      assert s[1..] == l[1..] + "\n" + t;
      assert s[0] == l[0];
      LineThenText(l[1..], t);
    }
  }

  lemma HeaderThenBody(signed: Signed, body: string)
    requires PlainFields(signed)
    requires body != "" && body[0] != '\n' && NoBlankLine(body)
    ensures NoBlankLine(Header(signed) + body)
  {
    var t2 := SignatureLine(signed) + "\n" + body;
    var t1 := HashLine(signed) + "\n" + t2;
    HeaderLines(signed, body);
    HeaderLinesPlain(signed);
    LineThenText(SignatureLine(signed), body);
    LineThenText(HashLine(signed), t2);
    LineThenText(CursorLine(signed), t1);
  }

  // ---- parsing one frame ----

  lemma ParseLine(l: string, rest: string)
    requires PlainText(l)
    ensures IndexOf(l + "\n" + rest, '\n') == |l|
    ensures (l + "\n" + rest)[..|l|] == l && (l + "\n" + rest)[|l| + 1..] == rest
    ensures TrimCr(l) == l
  {
    IndexOfFound(l, '\n', rest);
    assert l + ['\n'] + rest == l + "\n" + rest;
    if l != "" { assert l[|l| - 1] in l; }
  }

  lemma ParseHeader(signed: Signed, event: string)
    requires PlainFields(signed)
    ensures ParseFrame(Header(signed) + event) == ParseFrom(event, signed)
  {
    var t2 := SignatureLine(signed) + "\n" + event;
    var t1 := HashLine(signed) + "\n" + t2;
    HeaderLines(signed, event);
    HeaderLinesPlain(signed);
    var s0 := Signed("", "", "");
    var s1 := s0.(cursor := signed.cursor);
    var s2 := s1.(hash := signed.hash);
    ParseCursorLine(signed.cursor, t1, s0);
    ParseHashLine(signed.hash, t2, s1);
    ParseSignatureLine(signed.signature, event, s2);
  }

  lemma ParseCursorLine(x: string, rest: string, signed: Signed)
    requires PlainText(CURSOR_PREFIX + x)
    ensures ParseFrom(CURSOR_PREFIX + x + "\n" + rest, signed) == ParseFrom(rest, signed.(cursor := x))
  {
    ParseLine(CURSOR_PREFIX + x, rest);
  }

  lemma ParseHashLine(x: string, rest: string, signed: Signed)
    requires PlainText(HASH_PREFIX + x)
    ensures ParseFrom(HASH_PREFIX + x + "\n" + rest, signed) == ParseFrom(rest, signed.(hash := x))
  {
    ParseLine(HASH_PREFIX + x, rest);
    HashNotCursor(x);
  }

  lemma ParseSignatureLine(x: string, rest: string, signed: Signed)
    requires PlainText(SIGNATURE_PREFIX + x)
    ensures ParseFrom(SIGNATURE_PREFIX + x + "\n" + rest, signed) == ParseFrom(rest, signed.(signature := x))
  {
    ParseLine(SIGNATURE_PREFIX + x, rest);
    SignatureNotOther(x);
  }

  lemma HashNotCursor(x: string)
    ensures !StartsWith(HASH_PREFIX + x, CURSOR_PREFIX)
  {
    assert (HASH_PREFIX + x)[6] == 'h' && CURSOR_PREFIX[6] == 'c';
    var l := HASH_PREFIX + x;
    assert |l| >= 13 ==> l[..13][6] == 'h';
  }

  lemma SignatureNotOther(x: string)
    ensures !StartsWith(SIGNATURE_PREFIX + x, CURSOR_PREFIX) && !StartsWith(SIGNATURE_PREFIX + x, HASH_PREFIX)
  {
    var l := SIGNATURE_PREFIX + x;
    assert l[6] == 's' && CURSOR_PREFIX[6] == 'c' && HASH_PREFIX[6] == 'h';
    assert l[..13][6] == 's' && l[..11][6] == 's';
  }

  lemma {:induction false} ParseShrinks(rest: string, signed: Signed)
    ensures ParseFrom(rest, signed).Ok? ==> |ParseFrom(rest, signed).value.0| <= |rest|
    decreases |rest|
  {
    var end := IndexOf(rest, '\n');
    if end >= 0 {
      var taken := TakeMetadata(TrimCr(rest[..end]), signed);
      if taken.Some? {
        ParseShrinks(rest[end + 1..], taken.value);
      }
    }
  }

  /** The parser gives back a framed event and its metadata exactly when the event's own first
      line is not one of the reserved comments. */
  lemma FrameParses(signed: Signed, body: string)
    requires Usable(signed)
    ensures ParseFrame(Header(signed) + (body + "\n\n")) == Ok((body + "\n\n", signed)) <==> !Reserved(body)
  {
    var event := body + "\n\n";
    ParseHeader(signed, event);
    if Reserved(body) {
      var end := LineEnd(event);
      var taken := TakeMetadata(FirstLine(body), signed);
      ParseShrinks(event[end + 1..], taken.value);
    }
  }

  // ---- the round trip ----

  lemma SignVerifies(k: Suite, previous: string, event: string, cursor: string)
    requires Ideal(k) && ValidCursor(cursor) && (|previous| == 0 || |previous| == 32)
    ensures VerifyEvent(k, event, SignEvent(k, previous, event, cursor), previous) == Ok(EventHash(k, previous, event, cursor))
  {
  }

  lemma SignedFieldsUsable(k: Suite, previous: string, event: string, cursor: string)
    requires Ideal(k) && ValidCursor(cursor)
    ensures Usable(SignEvent(k, previous, event, cursor))
  {
    var hash := EventHash(k, previous, event, cursor);
    assert |hash| == 32 && |k.sign(SigningBytes(event, cursor, hash))| == 64;
  }

  /** The signed text of a non-empty list, as its first chunk and the rest. */
  lemma FirstChunk(k: Suite, bodies: seq<string>, cursors: seq<string>, previous: string)
    requires bodies != [] && |cursors| == |bodies|
    ensures var event := bodies[0] + "\n\n";
            var hash := EventHash(k, previous, event, cursors[0]);
            var header := Header(SignEvent(k, previous, event, cursors[0]));
            var rest := FrameAll(k, bodies[1..], cursors[1..], hash);
            FrameAll(k, bodies, cursors, previous) == ((header + bodies[0]) + "\n\n" + rest.0, rest.1)
  {
    var event := bodies[0] + "\n\n";
    assert Normalize(event) == event;
    var header := Header(SignEvent(k, previous, event, cursors[0]));
    var rest := FrameAll(k, bodies[1..], cursors[1..], EventHash(k, previous, event, cursors[0]));
    assert (header + event) + rest.0 == (header + bodies[0]) + "\n\n" + rest.0;
  }

  /** Splitting the signed text at blank lines, parsing and verifying every frame succeeds, returns
      the events in order, and ends at the signer's own last hash. */
  lemma {:induction false} SignedStreamRoundTrip(k: Suite, bodies: seq<string>, cursors: seq<string>, previous: string)
    requires Ideal(k) && (|previous| == 0 || |previous| == 32)
    requires |cursors| == |bodies| && (forall i :: 0 <= i < |cursors| ==> ValidCursor(cursors[i]))
    requires forall i :: 0 <= i < |bodies| ==> Shaped(bodies[i]) && !Reserved(bodies[i])
    ensures var signed := FrameAll(k, bodies, cursors, previous);
            VerifyChunks(k, SplitBlank(signed.0), previous) == Ok((Closed(bodies), signed.1))
    decreases bodies
  {
    if bodies == [] {
      NothingRead(k, previous);
    } else {
      var hash := EventHash(k, previous, bodies[0] + "\n\n", cursors[0]);
      SignedStreamRoundTrip(k, bodies[1..], cursors[1..], hash);
      RoundTripStep(k, bodies, cursors, previous, hash);
    }
  }

  lemma NothingRead(k: Suite, previous: string)
    ensures VerifyChunks(k, SplitBlank(""), previous) == Ok(([], previous))
  {
    assert SplitBlank("") == [""] && [""][1..] == [];
  }

  lemma RoundTripStep(k: Suite, bodies: seq<string>, cursors: seq<string>, previous: string, hash: string)
    requires Ideal(k) && (|previous| == 0 || |previous| == 32)
    requires bodies != [] && |cursors| == |bodies| && ValidCursor(cursors[0]) && Shaped(bodies[0]) && !Reserved(bodies[0])
    requires hash == EventHash(k, previous, bodies[0] + "\n\n", cursors[0])
    requires var rest := FrameAll(k, bodies[1..], cursors[1..], hash);
             VerifyChunks(k, SplitBlank(rest.0), hash) == Ok((Closed(bodies[1..]), rest.1))
    ensures var signed := FrameAll(k, bodies, cursors, previous);
            VerifyChunks(k, SplitBlank(signed.0), previous) == Ok((Closed(bodies), signed.1))
  {
    FirstChunk(k, bodies, cursors, previous);
    FirstRead(k, bodies[0], cursors[0], previous, FrameAll(k, bodies[1..], cursors[1..], hash).0);
  }

  lemma FirstRead(k: Suite, body: string, cursor: string, previous: string, rest: string)
    requires Ideal(k) && (|previous| == 0 || |previous| == 32)
    requires ValidCursor(cursor) && Shaped(body) && !Reserved(body)
    requires VerifyChunks(k, SplitBlank(rest), EventHash(k, previous, body + "\n\n", cursor)).Ok?
    ensures var event := body + "\n\n";
            var more := VerifyChunks(k, SplitBlank(rest), EventHash(k, previous, event, cursor)).value;
            var chunk := Header(SignEvent(k, previous, event, cursor)) + body;
            VerifyChunks(k, SplitBlank(chunk + "\n\n" + rest), previous) == Ok(([event] + more.0, more.1))
  {
    var event := body + "\n\n";
    var signed := SignEvent(k, previous, event, cursor);
    SignedFieldsUsable(k, previous, event, cursor);
    ChunkSplit(signed, body, rest);
    ChunkParse(signed, body);
    SignVerifies(k, previous, event, cursor);
    FirstVerified(k, Header(signed) + body, SplitBlank(rest), previous, event, signed, EventHash(k, previous, event, cursor));
  }

  function Closed(bodies: seq<string>): seq<string> {
    if bodies == [] then [] else [bodies[0] + "\n\n"] + Closed(bodies[1..])
  }

  predicate Usable(signed: Signed) {
    ValidCursor(signed.cursor) && PlainFields(signed) && signed.hash != "" && signed.signature != ""
  }

  lemma ChunkSplit(signed: Signed, body: string, rest: string)
    requires Shaped(body) && PlainFields(signed)
    ensures SplitBlank((Header(signed) + body) + "\n\n" + rest) == [Header(signed) + body] + SplitBlank(rest)
    ensures !Blank(Header(signed) + body)
  {
    var chunk := Header(signed) + body;
    HeaderThenBody(signed, body);
    assert chunk[|chunk| - 1] == body[|body| - 1] && chunk[0] == ':';
    SplitFirst(chunk, rest);
  }

  lemma ChunkParse(signed: Signed, body: string)
    requires Usable(signed) && !Reserved(body)
    ensures ParseFrame((Header(signed) + body) + "\n\n") == Ok((body + "\n\n", signed))
  {
    FrameParses(signed, body);
    assert (Header(signed) + body) + "\n\n" == Header(signed) + (body + "\n\n");
  }

  lemma FirstVerified(k: Suite, chunk: string, more: seq<string>, previous: string, event: string, signed: Signed, hash: string)
    requires !Blank(chunk) && ParseFrame(chunk + "\n\n") == Ok((event, signed))
    requires VerifyEvent(k, event, signed, previous) == Ok(hash)
    requires VerifyChunks(k, more, hash).Ok?
    ensures VerifyChunks(k, [chunk] + more, previous) ==
            Ok(([event] + VerifyChunks(k, more, hash).value.0, VerifyChunks(k, more, hash).value.1))
  {
    assert ([chunk] + more)[1..] == more;
  }

  // ---- the same through SignSSEStream ----

  /** No CR LF anywhere; a lone CR is allowed. */
  predicate NoCrLf(s: string) { !StartsWith(s, "\r\n") && (s != "" ==> NoCrLf(s[1..])) }

  lemma {:induction false} ReplaceNoCrLf(s: string)
    requires NoCrLf(s)
    ensures ReplaceCrLf(s) == s
    decreases s
  {
    if s != "" {
      ReplaceNoCrLf(s[1..]);
      assert [s[0]] + s[1..] == s;
    }
  }

  lemma ReplacePair(rest: string)
    ensures ReplaceCrLf("\r\n" + rest) == "\n" + ReplaceCrLf(rest)
  {
    assert ("\r\n" + rest)[2..] == rest && StartsWith("\r\n" + rest, "\r\n");
  }

  lemma ReplaceOther(c: char, rest: string)
    requires !StartsWith([c] + rest, "\r\n")
    ensures ReplaceCrLf([c] + rest) == [c] + ReplaceCrLf(rest)
  {
    assert ([c] + rest)[1..] == rest;
  }

  /** A line end is a place to cut: rewriting works on both sides of it. */
  lemma {:induction false} ReplaceSplit(a: string, rest: string)
    ensures ReplaceCrLf(a + "\n" + rest) == ReplaceCrLf(a + "\n") + ReplaceCrLf(rest)
    decreases |a|
  {
    var s, t := a + "\n" + rest, a + "\n";
    if a == "" {
      ReplaceLf(rest);
      ReplaceLf("");
      assert s == "\n" + rest && t == "\n" + "";
      assert "\n" + "" + ReplaceCrLf(rest) == "\n" + ReplaceCrLf(rest);
    } else if StartsWith(t, "\r\n") {
      var b := if |a| == 1 then "" else a[2..] + "\n";
      assert t[..2] == "\r\n" && t == "\r\n" + b && s == "\r\n" + (b + rest);
      ReplacePair(b);
      ReplacePair(b + rest);
      if |a| > 1 { ReplaceSplit(a[2..], rest); } else { assert b + rest == rest; }
      Regroup("\n", ReplaceCrLf(b), ReplaceCrLf(rest));
    } else {
      assert s[..2] == t[..2];
      var b := a[1..] + "\n";
      assert t == [a[0]] + b && s == [a[0]] + (b + rest);
      ReplaceOther(a[0], b);
      ReplaceOther(a[0], b + rest);
      ReplaceSplit(a[1..], rest);
      Regroup([a[0]], ReplaceCrLf(b), ReplaceCrLf(rest));
    }
  }

  lemma ReplaceLf(rest: string)
    ensures ReplaceCrLf("\n" + rest) == "\n" + ReplaceCrLf(rest)
  {
    SseMeaning.NotCr("\n" + rest);
    ReplaceOther('\n', rest);
    assert ['\n'] + rest == "\n" + rest && ['\n'] + ReplaceCrLf(rest) == "\n" + ReplaceCrLf(rest);
  }

  lemma Regroup(a: string, b: string, c: string)
    ensures (a + b) + c == a + (b + c)
  {
  }

  lemma {:induction false} ReplaceKeepsEnd(a: string)
    ensures ReplaceCrLf(a + "\n") != "" && ReplaceCrLf(a + "\n")[|ReplaceCrLf(a + "\n")| - 1] == '\n'
    decreases |a|
  {
    var t := a + "\n";
    if StartsWith(t, "\r\n") {
      if |a| > 1 {
        assert t[2..] == a[2..] + "\n";
        ReplaceKeepsEnd(a[2..]);
      }
    } else if a != "" {
      assert t[1..] == a[1..] + "\n";
      ReplaceKeepsEnd(a[1..]);
    }
  }

  /** An event as the signer rewrites it: CR LF made LF, also across its end. */
  function Rewritten(body: string): string {
    ReplaceKeepsEnd(body);
    ReplaceCrLf(body + "\n")[..|ReplaceCrLf(body + "\n")| - 1]
  }

  function RewrittenAll(bodies: seq<string>): seq<string> {
    if bodies == [] then [] else [Rewritten(bodies[0])] + RewrittenAll(bodies[1..])
  }

  /** Events without CR LF stay as they are. */
  lemma RewrittenPlain(body: string)
    requires NoCrLf(body + "\n")
    ensures Rewritten(body) == body
  {
    ReplaceNoCrLf(body + "\n");
  }

  lemma {:induction false} SplitBodies(bodies: seq<string>)
    requires forall i :: 0 <= i < |bodies| ==> Shaped(bodies[i])
    ensures SplitBlank(Concat(Closed(bodies))) == bodies + [""]
    decreases bodies
  {
    if bodies != [] {
      SplitBodies(bodies[1..]);
      var rest := Concat(Closed(bodies[1..]));
      assert Closed(bodies)[1..] == Closed(bodies[1..]);
      assert Concat(Closed(bodies)) == bodies[0] + "\n\n" + rest;
      SplitFirst(bodies[0], rest);
      assert [bodies[0]] + (bodies[1..] + [""]) == bodies + [""];
    }
  }

  lemma {:induction false} ReplaceClosed(bodies: seq<string>)
    ensures ReplaceCrLf(Concat(Closed(bodies))) == Concat(Closed(RewrittenAll(bodies)))
    ensures |RewrittenAll(bodies)| == |bodies| && forall i :: 0 <= i < |bodies| ==> RewrittenAll(bodies)[i] == Rewritten(bodies[i])
    decreases bodies
  {
    if bodies != [] {
      var rest := Concat(Closed(bodies[1..]));
      var rewritten := RewrittenAll(bodies);
      ReplaceClosed(bodies[1..]);
      assert Closed(bodies)[1..] == Closed(bodies[1..]);
      assert rewritten[1..] == RewrittenAll(bodies[1..]) && Closed(rewritten)[1..] == Closed(rewritten[1..]);
      ReplaceOne(bodies[0], rest);
    }
  }

  lemma ReplaceOne(body: string, rest: string)
    ensures ReplaceCrLf(body + "\n\n" + rest) == Rewritten(body) + "\n\n" + ReplaceCrLf(rest)
  {
    ReplaceSplit(body, "\n" + rest);
    ReplaceLf(rest);
    CutLineEnd(body);
    TwoEnds(body, rest);
    TwoEnds(Rewritten(body), ReplaceCrLf(rest));
  }

  lemma CutLineEnd(body: string)
    ensures ReplaceCrLf(body + "\n") == Rewritten(body) + "\n"
  {
    ReplaceKeepsEnd(body);
  }

  lemma TwoEnds(a: string, b: string)
    ensures a + "\n\n" + b == a + "\n" + ("\n" + b)
  {
  }

  /** The cursors SignSSEStream hands out. */
  function StreamCursors(initial: string, index: nat, count: nat): (cursors: seq<string>)
    ensures |cursors| == count
    decreases count
  {
    if count == 0 then [] else [StreamCursor(initial, index)] + StreamCursors(initial, index + 1, count - 1)
  }

  lemma {:induction false} StreamCursorsValid(initial: string, index: nat, count: nat)
    requires PlainText(initial)
    ensures forall i :: 0 <= i < count ==> ValidCursor(StreamCursors(initial, index, count)[i])
    decreases count
  {
    if count > 0 {
      SseMeaning.CursorValid(initial, index);
      StreamCursorsValid(initial, index + 1, count - 1);
    }
  }

  lemma {:induction false} SignBodies(k: Suite, bodies: seq<string>, previous: string, initial: string, index: nat)
    requires PlainText(initial) && forall i :: 0 <= i < |bodies| ==> !Blank(bodies[i])
    ensures SignParts(k, bodies + [""], previous, initial, index) ==
            Ok(FrameAll(k, bodies, StreamCursors(initial, index, |bodies|), previous))
    decreases bodies
  {
    assert (bodies + [""])[1..] == if bodies == [] then [] else bodies[1..] + [""];
    if bodies != [] {
      var cursor := StreamCursor(initial, index);
      var cursors := StreamCursors(initial, index, |bodies|);
      assert cursors[1..] == StreamCursors(initial, index + 1, |bodies| - 1);
      SseMeaning.CursorValid(initial, index);
      SignBodies(k, bodies[1..], EventHash(k, previous, Normalize(bodies[0] + "\n\n"), cursor), initial, index + 1);
    }
  }

  /** The round trip for the stream signer's own output: parsing and verifying it gives back every
      event as the signer rewrote it, in order, and the signer's last hash. */
  lemma SignSSEStreamRoundTrip(k: Suite, bodies: seq<string>, initial: string)
    requires Ideal(k) && PlainText(initial)
    requires forall i :: 0 <= i < |bodies| ==> Shaped(Rewritten(bodies[i])) && !Reserved(Rewritten(bodies[i])) && !Blank(Rewritten(bodies[i]))
    ensures var signed := SignStream(k, Concat(Closed(bodies)), initial);
            signed.Ok? && VerifyChunks(k, SplitBlank(signed.value.0), "") == Ok((Closed(RewrittenAll(bodies)), signed.value.1))
  {
    var rewritten := RewrittenAll(bodies);
    ReplaceClosed(bodies);
    SplitBodies(rewritten);
    SignBodies(k, rewritten, "", initial, 0);
    StreamCursorsValid(initial, 0, |rewritten|);
    SignedStreamRoundTrip(k, rewritten, StreamCursors(initial, 0, |rewritten|), "");
  }

  // ---- the chain binds its history ----

  datatype Link = Link(cursor: string, event: string)

  /** Hash reached from `start` through the links. */
  function ChainHash(k: Suite, start: string, links: seq<Link>): string
    decreases |links|, 1
  {
    if links == [] then start else k.hash(LastPreimage(k, start, links))
  }

  function LastPreimage(k: Suite, start: string, links: seq<Link>): string
    requires links != []
    decreases |links|, 0
  {
    var n := |links| - 1;
    Preimage(ChainHash(k, start, links[..n]), links[n].event, links[n].cursor)
  }

  /** The hash a verifier reaches through already parsed events, if every one verifies. */
  function VerifyLinks(k: Suite, start: string, links: seq<Link>, signed: seq<Signed>): Result<string>
    requires |links| == |signed|
  {
    if links == [] then Ok(start)
    else
      var n := |links| - 1;
      match VerifyLinks(k, start, links[..n], signed[..n])
      case Err(e) => Err(e)
      case Ok(previous) =>
        if signed[n].cursor != links[n].cursor then Err(InvalidCursor)
        else VerifyEvent(k, links[n].event, signed[n], previous)
  }

  lemma {:induction false} VerifiedIsChainHash(k: Suite, start: string, links: seq<Link>, signed: seq<Signed>)
    requires |links| == |signed| && VerifyLinks(k, start, links, signed).Ok?
    ensures VerifyLinks(k, start, links, signed).value == ChainHash(k, start, links)
    decreases |links|
  {
    if links != [] {
      var n := |links| - 1;
      VerifiedIsChainHash(k, start, links[..n], signed[..n]);
    }
  }

  ghost predicate Collision(k: Suite, x: string, y: string) { x != y && k.hash(x) == k.hash(y) }

  lemma PreimageInjective(p1: string, e1: string, c1: string, p2: string, e2: string, c2: string)
    requires |p1| == |p2| && '\0' !in c1 && '\0' !in c2
    requires Preimage(p1, e1, c1) == Preimage(p2, e2, c2)
    ensures p1 == p2 && e1 == e2 && c1 == c2
  {
    var t1, t2 := c1 + "\0" + e1, c2 + "\0" + e2;
    assert Preimage(p1, e1, c1) == DOMAIN + (p1 + ("\0" + t1));
    assert Preimage(p2, e2, c2) == DOMAIN + (p2 + ("\0" + t2));
    CancelFront(DOMAIN, p1 + ("\0" + t1), DOMAIN, p2 + ("\0" + t2));
    CancelFront(p1, "\0" + t1, p2, "\0" + t2);
    CancelFront("\0", t1, "\0", t2);
    IndexOfFound(c1, '\0', e1);
    IndexOfFound(c2, '\0', e2);
    assert c1 + ['\0'] + e1 == t1 && c2 + ['\0'] + e2 == t2;
    assert |c1| == |c2|;
    assert t1 == c1 + ("\0" + e1) && t2 == c2 + ("\0" + e2);
    CancelFront(c1, "\0" + e1, c2, "\0" + e2);
    CancelFront("\0", e1, "\0", e2);
  }

  lemma CancelFront(a1: string, b1: string, a2: string, b2: string)
    requires |a1| == |a2| && a1 + b1 == a2 + b2
    ensures a1 == a2 && b1 == b2
  {
    assert (a1 + b1)[..|a1|] == a1 && (a2 + b2)[..|a2|] == a2;
    assert (a1 + b1)[|a1|..] == b1 && (a2 + b2)[|a2|..] == b2;
  }

  /** Moving the separator: every NUL in a cursor can be traded for one in the event. */
  lemma NulMoves(previous: string, a: string, b: string, event: string)
    ensures Preimage(previous, event, a + "\0" + b) == Preimage(previous, b + "\0" + event, a)
  {
    assert (a + "\0" + b) + "\0" + event == a + "\0" + (b + "\0" + event);
    PreimageText(previous, event, a + "\0" + b);
    PreimageText(previous, b + "\0" + event, a);
  }

  lemma PreimageText(previous: string, event: string, cursor: string)
    ensures Preimage(previous, event, cursor) == DOMAIN + previous + "\0" + (cursor + "\0" + event)
  {
  }

  /** Another link with a valid cursor and the same hash input. */
  ghost predicate Ambiguous(previous: string, link: Link) {
    exists other: Link :: other != link && ValidCursor(other.cursor)
                          && Preimage(previous, other.event, other.cursor) == Preimage(previous, link.event, link.cursor)
  }

  /** The cursor has a NUL behind its first character. */
  predicate NulInCursor(link: Link) { exists i :: 0 < i < |link.cursor| && link.cursor[i] == '\0' }

  /** The event has a NUL in front of its first line end. */
  predicate NulInFirstLine(link: Link) { exists i :: 0 <= i < |link.event| && link.event[i] == '\0' && PlainText(link.event[..i]) }

  lemma CutAtNul(text: string, i: nat)
    requires i < |text| && text[i] == '\0'
    ensures text == text[..i] + "\0" + text[i + 1..]
  {
  }

  lemma NulGivesAnother(previous: string, link: Link)
    requires ValidCursor(link.cursor) && (NulInCursor(link) || NulInFirstLine(link))
    ensures Ambiguous(previous, link)
  {
    if NulInCursor(link) {
      var i :| 0 < i < |link.cursor| && link.cursor[i] == '\0';
      var a, b := link.cursor[..i], link.cursor[i + 1..];
      CutAtNul(link.cursor, i);
      NulMoves(previous, a, b, link.event);
      var other := Link(a, b + "\0" + link.event);
      assert |other.cursor| < |link.cursor| && ValidCursor(other.cursor);
      assert Preimage(previous, other.event, other.cursor) == Preimage(previous, link.event, link.cursor);
    } else {
      var i :| 0 <= i < |link.event| && link.event[i] == '\0' && PlainText(link.event[..i]);
      var a, b := link.event[..i], link.event[i + 1..];
      CutAtNul(link.event, i);
      NulMoves(previous, link.cursor, a, b);
      var other := Link(link.cursor + "\0" + a, b);
      assert |other.cursor| > |link.cursor| && ValidCursor(other.cursor);
      assert Preimage(previous, other.event, other.cursor) == Preimage(previous, link.event, link.cursor);
    }
  }

  /** Equal hash inputs with cursors of different lengths: the longer cursor has a NUL where the
      shorter ends, and what it has more lies in the other's event. */
  lemma LongerCursor(previous: string, short: Link, long: Link)
    requires ValidCursor(short.cursor) && ValidCursor(long.cursor) && |short.cursor| < |long.cursor|
    requires Preimage(previous, short.event, short.cursor) == Preimage(previous, long.event, long.cursor)
    ensures NulInCursor(long) && NulInFirstLine(short)
  {
    var s, t := short.cursor + "\0" + short.event, long.cursor + "\0" + long.event;
    PreimageText(previous, short.event, short.cursor);
    PreimageText(previous, long.event, long.cursor);
    CancelFront(DOMAIN + previous + "\0", s, DOMAIN + previous + "\0", t);
    var n, m := |short.cursor|, |long.cursor|;
    assert s[n] == '\0' && t[n] == long.cursor[n];
    var i := m - n - 1;
    assert s[m] == short.event[i] && t[m] == '\0';
    assert short.event[..i] == s[n + 1..m] == t[n + 1..m] == long.cursor[n + 1..];
    assert PlainText(short.event[..i]);
  }

  lemma SameLengthCursors(previous: string, a: Link, b: Link)
    requires |a.cursor| == |b.cursor| && Preimage(previous, a.event, a.cursor) == Preimage(previous, b.event, b.cursor)
    ensures a == b
  {
    PreimageText(previous, a.event, a.cursor);
    PreimageText(previous, b.event, b.cursor);
    var s, t := a.cursor + "\0" + a.event, b.cursor + "\0" + b.event;
    CancelFront(DOMAIN + previous + "\0", s, DOMAIN + previous + "\0", t);
    assert s == a.cursor + ("\0" + a.event) && t == b.cursor + ("\0" + b.event);
    CancelFront(a.cursor, "\0" + a.event, b.cursor, "\0" + b.event);
    CancelFront("\0", a.event, "\0", b.event);
  }

  /** Exactly which links the hash input does not pin down: those with a NUL behind the first character
      of the cursor, or a NUL in front of the first line end of the event. */
  lemma AmbiguousExactly(previous: string, link: Link)
    requires ValidCursor(link.cursor)
    ensures Ambiguous(previous, link) <==> NulInCursor(link) || NulInFirstLine(link)
  {
    if NulInCursor(link) || NulInFirstLine(link) {
      NulGivesAnother(previous, link);
    }
    if Ambiguous(previous, link) {
      var other: Link :| other != link && ValidCursor(other.cursor)
                         && Preimage(previous, other.event, other.cursor) == Preimage(previous, link.event, link.cursor);
      if |other.cursor| < |link.cursor| {
        LongerCursor(previous, other, link);
      } else if |link.cursor| < |other.cursor| {
        LongerCursor(previous, link, other);
      } else {
        SameLengthCursors(previous, link, other);
      }
    }
  }

  // ---- what the chain binds ----

  /** The hash input tells this link from the other one: neither cursor has a NUL, or both cursors are
      valid and the link is not ambiguous. */
  predicate ToldApart(link: Link, other: Link) {
    || ('\0' !in link.cursor && '\0' !in other.cursor)
    || (ValidCursor(link.cursor) && ValidCursor(other.cursor) && !NulInCursor(link) && !NulInFirstLine(link))
  }

  lemma SameInputSameLink(p: string, a: Link, q: string, b: Link)
    requires |p| == |q| && ToldApart(a, b) && Preimage(p, a.event, a.cursor) == Preimage(q, b.event, b.cursor)
    ensures p == q && a == b
  {
    if '\0' !in a.cursor && '\0' !in b.cursor {
      PreimageInjective(p, a.event, a.cursor, q, b.event, b.cursor);
    } else {
      assert Preimage(p, a.event, a.cursor) == DOMAIN + (p + ("\0" + (a.cursor + "\0" + a.event)));
      assert Preimage(q, b.event, b.cursor) == DOMAIN + (q + ("\0" + (b.cursor + "\0" + b.event)));
      CancelFront(DOMAIN, p + ("\0" + (a.cursor + "\0" + a.event)), DOMAIN, q + ("\0" + (b.cursor + "\0" + b.event)));
      CancelFront(p, "\0" + (a.cursor + "\0" + a.event), q, "\0" + (b.cursor + "\0" + b.event));
      AmbiguousExactly(p, a);
      assert b != a ==> Ambiguous(p, a);
    }
  }

  /** Two chains of equal length from the same start that reach the same hash carry identical cursors
      and events, or the hash function collides at one of their links, provided that the hash input
      tells the links apart: it is enough that one chain has no ambiguous link. */
  lemma {:induction false} ChainBindsHistory(k: Suite, start: string, a: seq<Link>, b: seq<Link>)
    requires forall m :: |k.hash(m)| == 32
    requires |a| == |b| && ChainHash(k, start, a) == ChainHash(k, start, b)
    requires forall i :: 0 <= i < |a| ==> ToldApart(a[i], b[i])
    ensures a == b || exists i :: 0 < i <= |a| && Collision(k, LastPreimage(k, start, a[..i]), LastPreimage(k, start, b[..i]))
    decreases |a|
  {
    if a != [] {
      var n := |a| - 1;
      assert a[..n + 1] == a && b[..n + 1] == b;
      if LastPreimage(k, start, a) != LastPreimage(k, start, b) {
        assert Collision(k, LastPreimage(k, start, a[..n + 1]), LastPreimage(k, start, b[..n + 1]));
      } else {
        var pa, pb := ChainHash(k, start, a[..n]), ChainHash(k, start, b[..n]);
        assert |pa| == |pb|;
        SameInputSameLink(pa, a[n], pb, b[n]);
        ChainBindsHistory(k, start, a[..n], b[..n]);
        if a[..n] == b[..n] {
          assert a == a[..n] + [a[n]] && b == b[..n] + [b[n]];
        } else {
          var i :| 0 < i <= n && Collision(k, LastPreimage(k, start, a[..n][..i]), LastPreimage(k, start, b[..n][..i]));
          assert a[..n][..i] == a[..i] && b[..n][..i] == b[..i];
        }
      }
    }
  }

  lemma {:induction false} VerifiedCursorsValid(k: Suite, start: string, links: seq<Link>, signed: seq<Signed>)
    requires |links| == |signed| && VerifyLinks(k, start, links, signed).Ok?
    ensures forall i :: 0 <= i < |links| ==> ValidCursor(links[i].cursor)
    decreases |links|
  {
    if links != [] {
      VerifiedCursorsValid(k, start, links[..|links| - 1], signed[..|links| - 1]);
      assert forall i :: 0 <= i < |links| - 1 ==> links[i] == links[..|links| - 1][i];
    }
  }

  /** What a verifier gets: against a chain without ambiguous links, any other verified chain of the
      same length, start and last hash is the same chain, or exhibits a hash collision, whoever made it. */
  lemma VerifiedChainsAgree(k: Suite, start: string, a: seq<Link>, signedA: seq<Signed>, b: seq<Link>, signedB: seq<Signed>)
    requires forall m :: |k.hash(m)| == 32
    requires |a| == |signedA| == |b| == |signedB|
    requires VerifyLinks(k, start, a, signedA).Ok? && VerifyLinks(k, start, b, signedB) == VerifyLinks(k, start, a, signedA)
    requires forall i :: 0 <= i < |a| ==> !NulInCursor(a[i]) && !NulInFirstLine(a[i])
    ensures a == b || exists i :: 0 < i <= |a| && Collision(k, LastPreimage(k, start, a[..i]), LastPreimage(k, start, b[..i]))
  {
    VerifiedIsChainHash(k, start, a, signedA);
    VerifiedIsChainHash(k, start, b, signedB);
    VerifiedCursorsValid(k, start, a, signedA);
    VerifiedCursorsValid(k, start, b, signedB);
    ChainBindsHistory(k, start, a, b);
  }

  /** One instance: one hash, two different events, no collision. */
  lemma NulCursorIsAmbiguous(k: Suite, previous: string)
    ensures ValidCursor("a\0b") && ValidCursor("a")
    ensures EventHash(k, previous, "c", "a\0b") == EventHash(k, previous, "b\0c", "a")
  {
    NulMoves(previous, "a", "b", "c");
    assert "a" + "\0" + "b" == "a\0b" && "b" + "\0" + "c" == "b\0c";
  }

  // ---- what a verifier accepts was signed ----

  /** One use of the private key on a stream event: its text and the raw hash of the chain up to it. */
  datatype Use = Use(event: string, cursor: string, hash: string)

  predicate ProperUse(use: Use) { ValidCursor(use.cursor) && |use.hash| == 32 }

  function UseText(use: Use): string { use.cursor + "\0" + use.hash + "\0" + use.event }

  /** The signed text can be read as another cursor, hash and event: two NULs, 33 places apart, somewhere
      else, and nothing but a cursor in front of the first. */
  predicate OtherReading(use: Use) {
    var text := UseText(use);
    exists i :: 0 < i < |text| - 33 && i != |use.cursor| && text[i] == '\0' && text[i + 33] == '\0' && PlainText(text[..i])
  }

  lemma SigningText(use: Use)
    ensures SigningBytes(use.event, use.cursor, use.hash) == DOMAIN + UseText(use)
  {
  }

  lemma SigningBinds(a: Use, b: Use)
    requires ProperUse(a) && ProperUse(b) && |a.cursor| == |b.cursor| && UseText(a) == UseText(b)
    ensures a == b
  {
    var n := |a.cursor|;
    var s := UseText(a);
    assert s[..n] == a.cursor && s[n + 1..n + 33] == a.hash && s[n + 34..] == a.event;
    assert s[..n] == b.cursor && s[n + 1..n + 33] == b.hash && s[n + 34..] == b.event;
  }

  /** Where another proper use with the same text puts its NULs. */
  lemma OtherUseReads(use: Use, other: Use)
    requires ProperUse(use) && ProperUse(other) && other != use && UseText(other) == UseText(use)
    ensures OtherReading(use)
  {
    var s, i := UseText(other), |other.cursor|;
    if i == |use.cursor| { SigningBinds(use, other); }
    assert s[i] == '\0' && s[i + 33] == '\0' && s[..i] == other.cursor;
  }

  /** Exactly which uses the signed text does not pin down. */
  lemma OtherReadingExactly(use: Use)
    requires ProperUse(use)
    ensures OtherReading(use)
            <==> exists other: Use :: ProperUse(other) && other != use && SigningBytes(other.event, other.cursor, other.hash) == SigningBytes(use.event, use.cursor, use.hash)
  {
    if OtherReading(use) {
      var other := OtherUse(use);
      SigningText(use);
      SigningText(other);
    }
    if other: Use :| ProperUse(other) && other != use && SigningBytes(other.event, other.cursor, other.hash) == SigningBytes(use.event, use.cursor, use.hash) {
      SigningText(use);
      SigningText(other);
      CancelFront(DOMAIN, UseText(other), DOMAIN, UseText(use));
      OtherUseReads(use, other);
    }
  }

  lemma OtherUse(use: Use) returns (other: Use)
    requires OtherReading(use)
    ensures ProperUse(other) && other != use && UseText(other) == UseText(use)
  {
    var s := UseText(use);
    var i :| 0 < i < |s| - 33 && i != |use.cursor| && s[i] == '\0' && s[i + 33] == '\0' && PlainText(s[..i]);
    other := Use(s[i + 34..], s[..i], s[i + 1..i + 33]);
    assert |other.cursor| == i;
  }

  predicate Logged(log: seq<Use>, use: Use) { exists i :: 0 <= i < |log| && log[i] == use }

  /** Whatever verifies was signed: as one of these stream events, or as some other kind of text. */
  ghost predicate Unforgeable(k: Suite, log: seq<Use>) {
    forall text, signature :: k.verify(text, signature) ==>
      !StartsWith(text, DOMAIN) || exists i :: 0 <= i < |log| && SigningBytes(log[i].event, log[i].cursor, log[i].hash) == text
  }

  /** The raw hash in the metadata of an event. */
  function RawHash(k: Suite, signed: Signed): string { if k.decode(signed.hash).Some? then k.decode(signed.hash).value else "" }

  /** Exactly when an event is accepted: valid cursor, the chain's hash over this very event, and a
      signature of the right size that verifies over event, cursor and hash. */
  lemma VerifyExactly(k: Suite, event: string, signed: Signed, previous: string)
    ensures VerifyEvent(k, event, signed, previous).Ok? <==>
            && (|previous| == 0 || |previous| == 32) && ValidCursor(signed.cursor)
            && |RawHash(k, signed)| == 32 && RawHash(k, signed) == EventHash(k, previous, event, signed.cursor)
            && k.decode(signed.signature).Some? && |k.decode(signed.signature).value| == 64
            && k.verify(SigningBytes(event, signed.cursor, RawHash(k, signed)), k.decode(signed.signature).value)
    ensures VerifyEvent(k, event, signed, previous).Ok? ==> VerifyEvent(k, event, signed, previous).value == RawHash(k, signed)
  {
  }

  /** An accepted event was signed: this very event, with this cursor and this hash, unless its text has
      a second reading. */
  lemma AcceptedEventWasSigned(k: Suite, log: seq<Use>, event: string, signed: Signed, previous: string)
    requires Unforgeable(k, log) && forall i :: 0 <= i < |log| ==> ProperUse(log[i])
    requires VerifyEvent(k, event, signed, previous).Ok? && !OtherReading(Use(event, signed.cursor, RawHash(k, signed)))
    ensures Logged(log, Use(event, signed.cursor, EventHash(k, previous, event, signed.cursor)))
  {
    VerifyExactly(k, event, signed, previous);
    var use := Use(event, signed.cursor, RawHash(k, signed));
    SigningText(use);
    assert StartsWith(DOMAIN + UseText(use), DOMAIN);
    var i :| 0 <= i < |log| && SigningBytes(log[i].event, log[i].cursor, log[i].hash) == DOMAIN + UseText(use);
    SigningText(log[i]);
    CancelFront(DOMAIN, UseText(log[i]), DOMAIN, UseText(use));
    if log[i] != use { OtherUseReads(use, log[i]); }
  }

  /** The use a link of a chain is signed by. */
  function LinkUse(k: Suite, start: string, links: seq<Link>, n: nat): Use
    requires n < |links|
  {
    Use(links[n].event, links[n].cursor, EventHash(k, ChainHash(k, start, links[..n]), links[n].event, links[n].cursor))
  }

  /** Every event a verifier accepts of a stream was signed at its place in the chain. */
  lemma {:induction false} AcceptedLinksWereSigned(k: Suite, log: seq<Use>, start: string, links: seq<Link>, signed: seq<Signed>)
    requires Unforgeable(k, log) && forall i :: 0 <= i < |log| ==> ProperUse(log[i])
    requires |links| == |signed| && VerifyLinks(k, start, links, signed).Ok?
    requires forall n :: 0 <= n < |links| ==> !OtherReading(LinkUse(k, start, links, n))
    ensures forall n :: 0 <= n < |links| ==> Logged(log, LinkUse(k, start, links, n))
    decreases |links|
  {
    if links != [] {
      var n := |links| - 1;
      var front := links[..n];
      forall i | 0 <= i < n ensures LinkUse(k, start, front, i) == LinkUse(k, start, links, i) { assert front[..i] == links[..i] && front[i] == links[i]; }
      assert forall i :: 0 <= i < n ==> !OtherReading(LinkUse(k, start, front, i)) by {
        forall i | 0 <= i < n ensures !OtherReading(LinkUse(k, start, front, i)) { assert !OtherReading(LinkUse(k, start, links, i)); }
      }
      AcceptedLinksWereSigned(k, log, start, front, signed[..n]);
      VerifiedIsChainHash(k, start, front, signed[..n]);
      var previous := ChainHash(k, start, front);
      VerifyExactly(k, links[n].event, signed[n], previous);
      assert !OtherReading(LinkUse(k, start, links, n));
      AcceptedEventWasSigned(k, log, links[n].event, signed[n], previous);
      forall i | 0 <= i < |links| ensures Logged(log, LinkUse(k, start, links, i)) {
        if i < n { assert Logged(log, LinkUse(k, start, front, i)); }
      }
    }
  }
}
