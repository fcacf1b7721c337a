/** Signed event streams: internal/transport/sse.go. */
module Sse {
  import opened Text
  import Decimal

  /** The primitives the signer uses, for one key pair: SHA-256, unpadded base64url, Ed25519. */
  datatype Suite = Suite(
    hash: string -> string,
    encode: string -> string,
    decode: string -> Option<string>,
    sign: string -> string,
    verify: (string, string) -> bool)

  predicate PlainText(s: string) { '\r' !in s && '\n' !in s }

  /** What the proofs ask of the primitives; no collision freedom is assumed here. */
  ghost predicate Ideal(k: Suite) {
    && (forall m :: |k.hash(m)| == 32)
    && (forall x :: k.decode(k.encode(x)) == Some(x))
    && (forall x :: PlainText(k.encode(x)) && (x != "" ==> k.encode(x) != ""))
    && (forall m :: |k.sign(m)| == 64 && k.verify(m, k.sign(m)))
  }

  datatype SseError = InvalidEvent | InvalidCursor | BadSignature | BadHashChain

  datatype Result<+T> = Ok(value: T) | Err(error: SseError)

  datatype Signed = Signed(cursor: string, hash: string, signature: string)

  const DOMAIN := "snw-agent-link-sse-v1\0"

  predicate ValidCursor(cursor: string) { cursor != "" && PlainText(cursor) }

  function Preimage(previous: string, event: string, cursor: string): string {
    DOMAIN + previous + "\0" + cursor + "\0" + event
  }

  function EventHash(k: Suite, previous: string, event: string, cursor: string): string {
    k.hash(Preimage(previous, event, cursor))
  }

  function SigningBytes(event: string, cursor: string, hash: string): string {
    DOMAIN + cursor + "\0" + hash + "\0" + event
  }

  predicate EndsWith(s: string, p: string) { |p| <= |s| && s[|s| - |p|..] == p }

  function Normalize(event: string): (r: string)
    ensures EndsWith(r, "\n\n")
    ensures StartsWith(r, event)
  {
    if EndsWith(event, "\n\n") then event
    else if EndsWith(event, "\n") then
      assert EndsWith(event + "\n", "\n\n") by { assert event == event[..|event| - 1] + "\n"; }
      event + "\n"
    else event + "\n" + "\n"
  }

  function SignEvent(k: Suite, previous: string, event: string, cursor: string): Signed {
    var hash := EventHash(k, previous, event, cursor);
    Signed(cursor, k.encode(hash), k.encode(k.sign(SigningBytes(event, cursor, hash))))
  }

  const CURSOR_PREFIX := ": snw-cursor="
  const HASH_PREFIX := ": snw-hash="
  const SIGNATURE_PREFIX := ": snw-signature="

  /** The three comment lines in front of a signed event. */
  function Header(signed: Signed): string {
    (CURSOR_PREFIX + signed.cursor + "\n") + (HASH_PREFIX + signed.hash + "\n") + (SIGNATURE_PREFIX + signed.signature + "\n")
  }

  function CursorLine(signed: Signed): string { CURSOR_PREFIX + signed.cursor }
  function HashLine(signed: Signed): string { HASH_PREFIX + signed.hash }
  function SignatureLine(signed: Signed): string { SIGNATURE_PREFIX + signed.signature }

  predicate PlainFields(signed: Signed) {
    PlainText(signed.cursor) && PlainText(signed.hash) && PlainText(signed.signature)
  }

  lemma HeaderLines(signed: Signed, rest: string)
    ensures Header(signed) + rest ==
            CursorLine(signed) + "\n" + (HashLine(signed) + "\n" + (SignatureLine(signed) + "\n" + rest))
  {
    var a, b, c := CursorLine(signed) + "\n", HashLine(signed) + "\n", SignatureLine(signed) + "\n";
    assert Header(signed) == a + b + c;
    assert (a + b + c) + rest == a + (b + (c + rest));
  }

  lemma HeaderLinesPlain(signed: Signed)
    requires PlainFields(signed)
    ensures PlainText(CursorLine(signed)) && PlainText(HashLine(signed)) && PlainText(SignatureLine(signed))
    ensures CursorLine(signed) != "" && CursorLine(signed)[0] == ':'
    ensures HashLine(signed) != "" && HashLine(signed)[0] == ':'
    ensures SignatureLine(signed) != "" && SignatureLine(signed)[0] == ':'
  {
  }

  function FrameText(k: Suite, previous: string, event: string, cursor: string): string {
    Header(SignEvent(k, previous, Normalize(event), cursor)) + Normalize(event)
  }

  class SSEEventSigner {
    const suite: Suite
    var previousHash: string

    constructor (suite: Suite, previousHash: string)
      ensures this.suite == suite && this.previousHash == previousHash
    {
      this.suite := suite;
      this.previousHash := previousHash;
    }

    method Sign(event: string, cursor: string) returns (r: Result<Signed>)
      modifies this
      ensures r == if ValidCursor(cursor) then Ok(SignEvent(suite, old(previousHash), event, cursor)) else Err(InvalidCursor)
      ensures previousHash == if ValidCursor(cursor) then EventHash(suite, old(previousHash), event, cursor) else old(previousHash)
    {
      if !ValidCursor(cursor) {
        return Err(InvalidCursor);
      }
      var hash := EventHash(suite, previousHash, event, cursor);
      var signature := suite.sign(SigningBytes(event, cursor, hash));
      r := Ok(Signed(cursor, suite.encode(hash), suite.encode(signature)));
      previousHash := hash;
    }

    method Frame(event: string, cursor: string) returns (r: Result<string>)
      modifies this
      ensures r == if ValidCursor(cursor) then Ok(FrameText(suite, old(previousHash), event, cursor)) else Err(InvalidCursor)
      ensures previousHash == if ValidCursor(cursor) then EventHash(suite, old(previousHash), Normalize(event), cursor) else old(previousHash)
    {
      var normalized := Normalize(event);
      var signed := Sign(normalized, cursor);
      if signed.Err? {
        return Err(signed.error);
      }
      var frame := CURSOR_PREFIX + signed.value.cursor + "\n";
      frame := frame + (HASH_PREFIX + signed.value.hash + "\n");
      frame := frame + (SIGNATURE_PREFIX + signed.value.signature + "\n");
      frame := frame + normalized;
      if !EndsWith(normalized, "\n\n") {
        if !EndsWith(normalized, "\n") {
          frame := frame + "\n";
        }
        frame := frame + "\n";
      }
      return Ok(frame);
    }
  }

  function VerifyEvent(k: Suite, event: string, signed: Signed, previous: string): Result<string> {
    if |previous| != 0 && |previous| != 32 then Err(BadHashChain)
    else if !ValidCursor(signed.cursor) then Err(InvalidCursor)
    else
      var hash := k.decode(signed.hash);
      if hash.None? || |hash.value| != 32 then Err(BadHashChain)
      else if hash.value != EventHash(k, previous, event, signed.cursor) then Err(BadHashChain)
      else
        var signature := k.decode(signed.signature);
        if signature.None? || |signature.value| != 64
           || !k.verify(SigningBytes(event, signed.cursor, hash.value), signature.value)
        then Err(BadSignature)
        else Ok(hash.value)
  }

  // ---- parsing one frame ----

  function TrimCr(line: string): string {
    if line != "" && line[|line| - 1] == '\r' then line[..|line| - 1] else line
  }

  function ValidateMetadata(event: string, signed: Signed): Result<(string, Signed)> {
    if signed.cursor == "" || signed.hash == "" || signed.signature == "" then Err(InvalidEvent)
    else if !ValidCursor(signed.cursor) then Err(InvalidCursor)
    else Ok((event, signed))
  }

  /** The metadata with a reserved comment line taken in, or None for any other line. */
  function TakeMetadata(line: string, signed: Signed): Option<Signed> {
    if StartsWith(line, CURSOR_PREFIX) then Some(signed.(cursor := line[|CURSOR_PREFIX|..]))
    else if StartsWith(line, HASH_PREFIX) then Some(signed.(hash := line[|HASH_PREFIX|..]))
    else if StartsWith(line, SIGNATURE_PREFIX) then Some(signed.(signature := line[|SIGNATURE_PREFIX|..]))
    else None
  }

  /** What the first line of `rest` is: none, metadata (with what is behind it), or something else. */
  datatype Round = NoLine | Metadata(rest: string, signed: Signed) | Other

  function FirstRound(rest: string, signed: Signed): (r: Round)
    ensures r.Metadata? ==> |r.rest| < |rest|
  {
    var end := IndexOf(rest, '\n');
    if end < 0 then NoLine
    else match TakeMetadata(TrimCr(rest[..end]), signed)
      case Some(taken) => Metadata(rest[end + 1..], taken)
      case None => Other
  }

  /** Consumes metadata lines from the front of `rest` until another line is met. */
  function ParseFrom(rest: string, signed: Signed): Result<(string, Signed)>
    decreases |rest|
  {
    match FirstRound(rest, signed)
    case NoLine => Err(InvalidEvent)
    case Metadata(next, taken) => ParseFrom(next, taken)
    case Other => ValidateMetadata(rest, signed)
  }

  function ParseFrame(frame: string): Result<(string, Signed)> {
    ParseFrom(frame, Signed("", "", ""))
  }

  /** The first round on the rest of a frame; afterwards `next` is where the rest begins. */
  method TakeLine(frame: string, position: nat, signed: Signed) returns (r: Round, next: nat)
    requires position < |frame|
    ensures r == FirstRound(frame[position..], signed)
    ensures r.Metadata? ==> position < next <= |frame| && r.rest == frame[next..]
  {
    var lineEnd := IndexOf(frame[position..], '\n');
    next := position;
    if lineEnd < 0 {
      return NoLine, next;
    }
    lineEnd := lineEnd + position;
    SliceTwice(frame, position, lineEnd - position);
    var taken := TakeMetadata(TrimCr(frame[position..lineEnd]), signed);
    if taken.None? {
      return Other, next;
    }
    next := lineEnd + 1;
    r := Metadata(frame[next..], taken.value);
  }

  lemma SliceTwice(frame: string, position: nat, end: nat)
    requires position + end < |frame|
    ensures frame[position..][..end] == frame[position..position + end] && frame[position..][end + 1..] == frame[position + end + 1..]
  {
  }

  lemma ParseNothing(signed: Signed)
    ensures ParseFrom("", signed) == Err(InvalidEvent)
  {
  }

  method ParseSignedSSEFrame(frame: string) returns (r: Result<(string, Signed)>)
    ensures r == ParseFrame(frame)
  {
    if |frame| == 0 {
      return Err(InvalidEvent);
    }
    var signed := Signed("", "", "");
    var position := 0;
    ghost var parsed := ParseFrame(frame);
    assert frame[0..] == frame;
    while position < |frame|
      invariant 0 <= position <= |frame|
      invariant parsed == ParseFrom(frame[position..], signed)
    {
      var round, next := TakeLine(frame, position, signed);
      match round {
        case NoLine => return Err(InvalidEvent);
        case Other => return ValidateMetadata(frame[position..], signed);
        case Metadata(_, taken) => position, signed := next, taken;
      }
    }
    assert frame[position..] == "";
    ParseNothing(signed);
    return Err(InvalidEvent);
  }

  // ---- signing a whole stream ----

  function ReplaceCrLf(s: string): string {
    if s == "" then ""
    else if StartsWith(s, "\r\n") then "\n" + ReplaceCrLf(s[2..])
    else [s[0]] + ReplaceCrLf(s[1..])
  }

  /** bytes.Split at "\n\n": leftmost, non-overlapping. */
  function SplitBlank(s: string): (parts: seq<string>)
    ensures |parts| > 0
  {
    if s == "" then [""]
    else if StartsWith(s, "\n\n") then [""] + SplitBlank(s[2..])
    else
      var r := SplitBlank(s[1..]);
      [[s[0]] + r[0]] + r[1..]
  }

  /** bytes.TrimSpace(part) is empty. */
  predicate Blank(part: string)
    decreases |part|
  {
    part == "" || (0 < SpaceLength(part) <= |part| && Blank(part[SpaceLength(part)..]))
  }

  function StreamCursor(initial: string, index: nat): string {
    if initial == "" then "cursor-" + Decimal.Digits(index + 1)
    else match Decimal.ParseUint64(initial)
      case Some(value) => Decimal.Digits((value + index + 1) % Decimal.UINT64_LIMIT)
      case None => initial + "-" + Decimal.Digits(index + 1)
  }

  /** Signed text of the parts, and the last hash of the chain. */
  function SignParts(k: Suite, parts: seq<string>, previous: string, initial: string, index: nat): Result<(string, string)>
    decreases parts
  {
    if parts == [] then Ok(("", previous))
    else if Blank(parts[0]) then SignParts(k, parts[1..], previous, initial, index)
    else
      var cursor := StreamCursor(initial, index);
      if !ValidCursor(cursor) then Err(InvalidCursor)
      else
        var event := parts[0] + "\n\n";
        Prepend(FrameText(k, previous, event, cursor),
                SignParts(k, parts[1..], EventHash(k, previous, Normalize(event), cursor), initial, index + 1))
  }

  function Prepend(text: string, r: Result<(string, string)>): Result<(string, string)> {
    if r.Ok? then Ok((text + r.value.0, r.value.1)) else r
  }

  lemma PrependEmpty(r: Result<(string, string)>)
    ensures Prepend("", r) == r
  {
    if r.Ok? { assert "" + r.value.0 == r.value.0; }
  }

  lemma PrependPrepend(a: string, b: string, r: Result<(string, string)>)
    ensures Prepend(a, Prepend(b, r)) == Prepend(a + b, r)
  {
    if r.Ok? { assert a + (b + r.value.0) == a + b + r.value.0; }
  }

  function SignStream(k: Suite, stream: string, initial: string): Result<(string, string)> {
    SignParts(k, SplitBlank(ReplaceCrLf(stream)), "", initial, 0)
  }

  method SignSSEStream(k: Suite, stream: string, initial: string) returns (r: Result<string>, lastHash: string)
    ensures match SignStream(k, stream, initial)
            case Ok(v) => r == Ok(v.0) && lastHash == v.1
            case Err(e) => r == Err(e)
  {
    var eventSigner := new SSEEventSigner(k, "");
    var parts := SplitBlank(ReplaceCrLf(stream));
    var signed := "";
    var eventIndex := 0;
    assert parts[0..] == parts;
    PrependEmpty(SignStream(k, stream, initial));
    for i := 0 to |parts|
      invariant eventSigner.suite == k
      invariant SignStream(k, stream, initial) ==
                Prepend(signed, SignParts(k, parts[i..], eventSigner.previousHash, initial, eventIndex))
    {
      assert parts[i..][1..] == parts[i + 1..];
      if !Blank(parts[i]) {
        var cursor := StreamCursor(initial, eventIndex);
        var event := parts[i] + "\n\n";
        ghost var tail := SignParts(k, parts[i + 1..], EventHash(k, eventSigner.previousHash, Normalize(event), cursor), initial, eventIndex + 1);
        var frame := eventSigner.Frame(event, cursor);
        if frame.Err? {
          return Err(frame.error), eventSigner.previousHash;
        }
        PrependPrepend(signed, frame.value, tail);
        signed := signed + frame.value;
        eventIndex := eventIndex + 1;
      }
    }
    assert parts[|parts|..] == [];
    assert signed + "" == signed;
    return Ok(signed), eventSigner.previousHash;
  }
}
