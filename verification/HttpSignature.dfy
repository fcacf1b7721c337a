/** Signed HTTP messages: the signature bases and the sign and verify pairs of
    internal/transport/http_signature.go and internal/attachment/http_signature.go. */
module HttpSignature {
  import opened Text
  import opened Decimal
  import opened Quoting
  import opened SignatureInput
  import Sse

  /** The four signed shapes: A2A requests and responses, blob requests and responses. */
  datatype Kind = Request | Response | BlobRequest | BlobResponse {
    function Profile(): Profile { if Request? || Response? then General else Blob }

    function Label(): string { if Request? || Response? then "snw-agent=" else "snw-blob=" }
  }

  /** The parts of an HTTP message that signing reads or writes. `uri` is the target URI, `query` is
      empty or starts with a question mark. */
  datatype Message = Message(
    verb: string, uri: string, authority: string, path: string, query: string, status: nat,
    range: string, contentRange: string, etag: string, agent: string, target: string,
    digest: string, signatureInput: string, signature: string, body: string)

  datatype Result<+T> = Ok(value: T) | Err(error: Error)
  datatype Error = MissingSignature | InvalidSignature | DigestMismatch

  /** Ed25519 for one key pair, SHA-256 as a content digest, base64, and strconv's quoting. */
  datatype Suite = Suite(
    quoter: Quoter,
    sign: string -> string, verify: (string, string) -> bool, contentDigest: string -> string,
    encode: string -> string, decode: string -> Option<string>, fingerprint: string)

  const SIGNATURE_SIZE := 64
  const SECOND: int := 1_000_000_000
  const FIVE_MINUTES: int := 300 * SECOND

  // ---- signature bases ----

  function Names(kind: Kind): seq<string> {
    match kind
    case Request => ["@method", "@target-uri", "content-digest", "x-snw-agent-id", "x-snw-target-agent-id"]
    case Response => ["@status", "content-digest", "x-snw-agent-id"]
    case BlobRequest => ["@method", "@authority", "@path", "@query", "content-digest", "range", "x-snw-agent-id", "x-snw-target-agent-id"]
    case BlobResponse => ["@status", "content-digest", "content-range", "etag", "x-snw-agent-id"]
  }

  function Values(kind: Kind, m: Message): (values: seq<string>)
    ensures |values| == |Names(kind)|
  {
    match kind
    case Request => [m.verb, m.uri, m.digest, m.agent, m.target]
    case Response => [FormatInt(m.status), m.digest, m.agent]
    case BlobRequest => [m.verb, m.authority, m.path, m.query, m.digest, m.range, m.agent, m.target]
    case BlobResponse => [FormatInt(m.status), m.digest, m.contentRange, m.etag, m.agent]
  }

  function Line(name: string, value: string): string { "\"" + name + "\": " + value }

  function BaseText(names: seq<string>, values: seq<string>, parameters: string): string
    requires |names| == |values|
    decreases |names|
  {
    if names == [] then Line("@signature-params", parameters)
    else Line(names[0], values[0]) + "\n" + BaseText(names[1..], values[1..], parameters)
  }

  /** requestSignatureBase, responseSignatureBase and the two blob forms. */
  function Base(q: Quoter, kind: Kind, m: Message, metadata: Metadata): string {
    BaseText(Names(kind), Values(kind, m), Print(q, kind.Profile(), metadata))
  }

  // ---- signing ----

  /** What the signer adds before it computes the base; responses name no target. */
  function Prepared(kind: Kind, suite: Suite, agent: string, target: string, m: Message): Message {
    var n := m.(digest := suite.contentDigest(m.body), agent := agent);
    if kind.Request? || kind.BlobRequest? then n.(target := target) else n
  }

  function NewMetadata(kind: Kind, suite: Suite, created: int, nonce: string): Metadata {
    Metadata(Names(kind), created, if kind.Profile() == Blob then created + 120 else 0, suite.fingerprint, nonce)
  }

  /** SignRequest, SignResponse, SignBlobRequest and SignBlobResponse. */
  function Sign(kind: Kind, suite: Suite, agent: string, target: string, m: Message, created: int, nonce: string): Message {
    Prepared(kind, suite, agent, target, m).(
      signatureInput := kind.Label() + Print(suite.quoter, kind.Profile(), NewMetadata(kind, suite, created, nonce)),
      signature := kind.Label() + (":" + suite.encode(suite.sign(SignedBase(kind, suite, agent, target, m, created, nonce))) + ":"))
  }

  /** The text that Sign signs. */
  function SignedBase(kind: Kind, suite: Suite, agent: string, target: string, m: Message, created: int, nonce: string): string {
    Base(suite.quoter, kind, Prepared(kind, suite, agent, target, m), NewMetadata(kind, suite, created, nonce))
  }

  // ---- verifying ----

  function TrimColons(s: string): string {
    if s != "" && s[0] == ':' then TrimColons(s[1..])
    else if s != "" && s[|s| - 1] == ':' then TrimColons(s[..|s| - 1])
    else s
  }

  /** The signature between its colons; the blob profile strips any number of them. */
  function Uncolon(profile: Profile, s: string): Option<string> {
    if profile == Blob then Some(TrimColons(s))
    else if |s| < 2 || s[0] != ':' || s[|s| - 1] != ':' then None
    else Some(s[1..|s| - 1])
  }

  function ReadSignature(profile: Profile, suite: Suite, s: string): Option<string> {
    match Uncolon(profile, s)
    case None => None
    case Some(text) =>
      match suite.decode(text)
      case None => None
      case Some(signature) => if |signature| == SIGNATURE_SIZE then Some(signature) else None
  }

  function ParseLabelled(profile: Profile, suite: Suite, prefix: string, input: string, value: string): Result<(Metadata, string)> {
    if profile == General && (input == "" || value == "") then Err(MissingSignature)
    else if !StartsWith(input, prefix) || !StartsWith(value, prefix) then Err(InvalidSignature)
    else Both(Parse(suite.quoter, profile, input[|prefix|..]), ReadSignature(profile, suite, value[|prefix|..]))
  }

  function Both(metadata: Option<Metadata>, signature: Option<string>): Result<(Metadata, string)> {
    if metadata.None? || signature.None? then Err(InvalidSignature) else Ok((metadata.value, signature.value))
  }

  /** parseSignatureHeaders and parseBlobSignatureHeaders. */
  function ParseHeaders(kind: Kind, suite: Suite, m: Message): Result<(Metadata, string)> {
    ParseLabelled(kind.Profile(), suite, kind.Label(), m.signatureInput, m.signature)
  }

  /** The clock test; times in nanoseconds, header times in seconds. */
  predicate InTime(kind: Kind, metadata: Metadata, now: int, allowedSkew: int) {
    var skew := if allowedSkew <= 0 then FIVE_MINUTES else allowedSkew;
    var created, expires := metadata.created * SECOND, metadata.expires * SECOND;
    && now - skew <= created <= now + skew
    && (kind.Profile() == Blob ==> now < expires <= created + FIVE_MINUTES)
  }

  /** Whom the verifier expects. In the general profile an empty target is any named target, and an
      empty agent of a response is any agent. */
  predicate Addressed(kind: Kind, m: Message, agent: string, target: string) {
    match kind
    case Request => agent != "" && m.agent == agent && m.target != "" && (target == "" || m.target == target)
    case Response => agent == "" || m.agent == agent
    case BlobRequest => agent != "" && target != "" && m.agent == agent && m.target == target
    case BlobResponse => agent != "" && m.agent == agent
  }

  /** VerifyRequestForTarget, VerifyResponseForAgent, VerifyBlobRequest, and VerifyBlobResponse on a
      blob label. The nonce is returned. */
  function Verify(kind: Kind, suite: Suite, m: Message, agent: string, target: string, now: int, allowedSkew: int): Result<string> {
    if (agent == "" && kind != Response) || (target == "" && kind == BlobRequest) then Err(InvalidSignature)
    else match ParseHeaders(kind, suite, m)
      case Err(error) => Err(error)
      case Ok((metadata, signature)) => Judge(kind, suite, m, agent, target, now, allowedSkew, metadata, signature)
  }

  /** The checks behind the parser. */
  function Judge(kind: Kind, suite: Suite, m: Message, agent: string, target: string, now: int, allowedSkew: int, metadata: Metadata, signature: string): Result<string> {
    if metadata.components != Names(kind) || metadata.keyId != suite.fingerprint then Err(InvalidSignature)
    else if !Addressed(kind, m, agent, target) || !InTime(kind, metadata, now, allowedSkew) then Err(InvalidSignature)
    else if m.digest != suite.contentDigest(m.body) then Err(DigestMismatch)
    else if !suite.verify(Base(suite.quoter, kind, m, metadata), signature) then Err(InvalidSignature)
    else Ok(metadata.nonce)
  }

  /** VerifyBlobResponse: a response carrying the general label is checked in the general profile. */
  function VerifyBlobReply(suite: Suite, m: Message, agent: string, now: int, allowedSkew: int): Result<string> {
    if agent == "" then Err(InvalidSignature)
    else if StartsWith(m.signatureInput, "snw-agent=") then
      if m.agent != agent then Err(InvalidSignature) else Verify(Response, suite, m, "", "", now, allowedSkew)
    else Verify(BlobResponse, suite, m, agent, "", now, allowedSkew)
  }

  // ---- what is signed verifies ----

  /** Base64 comes back and has no colon; signatures have Ed25519's size. */
  ghost predicate Codec(suite: Suite) {
    && Lawful(suite.quoter)
    && (forall s :: suite.decode(suite.encode(s)) == Some(s) && ':' !in suite.encode(s))
    && (forall s :: |suite.sign(s)| == SIGNATURE_SIZE)
  }

  predicate NameChar(c: char) { 'a' <= c <= 'z' || c == '-' || c == '@' }

  /** A covered name: safe in a component list, and free of quotes and line ends. */
  predicate PlainName(s: string) { forall i :: 0 <= i < |s| ==> NameChar(s[i]) }

  lemma PlainNameFree(s: string)
    requires PlainName(s)
    ensures SafeComponent(s) && '"' !in s && '\n' !in s
  {
  }

  lemma SharedNames()
    ensures PlainName("@method") && PlainName("@status") && PlainName("content-digest")
    ensures PlainName("x-snw-agent-id") && PlainName("x-snw-target-agent-id")
  {
  }

  lemma BlobNames()
    ensures PlainName("@target-uri") && PlainName("@authority") && PlainName("@path") && PlainName("@query")
    ensures PlainName("range") && PlainName("content-range") && PlainName("etag")
  {
  }

  lemma PlainNames(kind: Kind)
    ensures forall i :: 0 <= i < |Names(kind)| ==> PlainName(Names(kind)[i])
  {
    SharedNames();
    BlobNames();
    assert forall name <- Names(kind) :: PlainName(name);
  }

  lemma TrimColonsOnce(text: string)
    requires ':' !in text
    ensures TrimColons(":" + text + ":") == text
  {
    var s := ":" + text + ":";
    assert s[1..] == text + ":";
    assert (text + ":")[..|text|] == text;
    assert text != "" ==> text[0] in text && text[|text| - 1] in text;
    assert text != "" ==> (text + ":")[0] == text[0];
    assert TrimColons(text) == text;
    if text == "" {
      assert TrimColons(text + ":") == TrimColons((text + ":")[1..]);
    }
  }

  lemma SignatureRead(profile: Profile, suite: Suite, base: string)
    requires Codec(suite)
    ensures ReadSignature(profile, suite, ":" + suite.encode(suite.sign(base)) + ":") == Some(suite.sign(base))
  {
    var text := suite.encode(suite.sign(base));
    TrimColonsOnce(text);
    var s := ":" + text + ":";
    assert s[1..|s| - 1] == text;
  }

  lemma Labelled(prefix: string, text: string)
    ensures StartsWith(prefix + text, prefix) && (prefix + text)[|prefix|..] == text
  {
  }

  lemma HeadersRead(profile: Profile, suite: Suite, prefix: string, text: string, base: string)
    requires Codec(suite) && prefix != ""
    ensures ParseLabelled(profile, suite, prefix, prefix + text, prefix + (":" + suite.encode(suite.sign(base)) + ":"))
         == Both(Parse(suite.quoter, profile, text), Some(suite.sign(base)))
  {
    SignatureRead(profile, suite, base);
    Labelled(prefix, text);
    Labelled(prefix, ":" + suite.encode(suite.sign(base)) + ":");
  }

  lemma NewMetadataSafe(kind: Kind, suite: Suite, created: int, nonce: string)
    requires ';' !in suite.fingerprint && suite.fingerprint != "" && ';' !in nonce && nonce != ""
    requires 0 < created < INT64_LIMIT - 120
    ensures Safe(kind.Profile(), NewMetadata(kind, suite, created, nonce))
  {
    PlainNames(kind);
    forall i | 0 <= i < |Names(kind)| ensures SafeComponent(Names(kind)[i]) { PlainNameFree(Names(kind)[i]); }
  }

  /** The base depends on the message's own headers only, not on the two signature headers. */
  lemma BaseWithoutSignature(q: Quoter, kind: Kind, m: Message, metadata: Metadata, input: string, signature: string)
    ensures Base(q, kind, m.(signatureInput := input, signature := signature), metadata) == Base(q, kind, m, metadata)
  {
    assert Values(kind, m.(signatureInput := input, signature := signature)) == Values(kind, m);
  }

  /** The window written out: the header times, in seconds, against the clock, in nanoseconds. Without
      an allowed skew it is five minutes; a blob signature lasts until its expiry, five minutes at most. */
  predicate WithinWindow(blob: bool, created: int, expires: int, now: int, allowedSkew: int) {
    var skew := if allowedSkew > 0 then allowedSkew else 300_000_000_000;
    && created * 1_000_000_000 >= now - skew && created * 1_000_000_000 <= now + skew
    && (blob ==> expires * 1_000_000_000 > now && expires <= created + 300)
  }

  /** The agents written out: a verifier of requests accepts no other sender and no other target than it
      expects; outside blobs an empty target stands for any, and an empty sender of a response too. */
  predicate Expected(kind: Kind, agent: string, target: string, expected: string, expectedTarget: string) {
    && (kind == Request ==> expected != "" && agent == expected && target != "" && (expectedTarget == target || expectedTarget == ""))
    && (kind == BlobRequest ==> expected != "" && expectedTarget != "" && agent == expected && target == expectedTarget)
    && (kind == Response ==> agent == expected || expected == "")
    && (kind == BlobResponse ==> expected != "" && agent == expected)
  }

  lemma ClockExactly(kind: Kind, metadata: Metadata, now: int, allowedSkew: int)
    ensures InTime(kind, metadata, now, allowedSkew)
            <==> WithinWindow(kind == BlobRequest || kind == BlobResponse, metadata.created, metadata.expires, now, allowedSkew)
  {
  }

  lemma ExpectedExactly(kind: Kind, m: Message, agent: string, target: string)
    ensures Addressed(kind, m, agent, target) <==> Expected(kind, m.agent, m.target, agent, target)
  {
  }

  /** Exactly when a message is accepted, given what its two signature headers parse to; and when it is
      refused for the digest of its body alone. */
  lemma VerifyExactly(kind: Kind, suite: Suite, m: Message, agent: string, target: string, now: int, allowedSkew: int, metadata: Metadata, signature: string)
    requires ParseHeaders(kind, suite, m) == Ok((metadata, signature))
    ensures var r := Verify(kind, suite, m, agent, target, now, allowedSkew);
            var fits := && metadata.components == Names(kind) && metadata.keyId == suite.fingerprint && Expected(kind, m.agent, m.target, agent, target)
                        && WithinWindow(kind == BlobRequest || kind == BlobResponse, metadata.created, metadata.expires, now, allowedSkew);
            && (r == Ok(metadata.nonce) <==>
                fits && m.digest == suite.contentDigest(m.body) && suite.verify(Base(suite.quoter, kind, m, metadata), signature))
            && (r == Err(DigestMismatch) <==> fits && m.digest != suite.contentDigest(m.body))
            && r != Err(MissingSignature) && (r.Ok? ==> r.value == metadata.nonce)
  {
    ClockExactly(kind, metadata, now, allowedSkew);
    ExpectedExactly(kind, m, agent, target);
  }

  /** What signing changes: the digest of the body, the signer's agent, on requests the target's agent,
      and the two signature headers under the label of the profile; no other part of the message. */
  lemma SignedExactly(kind: Kind, suite: Suite, agent: string, target: string, m: Message, created: int, nonce: string)
    ensures var s := Sign(kind, suite, agent, target, m, created, nonce);
            && s == Message(m.verb, m.uri, m.authority, m.path, m.query, m.status, m.range, m.contentRange, m.etag, agent,
                            if kind == Request || kind == BlobRequest then target else m.target,
                            suite.contentDigest(m.body), s.signatureInput, s.signature, m.body)
            && StartsWith(s.signatureInput, if kind == Request || kind == Response then "snw-agent=" else "snw-blob=")
            && StartsWith(s.signature, if kind == Request || kind == Response then "snw-agent=" else "snw-blob=")
  {
    SignedHeaders(kind, suite, agent, target, m, created, nonce);
    Labelled(kind.Label(), Print(suite.quoter, kind.Profile(), NewMetadata(kind, suite, created, nonce)));
    Labelled(kind.Label(), ":" + suite.encode(suite.sign(SignedBase(kind, suite, agent, target, m, created, nonce))) + ":");
  }

  predicate Colons(s: string) { forall i :: 0 <= i < |s| ==> s[i] == ':' }

  /** `t` is `s` without the colons around it. */
  predicate Bare(s: string, t: string, i: nat, j: nat) {
    && i <= j <= |s| && t == s[i..j] && Colons(s[..i]) && Colons(s[j..])
    && (t != "" ==> t[0] != ':' && t[|t| - 1] != ':')
  }

  lemma {:induction false} TrimColonsExactly(s: string) returns (i: nat, j: nat)
    ensures Bare(s, TrimColons(s), i, j)
    decreases |s|
  {
    if s != "" && s[0] == ':' {
      var i', j' := TrimColonsExactly(s[1..]);
      i, j := i' + 1, j' + 1;
      assert s[..i] == [':'] + s[1..][..i'] && s[j..] == s[1..][j'..];
    } else if s != "" && s[|s| - 1] == ':' {
      var front := s[..|s| - 1];
      i, j := TrimColonsExactly(front);
      assert s[..i] == front[..i] && s[j..] == front[j..] + [':'];
    } else {
      i, j := 0, |s|;
    }
  }

  lemma UncolonExactly(s: string)
    ensures Uncolon(General, s).Some? <==> |s| >= 2 && s[0] == ':' && s[|s| - 1] == ':'
    ensures Uncolon(General, s).Some? ==> Uncolon(General, s).value == s[1..|s| - 1]
    ensures Uncolon(Blob, s) == Some(TrimColons(s))
  {
  }

  /** How a signature header is read: the general profile wants one colon on each side, the blob profile
      strips any number of them; and what is left decodes to 64 bytes. */
  lemma ReadSignatureExactly(profile: Profile, suite: Suite, s: string, text: string, signature: string)
    requires if profile == General then |s| >= 2 && s[0] == ':' && s[|s| - 1] == ':' && text == s[1..|s| - 1] else text == TrimColons(s)
    ensures ReadSignature(profile, suite, s) == Some(signature) <==> suite.decode(text) == Some(signature) && |signature| == 64
  {
    UncolonExactly(s);
  }

  lemma BareIsRefused(suite: Suite, s: string)
    requires !(|s| >= 2 && s[0] == ':' && s[|s| - 1] == ':')
    ensures ReadSignature(General, suite, s) == None
  {
    UncolonExactly(s);
  }

  /** A missing header is told from a wrong one in the general profile only. */
  lemma MissingExactly(kind: Kind, suite: Suite, m: Message)
    ensures ParseHeaders(kind, suite, m) == Err(MissingSignature)
            <==> (kind == Request || kind == Response) && (m.signatureInput == "" || m.signature == "")
  {
  }

  /** A signed message is accepted, and yields the signer's nonce, if and only if signer and target are
      the ones the verifier expects and the clock is within the window. */
  lemma SignThenVerify(kind: Kind, suite: Suite, agent: string, target: string, m: Message, created: int, nonce: string,
                       expected: string, expectedTarget: string, now: int, allowedSkew: int)
    requires Codec(suite) && suite.verify(SignedBase(kind, suite, agent, target, m, created, nonce), suite.sign(SignedBase(kind, suite, agent, target, m, created, nonce)))
    requires ';' !in suite.fingerprint && suite.fingerprint != "" && ';' !in nonce && nonce != ""
    requires 0 < created < INT64_LIMIT - 120
    ensures var signed := Sign(kind, suite, agent, target, m, created, nonce);
            Verify(kind, suite, signed, expected, expectedTarget, now, allowedSkew) == Ok(nonce)
            <==> Expected(kind, agent, target, expected, expectedTarget)
                 && WithinWindow(kind == BlobRequest || kind == BlobResponse, created, created + 120, now, allowedSkew)
  {
    var metadata := NewMetadata(kind, suite, created, nonce);
    var s := Sign(kind, suite, agent, target, m, created, nonce);
    SignedParts(kind, suite, agent, target, m, created, nonce);
    ClockExactly(kind, metadata, now, allowedSkew);
    ExpectedExactly(kind, s, expected, expectedTarget);
    JudgeSigned(kind, suite, agent, target, m, created, nonce, expected, expectedTarget, now, allowedSkew);
  }

  /** What the verifier reads from the headers of a signed message. */
  lemma SignedParts(kind: Kind, suite: Suite, agent: string, target: string, m: Message, created: int, nonce: string)
    requires Codec(suite) && 0 < created < INT64_LIMIT - 120
    requires ';' !in suite.fingerprint && suite.fingerprint != "" && ';' !in nonce && nonce != ""
    ensures ParseHeaders(kind, suite, Sign(kind, suite, agent, target, m, created, nonce))
         == Ok((NewMetadata(kind, suite, created, nonce), suite.sign(SignedBase(kind, suite, agent, target, m, created, nonce))))
  {
    var metadata := NewMetadata(kind, suite, created, nonce);
    NewMetadataSafe(kind, suite, created, nonce);
    ParsePrint(suite.quoter, kind.Profile(), metadata);
    HeadersRead(kind.Profile(), suite, kind.Label(), Print(suite.quoter, kind.Profile(), metadata), SignedBase(kind, suite, agent, target, m, created, nonce));
    SignedHeaders(kind, suite, agent, target, m, created, nonce);
  }

  lemma JudgeSigned(kind: Kind, suite: Suite, agent: string, target: string, m: Message, created: int, nonce: string,
                    expected: string, expectedTarget: string, now: int, allowedSkew: int)
    requires suite.verify(SignedBase(kind, suite, agent, target, m, created, nonce), suite.sign(SignedBase(kind, suite, agent, target, m, created, nonce)))
    ensures var s := Sign(kind, suite, agent, target, m, created, nonce);
            var metadata := NewMetadata(kind, suite, created, nonce);
            Judge(kind, suite, s, expected, expectedTarget, now, allowedSkew, metadata, suite.sign(SignedBase(kind, suite, agent, target, m, created, nonce)))
            == if Addressed(kind, s, expected, expectedTarget) && InTime(kind, metadata, now, allowedSkew) then Ok(nonce) else Err(InvalidSignature)
  {
    var s := Sign(kind, suite, agent, target, m, created, nonce);
    SignedHeaders(kind, suite, agent, target, m, created, nonce);
    BaseWithoutSignature(suite.quoter, kind, Prepared(kind, suite, agent, target, m), NewMetadata(kind, suite, created, nonce), s.signatureInput, s.signature);
  }

  lemma SignedHeaders(kind: Kind, suite: Suite, agent: string, target: string, m: Message, created: int, nonce: string)
    ensures var s := Sign(kind, suite, agent, target, m, created, nonce);
            var base := SignedBase(kind, suite, agent, target, m, created, nonce);
            && s == Prepared(kind, suite, agent, target, m).(signatureInput := s.signatureInput, signature := s.signature)
            && s.signatureInput == kind.Label() + Print(suite.quoter, kind.Profile(), NewMetadata(kind, suite, created, nonce))
            && s.signature == kind.Label() + (":" + suite.encode(suite.sign(base)) + ":")
  {
  }

  // ---- what is accepted was signed ----

  predicate OneLine(s: string) { '\n' !in s }

  predicate OneLineEach(values: seq<string>) { forall i :: 0 <= i < |values| ==> OneLine(values[i]) }

  /** Everything up to the first line end. */
  lemma FirstLine(a: string, x: string, b: string, y: string)
    requires OneLine(a) && OneLine(b) && a + "\n" + x == b + "\n" + y
    ensures a == b && x == y
  {
    IndexOfFound(a, '\n', x);
    IndexOfFound(b, '\n', y);
    var s := a + "\n" + x;
    assert s == a + ['\n'] + x && s == b + ['\n'] + y;
    assert s[..|a|] == a && s[..|b|] == b && s[|a| + 1..] == x && s[|b| + 1..] == y;
  }

  lemma LineBinds(a: string, x: string, b: string, y: string)
    requires '"' !in a && '"' !in b && Line(a, x) == Line(b, y)
    ensures a == b && x == y
  {
    var s := Line(a, x);
    assert s[1..] == a + ['"'] + (": " + x) && s[1..] == b + ['"'] + (": " + y);
    IndexOfFound(a, '"', ": " + x);
    IndexOfFound(b, '"', ": " + y);
    assert s[1..][..|a|] == a && s[1..][..|b|] == b;
    assert s[|a| + 4..] == x && s[|b| + 4..] == y;
  }

  lemma LineOneLine(name: string, value: string)
    requires '\n' !in name && OneLine(value)
    ensures OneLine(Line(name, value))
  {
  }

  lemma LastLine(names: seq<string>, values: seq<string>, p: string)
    requires |names| == |values| && OneLine(p)
    ensures OneLine(BaseText(names, values, p)) <==> names == []
  {
    LineOneLine("@signature-params", p);
  }

  /** A base text determines its names, values and parameters. */
  lemma {:induction false} BaseTextBinds(names: seq<string>, values: seq<string>, p: string, names': seq<string>, values': seq<string>, p': string)
    requires |names| == |values| && |names'| == |values'|
    requires forall i :: 0 <= i < |names| ==> PlainName(names[i])
    requires forall i :: 0 <= i < |names'| ==> PlainName(names'[i])
    requires OneLineEach(values) && OneLineEach(values') && OneLine(p) && OneLine(p')
    requires BaseText(names, values, p) == BaseText(names', values', p')
    ensures names == names' && values == values' && p == p'
    decreases |names|
  {
    LastLine(names, values, p);
    LastLine(names', values', p');
    if names == [] {
      LineBinds("@signature-params", p, "@signature-params", p');
    } else {
      PlainNameFree(names[0]);
      PlainNameFree(names'[0]);
      LineOneLine(names[0], values[0]);
      LineOneLine(names'[0], values'[0]);
      FirstLine(Line(names[0], values[0]), BaseText(names[1..], values[1..], p), Line(names'[0], values'[0]), BaseText(names'[1..], values'[1..], p'));
      LineBinds(names[0], values[0], names'[0], values'[0]);
      BaseTextBinds(names[1..], values[1..], p, names'[1..], values'[1..], p');
      assert names == [names[0]] + names[1..] && names' == [names'[0]] + names'[1..];
      assert values == [values[0]] + values[1..] && values' == [values'[0]] + values'[1..];
    }
  }

  lemma NamesTellKind(kind: Kind, kind': Kind)
    requires Names(kind) == Names(kind')
    ensures kind == kind'
  {
    assert |Names(kind)| == |Names(kind')|;
  }

  /** What a signature covers of its own parameters. */
  predicate SameParameters(profile: Profile, a: Metadata, b: Metadata) {
    && a.components == b.components && a.created == b.created && a.keyId == b.keyId && a.nonce == b.nonce
    && (profile == Blob ==> a.expires == b.expires)
  }

  /** Equal bases are of the same kind, cover equal values and carry equal parameters, whatever the metadata. */
  lemma BaseBinds(q: Quoter, kind: Kind, m: Message, metadata: Metadata, kind': Kind, m': Message, metadata': Metadata)
    requires Lawful(q) && OneLineEach(Values(kind, m)) && OneLineEach(Values(kind', m'))
    requires Base(q, kind, m, metadata) == Base(q, kind', m', metadata')
    ensures kind == kind' && Values(kind, m) == Values(kind', m') && SameParameters(kind.Profile(), metadata, metadata')
  {
    PlainNames(kind);
    PlainNames(kind');
    PrintOneLine(q, kind.Profile(), metadata);
    PrintOneLine(q, kind'.Profile(), metadata');
    BaseTextBinds(Names(kind), Values(kind, m), Print(q, kind.Profile(), metadata), Names(kind'), Values(kind', m'), Print(q, kind'.Profile(), metadata'));
    NamesTellKind(kind, kind');
    PrintBinds(q, kind.Profile(), metadata, metadata');
  }

  /** One use of the private key. */
  datatype Signed = Signed(kind: Kind, message: Message, metadata: Metadata)

  /** HTTP fields hold no line end. */
  predicate WellFormed(use: Signed) { OneLineEach(Values(use.kind, use.message)) }

  /** A text the key signs outside HTTP: stream events start with their domain, pairing envelopes are
      JSON objects. No base is one. */
  predicate Elsewhere(text: string) { text == "" || text[0] != '"' }

  lemma BaseIsNotElsewhere(q: Quoter, kind: Kind, m: Message, metadata: Metadata)
    ensures !Elsewhere(Base(q, kind, m, metadata))
  {
  }

  lemma StreamTextIsElsewhere(event: string, cursor: string, hash: string)
    ensures Elsewhere(Sse.SigningBytes(event, cursor, hash))
  {
    assert Sse.SigningBytes(event, cursor, hash)[0] == 's';
  }

  /** Whatever verifies was signed: as one of these bases, or as some other kind of text. */
  ghost predicate Unforgeable(suite: Suite, log: seq<Signed>) {
    forall text, signature :: suite.verify(text, signature) ==>
      Elsewhere(text) || exists i :: 0 <= i < |log| && Base(suite.quoter, log[i].kind, log[i].message, log[i].metadata) == text
  }

  /** What each kind of signature covers, field by field. */
  predicate SameCovered(kind: Kind, a: Message, b: Message) {
    && a.digest == b.digest && a.agent == b.agent
    && (kind == Request ==> a.verb == b.verb && a.uri == b.uri && a.target == b.target)
    && (kind == Response ==> a.status == b.status)
    && (kind == BlobRequest ==> a.verb == b.verb && a.authority == b.authority && a.path == b.path && a.query == b.query
                                && a.range == b.range && a.target == b.target)
    && (kind == BlobResponse ==> a.status == b.status && a.contentRange == b.contentRange && a.etag == b.etag)
  }

  lemma CoveredExactly(kind: Kind, a: Message, b: Message)
    ensures Values(kind, a) == Values(kind, b) <==> SameCovered(kind, a, b)
  {
    var v, w := Values(kind, a), Values(kind, b);
    if kind == Response || kind == BlobResponse {
      if FormatInt(a.status) == FormatInt(b.status) { FormatIntInjective(a.status, b.status); }
    }
    match kind
    case Request => assert v == w ==> v[0] == w[0] && v[1] == w[1] && v[2] == w[2] && v[3] == w[3] && v[4] == w[4];
    case Response => assert v == w ==> v[0] == w[0] && v[1] == w[1] && v[2] == w[2];
    case BlobRequest =>
      assert v == w ==> v[0] == w[0] && v[1] == w[1] && v[2] == w[2] && v[3] == w[3] && v[4] == w[4] && v[5] == w[5] && v[6] == w[6] && v[7] == w[7];
    case BlobResponse => assert v == w ==> v[0] == w[0] && v[1] == w[1] && v[2] == w[2] && v[3] == w[3] && v[4] == w[4];
  }

  predicate Vouches(suite: Suite, use: Signed, kind: Kind, m: Message, nonce: string) {
    && use.kind == kind && SameCovered(kind, use.message, m)
    && use.metadata.nonce == nonce && use.metadata.keyId == suite.fingerprint
    && use.message.digest == suite.contentDigest(m.body)
  }

  lemma AcceptedParts(kind: Kind, suite: Suite, m: Message, agent: string, target: string, now: int, allowedSkew: int) returns (parts: (Metadata, string))
    requires Verify(kind, suite, m, agent, target, now, allowedSkew).Ok?
    ensures suite.verify(Base(suite.quoter, kind, m, parts.0), parts.1)
    ensures Verify(kind, suite, m, agent, target, now, allowedSkew) == Ok(parts.0.nonce)
    ensures parts.0.keyId == suite.fingerprint && m.digest == suite.contentDigest(m.body)
    ensures InTime(kind, parts.0, now, allowedSkew) && Addressed(kind, m, agent, target)
  {
    parts := ParseHeaders(kind, suite, m).value;
  }

  /** An accepted message was signed: the key holder signed a message of the same kind with the same
      covered values, body digest and nonce, at a time the verifier's clock allows; and it names the
      agents the verifier expects. */
  lemma AcceptedWasSigned(kind: Kind, suite: Suite, log: seq<Signed>, m: Message, agent: string, target: string, now: int, allowedSkew: int)
    requires Lawful(suite.quoter) && Unforgeable(suite, log) && (forall i :: 0 <= i < |log| ==> WellFormed(log[i]))
    requires OneLineEach(Values(kind, m))
    requires Verify(kind, suite, m, agent, target, now, allowedSkew).Ok?
    ensures exists i :: 0 <= i < |log| && Vouches(suite, log[i], kind, m, Verify(kind, suite, m, agent, target, now, allowedSkew).value)
                        && WithinWindow(kind == BlobRequest || kind == BlobResponse, log[i].metadata.created, log[i].metadata.expires, now, allowedSkew)
    ensures Expected(kind, m.agent, m.target, agent, target)
  {
    var parts := AcceptedParts(kind, suite, m, agent, target, now, allowedSkew);
    var base := Base(suite.quoter, kind, m, parts.0);
    BaseIsNotElsewhere(suite.quoter, kind, m, parts.0);
    var i :| 0 <= i < |log| && Base(suite.quoter, log[i].kind, log[i].message, log[i].metadata) == base;
    assert WellFormed(log[i]);
    SameBaseVouches(suite, log[i], kind, m, parts.0);
    InTimeAlike(kind, log[i].metadata, parts.0, now, allowedSkew);
    ClockExactly(kind, log[i].metadata, now, allowedSkew);
    ExpectedExactly(kind, m, agent, target);
  }

  lemma InTimeAlike(kind: Kind, a: Metadata, b: Metadata, now: int, allowedSkew: int)
    requires SameParameters(kind.Profile(), a, b)
    ensures InTime(kind, a, now, allowedSkew) == InTime(kind, b, now, allowedSkew)
  {
  }

  lemma SameBaseVouches(suite: Suite, use: Signed, kind: Kind, m: Message, metadata: Metadata)
    requires Lawful(suite.quoter) && WellFormed(use) && OneLineEach(Values(kind, m))
    requires Base(suite.quoter, use.kind, use.message, use.metadata) == Base(suite.quoter, kind, m, metadata)
    requires metadata.keyId == suite.fingerprint && m.digest == suite.contentDigest(m.body)
    ensures Vouches(suite, use, kind, m, metadata.nonce) && SameParameters(kind.Profile(), use.metadata, metadata)
  {
    BaseBinds(suite.quoter, use.kind, use.message, use.metadata, kind, m, metadata);
    CoveredExactly(kind, use.message, m);
  }

  /** A blob reply is vouched for in the profile its label names. */
  lemma AcceptedBlobReply(suite: Suite, log: seq<Signed>, m: Message, agent: string, now: int, allowedSkew: int)
    requires Lawful(suite.quoter) && Unforgeable(suite, log) && (forall i :: 0 <= i < |log| ==> WellFormed(log[i]))
    requires OneLineEach(Values(Response, m)) && OneLineEach(Values(BlobResponse, m))
    requires VerifyBlobReply(suite, m, agent, now, allowedSkew).Ok?
    ensures m.agent == agent
    ensures exists i :: 0 <= i < |log| &&
              var general := StartsWith(m.signatureInput, "snw-agent=");
              && Vouches(suite, log[i], if general then Response else BlobResponse, m, VerifyBlobReply(suite, m, agent, now, allowedSkew).value)
              && WithinWindow(!general, log[i].metadata.created, log[i].metadata.expires, now, allowedSkew)
  {
    if StartsWith(m.signatureInput, "snw-agent=") {
      AcceptedWasSigned(Response, suite, log, m, "", "", now, allowedSkew);
    } else {
      AcceptedWasSigned(BlobResponse, suite, log, m, agent, "", now, allowedSkew);
    }
  }

  lemma LabelTold(text: string)
    ensures StartsWith("snw-agent=" + text, "snw-agent=") && !StartsWith("snw-blob=" + text, "snw-agent=")
  {
    assert ("snw-agent=" + text)[..10] == "snw-agent=";
    assert ("snw-blob=" + text)[4] == 'b' && "snw-agent="[4] == 'a';
  }

  /** A blob reply signed in either profile is accepted if and only if it is from the expected agent and
      within the window of its profile. */
  lemma SignedBlobReplyAccepted(kind: Kind, suite: Suite, agent: string, target: string, m: Message, created: int, nonce: string, expected: string, now: int, allowedSkew: int)
    requires kind == Response || kind == BlobResponse
    requires Codec(suite) && suite.verify(SignedBase(kind, suite, agent, target, m, created, nonce), suite.sign(SignedBase(kind, suite, agent, target, m, created, nonce)))
    requires ';' !in suite.fingerprint && suite.fingerprint != "" && ';' !in nonce && nonce != ""
    requires 0 < created < INT64_LIMIT - 120
    ensures VerifyBlobReply(suite, Sign(kind, suite, agent, target, m, created, nonce), expected, now, allowedSkew) == Ok(nonce)
            <==> expected == agent != "" && WithinWindow(kind == BlobResponse, created, created + 120, now, allowedSkew)
  {
    LabelTold(Print(suite.quoter, kind.Profile(), NewMetadata(kind, suite, created, nonce)));
    SignedHeaders(kind, suite, agent, target, m, created, nonce);
    SignThenVerify(kind, suite, agent, target, m, created, nonce, if kind == Response then "" else expected, "", now, allowedSkew);
  }
}
