/** HTTP message signatures: the Signature-Input text of internal/transport/http_signature.go and
    internal/attachment/http_signature.go (sections 2.3, 2.5 and 4.1 of RFC 9421). All texts are byte
    strings. `q` is the pair strconv.Quote and strconv.Unquote, which `Quoting` models and proves lawful. */
module SignatureInput {
  import opened Text
  import opened Decimal
  import opened Quoting

  // ---- Go's string helpers ----

  function TrimLeft(s: string): string
    decreases |s|
  {
    if SpaceLength(s) > 0 then TrimLeft(s[SpaceLength(s)..]) else s
  }

  lemma EndSpace(s: string)
    requires SpaceAtEnd(s) > 0
    ensures SpaceLength(s[|s| - SpaceAtEnd(s)..]) == SpaceAtEnd(s)
  {
  }

  function TrimRight(s: string): string
    decreases |s|
  {
    if SpaceAtEnd(s) > 0 then TrimRight(s[..|s| - SpaceAtEnd(s)]) else s
  }

  function TrimSpace(s: string): string { TrimRight(TrimLeft(s)) }

  /** strings.Fields, with the token read so far. */
  function Fields(s: string, token: string): seq<string>
    decreases |s|
  {
    var done := if token == "" then [] else [token];
    if s == "" then done
    else if SpaceLength(s) > 0 then done + Fields(s[SpaceLength(s)..], "")
    else Fields(s[1..], token + [s[0]])
  }

  /** strings.Split at one character. */
  function Split(s: string, c: char): (parts: seq<string>)
    ensures |parts| > 0
  {
    if s == "" then [""]
    else
      var r := Split(s[1..], c);
      if s[0] == c then [""] + r else [[s[0]] + r[0]] + r[1..]
  }

  function Join(parts: seq<string>, separator: string): string {
    if parts == [] then "" else if |parts| == 1 then parts[0] else parts[0] + separator + Join(parts[1..], separator)
  }

  // ---- metadata ----

  /** The general profile, and the blob profile with an expiry. */
  datatype Profile = General | Blob

  datatype Metadata = Metadata(components: seq<string>, created: int, expires: int, keyId: string, nonce: string)

  function QuoteAll(q: Quoter, components: seq<string>): seq<string> {
    if components == [] then [] else [q.quote(components[0])] + QuoteAll(q, components[1..])
  }

  function UnquoteAll(q: Quoter, tokens: seq<string>): Option<seq<string>> {
    if tokens == [] then Some([])
    else match q.unquote(tokens[0])
      case None => None
      case Some(component) =>
        match UnquoteAll(q, tokens[1..])
        case None => None
        case Some(rest) => Some([component] + rest)
  }

  /** The parameters behind the component list, each after its semicolon. */
  function Parameters(q: Quoter, profile: Profile, m: Metadata): seq<string> {
    ["created=" + FormatInt(m.created)]
    + (if profile == Blob then ["expires=" + FormatInt(m.expires)] else [])
    + ["keyid=" + q.quote(m.keyId), "nonce=" + q.quote(m.nonce)]
  }

  function WithSemicolons(parameters: seq<string>): string {
    if parameters == [] then "" else ";" + parameters[0] + WithSemicolons(parameters[1..])
  }

  /** signatureParams and blobSignatureParams. */
  function Print(q: Quoter, profile: Profile, m: Metadata): string {
    "(" + Join(QuoteAll(q, m.components), " ") + ")" + WithSemicolons(Parameters(q, profile, m))
  }

  /** One round of the parser's loop over the parameters. */
  function TakeParameter(q: Quoter, profile: Profile, m: Metadata, parameter: string): Option<Metadata> {
    TakeText(q, profile, m, TrimSpace(parameter))
  }

  function TakeText(q: Quoter, profile: Profile, m: Metadata, text: string): Option<Metadata> {
    var eq := IndexOf(text, '=');
    if eq < 0 then Some(m) else TakeValue(q, profile, m, text[..eq], text[eq + 1..])
  }

  function TakeValue(q: Quoter, profile: Profile, m: Metadata, name: string, value: string): Option<Metadata> {
    if name == "created" || (profile == Blob && name == "expires") then TakeNumber(m, name == "created", ParseInt64(value))
    else if name == "keyid" || name == "nonce" then
      match q.unquote(value)
      case None => None
      case Some(v) => Some(if name == "keyid" then m.(keyId := v) else m.(nonce := v))
    else Some(m)
  }

  function TakeNumber(m: Metadata, created: bool, n: Option<int>): Option<Metadata> {
    if n.None? then None else Some(if created then m.(created := n.value) else m.(expires := n.value))
  }

  function TakeAll(q: Quoter, profile: Profile, m: Metadata, parameters: seq<string>): Option<Metadata>
    decreases parameters
  {
    if parameters == [] then Some(m)
    else match TakeParameter(q, profile, m, parameters[0])
      case None => None
      case Some(next) => TakeAll(q, profile, next, parameters[1..])
  }

  /** What the parser asks of the metadata at the end. */
  predicate Acceptable(profile: Profile, m: Metadata) {
    && m.keyId != "" && m.nonce != ""
    && (if profile == General then m.created > 0 else m.created != 0 && m.expires != 0)
  }

  const NOTHING := Metadata([], 0, 0, "", "")

  /** The two halves of the text, without the parentheses. */
  function ParseHalves(q: Quoter, profile: Profile, inner: string, tail: string): Option<Metadata> {
    match UnquoteAll(q, Fields(TrimSpace(inner), ""))
    case None => None
    case Some(components) =>
      match TakeAll(q, profile, NOTHING.(components := components), Split(tail, ';'))
      case None => None
      case Some(m) => if Acceptable(profile, m) then Some(m) else None
  }

  /** parseSignatureParams and parseBlobSignatureParams. */
  function Parse(q: Quoter, profile: Profile, value: string): Option<Metadata> {
    var close := IndexOf(value, ')');
    if !StartsWith(value, "(") || close < 0 then None
    else
      assert value[0] == '(';
      ParseHalves(q, profile, value[1..close], value[close + 1..])
  }

  /** The parser's first loop. */
  method UnquoteTokens(q: Quoter, tokens: seq<string>) returns (r: Option<seq<string>>)
    ensures r == UnquoteAll(q, tokens)
  {
    var components: seq<string> := [];
    assert tokens[0..] == tokens && forall rest: seq<string> :: components + rest == rest;
    for i := 0 to |tokens|
      invariant UnquoteAll(q, tokens) == match UnquoteAll(q, tokens[i..]) case None => None case Some(rest) => Some(components + rest)
    {
      assert tokens[i..][0] == tokens[i] && tokens[i..][1..] == tokens[i + 1..];
      var component := q.unquote(tokens[i]);
      if component.None? {
        return None;
      }
      assert forall rest: seq<string> :: components + ([component.value] + rest) == (components + [component.value]) + rest;
      components := components + [component.value];
    }
    assert tokens[|tokens|..] == [] && components + [] == components;
    return Some(components);
  }

  /** The parser's second loop. */
  method TakeParameters(q: Quoter, profile: Profile, start: Metadata, parameters: seq<string>) returns (r: Option<Metadata>)
    ensures r == TakeAll(q, profile, start, parameters)
  {
    var metadata := start;
    assert parameters[0..] == parameters;
    for i := 0 to |parameters|
      invariant TakeAll(q, profile, start, parameters) == TakeAll(q, profile, metadata, parameters[i..])
    {
      assert parameters[i..][0] == parameters[i] && parameters[i..][1..] == parameters[i + 1..];
      var taken := TakeParameter(q, profile, metadata, parameters[i]);
      if taken.None? {
        return None;
      }
      metadata := taken.value;
    }
    return Some(metadata);
  }

  /** The parser as it runs: two loops that build the metadata up. */
  method ParseParams(q: Quoter, profile: Profile, value: string) returns (r: Option<Metadata>)
    ensures r == Parse(q, profile, value)
  {
    var close := IndexOf(value, ')');
    if !StartsWith(value, "(") || close < 0 {
      return None;
    }
    assert value[0] == '(';
    var components := UnquoteTokens(q, Fields(TrimSpace(value[1..close]), ""));
    if components.None? {
      return None;
    }
    var metadata := TakeParameters(q, profile, NOTHING.(components := components.value), Split(value[close + 1..], ';'));
    if metadata.None? || !Acceptable(profile, metadata.value) {
      return None;
    }
    return metadata;
  }

  /** The printer as it runs: a loop that quotes the components, then one concatenation. */
  method PrintParams(q: Quoter, profile: Profile, m: Metadata) returns (text: string)
    ensures text == Print(q, profile, m)
  {
    var quoted: seq<string> := [];
    assert m.components[0..] == m.components && quoted + QuoteAll(q, m.components) == QuoteAll(q, m.components);
    for i := 0 to |m.components|
      invariant QuoteAll(q, m.components) == quoted + QuoteAll(q, m.components[i..])
    {
      assert m.components[i..][0] == m.components[i] && m.components[i..][1..] == m.components[i + 1..];
      quoted := quoted + [q.quote(m.components[i])];
    }
    assert m.components[|m.components|..] == [] && quoted + [] == quoted;
    var parameters := Parameters(q, profile, m);
    text := "(" + Join(quoted, " ") + ")" + WithSemicolons(parameters);
  }

  /** sameComponents. */
  method SameComponents(actual: seq<string>, expected: seq<string>) returns (same: bool)
    ensures same <==> actual == expected
  {
    if |actual| != |expected| {
      return false;
    }
    for i := 0 to |expected|
      invariant actual[..i] == expected[..i]
    {
      if actual[i] != expected[i] {
        return false;
      }
    }
    assert actual == actual[..|expected|] && expected == expected[..|expected|];
    return true;
  }

  // ---- what survives ----

  predicate SafeComponent(s: string) { ' ' !in s && ')' !in s }

  predicate InRange(n: int) { -INT64_LIMIT <= n < INT64_LIMIT }

  /** Metadata whose printed form can be read: component names without blank or closing parenthesis,
      key id and nonce without semicolon, numbers that fit, and what the parser asks for at the end. */
  predicate Safe(profile: Profile, m: Metadata) {
    && (forall i :: 0 <= i < |m.components| ==> SafeComponent(m.components[i]))
    && ';' !in m.keyId && ';' !in m.nonce
    && Readable(profile, m)
  }

  predicate Readable(profile: Profile, m: Metadata) {
    && InRange(m.created) && InRange(m.expires) && (profile == General ==> m.expires == 0) && Acceptable(profile, m)
  }

  lemma {:induction false} UnquoteAllQuoteAll(q: Quoter, components: seq<string>)
    requires Lawful(q)
    ensures UnquoteAll(q, QuoteAll(q, components)) == Some(components)
    decreases components
  {
    if components != [] {
      assert LawfulAt(q, components[0]);
      UnquoteAllQuoteAll(q, components[1..]);
      UnquoteFirst(q, q.quote(components[0]), QuoteAll(q, components[1..]));
      assert [components[0]] + components[1..] == components;
    }
  }

  lemma UnquoteFirst(q: Quoter, token: string, rest: seq<string>)
    ensures UnquoteAll(q, [token] + rest) ==
            if q.unquote(token).None? || UnquoteAll(q, rest).None? then None else Some([q.unquote(token).value] + UnquoteAll(q, rest).value)
  {
    assert ([token] + rest)[1..] == rest;
  }

  // ---- white space ----

  /** White space does not begin at the end of a text and go on in one that starts in ASCII. */
  lemma SpaceStops(t: string, rest: string)
    requires t != "" && (rest == "" || rest[0] as int < 0x80 || SpaceLength(rest) > 0)
    ensures SpaceLength(t + rest) == SpaceLength(t)
  {
    assert t + "" == t;
  }

  predicate NoSpace(s: string) { forall i :: 0 <= i < |s| ==> SpaceLength(s[i..]) == 0 }

  lemma {:induction false} FieldsToken(token: string, rest: string, read: string)
    requires NoSpace(token) && (rest == "" || rest[0] == ' ')
    ensures Fields(token + rest, read) == Fields(rest, read + token)
    decreases token
  {
    if token == "" {
      assert token + rest == rest && read + token == read;
    } else {
      assert token[0..] == token;
      SpaceStops(token, rest);
      assert (token + rest)[1..] == token[1..] + rest;
      NoSpaceTail(token);
      FieldsToken(token[1..], rest, read + [token[0]]);
      assert read + [token[0]] + token[1..] == read + token;
    }
  }

  lemma NoSpaceTail(token: string)
    requires token != "" && NoSpace(token)
    ensures NoSpace(token[1..])
  {
    forall i | 0 <= i < |token| - 1 ensures SpaceLength(token[1..][i..]) == 0 { assert token[1..][i..] == token[i + 1..]; }
  }

  /** A token, a blank, and the rest. */
  lemma FieldsFirst(token: string, rest: string)
    requires NoSpace(token) && token != ""
    ensures Fields(token + " " + rest, "") == [token] + Fields(rest, "")
    ensures Fields(token, "") == [token]
  {
    FieldsToken(token, " " + rest, "");
    assert token + " " + rest == token + (" " + rest) && "" + token == token && (" " + rest)[1..] == rest;
    FieldsToken(token, "", "");
    assert token + "" == token;
  }

  lemma {:induction false} FieldsJoin(tokens: seq<string>)
    requires forall i :: 0 <= i < |tokens| ==> tokens[i] != "" && NoSpace(tokens[i])
    ensures Fields(Join(tokens, " "), "") == tokens
    decreases tokens
  {
    if |tokens| == 1 {
      FieldsFirst(tokens[0], "");
    } else if |tokens| > 1 {
      FieldsFirst(tokens[0], Join(tokens[1..], " "));
      FieldsJoin(tokens[1..]);
      assert [tokens[0]] + tokens[1..] == tokens;
    }
  }

  lemma {:induction false} FieldsSpaceEnd(t: string, space: string, token: string)
    requires SpaceLength(space) == |space| > 0
    ensures Fields(t + space, token) == Fields(t, token)
    decreases |t|
  {
    if t == "" {
      assert t + space == space && space[|space|..] == "";
    } else {
      SpaceStops(t, space);
      var n := SpaceLength(t);
      if n > 0 {
        assert (t + space)[n..] == t[n..] + space;
        FieldsSpaceEnd(t[n..], space, "");
      } else {
        assert (t + space)[1..] == t[1..] + space;
        FieldsSpaceEnd(t[1..], space, token + [t[0]]);
      }
    }
  }

  lemma {:induction false} FieldsTrimRight(s: string)
    ensures Fields(TrimRight(s), "") == Fields(s, "")
    decreases |s|
  {
    var n := SpaceAtEnd(s);
    if n > 0 {
      var t := s[..|s| - n];
      EndSpace(s);
      assert s == t + s[|s| - n..];
      FieldsSpaceEnd(t, s[|s| - n..], "");
      FieldsTrimRight(t);
    }
  }

  lemma {:induction false} FieldsTrimLeft(s: string)
    ensures Fields(TrimLeft(s), "") == Fields(s, "")
    decreases |s|
  {
    if SpaceLength(s) > 0 {
      FieldsTrimLeft(s[SpaceLength(s)..]);
    }
  }

  /** Trimming first makes no difference to the fields. */
  lemma FieldsTrim(s: string)
    ensures Fields(TrimSpace(s), "") == Fields(s, "")
  {
    FieldsTrimLeft(s);
    FieldsTrimRight(TrimLeft(s));
  }

  lemma SpaceHasNoQuote(s: string, i: nat)
    requires SpaceLength(s) == |s| && i < |s|
    ensures s[i] != '"'
  {
  }

  lemma QuoteInFront(s: string, j: nat)
    requires j < |s| && s[j] == '"' && SpaceAtEnd(s) > 0
    ensures j < |s| - SpaceAtEnd(s)
  {
    var n := |s| - SpaceAtEnd(s);
    EndSpace(s);
    if n <= j {
      SpaceHasNoQuote(s[n..], j - n);
    }
  }

  lemma TrimStep(s: string)
    ensures TrimRight(s) == if SpaceAtEnd(s) > 0 then TrimRight(s[..|s| - SpaceAtEnd(s)]) else s
  {
  }

  /** Trimming on the right keeps everything up to a quote. */
  lemma {:induction false} TrimRightKeeps(s: string, j: nat) returns (n: nat)
    requires j < |s| && s[j] == '"'
    ensures j < n <= |s| && TrimRight(s) == s[..n]
    decreases |s|
  {
    TrimStep(s);
    if SpaceAtEnd(s) > 0 {
      QuoteInFront(s, j);
      var t := s[..|s| - SpaceAtEnd(s)];
      n := TrimRightKeeps(t, j);
      assert t[..n] == s[..n];
    } else {
      n := |s|;
      assert s[..n] == s;
    }
  }

  lemma TrimNothing(s: string)
    requires s != "" && SpaceLength(s) == 0 && 0x21 <= s[|s| - 1] as int < 0x80
    ensures TrimSpace(s) == s
  {
  }

  // ---- splitting at semicolons ----

  lemma {:induction false} SplitFirst(part: string, rest: string, c: char)
    requires c !in part
    ensures Split(part + [c] + rest, c) == [part] + Split(rest, c)
    decreases part
  {
    var s := part + [c] + rest;
    if part == "" {
      assert s == [c] + rest && s[1..] == rest;
    } else {
      assert s[1..] == part[1..] + [c] + rest;
      SplitFirst(part[1..], rest, c);
      assert [s[0]] + part[1..] == part;
      assert ([part[1..]] + Split(rest, c))[1..] == Split(rest, c);
    }
  }

  lemma {:induction false} SplitWhole(part: string, c: char)
    requires c !in part
    ensures Split(part, c) == [part]
    decreases part
  {
    if part != "" {
      SplitWhole(part[1..], c);
      assert [part[0]] + part[1..] == part;
    }
  }

  /** Splitting the printed parameters gives an empty text and then each parameter. */
  lemma {:induction false} SplitSemicolons(front: string, parameters: seq<string>)
    requires ';' !in front && forall i :: 0 <= i < |parameters| ==> ';' !in parameters[i]
    ensures Split(front + WithSemicolons(parameters), ';') == [front] + parameters
    decreases parameters
  {
    if parameters == [] {
      assert front + "" == front;
      SplitWhole(front, ';');
    } else {
      var rest := parameters[0] + WithSemicolons(parameters[1..]);
      SplitFirst(front, rest, ';');
      assert front + WithSemicolons(parameters) == front + [';'] + rest;
      SplitSemicolons(parameters[0], parameters[1..]);
      assert [parameters[0]] + parameters[1..] == parameters;
    }
  }

  /** Splitting stops inside the first parameter that holds a semicolon. */
  lemma {:induction false} SplitBad(front: string, parameters: seq<string>, i: nat)
    requires ';' !in front && i < |parameters| && ';' in parameters[i] && forall j :: 0 <= j < i ==> ';' !in parameters[j]
    ensures var parts := Split(front + WithSemicolons(parameters), ';');
            i + 1 < |parts| && parts[i + 1] == parameters[i][..IndexOf(parameters[i], ';')]
    decreases parameters
  {
    var rest := WithSemicolons(parameters[1..]);
    SplitFirst(front, parameters[0] + rest, ';');
    assert front + WithSemicolons(parameters) == front + [';'] + (parameters[0] + rest);
    if i == 0 {
      SplitInside(parameters[0], rest);
    } else {
      SplitBad(parameters[0], parameters[1..], i - 1);
    }
  }

  lemma SplitInside(parameter: string, rest: string)
    requires ';' in parameter
    ensures Split(parameter + rest, ';')[0] == parameter[..IndexOf(parameter, ';')]
  {
    var k := IndexOf(parameter, ';');
    var a, b := parameter[..k], parameter[k + 1..] + rest;
    assert parameter + rest == a + [';'] + b;
    SplitFirst(a, b, ';');
  }

  // ---- the parser on printed parameters ----

  lemma TakeNamed(name: string, value: string)
    requires name != "" && Solid(name[0]) && '=' !in name && value != "" && 0x21 <= value[|value| - 1] as int < 0x80
    ensures var text := name + "=" + value;
            TrimSpace(text) == text && IndexOf(text, '=') == |name| && text[..|name|] == name && text[|name| + 1..] == value
  {
    var text := name + "=" + value;
    TrimNothing(text);
    IndexOfFound(name, '=', value);
    assert name + ['='] + value == text;
  }

  lemma FormatIntText(n: int)
    ensures FormatInt(n) != "" && 0x21 <= FormatInt(n)[|FormatInt(n)| - 1] as int < 0x80
  {
    var digits := Digits(if n < 0 then -n else n);
    assert IsDigit(digits[|digits| - 1]);
    assert FormatInt(n)[|FormatInt(n)| - 1] == digits[|digits| - 1];
  }

  lemma TakeCreated(q: Quoter, profile: Profile, m: Metadata, n: int)
    requires InRange(n)
    ensures TakeParameter(q, profile, m, "created=" + FormatInt(n)) == Some(m.(created := n))
  {
    FormatIntText(n);
    TakeNamed("created", FormatInt(n));
    assert "created" + "=" + FormatInt(n) == "created=" + FormatInt(n);
    ParseFormat(n);
  }

  lemma TakeExpires(q: Quoter, m: Metadata, n: int)
    requires InRange(n)
    ensures TakeParameter(q, Blob, m, "expires=" + FormatInt(n)) == Some(m.(expires := n))
  {
    FormatIntText(n);
    TakeNamed("expires", FormatInt(n));
    assert "expires" + "=" + FormatInt(n) == "expires=" + FormatInt(n);
    ParseFormat(n);
  }

  /** A key id or nonce is taken from any text that unquotes to it. */
  lemma TakeKeyId(q: Quoter, profile: Profile, m: Metadata, quoted: string, v: string)
    requires q.unquote(quoted) == Some(v) && quoted != "" && 0x21 <= quoted[|quoted| - 1] as int < 0x80
    ensures TakeParameter(q, profile, m, "keyid=" + quoted) == Some(m.(keyId := v))
  {
    TakeNamed("keyid", quoted);
    assert "keyid" + "=" + quoted == "keyid=" + quoted;
  }

  lemma TakeNonce(q: Quoter, profile: Profile, m: Metadata, quoted: string, v: string)
    requires q.unquote(quoted) == Some(v) && quoted != "" && 0x21 <= quoted[|quoted| - 1] as int < 0x80
    ensures TakeParameter(q, profile, m, "nonce=" + quoted) == Some(m.(nonce := v))
  {
    TakeNamed("nonce", quoted);
    assert "nonce" + "=" + quoted == "nonce=" + quoted;
  }

  lemma TakeFirst(q: Quoter, profile: Profile, m: Metadata, parameter: string, rest: seq<string>, next: Metadata)
    requires TakeParameter(q, profile, m, parameter) == Some(next)
    ensures TakeAll(q, profile, m, [parameter] + rest) == TakeAll(q, profile, next, rest)
  {
    assert ([parameter] + rest)[1..] == rest;
  }

  lemma TakeKeyIdAndNonce(q: Quoter, profile: Profile, m: Metadata, keyText: string, keyId: string, nonceText: string, nonce: string)
    requires q.unquote(keyText) == Some(keyId) && keyText != "" && 0x21 <= keyText[|keyText| - 1] as int < 0x80
    requires q.unquote(nonceText) == Some(nonce) && nonceText != "" && 0x21 <= nonceText[|nonceText| - 1] as int < 0x80
    ensures TakeAll(q, profile, m, ["keyid=" + keyText, "nonce=" + nonceText]) == Some(m.(keyId := keyId, nonce := nonce))
  {
    var k, n := "keyid=" + keyText, "nonce=" + nonceText;
    var next := m.(keyId := keyId);
    TakeKeyId(q, profile, m, keyText, keyId);
    TakeFirst(q, profile, m, k, [n], next);
    assert [k] + [n] == [k, n];
    TakeNonce(q, profile, next, nonceText, nonce);
    TakeFirst(q, profile, next, n, [], next.(nonce := nonce));
    assert [n] + [] == [n];
  }

  /** The parameters of m, with key id and nonce written in any way that unquotes to them. */
  function Written(profile: Profile, m: Metadata, keyText: string, nonceText: string): seq<string> {
    ["created=" + FormatInt(m.created)]
    + (if profile == Blob then ["expires=" + FormatInt(m.expires)] else [])
    + ["keyid=" + keyText, "nonce=" + nonceText]
  }

  lemma TakeWritten(q: Quoter, profile: Profile, m: Metadata, keyText: string, nonceText: string)
    requires Readable(profile, m)
    requires q.unquote(keyText) == Some(m.keyId) && keyText != "" && 0x21 <= keyText[|keyText| - 1] as int < 0x80
    requires q.unquote(nonceText) == Some(m.nonce) && nonceText != "" && 0x21 <= nonceText[|nonceText| - 1] as int < 0x80
    ensures TakeAll(q, profile, NOTHING.(components := m.components), [""] + Written(profile, m, keyText, nonceText)) == Some(m)
  {
    var m0 := NOTHING.(components := m.components);
    var m1 := m0.(created := m.created);
    var m2 := m1.(expires := m.expires);
    var c, e := "created=" + FormatInt(m.created), "expires=" + FormatInt(m.expires);
    var tail := ["keyid=" + keyText, "nonce=" + nonceText];
    var ps := if profile == Blob then [e] + tail else tail;
    assert Written(profile, m, keyText, nonceText) == [c] + ps;
    TakeFirst(q, profile, m0, "", [c] + ps, m0);
    TakeCreated(q, profile, m0, m.created);
    TakeFirst(q, profile, m0, c, ps, m1);
    if profile == Blob {
      TakeExpires(q, m1, m.expires);
      TakeFirst(q, profile, m1, e, tail, m2);
    }
    TakeKeyIdAndNonce(q, profile, m2, keyText, m.keyId, nonceText, m.nonce);
  }

  // ---- the parser on printed components ----

  lemma {:induction false} QuoteAllItems(q: Quoter, components: seq<string>)
    ensures |QuoteAll(q, components)| == |components|
    ensures forall i :: 0 <= i < |components| ==> QuoteAll(q, components)[i] == q.quote(components[i])
    decreases components
  {
    if components != [] {
      QuoteAllItems(q, components[1..]);
    }
  }

  lemma QuotedToken(q: Quoter, s: string)
    requires Lawful(q) && SafeComponent(s)
    ensures NoSpace(q.quote(s)) && ')' !in q.quote(s) && q.quote(s) != ""
  {
    assert LawfulAt(q, s) && Shows(q, s, ' ') && Shows(q, s, ')');
    forall i | 0 <= i < |q.quote(s)| ensures SpaceLength(q.quote(s)[i..]) == 0 { assert q.quote(s)[i] in q.quote(s); }
  }

  lemma {:induction false} JoinFree(tokens: seq<string>, c: char)
    requires c != ' ' && forall i :: 0 <= i < |tokens| ==> c !in tokens[i]
    ensures c !in Join(tokens, " ")
    decreases tokens
  {
    if |tokens| > 1 {
      JoinFree(tokens[1..], c);
    }
  }

  lemma ComponentsRead(q: Quoter, components: seq<string>)
    requires Lawful(q) && forall i :: 0 <= i < |components| ==> SafeComponent(components[i])
    ensures ')' !in Join(QuoteAll(q, components), " ")
    ensures UnquoteAll(q, Fields(TrimSpace(Join(QuoteAll(q, components), " ")), "")) == Some(components)
  {
    var tokens := QuoteAll(q, components);
    QuoteAllItems(q, components);
    forall i | 0 <= i < |tokens| ensures NoSpace(tokens[i]) && ')' !in tokens[i] && tokens[i] != "" { QuotedToken(q, components[i]); }
    JoinFree(tokens, ')');
    FieldsTrim(Join(tokens, " "));
    FieldsJoin(tokens);
    UnquoteAllQuoteAll(q, components);
  }

  lemma FormatIntFree(n: int, c: char)
    requires !IsDigit(c) && c != '-'
    ensures c !in FormatInt(n)
  {
  }

  lemma NamesFree(c: char)
    requires c == ';' || c == '\n'
    ensures c !in "created=" && c !in "expires=" && c !in "keyid=" && c !in "nonce="
  {
  }

  lemma WrittenFree(profile: Profile, m: Metadata, keyText: string, nonceText: string, c: char)
    requires (c == ';' || c == '\n') && c !in keyText && c !in nonceText
    ensures forall i :: 0 <= i < |Written(profile, m, keyText, nonceText)| ==> c !in Written(profile, m, keyText, nonceText)[i]
  {
    FormatIntFree(m.created, c);
    FormatIntFree(m.expires, c);
    NamesFree(c);
    assert forall parameter <- Written(profile, m, keyText, nonceText) :: c !in parameter;
  }

  lemma Halves(inner: string, tail: string)
    requires ')' !in inner
    ensures var value := "(" + inner + ")" + tail;
            && StartsWith(value, "(") && IndexOf(value, ')') == |inner| + 1
            && value[1..|inner| + 1] == inner && value[|inner| + 2..] == tail
  {
    var value := "(" + inner + ")" + tail;
    assert value == ("(" + inner) + [')'] + tail;
    IndexOfFound("(" + inner, ')', tail);
  }

  lemma ParseSplits(q: Quoter, profile: Profile, inner: string, tail: string)
    requires ')' !in inner
    ensures Parse(q, profile, "(" + inner + ")" + tail) == ParseHalves(q, profile, inner, tail)
  {
    Halves(inner, tail);
  }

  /** A text of m's parameters, however key id and nonce are written, is read as m. */
  lemma ParseWritten(q: Quoter, profile: Profile, m: Metadata, keyText: string, nonceText: string)
    requires Lawful(q) && Readable(profile, m) && forall i :: 0 <= i < |m.components| ==> SafeComponent(m.components[i])
    requires q.unquote(keyText) == Some(m.keyId) && keyText != "" && 0x21 <= keyText[|keyText| - 1] as int < 0x80 && ';' !in keyText
    requires q.unquote(nonceText) == Some(m.nonce) && nonceText != "" && 0x21 <= nonceText[|nonceText| - 1] as int < 0x80 && ';' !in nonceText
    ensures Parse(q, profile, "(" + Join(QuoteAll(q, m.components), " ") + ")" + WithSemicolons(Written(profile, m, keyText, nonceText))) == Some(m)
  {
    var ps := Written(profile, m, keyText, nonceText);
    ComponentsRead(q, m.components);
    WrittenFree(profile, m, keyText, nonceText, ';');
    SplitSemicolons("", ps);
    assert "" + WithSemicolons(ps) == WithSemicolons(ps);
    TakeWritten(q, profile, m, keyText, nonceText);
    ParseSplits(q, profile, Join(QuoteAll(q, m.components), " "), WithSemicolons(ps));
  }

  lemma SafeParses(q: Quoter, profile: Profile, m: Metadata)
    requires Lawful(q) && Safe(profile, m)
    ensures Parse(q, profile, Print(q, profile, m)) == Some(m)
  {
    assert LawfulAt(q, m.keyId) && Shows(q, m.keyId, ';');
    assert LawfulAt(q, m.nonce) && Shows(q, m.nonce, ';');
    assert Parameters(q, profile, m) == Written(profile, m, q.quote(m.keyId), q.quote(m.nonce));
    ParseWritten(q, profile, m, q.quote(m.keyId), q.quote(m.nonce));
  }

  // ---- what does not survive ----

  lemma SpacePrefix(s: string, n: nat)
    requires n <= |s| && SpaceLength(s) == 0
    ensures SpaceLength(s[..n]) == 0
  {
  }

  /** A quoted text cut in front of its first blank is a token that does not unquote. */
  lemma CutToken(q: Quoter, s: string, k: nat)
    requires Lawful(q) && 0 < k < |q.quote(s)| && ' ' !in q.quote(s)[..k]
    ensures NoSpace(q.quote(s)[..k]) && q.unquote(q.quote(s)[..k]) == None
  {
    var text := q.quote(s);
    assert LawfulAt(q, s) && CutShort(q, s, k);
    forall i | 0 <= i < k ensures SpaceLength(text[..k][i..]) == 0 {
      assert text[..k][i] in text[..k];
      assert text[..k][i..] == text[i..][..k - i];
      SpacePrefix(text[i..], k - i);
    }
  }

  /** The first blank or closing parenthesis of a quoted unsafe component. */
  lemma FirstBad(q: Quoter, s: string) returns (k: nat)
    requires Lawful(q) && !SafeComponent(s)
    ensures 0 < k < |q.quote(s)| && (q.quote(s)[k] == ' ' || q.quote(s)[k] == ')')
    ensures ' ' !in q.quote(s)[..k] && ')' !in q.quote(s)[..k]
  {
    var text := q.quote(s);
    assert LawfulAt(q, s) && Shows(q, s, ' ') && Shows(q, s, ')');
    var a, b := IndexOf(text, ' '), IndexOf(text, ')');
    k := if a < 0 || 0 <= b < a then b else a;
    assert forall c :: c in text[..k] ==> (a >= 0 ==> c in text[..a]) && (b >= 0 ==> c in text[..b]);
  }

  /** The text between the parentheses as the parser finds it: up to the first closing one. */
  predicate CutAt(text: string, n: nat) { n <= |text| && ')' !in text[..n] && (n < |text| ==> text[n] == ')') }

  lemma CutFirst(q: Quoter, s: string, rest: string, n: nat)
    requires Lawful(q) && !SafeComponent(s) && CutAt(q.quote(s) + rest, n)
    ensures UnquoteAll(q, Fields((q.quote(s) + rest)[..n], "")) == None
  {
    var k := FirstBad(q, s);
    CutToken(q, s, k);
    FieldsCut(q.quote(s), rest, k, n);
    var more := if n == k then [] else Fields((q.quote(s) + rest)[k + 1..n], "");
    UnquoteFirst(q, q.quote(s)[..k], more);
  }

  lemma FieldsCut(text: string, rest: string, k: nat, n: nat)
    requires 0 < k < |text| && (text[k] == ' ' || text[k] == ')') && ')' !in text[..k] && NoSpace(text[..k]) && CutAt(text + rest, n)
    ensures k <= n && Fields((text + rest)[..n], "") == [text[..k]] + if n == k then [] else Fields((text + rest)[k + 1..n], "")
  {
    var all := text + rest;
    CutSlices(text, rest, k);
    CutAfter(all, k, n);
    if n == k {
      FieldsFirst(text[..k], "");
    } else {
      FieldsFirst(text[..k], all[k + 1..n]);
      CutMiddle(all, k, n);
    }
  }

  lemma CutSlices(text: string, rest: string, k: nat)
    requires k < |text|
    ensures (text + rest)[..k] == text[..k] && (text + rest)[k] == text[k]
  {
  }

  lemma CutMiddle(all: string, k: nat, n: nat)
    requires k < n <= |all| && all[k] == ' '
    ensures all[..n] == all[..k] + " " + all[k + 1..n]
  {
  }

  lemma Among(text: string, k: nat, i: nat)
    requires i < k <= |text|
    ensures text[i] in text[..k]
  {
    assert text[..k][i] == text[i];
  }

  /** The cut is not in front of a place without parentheses, and at a parenthesis if there is one. */
  lemma CutAfter(text: string, k: nat, n: nat)
    requires CutAt(text, n) && k < |text| && ')' !in text[..k]
    ensures k <= n && (text[k] == ')' ==> n == k) && (text[k] != ')' ==> k < n)
  {
    if n < k { Among(text, k, n); }
    if k < n { Among(text, n, k); }
  }

  /** A component list with an unsafe name is not read. */
  lemma {:induction false} BadComponents(q: Quoter, components: seq<string>, n: nat, bad: nat)
    requires Lawful(q) && bad < |components| && !SafeComponent(components[bad])
    requires CutAt(Join(QuoteAll(q, components), " "), n)
    ensures UnquoteAll(q, Fields(Join(QuoteAll(q, components), " ")[..n], "")) == None
    decreases components
  {
    var rest := Join(QuoteAll(q, components[1..]), " ");
    JoinFirst(q, components);
    if !SafeComponent(components[0]) {
      CutFirst(q, components[0], if |components| == 1 then "" else " " + rest, n);
    } else {
      QuotedToken(q, components[0]);
      var text := q.quote(components[0]);
      assert Join(QuoteAll(q, components), " ") == text + " " + rest;
      CutLater(text, rest, n);
      var k := n - |text| - 1;
      BadComponents(q, components[1..], k, bad - 1);
      FieldsFirst(text, rest[..k]);
      UnquoteFirst(q, text, Fields(rest[..k], ""));
    }
  }

  lemma JoinCons(token: string, rest: seq<string>)
    ensures Join([token] + rest, " ") == if rest == [] then token + "" else token + (" " + Join(rest, " "))
  {
    assert ([token] + rest)[1..] == rest && token + "" == token;
  }

  lemma JoinFirst(q: Quoter, components: seq<string>)
    requires components != []
    ensures Join(QuoteAll(q, components), " ") ==
            q.quote(components[0]) + if |components| == 1 then "" else " " + Join(QuoteAll(q, components[1..]), " ")
  {
    QuoteAllItems(q, components[1..]);
    JoinCons(q.quote(components[0]), QuoteAll(q, components[1..]));
  }

  lemma CutLater(first: string, rest: string, n: nat)
    requires ')' !in first && CutAt(first + " " + rest, n)
    ensures |first| + 1 <= n && CutAt(rest, n - |first| - 1) && (first + " " + rest)[..n] == first + " " + rest[..n - |first| - 1]
  {
    var text := first + " " + rest;
    var k := |first| + 1;
    assert text[..|first|] == first;
    CutAfter(text, |first|, n);
    assert rest[..n - k] == text[..n][k..];
  }

  /** The parser's own cut. */
  lemma ParseCut(q: Quoter, profile: Profile, inner: string, tail: string) returns (n: nat)
    ensures CutAt(inner, n)
    ensures UnquoteAll(q, Fields(inner[..n], "")) == None ==> Parse(q, profile, "(" + inner + ")" + tail) == None
  {
    var value := "(" + inner + ")" + tail;
    assert value[|inner| + 1] == ')';
    var close := IndexOf(value, ')');
    n := close - 1;
    assert value[1..close] == inner[..n];
    assert forall c :: c in inner[..n] ==> c in value[..close];
    FieldsTrim(inner[..n]);
  }

  lemma BadComponentsNotParsed(q: Quoter, profile: Profile, m: Metadata, bad: nat)
    requires Lawful(q) && bad < |m.components| && !SafeComponent(m.components[bad])
    ensures Parse(q, profile, Print(q, profile, m)) == None
  {
    var inner := Join(QuoteAll(q, m.components), " ");
    var n := ParseCut(q, profile, inner, WithSemicolons(Parameters(q, profile, m)));
    BadComponents(q, m.components, n, bad);
  }

  /** A parameter nothing can be made of. */
  ghost predicate Hopeless(q: Quoter, profile: Profile, parameter: string) { forall m :: TakeParameter(q, profile, m, parameter) == None }

  lemma {:induction false} TakeAllFails(q: Quoter, profile: Profile, m: Metadata, parameters: seq<string>, i: nat)
    requires i < |parameters| && Hopeless(q, profile, parameters[i])
    ensures TakeAll(q, profile, m, parameters) == None
    decreases parameters
  {
    if i > 0 && TakeParameter(q, profile, m, parameters[0]).Some? {
      TakeAllFails(q, profile, TakeParameter(q, profile, m, parameters[0]).value, parameters[1..], i - 1);
    }
  }

  lemma TakeUnreadable(q: Quoter, profile: Profile, name: string, value: string, m: Metadata)
    requires (name == "keyid" || name == "nonce") && q.unquote(value) == None
    ensures TakeText(q, profile, m, name + "=" + value) == None
  {
    var text := name + "=" + value;
    IndexOfFound(name, '=', value);
    assert text == name + ['='] + value && text[..5] == name && text[6..] == value;
  }

  /** How a cut parameter is trimmed. */
  lemma TrimCut(name: string, cut: string) returns (n: nat)
    requires (name == "keyid" || name == "nonce") && cut != "" && cut[0] == '"'
    ensures 0 < n <= |cut| && TrimSpace(name + "=" + cut) == name + "=" + cut[..n]
  {
    var piece := name + "=" + cut;
    assert piece[6] == '"' && !Space1(piece[0]);
    var k := TrimKeeps(piece, 6);
    n := k - 6;
    assert piece[..k] == name + "=" + cut[..n];
  }

  lemma TrimKeeps(s: string, j: nat) returns (n: nat)
    requires j < |s| && s[j] == '"' && SpaceLength(s) == 0
    ensures j < n <= |s| && TrimSpace(s) == s[..n]
  {
    assert TrimLeft(s) == s;
    n := TrimRightKeeps(s, j);
  }

  lemma CutParameter(q: Quoter, profile: Profile, name: string, v: string, k: nat)
    requires Lawful(q) && (name == "keyid" || name == "nonce") && 0 < k < |q.quote(v)|
    ensures Hopeless(q, profile, name + "=" + q.quote(v)[..k])
  {
    assert LawfulAt(q, v);
    var cut := q.quote(v)[..k];
    var n := TrimCut(name, cut);
    assert cut[..n] == q.quote(v)[..n] && CutShort(q, v, n);
    forall m ensures TakeParameter(q, profile, m, name + "=" + cut) == None {
      TakeCut(q, profile, name, cut, cut[..n], m);
    }
  }

  lemma TakeCut(q: Quoter, profile: Profile, name: string, cut: string, trimmed: string, m: Metadata)
    requires (name == "keyid" || name == "nonce") && TrimSpace(name + "=" + cut) == name + "=" + trimmed && q.unquote(trimmed) == None
    ensures TakeParameter(q, profile, m, name + "=" + cut) == None
  {
    TakeUnreadable(q, profile, name, trimmed, m);
  }

  lemma CutAtSemicolon(q: Quoter, profile: Profile, name: string, v: string)
    requires Lawful(q) && (name == "keyid" || name == "nonce") && ';' in v
    ensures var parameter := name + "=" + q.quote(v);
            ';' in parameter && Hopeless(q, profile, parameter[..IndexOf(parameter, ';')])
  {
    assert LawfulAt(q, v) && Shows(q, v, ';');
    var k := SemicolonBehind(name, q.quote(v));
    CutParameter(q, profile, name, v, k);
  }

  lemma SemicolonBehind(name: string, text: string) returns (k: nat)
    requires (name == "keyid" || name == "nonce") && ';' in text && text[0] != ';'
    ensures var parameter := name + "=" + text;
            0 < k < |text| && ';' in parameter && parameter[..IndexOf(parameter, ';')] == name + "=" + text[..k]
  {
    var parameter := name + "=" + text;
    assert forall c :: c in text ==> c in parameter;
    k := IndexOf(parameter, ';') - 6;
    assert forall i :: 0 <= i < 7 ==> parameter[i] != ';';
    assert parameter[..k + 6] == name + "=" + text[..k];
  }

  lemma FirstFree(profile: Profile, m: Metadata, keyText: string, nonceText: string)
    ensures var ps := Written(profile, m, keyText, nonceText);
            var k := if profile == Blob then 2 else 1;
            && |ps| == k + 2 && ps[k] == "keyid" + "=" + keyText && ps[k + 1] == "nonce" + "=" + nonceText
            && (forall j :: 0 <= j < k ==> ';' !in ps[j]) && (';' !in keyText ==> ';' !in ps[k])
  {
    FormatIntFree(m.created, ';');
    FormatIntFree(m.expires, ';');
    NamesFree(';');
  }

  lemma BadValueNotParsed(q: Quoter, profile: Profile, m: Metadata, components: seq<string>)
    requires Lawful(q) && (';' in m.keyId || ';' in m.nonce)
    ensures TakeAll(q, profile, NOTHING.(components := components), Split(WithSemicolons(Parameters(q, profile, m)), ';')) == None
  {
    var ps := Written(profile, m, q.quote(m.keyId), q.quote(m.nonce));
    assert Parameters(q, profile, m) == ps;
    FirstFree(profile, m, q.quote(m.keyId), q.quote(m.nonce));
    assert LawfulAt(q, m.keyId) && Shows(q, m.keyId, ';');
    var k := if profile == Blob then 2 else 1;
    var i := if ';' in m.keyId then k else k + 1;
    if ';' in m.keyId { CutAtSemicolon(q, profile, "keyid", m.keyId); } else { CutAtSemicolon(q, profile, "nonce", m.nonce); }
    SplitBad("", ps, i);
    assert "" + WithSemicolons(ps) == WithSemicolons(ps);
    TakeAllFails(q, profile, NOTHING.(components := components), Split(WithSemicolons(ps), ';'), i + 1);
  }

  // ---- what the parser returns ----

  predicate Numbers(profile: Profile, m: Metadata) { InRange(m.created) && InRange(m.expires) && (profile == General ==> m.expires == 0) }

  lemma TakeNumbers(q: Quoter, profile: Profile, m: Metadata, parameter: string)
    requires Numbers(profile, m) && TakeParameter(q, profile, m, parameter).Some?
    ensures Numbers(profile, TakeParameter(q, profile, m, parameter).value)
  {
    var text := TrimSpace(parameter);
    var eq := IndexOf(text, '=');
    if eq >= 0 { ValueNumbers(q, profile, m, text[..eq], text[eq + 1..]); }
  }

  lemma ValueNumbers(q: Quoter, profile: Profile, m: Metadata, name: string, value: string)
    requires Numbers(profile, m) && TakeValue(q, profile, m, name, value).Some?
    ensures Numbers(profile, TakeValue(q, profile, m, name, value).value)
  {
  }

  lemma {:induction false} TakeAllNumbers(q: Quoter, profile: Profile, m: Metadata, parameters: seq<string>)
    requires Numbers(profile, m) && TakeAll(q, profile, m, parameters).Some?
    ensures Numbers(profile, TakeAll(q, profile, m, parameters).value)
    decreases parameters
  {
    if parameters != [] {
      TakeNumbers(q, profile, m, parameters[0]);
      TakeAllNumbers(q, profile, TakeParameter(q, profile, m, parameters[0]).value, parameters[1..]);
    }
  }

  lemma ParsedReadable(q: Quoter, profile: Profile, value: string)
    requires Parse(q, profile, value).Some?
    ensures Readable(profile, Parse(q, profile, value).value)
  {
    var close := IndexOf(value, ')');
    var components := UnquoteAll(q, Fields(TrimSpace(value[1..close]), "")).value;
    TakeAllNumbers(q, profile, NOTHING.(components := components), Split(value[close + 1..], ';'));
  }

  lemma BadValueNotSurvived(q: Quoter, profile: Profile, m: Metadata)
    requires Lawful(q) && (forall i :: 0 <= i < |m.components| ==> SafeComponent(m.components[i])) && (';' in m.keyId || ';' in m.nonce)
    ensures Parse(q, profile, Print(q, profile, m)) == None
  {
    ComponentsRead(q, m.components);
    BadValueNotParsed(q, profile, m, m.components);
    ParseSplits(q, profile, Join(QuoteAll(q, m.components), " "), WithSemicolons(Parameters(q, profile, m)));
  }

  /** Signature-Input round trip, for both profiles and all metadata: what is printed is read back if
      and only if the metadata is safe. */
  lemma ParsePrint(q: Quoter, profile: Profile, m: Metadata)
    requires Lawful(q)
    ensures Parse(q, profile, Print(q, profile, m)) == Some(m) <==> Safe(profile, m)
  {
    if Safe(profile, m) {
      SafeParses(q, profile, m);
    } else if !(forall i :: 0 <= i < |m.components| ==> SafeComponent(m.components[i])) {
      var bad :| 0 <= bad < |m.components| && !SafeComponent(m.components[bad]);
      BadComponentsNotParsed(q, profile, m, bad);
    } else if ';' in m.keyId || ';' in m.nonce {
      BadValueNotSurvived(q, profile, m);
    } else if Parse(q, profile, Print(q, profile, m)).Some? {
      ParsedReadable(q, profile, Print(q, profile, m));
    }
  }

  /** Whatever text was accepted, its metadata survives a further print and parse if and only if no
      component name holds a blank or closing parenthesis and neither key id nor nonce a semicolon. */
  lemma ParsedSurvives(q: Quoter, profile: Profile, value: string, m: Metadata)
    requires Lawful(q) && Parse(q, profile, value) == Some(m)
    ensures Parse(q, profile, Print(q, profile, m)) == Some(m)
            <==> (forall i :: 0 <= i < |m.components| ==> SafeComponent(m.components[i])) && ';' !in m.keyId && ';' !in m.nonce
  {
    ParsedReadable(q, profile, value);
    ParsePrint(q, profile, m);
  }

  /** The failing family is reached: a nonce written with an escaped semicolon is accepted, and the
      metadata it gives does not survive. */
  lemma EscapedSemicolonIsLost(p: int -> bool, profile: Profile, m: Metadata)
    requires PrintsNoSpace(p) && Safe(profile, m)
    ensures var q, n := Strconv(p), m.(nonce := ";");
            var text := "(" + Join(QuoteAll(q, m.components), " ") + ")" + WithSemicolons(Written(profile, m, q.quote(m.keyId), "\"\\x3b\""));
            Parse(q, profile, text) == Some(n) && Parse(q, profile, Print(q, profile, n)) != Some(n)
  {
    StrconvLawful(p);
    UnquoteEscapedSemicolon();
    OtherNonceText(Strconv(p), profile, m, "\"\\x3b\"", ";");
    ParsePrint(Strconv(p), profile, m.(nonce := ";"));
  }

  /** Any text that unquotes to a nonce may stand for it. */
  lemma OtherNonceText(q: Quoter, profile: Profile, m: Metadata, nonceText: string, nonce: string)
    requires Lawful(q) && Safe(profile, m) && nonce != ""
    requires q.unquote(nonceText) == Some(nonce) && nonceText != "" && 0x21 <= nonceText[|nonceText| - 1] as int < 0x80 && ';' !in nonceText
    ensures Parse(q, profile, "(" + Join(QuoteAll(q, m.components), " ") + ")" + WithSemicolons(Written(profile, m, q.quote(m.keyId), nonceText)))
         == Some(m.(nonce := nonce))
  {
    var n := m.(nonce := nonce);
    assert LawfulAt(q, m.keyId) && Shows(q, m.keyId, ';');
    ParseWritten(q, profile, n, q.quote(m.keyId), nonceText);
    assert Written(profile, n, q.quote(m.keyId), nonceText) == Written(profile, m, q.quote(m.keyId), nonceText);
  }

  // ---- printed parameters tell everything ----

  /** What is in front of the first c. */
  lemma FirstPart(a: string, x: string, b: string, y: string, c: char)
    requires c !in a && c !in b && a + [c] + x == b + [c] + y
    ensures a == b && x == y
  {
    IndexOfFound(a, c, x);
    IndexOfFound(b, c, y);
    var s := a + [c] + x;
    assert s[..|a|] == a && s[..|b|] == b && s[|a| + 1..] == x && s[|b| + 1..] == y;
  }

  lemma Cancel(a: string, x: string, y: string)
    requires a + x == a + y
    ensures x == y
  {
    assert (a + x)[|a|..] == x && (a + y)[|a|..] == y;
  }

  /** The component list, closed, and what follows. */
  function List(q: Quoter, components: seq<string>, x: string): string { Join(QuoteAll(q, components), " ") + ")" + x }

  lemma ListFirst(q: Quoter, components: seq<string>, x: string)
    requires components != []
    ensures List(q, components, x) == q.quote(components[0]) + if |components| == 1 then ")" + x else " " + List(q, components[1..], x)
  {
    JoinFirst(q, components);
    Reassociate(q.quote(components[0]), if |components| == 1 then "" else " " + Join(QuoteAll(q, components[1..]), " "), ")" + x);
    assert List(q, components, x) == Join(QuoteAll(q, components), " ") + (")" + x);
    assert "" + (")" + x) == ")" + x;
    assert (" " + Join(QuoteAll(q, components[1..]), " ")) + (")" + x) == " " + List(q, components[1..], x);
  }

  lemma Reassociate(a: string, b: string, c: string)
    ensures (a + b) + c == a + (b + c)
  {
  }

  /** A quoted text tells where it ends and what it stands for. */
  lemma QuoteDelimits(q: Quoter, a: string, x: string, b: string, y: string)
    requires Lawful(q) && q.quote(a) + x == q.quote(b) + y
    ensures a == b && x == y
  {
    if |q.quote(a)| <= |q.quote(b)| {
      FrontOf(q.quote(a), x, q.quote(b), y);
      NotCutShort(q, a, b);
    } else {
      FrontOf(q.quote(b), y, q.quote(a), x);
      NotCutShort(q, b, a);
    }
    Cancel(q.quote(a), x, y);
  }

  lemma FrontOf(s: string, x: string, t: string, y: string)
    requires s + x == t + y && |s| <= |t|
    ensures t[..|s|] == s
  {
    assert (s + x)[..|s|] == s && (t + y)[..|s|] == t[..|s|];
  }

  lemma NotCutShort(q: Quoter, a: string, b: string)
    requires Lawful(q) && |q.quote(a)| <= |q.quote(b)| && q.quote(b)[..|q.quote(a)|] == q.quote(a)
    ensures a == b
  {
    var n := |q.quote(a)|;
    var cut := CutShort(q, b, n);
    assert LawfulAt(q, a);
    assert LawfulAt(q, b);
    assert q.quote(b)[..|q.quote(b)|] == q.quote(b);
  }

  lemma {:induction false} ListBinds(q: Quoter, a: seq<string>, x: string, b: seq<string>, y: string)
    requires Lawful(q) && List(q, a, x) == List(q, b, y)
    ensures a == b && x == y
    decreases a
  {
    if a == [] || b == [] {
      EmptyList(q, x);
      EmptyList(q, y);
      ListStart(q, a, x);
      ListStart(q, b, y);
      Cancel(")", x, y);
    } else {
      ListFirst(q, a, x);
      ListFirst(q, b, y);
      var s := if |a| == 1 then ")" + x else " " + List(q, a[1..], x);
      var t := if |b| == 1 then ")" + y else " " + List(q, b[1..], y);
      QuoteDelimits(q, a[0], s, b[0], t);
      assert s[0] == t[0];
      if |a| == 1 {
        Cancel(")", x, y);
      } else {
        Cancel(" ", List(q, a[1..], x), List(q, b[1..], y));
        ListBinds(q, a[1..], x, b[1..], y);
      }
      assert a == [a[0]] + a[1..] && b == [b[0]] + b[1..];
    }
  }

  lemma EmptyList(q: Quoter, x: string)
    ensures List(q, [], x) == ")" + x
  {
  }

  lemma ListStart(q: Quoter, a: seq<string>, x: string)
    requires Lawful(q)
    ensures List(q, a, x) != "" && (List(q, a, x)[0] == ')' <==> a == [])
  {
    if a != [] {
      ListFirst(q, a, x);
      assert LawfulAt(q, a[0]);
    }
  }

  lemma FormatIntInjective(m: int, n: int)
    requires FormatInt(m) == FormatInt(n)
    ensures m == n
  {
    var a, b := Digits(if m < 0 then -m else m), Digits(if n < 0 then -n else n);
    assert IsDigit(a[0]) && IsDigit(b[0]);
    assert (m < 0) == (n < 0);
    if m < 0 { Cancel("-", a, b); }
    ValueOfDigits(if m < 0 then -m else m);
    ValueOfDigits(if n < 0 then -n else n);
  }

  /** A number, and the rest behind its semicolon. */
  lemma NumberBinds(m: int, x: string, n: int, y: string)
    requires FormatInt(m) + ";" + x == FormatInt(n) + ";" + y
    ensures m == n && x == y
  {
    FormatIntFree(m, ';');
    FormatIntFree(n, ';');
    FirstPart(FormatInt(m), x, FormatInt(n), y, ';');
    FormatIntInjective(m, n);
  }

  function LastTwo(q: Quoter, m: Metadata): string { "keyid=" + (q.quote(m.keyId) + (";nonce=" + q.quote(m.nonce))) }

  lemma LastTwoBind(q: Quoter, m: Metadata, n: Metadata)
    requires Lawful(q) && LastTwo(q, m) == LastTwo(q, n)
    ensures m.keyId == n.keyId && m.nonce == n.nonce
  {
    var x, y := ";nonce=" + q.quote(m.nonce), ";nonce=" + q.quote(n.nonce);
    Cancel("keyid=", q.quote(m.keyId) + x, q.quote(n.keyId) + y);
    QuoteDelimits(q, m.keyId, x, n.keyId, y);
    Cancel(";nonce=", q.quote(m.nonce), q.quote(n.nonce));
    QuoteDelimits(q, m.nonce, "", n.nonce, "");
  }

  /** The parameters without their first semicolon. */
  function ParameterText(q: Quoter, profile: Profile, m: Metadata): string {
    "created=" + (FormatInt(m.created) + ";" + if profile == Blob then ExpiresText(q, m) else LastTwo(q, m))
  }

  function ExpiresText(q: Quoter, m: Metadata): string { "expires=" + (FormatInt(m.expires) + ";" + LastTwo(q, m)) }

  lemma SemicolonsCons(parameter: string, rest: seq<string>)
    ensures WithSemicolons([parameter] + rest) == ";" + (parameter + WithSemicolons(rest))
  {
    assert ([parameter] + rest)[1..] == rest;
    assert ";" + parameter + WithSemicolons(rest) == ";" + (parameter + WithSemicolons(rest));
  }

  lemma LastTwoJoined(q: Quoter, m: Metadata)
    ensures WithSemicolons(["keyid=" + q.quote(m.keyId), "nonce=" + q.quote(m.nonce)]) == ";" + LastTwo(q, m)
  {
    var k, n := "keyid=" + q.quote(m.keyId), "nonce=" + q.quote(m.nonce);
    SemicolonsCons(k, [n]);
    SemicolonsCons(n, []);
    assert [k] + [n] == [k, n] && [n] + [] == [n] && n + "" == n;
    assert ";nonce=" + q.quote(m.nonce) == ";" + n;
    Reassociate("keyid=", q.quote(m.keyId), ";" + n);
  }

  lemma NumberJoined(name: string, n: int, rest: seq<string>, text: string)
    requires WithSemicolons(rest) == ";" + text
    ensures WithSemicolons([name + FormatInt(n)] + rest) == ";" + (name + (FormatInt(n) + ";" + text))
  {
    SemicolonsCons(name + FormatInt(n), rest);
    Reassociate(name, FormatInt(n), ";" + text);
    Reassociate(FormatInt(n), ";", text);
  }

  lemma ParametersJoined(q: Quoter, profile: Profile, m: Metadata)
    ensures WithSemicolons(Parameters(q, profile, m)) == ";" + ParameterText(q, profile, m)
  {
    var last := ["keyid=" + q.quote(m.keyId), "nonce=" + q.quote(m.nonce)];
    LastTwoJoined(q, m);
    if profile == Blob {
      NumberJoined("expires=", m.expires, last, LastTwo(q, m));
      var more := ["expires=" + FormatInt(m.expires)] + last;
      NumberJoined("created=", m.created, more, ExpiresText(q, m));
      assert Parameters(q, profile, m) == ["created=" + FormatInt(m.created)] + more;
    } else {
      NumberJoined("created=", m.created, last, LastTwo(q, m));
      assert Parameters(q, profile, m) == ["created=" + FormatInt(m.created)] + last;
    }
  }

  lemma PrintedList(q: Quoter, profile: Profile, m: Metadata)
    ensures Print(q, profile, m) == "(" + List(q, m.components, ";" + ParameterText(q, profile, m))
  {
    ParametersJoined(q, profile, m);
    Parenthesise(Join(QuoteAll(q, m.components), " "), ";" + ParameterText(q, profile, m));
  }

  lemma Parenthesise(inner: string, tail: string)
    ensures "(" + inner + ")" + tail == "(" + (inner + ")" + tail)
  {
  }

  /** Printed parameters determine everything they print, whatever the metadata. */
  lemma PrintBinds(q: Quoter, profile: Profile, m: Metadata, n: Metadata)
    requires Lawful(q) && Print(q, profile, m) == Print(q, profile, n)
    ensures m.components == n.components && m.created == n.created && m.keyId == n.keyId && m.nonce == n.nonce
    ensures profile == Blob ==> m.expires == n.expires
  {
    PrintedList(q, profile, m);
    PrintedList(q, profile, n);
    var s, t := ";" + ParameterText(q, profile, m), ";" + ParameterText(q, profile, n);
    Cancel("(", List(q, m.components, s), List(q, n.components, t));
    ListBinds(q, m.components, s, n.components, t);
    Cancel(";", ParameterText(q, profile, m), ParameterText(q, profile, n));
    ParameterTextBinds(q, profile, m, n);
  }

  lemma ParameterTextBinds(q: Quoter, profile: Profile, m: Metadata, n: Metadata)
    requires Lawful(q) && ParameterText(q, profile, m) == ParameterText(q, profile, n)
    ensures m.created == n.created && m.keyId == n.keyId && m.nonce == n.nonce && (profile == Blob ==> m.expires == n.expires)
  {
    var x := if profile == Blob then ExpiresText(q, m) else LastTwo(q, m);
    var y := if profile == Blob then ExpiresText(q, n) else LastTwo(q, n);
    Cancel("created=", FormatInt(m.created) + ";" + x, FormatInt(n.created) + ";" + y);
    NumberBinds(m.created, x, n.created, y);
    if profile == Blob {
      Cancel("expires=", FormatInt(m.expires) + ";" + LastTwo(q, m), FormatInt(n.expires) + ";" + LastTwo(q, n));
      NumberBinds(m.expires, LastTwo(q, m), n.expires, LastTwo(q, n));
    }
    LastTwoBind(q, m, n);
  }

  lemma {:induction false} SemicolonsFree(parameters: seq<string>, c: char)
    requires c != ';' && forall i :: 0 <= i < |parameters| ==> c !in parameters[i]
    ensures c !in WithSemicolons(parameters)
    decreases parameters
  {
    if parameters != [] {
      SemicolonsFree(parameters[1..], c);
    }
  }

  /** Printed parameters are one line, whatever the metadata. */
  lemma PrintOneLine(q: Quoter, profile: Profile, m: Metadata)
    requires Lawful(q)
    ensures '\n' !in Print(q, profile, m)
  {
    assert LawfulAt(q, m.keyId) && Shows(q, m.keyId, '\n');
    assert LawfulAt(q, m.nonce) && Shows(q, m.nonce, '\n');
    WrittenFree(profile, m, q.quote(m.keyId), q.quote(m.nonce), '\n');
    assert Parameters(q, profile, m) == Written(profile, m, q.quote(m.keyId), q.quote(m.nonce));
    SemicolonsFree(Parameters(q, profile, m), '\n');
    QuoteAllItems(q, m.components);
    forall i | 0 <= i < |m.components| ensures '\n' !in QuoteAll(q, m.components)[i] {
      assert LawfulAt(q, m.components[i]) && Shows(q, m.components[i], '\n');
    }
    JoinFree(QuoteAll(q, m.components), '\n');
  }
}
