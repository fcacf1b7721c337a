/** The small parts of internal/transport/sse.go, each by what it amounts to: how events end, which blocks
    are skipped, how cursors count, and what the frame parser takes off a frame. */
module SseParts {
  import opened Text
  import opened Decimal
  import opened Sse

  // ---- how an event ends ----

  /** A line feed at this place. */
  predicate FeedAt(s: string, i: int) { 0 <= i < |s| && s[i] == '\n' }

  lemma EndsAs(s: string)
    ensures EndsWith(s, "\n") <==> FeedAt(s, |s| - 1)
    ensures EndsWith(s, "\n\n") <==> FeedAt(s, |s| - 1) && FeedAt(s, |s| - 2)
  {
    if |s| >= 1 { assert s[|s| - 1..] == [s[|s| - 1]]; }
    if |s| >= 2 { assert s[|s| - 2..] == [s[|s| - 2], s[|s| - 1]]; }
  }

  /** A framed event ends in a blank line: two line feeds are added to an event without one at its end, one
      to an event with one, none to an event with two. */
  lemma NormalizeExactly(event: string)
    ensures Normalize(event) == if FeedAt(event, |event| - 1) then (if FeedAt(event, |event| - 2) then event else event + "\n") else event + "\n\n"
  {
    EndsAs(event);
    assert event + "\n" + "\n" == event + "\n\n";
  }

  // ---- blocks that are skipped ----

  predicate Ascii(s: string) { forall i :: 0 <= i < |s| ==> s[i] < '\U{80}' }

  /** A block of ASCII text is skipped exactly if it holds nothing but blanks, tabs and line ends. */
  lemma {:induction false} BlankExactly(part: string)
    requires Ascii(part)
    ensures Blank(part) <==> forall c <- part :: c == ' ' || '\t' <= c <= '\r'
    decreases part
  {
    if part != "" {
      assert part == [part[0]] + part[1..];
      BlankExactly(part[1..]);
      assert SpaceLength(part) == if Space1(part[0]) then 1 else 0;
      assert part[0] in part && forall c <- part :: c == part[0] || c in part[1..];
      assert forall c <- part[1..] :: c in part;
    }
  }

  /** White space beyond ASCII counts too: a next line, a no-break space, an em space and an ideographic
      space, in UTF-8, in front of anything. */
  lemma BlankBeyondAscii(rest: string)
    ensures Blank("\U{C2}\U{85}" + rest) == Blank(rest) && Blank("\U{C2}\U{A0}" + rest) == Blank(rest)
    ensures Blank("\U{E2}\U{80}\U{83}" + rest) == Blank(rest) && Blank("\U{E3}\U{80}\U{80}" + rest) == Blank(rest)
  {
    SpaceInFront("\U{C2}\U{85}", rest);
    SpaceInFront("\U{C2}\U{A0}", rest);
    SpaceInFront("\U{E2}\U{80}\U{83}", rest);
    SpaceInFront("\U{E3}\U{80}\U{80}", rest);
  }

  lemma SpaceInFront(space: string, rest: string)
    requires 0 < SpaceLength(space) == |space| <= 3
    ensures Blank(space + rest) == Blank(rest)
  {
    var s := space + rest;
    assert s[|space|..] == rest;
    assert forall i :: 0 <= i < |space| ==> s[i] == space[i];
  }

  // ---- cursors ----

  /** How the cursors of a stream count: from one behind a fixed word or the initial cursor, or up from
      the initial cursor if that is a number. */
  lemma CursorExactly(initial: string, index: nat)
    ensures initial == "" ==> StreamCursor(initial, index) == "cursor-" + Digits(index + 1)
    ensures initial != "" && ParseUint64(initial).Some? ==>
              StreamCursor(initial, index) == Digits((ParseUint64(initial).value + index + 1) % 0x1_0000_0000_0000_0000)
    ensures initial != "" && ParseUint64(initial).None? ==> StreamCursor(initial, index) == initial + "-" + Digits(index + 1)
  {
  }

  /** No two events of a stream share a cursor, up to the number of events a counter can tell apart. */
  lemma CursorsDiffer(initial: string, i: nat, j: nat)
    requires i < j < UINT64_LIMIT
    ensures StreamCursor(initial, i) != StreamCursor(initial, j)
  {
    DigitsDiffer(i + 1, j + 1);
    if initial == "" {
      SamePrefix("cursor-", Digits(i + 1), Digits(j + 1));
    } else if ParseUint64(initial).Some? {
      var value := ParseUint64(initial).value;
      WrapsApart(value + i + 1, value + j + 1);
      DigitsDiffer((value + i + 1) % UINT64_LIMIT, (value + j + 1) % UINT64_LIMIT);
    } else {
      SamePrefix(initial + "-", Digits(i + 1), Digits(j + 1));
    }
  }

  lemma DigitsDiffer(a: nat, b: nat)
    requires a != b
    ensures Digits(a) != Digits(b)
  {
    ValueOfDigits(a);
    ValueOfDigits(b);
  }

  lemma SamePrefix(p: string, a: string, b: string)
    requires a != b
    ensures p + a != p + b
  {
    assert (p + a)[|p|..] == a && (p + b)[|p|..] == b;
  }

  lemma WrapsApart(a: nat, b: nat)
    requires a < b < a + UINT64_LIMIT
    ensures a % UINT64_LIMIT != b % UINT64_LIMIT
  {
  }

  // ---- parsing a frame ----

  /** One carriage return in front of the line feed belongs to the line end. */
  lemma TrimCrExactly(line: string)
    ensures TrimCr(line + "\r") == line
    ensures (line == "" || line[|line| - 1] != '\r') ==> TrimCr(line) == line
  {
  }

  /** Whether a metadata line ends in LF or CR LF makes no difference. */
  lemma CrLfLine(line: string, rest: string, signed: Signed)
    requires '\n' !in line && (line == "" || line[|line| - 1] != '\r')
    ensures FirstRound(line + "\r\n" + rest, signed) == FirstRound(line + "\n" + rest, signed) || FirstRound(line + "\n" + rest, signed) == Other
  {
    LineAt(line, rest);
    LineAt(line + "\r", rest);
    assert line + "\r" + "\n" + rest == line + "\r\n" + rest;
    TrimCrExactly(line);
  }

  lemma LineAt(line: string, rest: string)
    requires '\n' !in line
    ensures var s := line + "\n" + rest; IndexOf(s, '\n') == |line| && s[..|line|] == line && s[|line| + 1..] == rest
  {
    IndexOfFound(line, '\n', rest);
    assert line + ['\n'] + rest == line + "\n" + rest;
  }

  predicate EndsIn(a: string, b: string) { |b| <= |a| && a[|a| - |b|..] == b }

  lemma EndsThrough(a: string, b: string, c: string)
    requires EndsIn(a, b) && EndsIn(b, c)
    ensures EndsIn(a, c)
  {
  }

  lemma RoundEnds(rest: string, signed: Signed)
    ensures FirstRound(rest, signed).Metadata? ==> EndsIn(rest, FirstRound(rest, signed).rest)
    ensures FirstRound(rest, signed).Other? ==> '\n' in rest
  {
  }

  /** An event with its metadata: a usable cursor, a hash and a signature, and a first line that is
      complete and no metadata line. */
  predicate Complete(event: string, signed: Signed) {
    && signed.cursor != "" && '\n' !in signed.cursor && '\r' !in signed.cursor && signed.hash != "" && signed.signature != ""
    && '\n' in event && FirstRound(event, signed) == Other
  }

  lemma LastRound(rest: string, signed: Signed)
    requires FirstRound(rest, signed) == Other && ValidateMetadata(rest, signed).Ok?
    ensures ValidateMetadata(rest, signed).value == (rest, signed) && Complete(rest, signed)
  {
    RoundEnds(rest, signed);
  }

  /** What the parser accepts is a frame that ends in a complete event. */
  lemma {:induction false} ParsedFrame(rest: string, signed: Signed)
    requires ParseFrom(rest, signed).Ok?
    ensures EndsIn(rest, ParseFrom(rest, signed).value.0) && Complete(ParseFrom(rest, signed).value.0, ParseFrom(rest, signed).value.1)
    decreases |rest|
  {
    var round := FirstRound(rest, signed);
    RoundEnds(rest, signed);
    if round.Metadata? {
      ParsedFrame(round.rest, round.signed);
      EndsThrough(rest, round.rest, ParseFrom(rest, signed).value.0);
    } else {
      LastRound(rest, signed);
    }
  }
}
