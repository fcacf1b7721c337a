/** What signing a stream means to a standard client. */
module SseMeaning {
  import opened Text
  import opened EventSource
  import opened Sse
  import Decimal

  // ---- the metadata comments are not heard ----

  lemma {:induction false} FeedPlain(st: Splitter, l: string)
    requires PlainText(l) && !st.afterCr
    ensures Feed(st, l) == st.(current := st.current + l)
    decreases l
  {
    if l == "" {
      assert st.current + l == st.current;
    } else {
      FeedPlain(FeedChar(st, l[0]), l[1..]);
      assert (st.current + [l[0]]) + l[1..] == st.current + l;
    }
  }

  lemma LinesAfterPlain(l: string, rest: string)
    requires PlainText(l)
    ensures Lines(l + "\n" + rest) == [l] + Lines(rest)
  {
    FeedConcat(START, l + "\n", rest);
    FeedConcat(START, l, "\n");
    FeedPlain(START, l);
    var f := Feed(START, l + "\n");
    assert "" + l == l;
    assert f == FeedChar(START.(current := l), '\n') == START.(lines := [l] + START.lines);
    FeedPrefix([l], START, rest);
  }

  lemma HeaderUnheard(c: Client, signed: Signed, rest: string)
    requires PlainFields(signed)
    ensures Fold(c, Lines(Header(signed) + rest)) == Fold(c, Lines(rest))
  {
    var l0, l1, l2 := CursorLine(signed), HashLine(signed), SignatureLine(signed);
    var r2 := l2 + "\n" + rest;
    var r1 := l1 + "\n" + r2;
    HeaderLines(signed, rest);
    HeaderLinesPlain(signed);
    LinesAfterPlain(l0, r1);
    LinesAfterPlain(l1, r2);
    LinesAfterPlain(l2, rest);
    CommentFirst(c, l0, Lines(r1));
    CommentFirst(c, l1, Lines(r2));
    CommentFirst(c, l2, Lines(rest));
  }

  lemma CommentFirst(c: Client, line: string, rest: seq<string>)
    requires line != "" && line[0] == ':'
    ensures Fold(c, [line] + rest) == Fold(c, rest)
  {
    assert ([line] + rest)[1..] == rest;
  }

  // ---- parts that the signer drops are not heard either ----

  /** No letter of a field name and no colon. */
  predicate Quiet(s: string) {
    forall i :: 0 <= i < |s| ==> s[i] != 'e' && s[i] != 'd' && s[i] != 'i'
  }

  lemma {:induction false} BlankIsQuiet(part: string)
    requires Blank(part)
    ensures Quiet(part)
    decreases |part|
  {
    if part != "" {
      var n := SpaceLength(part);
      BlankIsQuiet(part[n..]);
      assert part == part[..n] + part[n..];
      assert Quiet(part[..n]);
    }
  }

  lemma {:induction false} QuietLines(st: Splitter, text: string)
    requires Quiet(text) && Quiet(st.current) && forall l :: l in st.lines ==> Quiet(l)
    ensures forall l :: l in Feed(st, text).lines ==> Quiet(l)
    decreases text
  {
    if text != "" {
      QuietLines(FeedChar(st, text[0]), text[1..]);
    }
  }

  lemma {:induction false} QuietUnheard(c: Client, lines: seq<string>)
    requires Between(c) && forall l :: l in lines ==> Quiet(l)
    ensures Fold(c, lines) == c
    decreases lines
  {
    if lines != [] {
      var l := lines[0];
      assert l in lines && Quiet(l);
      if l != "" && l[0] != ':' {
        assert FieldName(l) != "" ==> FieldName(l)[0] == l[0];
      }
      assert ProcessLine(c, l) == c;
      QuietUnheard(c, lines[1..]);
    }
  }

  // ---- the signed text of the parts means what the parts mean ----

  function CloseAll(parts: seq<string>): string {
    if parts == [] then "" else parts[0] + "\n\n" + CloseAll(parts[1..])
  }

  lemma {:induction false} ClosedParts(s: string)
    ensures CloseAll(SplitBlank(s)) == s + "\n\n"
    decreases |s|
  {
    if s == "" {
      assert [""][1..] == [];
    } else if StartsWith(s, "\n\n") {
      ClosedParts(s[2..]);
      CloseEmpty(SplitBlank(s[2..]));
      assert s == "\n\n" + s[2..];
    } else {
      ClosedParts(s[1..]);
      CloseLonger(s[0], SplitBlank(s[1..]));
      assert s == [s[0]] + s[1..];
    }
  }

  lemma CloseEmpty(r: seq<string>)
    ensures CloseAll([""] + r) == "\n\n" + CloseAll(r)
  {
    assert ([""] + r)[1..] == r;
  }

  lemma CloseLonger(c: char, r: seq<string>)
    requires r != []
    ensures CloseAll([[c] + r[0]] + r[1..]) == [c] + CloseAll(r)
  {
    var head := [c] + r[0];
    assert ([head] + r[1..])[1..] == r[1..];
    assert head + "\n\n" + CloseAll(r[1..]) == [c] + (r[0] + "\n\n" + CloseAll(r[1..]));
  }

  /** A closed part is read on its own, and leaves the client between events. */
  lemma PartFirst(c: Client, p: string, rest: string)
    ensures Between(Fold(c, Lines(p + "\n\n")))
    ensures Fold(c, Lines(p + "\n\n" + rest)) == Fold(Fold(c, Lines(p + "\n\n")), Lines(rest))
  {
    FeedClose(START, p);
    FoldEndsBetween(c, Lines(p + "\n\n"));
    LinesAfterClose(p, rest);
    FoldConcat(c, Lines(p + "\n\n"), Lines(rest));
  }

  lemma BlankUnheard(c: Client, p: string)
    requires Between(c) && Blank(p)
    ensures Fold(c, Lines(p + "\n\n")) == c
  {
    BlankIsQuiet(p);
    QuietLines(START, p + "\n\n");
    QuietUnheard(c, Lines(p + "\n\n"));
  }

  lemma SignedPlain(k: Suite, previous: string, event: string, cursor: string)
    requires Ideal(k) && ValidCursor(cursor)
    ensures var signed := SignEvent(k, previous, event, cursor);
            PlainFields(signed)
  {
  }

  lemma FrameOfPart(k: Suite, previous: string, part: string, cursor: string)
    ensures var event := part + "\n\n";
            Normalize(event) == event && FrameText(k, previous, event, cursor) == Header(SignEvent(k, previous, event, cursor)) + event
  {
  }

  /** The signed text of a non-blank part: comments, the part closed, the rest of the chain. */
  lemma FirstFrame(k: Suite, parts: seq<string>, previous: string, initial: string, index: nat)
    requires parts != [] && !Blank(parts[0])
    requires SignParts(k, parts, previous, initial, index).Ok?
    ensures var cursor := StreamCursor(initial, index);
            var hash := EventHash(k, previous, parts[0] + "\n\n", cursor);
            && ValidCursor(cursor)
            && SignParts(k, parts[1..], hash, initial, index + 1).Ok?
            && SignParts(k, parts, previous, initial, index).value ==
               (Header(SignEvent(k, previous, parts[0] + "\n\n", cursor))
                + (parts[0] + "\n\n" + SignParts(k, parts[1..], hash, initial, index + 1).value.0),
                SignParts(k, parts[1..], hash, initial, index + 1).value.1)
  {
    var cursor := StreamCursor(initial, index);
    var event := parts[0] + "\n\n";
    FrameOfPart(k, previous, parts[0], cursor);
    var header := Header(SignEvent(k, previous, event, cursor));
    var tail := SignParts(k, parts[1..], EventHash(k, previous, event, cursor), initial, index + 1);
    SignFirst(k, parts, previous, initial, index, cursor);
    PrependFrame(header, event, tail);
  }

  lemma SignFirst(k: Suite, parts: seq<string>, previous: string, initial: string, index: nat, cursor: string)
    requires parts != [] && !Blank(parts[0]) && cursor == StreamCursor(initial, index)
    ensures var event := parts[0] + "\n\n";
            SignParts(k, parts, previous, initial, index) ==
            if !ValidCursor(cursor) then Err(InvalidCursor)
            else Prepend(FrameText(k, previous, event, cursor), SignParts(k, parts[1..], EventHash(k, previous, Normalize(event), cursor), initial, index + 1))
  {
  }

  lemma PrependFrame(header: string, event: string, tail: Result<(string, string)>)
    ensures tail.Ok? ==> Prepend(header + event, tail) == Ok((header + (event + tail.value.0), tail.value.1))
    ensures tail.Err? ==> Prepend(header + event, tail).Err?
  {
    if tail.Ok? { assert header + event + tail.value.0 == header + (event + tail.value.0); }
  }

  lemma {:induction false} PartsMeaning(k: Suite, parts: seq<string>, previous: string, initial: string, index: nat, c: Client)
    requires Ideal(k) && Between(c) && SignParts(k, parts, previous, initial, index).Ok?
    ensures Fold(c, Lines(SignParts(k, parts, previous, initial, index).value.0)) == Fold(c, Lines(CloseAll(parts)))
    decreases parts
  {
    if parts != [] {
      var p, rest := parts[0], parts[1..];
      PartFirst(c, p, CloseAll(rest));
      if Blank(p) {
        BlankUnheard(c, p);
        PartsMeaning(k, rest, previous, initial, index, c);
      } else {
        FirstFrame(k, parts, previous, initial, index);
        var cursor := StreamCursor(initial, index);
        var signed := SignEvent(k, previous, p + "\n\n", cursor);
        SignedPlain(k, previous, p + "\n\n", cursor);
        var hash := EventHash(k, previous, p + "\n\n", cursor);
        var tail := SignParts(k, rest, hash, initial, index + 1).value.0;
        HeaderUnheard(c, signed, p + "\n\n" + tail);
        PartFirst(c, p, tail);
        PartsMeaning(k, rest, hash, initial, index + 1, Fold(c, Lines(p + "\n\n")));
      }
    }
  }

  /** A signed stream never starts with a byte order mark. */
  lemma {:induction false} SignedStart(k: Suite, parts: seq<string>, previous: string, initial: string, index: nat)
    requires SignParts(k, parts, previous, initial, index).Ok?
    ensures !HasBom(SignParts(k, parts, previous, initial, index).value.0)
    decreases parts
  {
    if parts != [] {
      if Blank(parts[0]) {
        SignedStart(k, parts[1..], previous, initial, index);
      } else {
        assert SignParts(k, parts, previous, initial, index).value.0[0] == ':';
      }
    }
  }

  /** For every stream whatsoever, a client reads the signed stream exactly as it would read the
      stream with CR LF rewritten to LF, closed by a blank line, and its byte order mark kept. */
  lemma SignedStreamMeaning(k: Suite, stream: string, initial: string)
    requires Ideal(k) && SignStream(k, stream, initial).Ok?
    ensures Events(SignStream(k, stream, initial).value.0) ==
            Fold(IDLE, Lines(ReplaceCrLf(stream) + "\n\n")).events
  {
    var parts := SplitBlank(ReplaceCrLf(stream));
    PartsMeaning(k, parts, "", initial, 0, IDLE);
    ClosedParts(ReplaceCrLf(stream));
    SignedStart(k, parts, "", initial, 0);
  }

  // ---- exactly when that is the meaning of the stream itself ----

  /** No lone CR directly in front of a CR LF; streams that end lines in LF or CR LF only have none. */
  predicate NoCrCrLf(s: string) {
    !StartsWith(s, "\r\r\n") && (s != "" ==> NoCrCrLf(s[1..]))
  }

  lemma {:induction false} ReplacedSplitsAlike(st: Splitter, s: string)
    requires NoCrCrLf(s) && !(st.afterCr && StartsWith(s, "\r\n"))
    ensures Feed(st, ReplaceCrLf(s)) == Feed(st, s)
    decreases |s|
  {
    if s == "" {
    } else if StartsWith(s, "\r\n") {
      var lf := FeedChar(st, '\n');
      assert FeedChar(FeedChar(st, '\r'), '\n') == lf;
      FeedTwo(st, s);
      assert s[1..][1..] == s[2..];
      ReplacedSplitsAlike(lf, s[2..]);
      assert ("\n" + ReplaceCrLf(s[2..]))[1..] == ReplaceCrLf(s[2..]);
    } else {
      var next := FeedChar(st, s[0]);
      assert |s| >= 3 ==> s[..3] == [s[0]] + s[1..][..2];
      ReplacedSplitsAlike(next, s[1..]);
      assert ([s[0]] + ReplaceCrLf(s[1..]))[1..] == ReplaceCrLf(s[1..]);
    }
  }

  lemma FeedTwo(st: Splitter, s: string)
    requires |s| >= 2
    ensures Feed(st, s) == Feed(FeedChar(FeedChar(st, s[0]), s[1]), s[2..])
  {
    assert s[1..][1..] == s[2..];
  }

  /** Empty, or ending in a blank line. */
  predicate Complete(stream: string) {
    var f := Feed(START, StripBom(stream));
    f.current == "" && (f.lines == [] || f.lines[|f.lines| - 1] == "")
  }

  predicate IsField(line: string, name: string) {
    line != "" && line[0] != ':' && FieldName(line) == name
  }

  /** Some line ends a block holding data before another `event` line is met. */
  predicate KindHeard(lines: seq<string>, hasData: bool) {
    lines != [] &&
    if lines[0] == "" then hasData
    else !IsField(lines[0], "event") && KindHeard(lines[1..], hasData || IsField(lines[0], "data"))
  }

  /** Some block holding data ends before another usable `id` line is met. */
  predicate IdHeard(lines: seq<string>, hasData: bool) {
    lines != [] &&
    if lines[0] == "" then hasData || IdHeard(lines[1..], false)
    else !(IsField(lines[0], "id") && '\0' !in FieldValue(lines[0]))
         && IdHeard(lines[1..], hasData || IsField(lines[0], "data"))
  }

  /** The first line decides something about the dispatched events. */
  predicate FirstLineHeard(lines: seq<string>) {
    lines != [] &&
    var value := FieldValue(lines[0]);
    || IsField(lines[0], "data")
    || (IsField(lines[0], "event") && value != "" && value != "message" && KindHeard(lines[1..], false))
    || (IsField(lines[0], "id") && '\0' !in value && value != "" && IdHeard(lines[1..], false))
  }

  /** Past events do not influence the future. */
  lemma {:induction false} EventsPrefix(c: Client, past: seq<Event>, lines: seq<string>)
    ensures Fold(c.(events := past + c.events), lines) ==
            Fold(c, lines).(events := past + Fold(c, lines).events)
    decreases lines
  {
    if lines != [] {
      var next := ProcessLine(c, lines[0]);
      assert ProcessLine(c.(events := past + c.events), lines[0]) == next.(events := past + next.events) by {
        if lines[0] == "" && c.data != "" {
          var e := next.events[|c.events|];
          assert past + (c.events + [e]) == (past + c.events) + [e];
        }
      }
      EventsPrefix(next, past, lines[1..]);
    }
  }

  lemma SameFuture(c: Client, e1: Event, e2: Event, lines: seq<string>)
    requires e1 != e2
    ensures Fold(c.(events := c.events + [e1]), lines).events != Fold(c.(events := c.events + [e2]), lines).events
  {
    var bare := c.(events := []);
    var rest := Fold(bare, lines).events;
    assert (c.events + [e1]) + [] == c.events + [e1] && (c.events + [e2]) + [] == c.events + [e2];
    EventsPrefix(bare, c.events + [e1], lines);
    EventsPrefix(bare, c.events + [e2], lines);
    assert ((c.events + [e1]) + rest)[|c.events|] == e1;
    assert ((c.events + [e2]) + rest)[|c.events|] == e2;
  }

  lemma {:induction false} KindLost(c: Client, kind: string, lines: seq<string>)
    requires c.kind == ""
    ensures Fold(c.(kind := kind), lines).events == Fold(c, lines).events
            <==> !(kind != "" && kind != "message" && KindHeard(lines, c.data != ""))
    decreases lines
  {
    if lines != [] {
      var l, rest := lines[0], lines[1..];
      var c1 := c.(kind := kind);
      if l == "" {
        if c.data != "" && kind != "" && kind != "message" {
          var d, d1 := Dispatch(c), Dispatch(c1);
          SameFuture(d.(events := c.events), d1.events[|c.events|], d.events[|c.events|], rest);
        }
      } else if IsField(l, "event") {
        assert ProcessLine(c1, l) == ProcessLine(c, l);
      } else {
        var next := ProcessLine(c, l);
        assert ProcessLine(c1, l) == next.(kind := kind);
        KindLost(next, kind, rest);
      }
    }
  }

  lemma {:induction false} IdLost(c: Client, id: string, lines: seq<string>)
    requires c.id != id
    ensures Fold(c.(id := id), lines).events == Fold(c, lines).events <==> !IdHeard(lines, c.data != "")
    decreases lines
  {
    if lines != [] {
      var l, rest := lines[0], lines[1..];
      var c1 := c.(id := id);
      if l == "" && c.data != "" {
        IdDispatched(c, id, rest);
      } else if IsField(l, "id") && '\0' !in FieldValue(l) {
        assert ProcessLine(c1, l) == ProcessLine(c, l);
      } else {
        var next := ProcessLine(c, l);
        assert ProcessLine(c1, l) == next.(id := id);
        IdLost(next, id, rest);
      }
    }
  }

  /** Two clients that have just dispatched with different IDs differ from then on. */
  lemma IdDispatched(c: Client, id: string, rest: seq<string>)
    requires c.id != id && c.data != ""
    ensures Fold(Dispatch(c.(id := id)), rest).events != Fold(Dispatch(c), rest).events
  {
    var d, d1 := Dispatch(c), Dispatch(c.(id := id));
    EventsPrefix(d.(events := []), d.events, rest);
    EventsPrefix(d1.(events := []), d1.events, rest);
    assert d.events + [] == d.events && d1.events + [] == d1.events;
    var n := |c.events|;
    assert d.events[n].lastId == c.id && d1.events[n].lastId == id;
    assert (d.events + Fold(d.(events := []), rest).events)[n] == d.events[n];
    assert (d1.events + Fold(d1.(events := []), rest).events)[n] == d1.events[n];
  }

  /** Two clients that have just dispatched with different data differ from then on. */
  lemma DataDispatched(c: Client, extra: string, rest: seq<string>)
    requires extra != "" && extra[|extra| - 1] == '\n'
    requires c.data != "" ==> c.data[|c.data| - 1] == '\n'
    ensures Fold(Dispatch(c.(data := extra + c.data)), rest).events != Fold(Dispatch(c), rest).events
  {
    var d, d1 := Dispatch(c), Dispatch(c.(data := extra + c.data));
    var e1 := d1.events[|c.events|];
    if c.data == "" {
      assert d1 == d.(events := d.events + [e1]);
      var bare := d.(events := []);
      assert d.events + [] == d.events && (d.events + [e1]) + [] == d.events + [e1];
      EventsPrefix(bare, d.events, rest);
      EventsPrefix(bare, d.events + [e1], rest);
    } else {
      assert (extra + c.data)[|extra + c.data| - 1] == '\n';
      SameFuture(d.(events := c.events), e1, d.events[|c.events|], rest);
    }
  }

  lemma DataKept(c: Client, extra: string, line: string)
    requires line != ""
    ensures var next := ProcessLine(c, line);
            ProcessLine(c.(data := extra + c.data), line) == next.(data := extra + next.data)
    ensures var next := ProcessLine(c, line); next.data == c.data || next.data == c.data + FieldValue(line) + "\n"
  {
    assert extra + (c.data + FieldValue(line) + "\n") == (extra + c.data) + FieldValue(line) + "\n";
  }

  lemma {:induction false} DataLost(c: Client, extra: string, lines: seq<string>)
    requires extra != "" && extra[|extra| - 1] == '\n'
    requires c.data != "" ==> c.data[|c.data| - 1] == '\n'
    requires "" in lines
    ensures Fold(c.(data := extra + c.data), lines).events != Fold(c, lines).events
    decreases lines
  {
    var l, rest := lines[0], lines[1..];
    if l == "" {
      DataDispatched(c, extra, rest);
    } else {
      DataKept(c, extra, l);
      DataLost(ProcessLine(c, l), extra, rest);
    }
  }

  /** Losing the first line of a closed stream changes the events exactly when that line is heard. */
  lemma FirstLineLost(lines: seq<string>)
    requires lines != [] && lines[|lines| - 1] == ""
    ensures Fold(IDLE, lines[1..]).events == Fold(IDLE, lines).events <==> !FirstLineHeard(lines)
  {
    var l, rest := lines[0], lines[1..];
    var value := FieldValue(l);
    FieldStep(l);
    if IsField(l, "data") {
      DataLineLost(lines);
    } else if IsField(l, "event") {
      KindLost(IDLE, value, rest);
    } else if IsField(l, "id") && '\0' !in value && value != "" {
      IdLost(IDLE, value, rest);
    }
  }

  lemma DataLineLost(lines: seq<string>)
    requires lines != [] && lines[|lines| - 1] == "" && IsField(lines[0], "data")
    ensures Fold(IDLE, lines[1..]).events != Fold(IDLE, lines).events
  {
    var rest, extra := lines[1..], FieldValue(lines[0]) + "\n";
    assert rest[|rest| - 1] == "";
    assert extra + IDLE.data == extra;
    FieldStep(lines[0]);
    DataLost(IDLE, extra, rest);
  }

  lemma FieldStep(l: string)
    ensures ProcessLine(IDLE, l) ==
            if IsField(l, "data") then IDLE.(data := FieldValue(l) + "\n")
            else if IsField(l, "event") then IDLE.(kind := FieldValue(l))
            else if IsField(l, "id") && '\0' !in FieldValue(l) then IDLE.(id := FieldValue(l))
            else IDLE
  {
    assert "" + FieldValue(l) + "\n" == FieldValue(l) + "\n";
  }

  /** A byte order mark in front of a line makes it an unknown field. */
  lemma BomLine(c: Client, line: string)
    ensures ProcessLine(c, BOM + line) == c
  {
    var l := BOM + line;
    assert l[0] == '\U{00EF}';
    assert FieldName(l) != "" ==> FieldName(l)[0] == l[0];
  }

  /** Text after pending characters splits as without them, but for its first line. */
  lemma {:induction false} PendingPrefix(pending: string, st: Splitter, text: string)
    requires st.lines == [] && !st.afterCr
    ensures var f, g := Feed(st, text), Feed(st.(current := pending + st.current), text);
            if f.lines == [] then g == f.(current := pending + f.current)
            else g == f.(lines := [pending + f.lines[0]] + f.lines[1..])
    decreases text
  {
    if text != "" {
      var next := FeedChar(st, text[0]);
      if next.lines == [] {
        assert FeedChar(st.(current := pending + st.current), text[0]) == next.(current := pending + next.current) by {
          assert pending + (st.current + [text[0]]) == (pending + st.current) + [text[0]];
        }
        PendingPrefix(pending, next, text[1..]);
      } else {
        var bare := next.(lines := []);
        assert next == bare.(lines := [st.current] + bare.lines);
        assert FeedChar(st.(current := pending + st.current), text[0]) == bare.(lines := [pending + st.current] + bare.lines);
        FeedPrefix([st.current], bare, text[1..]);
        FeedPrefix([pending + st.current], bare, text[1..]);
        var f := Feed(bare, text[1..]);
        assert ([st.current] + f.lines)[1..] == f.lines;
      }
    }
  }

  lemma BomClosedLines(text: string)
    ensures var closed := Lines(text + "\n\n");
            closed != [] && closed[|closed| - 1] == ""
            && Lines(BOM + text + "\n\n") == [BOM + closed[0]] + closed[1..]
  {
    FeedClose(START, text);
    assert BOM + text + "\n\n" == BOM + (text + "\n\n");
    FeedConcat(START, BOM, text + "\n\n");
    FeedPlain(START, BOM);
    assert "" + BOM == BOM && BOM + "" == BOM;
    PendingPrefix(BOM, START, text + "\n\n");
  }

  lemma ReplaceKeepsBom(text: string)
    ensures ReplaceCrLf(BOM + text) == BOM + ReplaceCrLf(text)
  {
    var b := BOM + text;
    assert b[1..] == "\U{00BB}\U{00BF}" + text;
    assert b[1..][1..] == "\U{00BF}" + text;
    assert b[1..][1..][1..] == text;
    assert ReplaceCrLf(b[1..][1..]) == "\U{00BF}" + ReplaceCrLf(text);
    assert ReplaceCrLf(b[1..]) == "\U{00BB}" + ReplaceCrLf(b[1..][1..]);
  }

  // ---- closing a complete stream changes nothing ----

  predicate AllBlank(lines: seq<string>) { forall i :: 0 <= i < |lines| ==> lines[i] == "" }

  /** Nothing yet, or the last line was blank. */
  predicate Settled(lines: seq<string>) { lines == [] || lines[|lines| - 1] == "" }

  lemma CloseAddsBlanks(text: string) returns (blanks: seq<string>)
    requires NoCrCrLf(text) && Feed(START, text).current == ""
    ensures AllBlank(blanks) && Lines(ReplaceCrLf(text) + "\n\n") == Lines(text) + blanks
  {
    ReplacedSplitsAlike(START, text);
    FeedConcat(START, ReplaceCrLf(text), "\n\n");
    var f := Feed(START, text);
    FeedTwo(f, "\n\n");
    blanks := if f.afterCr then [""] else ["", ""];
    assert "\n\n"[2..] == "";
    assert (f.lines + [""]) + [""] == f.lines + ["", ""];
  }

  lemma {:induction false} BlanksUnheard(c: Client, blanks: seq<string>)
    requires Between(c) && AllBlank(blanks)
    ensures Fold(c, blanks) == c
    decreases blanks
  {
    if blanks != [] {
      BlanksUnheard(c, blanks[1..]);
    }
  }

  lemma ClosedEvents(lines: seq<string>, blanks: seq<string>)
    requires Settled(lines) && AllBlank(blanks)
    ensures Fold(IDLE, lines + blanks).events == Fold(IDLE, lines).events
  {
    FoldConcat(IDLE, lines, blanks);
    if lines != [] {
      FoldEndsBetween(IDLE, lines);
    }
    BlanksUnheard(Fold(IDLE, lines), blanks);
  }

  lemma {:induction false} HeardOfBlanks(lines: seq<string>, blanks: seq<string>, hasData: bool)
    requires lines != [] && Settled(lines) && AllBlank(blanks)
    ensures KindHeard(lines + blanks, hasData) == KindHeard(lines, hasData)
    ensures IdHeard(lines + blanks, hasData) == IdHeard(lines, hasData)
    decreases lines
  {
    assert (lines + blanks)[1..] == lines[1..] + blanks;
    if |lines| == 1 {
      assert lines[1..] + blanks == blanks;
      NoIdInBlanks(blanks);
    } else {
      HeardOfBlanks(lines[1..], blanks, false);
      HeardOfBlanks(lines[1..], blanks, true);
    }
  }

  lemma {:induction false} NoIdInBlanks(blanks: seq<string>)
    requires AllBlank(blanks)
    ensures !IdHeard(blanks, false)
    decreases blanks
  {
    if blanks != [] {
      NoIdInBlanks(blanks[1..]);
    }
  }

  lemma FirstLineHeardOfBlanks(lines: seq<string>, blanks: seq<string>)
    requires Settled(lines) && AllBlank(blanks)
    ensures FirstLineHeard(lines + blanks) == FirstLineHeard(lines)
  {
    if lines == [] {
      assert lines + blanks == blanks;
    } else {
      assert (lines + blanks)[1..] == lines[1..] + blanks;
      if |lines| > 1 {
        HeardOfBlanks(lines[1..], blanks, false);
      }
    }
  }

  /** The promise of the comment at SignSSEStream, made exact. A complete stream dispatches the same
      events signed and unsigned, unless it opens with a byte order mark and its first line is heard:
      the signature comments then stand in front of the mark, which the client no longer drops. */
  lemma SigningPreservesMeaning(k: Suite, stream: string, initial: string)
    requires Ideal(k) && SignStream(k, stream, initial).Ok?
    requires NoCrCrLf(stream) && Complete(stream)
    ensures Events(SignStream(k, stream, initial).value.0) == Events(stream)
            <==> !(HasBom(stream) && FirstLineHeard(Lines(StripBom(stream))))
  {
    SignedStreamMeaning(k, stream, initial);
    ClosedStreamMeaning(stream);
  }

  lemma ClosedStreamMeaning(stream: string)
    requires NoCrCrLf(stream) && Complete(stream)
    ensures Fold(IDLE, Lines(ReplaceCrLf(stream) + "\n\n")).events == Events(stream)
            <==> !(HasBom(stream) && FirstLineHeard(Lines(StripBom(stream))))
  {
    var text := StripBom(stream);
    var lines := Lines(text);
    if HasBom(stream) {
      assert NoCrCrLf(stream[1..]) && NoCrCrLf(stream[1..][1..]) && NoCrCrLf(stream[1..][1..][1..]);
      assert stream[1..][1..][1..] == text;
      assert stream == BOM + text;
      var blanks := CloseAddsBlanks(text);
      ClosedEvents(lines, blanks);
      ReplaceKeepsBom(text);
      MarkedMeaning(ReplaceCrLf(text));
      FirstLineHeardOfBlanks(lines, blanks);
    } else {
      var blanks := CloseAddsBlanks(text);
      ClosedEvents(lines, blanks);
    }
  }

  /** Streams whose only line ends are LF and CR LF are covered. */
  lemma {:induction false} LfOrCrLfOnly(s: string)
    requires forall i :: 0 <= i < |s| && s[i] == '\r' ==> i + 1 < |s| && s[i + 1] == '\n'
    ensures NoCrCrLf(s)
  {
    if s != "" {
      assert |s| >= 3 ==> s[..3][0] == s[0] && s[..3][1] == s[1];
      LfOrCrLfOnly(s[1..]);
    }
  }

  lemma MarkedMeaning(text: string)
    ensures var closed := Lines(text + "\n\n");
            Fold(IDLE, Lines(BOM + text + "\n\n")).events == Fold(IDLE, closed).events <==> !FirstLineHeard(closed)
  {
    var closed := Lines(text + "\n\n");
    BomClosedLines(text);
    BomLine(IDLE, closed[0]);
    assert ([BOM + closed[0]] + closed[1..])[1..] == closed[1..];
    FirstLineLost(closed);
  }

  /** The failing family has members: the mark followed by one data line loses its event. */
  lemma BomLosesData(k: Suite)
    requires Ideal(k)
    ensures var stream := BOM + "data\n\n";
            && NoCrCrLf(stream) && Complete(stream) && SignStream(k, stream, "").Ok?
            && Events(SignStream(k, stream, "").value.0) != Events(stream)
  {
    var stream := BOM + "data\n\n";
    assert stream[3..] == "data\n\n";
    LfOrCrLfOnly(stream);
    MarkedDataLines();
    SignSucceeds(k, SplitBlank(ReplaceCrLf(stream)), "", "", 0);
    SigningPreservesMeaning(k, stream, "");
  }

  lemma MarkedDataLines()
    ensures Feed(START, "data\n\n") == Splitter(["data", ""], "", false)
    ensures FirstLineHeard(["data", ""])
  {
    assert "data\n\n" == "data" + "\n\n";
    FeedConcat(START, "data", "\n\n");
    FeedPlain(START, "data");
    assert "" + "data" == "data";
    FeedTwo(START.(current := "data"), "\n\n");
    assert "\n\n"[2..] == "";
    assert FieldName("data") == "data";
  }

  // ---- a lone CR in front of a CR LF ----

  const TWO_EVENTS := "data" + ("\r\r\n" + ("data" + "\n\n"))

  lemma NotCr(s: string)
    requires s != "" && s[0] != '\r'
    ensures !StartsWith(s, "\r\n")
  {
    assert |s| >= 2 ==> s[..2][0] == s[0];
  }

  lemma {:induction false} ReplacePlain(l: string, rest: string)
    requires '\r' !in l
    ensures ReplaceCrLf(l + rest) == l + ReplaceCrLf(rest)
    decreases l
  {
    if l == "" {
      assert l + rest == rest;
    } else {
      assert l[0] in l && (l + rest)[1..] == l[1..] + rest;
      NotCr(l + rest);
      ReplacePlain(l[1..], rest);
    }
  }

  lemma ReplaceEnds(rest: string)
    ensures ReplaceCrLf("\r\r\n" + rest) == "\r\n" + ReplaceCrLf(rest)
    ensures ReplaceCrLf("\n\n") == "\n\n"
  {
    var s := "\r\r\n" + rest;
    assert s[..2][1] == '\r' && s[1..] == "\r\n" + rest && s[1..][2..] == rest;
    assert StartsWith(s[1..], "\r\n");
    ReplacePlain("\n\n", "");
    assert "\n\n" + "" == "\n\n";
  }

  lemma ReplacedTwo()
    ensures ReplaceCrLf(TWO_EVENTS) == "data" + ("\r\n" + ("data" + "\n\n"))
  {
    ReplacePlain("data", "\r\r\n" + ("data" + "\n\n"));
    ReplaceEnds("data" + "\n\n");
    ReplacePlain("data", "\n\n");
  }

  /** A field line, its line end, and the state behind both. */
  lemma FeedField(st: Splitter, end: string, rest: string)
    requires !st.afterCr && st.current == ""
    ensures Feed(st, "data" + (end + rest)) == Feed(Feed(st.(current := "data"), end), rest)
  {
    FeedConcat(st, "data", end + rest);
    FeedPlain(st, "data");
    assert "" + "data" == "data";
    FeedConcat(st.(current := "data"), end, rest);
  }

  lemma FeedEnds(st: Splitter)
    requires !st.afterCr && st.current == "data"
    ensures Feed(st, "\r\r\n") == Splitter(st.lines + ["data", ""], "", false)
    ensures Feed(st, "\r\n") == Splitter(st.lines + ["data"], "", false)
    ensures Feed(st, "\n\n") == Splitter(st.lines + ["data", ""], "", false)
  {
    assert st.lines + ["data"] + [""] == st.lines + ["data", ""];
    assert "\r\r\n"[1..] == "\r\n" && "\r\n"[1..] == "\n" && "\n"[1..] == "" && "\n\n"[1..] == "\n";
    var a := FeedChar(st, '\r');
    assert Feed(a, "\n") == Feed(FeedChar(a, '\n'), "");
    assert Feed(st, "\r\n") == Feed(a, "\n");
    var b := FeedChar(a, '\r');
    assert Feed(st, "\r\r\n") == Feed(a, "\r\n") == Feed(b, "\n") == Feed(FeedChar(b, '\n'), "");
    var c := FeedChar(st, '\n');
    assert Feed(st, "\n\n") == Feed(c, "\n") == Feed(FeedChar(c, '\n'), "");
  }

  lemma TwoLines()
    ensures Lines(TWO_EVENTS) == ["data", "", "data", ""]
  {
    FeedEnds(START.(current := "data"));
    FeedField(START, "\r\r\n", "data" + "\n\n");
    var x := Splitter(["data", ""], "", false);
    assert [] + ["data", ""] == ["data", ""];
    FeedField(x, "\n\n", "");
    assert "\n\n" + "" == "\n\n";
    FeedEnds(x.(current := "data"));
    assert ["data", ""] + ["data", ""] == ["data", "", "data", ""];
  }

  lemma MergedLines()
    ensures Lines("data" + ("\r\n" + ("data" + "\n\n")) + "\n\n") == ["data", "data", "", "", ""]
  {
    var text := "data" + ("\r\n" + ("data" + "\n\n"));
    FeedEnds(START.(current := "data"));
    FeedField(START, "\r\n", "data" + "\n\n");
    var y := Splitter(["data"], "", false);
    assert [] + ["data"] == ["data"];
    FeedField(y, "\n\n", "");
    assert "\n\n" + "" == "\n\n";
    FeedEnds(y.(current := "data"));
    assert ["data"] + ["data", ""] == ["data", "data", ""];
    var z := Splitter(["data", "data", ""], "", false);
    assert Feed(START, text) == z;
    FeedConcat(START, text, "\n\n");
    FeedBlanks(z);
    assert ["data", "data", ""] + ["", ""] == ["data", "data", "", "", ""];
  }

  lemma FeedBlanks(st: Splitter)
    requires !st.afterCr && st.current == ""
    ensures Feed(st, "\n\n") == Splitter(st.lines + ["", ""], "", false)
  {
    FeedTwo(st, "\n\n");
    assert "\n\n"[2..] == "" && st.lines + [""] + [""] == st.lines + ["", ""];
  }

  lemma FoldData(c: Client, lines: seq<string>)
    ensures Fold(c, ["data"] + lines) == Fold(c.(data := c.data + "\n"), lines)
  {
    assert (["data"] + lines)[1..] == lines;
    assert FieldName("data") == "data" && FieldValue("data") == "";
    assert c.data + "" + "\n" == c.data + "\n";
  }

  lemma FoldBlank(c: Client, lines: seq<string>)
    ensures Fold(c, [""] + lines) == Fold(Dispatch(c), lines)
    ensures |Dispatch(c).events| == |c.events| + (if c.data == "" then 0 else 1) && Dispatch(c).data == ""
  {
    assert ([""] + lines)[1..] == lines;
  }

  lemma FoldBlock(c: Client, lines: seq<string>) returns (next: Client)
    ensures Fold(c, ["data", ""] + lines) == Fold(next, lines) && |next.events| == |c.events| + 1
  {
    FoldData(c, [""] + lines);
    var a := c.(data := c.data + "\n");
    FoldBlank(a, lines);
    assert ["data", ""] + lines == ["data"] + ([""] + lines);
    next := Dispatch(a);
  }

  /** Two blocks of one data line each. */
  lemma TwoCounted(c: Client)
    ensures |Fold(c, ["data", "", "data", ""]).events| == |c.events| + 2
  {
    var b := FoldBlock(c, ["data", ""]);
    var d := FoldBlock(b, []);
    assert ["data", ""] + ["data", ""] == ["data", "", "data", ""] && ["data", ""] + [] == ["data", ""];
  }

  /** One block of two data lines. */
  lemma MergedCounted(c: Client)
    ensures |Fold(c, ["data", "data", "", "", ""]).events| == |c.events| + 1
  {
    FoldData(c, ["data", "", "", ""]);
    var a := c.(data := c.data + "\n");
    FoldData(a, ["", "", ""]);
    var b := a.(data := a.data + "\n");
    FoldBlank(b, ["", ""]);
    FoldBlank(Dispatch(b), [""]);
    FoldBlank(Dispatch(Dispatch(b)), []);
    assert ["data"] + ["data", "", "", ""] == ["data", "data", "", "", ""] && ["data"] + ["", "", ""] == ["data", "", "", ""];
    assert [""] + ["", ""] == ["", "", ""] && [""] + [""] == ["", ""] && [""] + [] == [""];
  }

  lemma TwoHasCrCrLf()
    ensures !NoCrCrLf(TWO_EVENTS) && !HasBom(TWO_EVENTS)
  {
    var s := TWO_EVENTS;
    assert s[..3][0] == 'd';
    assert s[4..][..3] == "\r\r\n";
    assert s[1..][1..][1..][1..] == s[4..];
    assert !NoCrCrLf(s[4..]);
    assert s[3..][1..] == s[4..] && s[2..][1..] == s[3..] && s[1..][1..] == s[2..];
    assert !NoCrCrLf(s[3..]);
    assert !NoCrCrLf(s[2..]);
    assert !NoCrCrLf(s[1..]);
  }

  /** The line ends matter: with a lone CR in front of a CR LF, signing makes one event of two. */
  lemma CrCrLfMergesEvents(k: Suite)
    requires Ideal(k)
    ensures !NoCrCrLf(TWO_EVENTS) && SignStream(k, TWO_EVENTS, "").Ok?
    ensures |Events(TWO_EVENTS)| == 2 && |Events(SignStream(k, TWO_EVENTS, "").value.0)| == 1
  {
    SignSucceeds(k, SplitBlank(ReplaceCrLf(TWO_EVENTS)), "", "", 0);
    SignedStreamMeaning(k, TWO_EVENTS, "");
    TwoHasCrCrLf();
    ReplacedTwo();
    TwoLines();
    MergedLines();
    TwoCounted(IDLE);
    MergedCounted(IDLE);
  }

  // ---- when signing fails ----

  lemma CursorValid(initial: string, index: nat)
    ensures ValidCursor(StreamCursor(initial, index)) <==> PlainText(initial)
  {
    DigitsPlain(index + 1);
    if Decimal.ParseUint64(initial).Some? {
      var value := Decimal.ParseUint64(initial).value;
      DigitsPlain((value + index + 1) % Decimal.UINT64_LIMIT);
      assert Decimal.AllDigits(initial);
    } else if initial != "" {
      var cursor := initial + "-" + Decimal.Digits(index + 1);
      assert forall c :: c in cursor <==> c in initial || c == '-' || c in Decimal.Digits(index + 1);
    }
  }

  lemma DigitsPlain(n: nat)
    ensures PlainText(Decimal.Digits(n))
  {
  }

  lemma {:induction false} SignSucceeds(k: Suite, parts: seq<string>, previous: string, initial: string, index: nat)
    ensures SignParts(k, parts, previous, initial, index).Ok? <==> PlainText(initial) || (forall p :: p in parts ==> Blank(p))
    ensures SignParts(k, parts, previous, initial, index).Err? ==> SignParts(k, parts, previous, initial, index).error == InvalidCursor
    decreases parts
  {
    if parts != [] {
      CursorValid(initial, index);
      assert parts == [parts[0]] + parts[1..] && parts[0] in parts;
      if Blank(parts[0]) {
        SignSucceeds(k, parts[1..], previous, initial, index);
      } else if PlainText(initial) {
        var cursor := StreamCursor(initial, index);
        SignSucceeds(k, parts[1..], EventHash(k, previous, Normalize(parts[0] + "\n\n"), cursor), initial, index + 1);
      }
    }
  }
}
