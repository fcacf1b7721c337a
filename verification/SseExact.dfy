/** Exactly which complete streams a client reads the same signed and unsigned. Besides the byte order
    mark there is one more way to lose something: the signer rewrites CR LF to LF, and a LF behind a
    lone CR then joins it to one line end, so the blank line between the two is dropped. */
module SseExact {
  import opened Text
  import opened EventSource
  import opened Sse
  import SseMeaning

  /** A line, and whether signing drops it; only blank lines are dropped. */
  datatype Mark = Mark(text: string, dropped: bool)

  /** The lines of a text, from a splitter with `current` pending: a blank line is dropped if a CR
      precedes its CR LF. */
  function Marks(text: string, current: string, afterCr: bool): seq<Mark>
    decreases |text|
  {
    if text == "" then []
    else if text[0] == '\n' && afterCr then Marks(text[1..], current, false)
    else if text[0] == '\n' then [Mark(current, false)] + Marks(text[1..], "", false)
    else if text[0] == '\r' then [Mark(current, current == "" && afterCr && StartsWith(text, "\r\n"))] + Marks(text[1..], "", true)
    else Marks(text[1..], current + [text[0]], false)
  }

  function Texts(marks: seq<Mark>): seq<string> {
    if marks == [] then [] else [marks[0].text] + Texts(marks[1..])
  }

  function Kept(marks: seq<Mark>): seq<string> {
    if marks == [] then [] else (if marks[0].dropped then [] else [marks[0].text]) + Kept(marks[1..])
  }

  // ---- the marks are right ----

  lemma FirstMark(m: Mark, rest: seq<Mark>)
    ensures Texts([m] + rest) == [m.text] + Texts(rest)
    ensures Kept([m] + rest) == (if m.dropped then [] else [m.text]) + Kept(rest)
  {
    assert ([m] + rest)[1..] == rest;
  }

  lemma {:induction false} OneMore(marks: seq<Mark>, last: Mark)
    requires !last.dropped
    ensures Texts(marks + [last]) == Texts(marks) + [last.text] && Kept(marks + [last]) == Kept(marks) + [last.text]
    decreases marks
  {
    if marks == [] {
      FirstMark(last, []);
      assert marks + [last] == [last] + [] && [last.text] + [] == [last.text];
    } else {
      var m, rest := marks[0], marks[1..];
      OneMore(rest, last);
      FirstMark(m, rest);
      FirstMark(m, rest + [last]);
      assert marks == [m] + rest && marks + [last] == [m] + (rest + [last]);
      assert ([m.text] + Texts(rest)) + [last.text] == [m.text] + (Texts(rest) + [last.text]);
      var front := if m.dropped then [] else [m.text];
      assert (front + Kept(rest)) + [last.text] == front + (Kept(rest) + [last.text]);
    }
  }

  /** All lines of the text, as any client splits it. */
  lemma {:induction false} MarksSplit(st: Splitter, text: string)
    ensures Feed(st, text).lines == st.lines + Texts(Marks(text, st.current, st.afterCr))
    decreases |text|
  {
    if text != "" {
      var next := FeedChar(st, text[0]);
      MarksSplit(next, text[1..]);
      if text[0] == '\r' || (text[0] == '\n' && !st.afterCr) {
        var m := Marks(text, st.current, st.afterCr)[0];
        FirstMark(m, Marks(text[1..], "", text[0] == '\r'));
        assert next.lines + Texts(Marks(text[1..], "", text[0] == '\r')) == st.lines + ([st.current] + Texts(Marks(text[1..], "", text[0] == '\r')));
      }
    } else {
      assert st.lines + [] == st.lines;
    }
  }

  /** A splitter is right behind a CR only with nothing pending. */
  predicate Proper(st: Splitter) { st.afterCr ==> st.current == "" }

  /** The text as the signer rewrites it has the kept lines, and leaves the splitter in the same state. */
  lemma {:induction false} MarksRewritten(st: Splitter, text: string)
    requires Proper(st)
    ensures Feed(st, ReplaceCrLf(text)) ==
            Feed(st, text).(lines := st.lines + Kept(Marks(text, st.current, st.afterCr)))
    decreases |text|
  {
    if text == "" {
      assert st.lines + [] == st.lines;
    } else if StartsWith(text, "\r\n") {
      RewrittenPair(st, text);
      MarksRewritten(if st.afterCr then st.(afterCr := false) else Splitter(st.lines + [st.current], "", false), text[2..]);
      PairSplit(st, text);
    } else {
      var next := FeedChar(st, text[0]);
      RewrittenOther(st, text);
      MarksRewritten(next, text[1..]);
      OtherSplit(st, text);
    }
  }

  lemma RewrittenPair(st: Splitter, text: string)
    requires StartsWith(text, "\r\n")
    ensures Feed(st, ReplaceCrLf(text)) == Feed(if st.afterCr then st.(afterCr := false) else Splitter(st.lines + [st.current], "", false), ReplaceCrLf(text[2..]))
  {
    var r := ReplaceCrLf(text);
    assert r == "\n" + ReplaceCrLf(text[2..]) && r[1..] == ReplaceCrLf(text[2..]);
  }

  lemma RewrittenOther(st: Splitter, text: string)
    requires text != "" && !StartsWith(text, "\r\n")
    ensures Feed(st, ReplaceCrLf(text)) == Feed(FeedChar(st, text[0]), ReplaceCrLf(text[1..]))
  {
    var r := ReplaceCrLf(text);
    assert r == [text[0]] + ReplaceCrLf(text[1..]) && r[1..] == ReplaceCrLf(text[1..]);
  }

  /** A CR LF: one line, dropped behind a CR. */
  lemma PairSplit(st: Splitter, text: string)
    requires Proper(st) && StartsWith(text, "\r\n")
    ensures var next := if st.afterCr then st.(afterCr := false) else Splitter(st.lines + [st.current], "", false);
            && (Feed(st, text).current, Feed(st, text).afterCr) == (Feed(next, text[2..]).current, Feed(next, text[2..]).afterCr)
            && st.lines + Kept(Marks(text, st.current, st.afterCr)) == next.lines + Kept(Marks(text[2..], "", false))
            && next.current == "" && !next.afterCr
  {
    assert text[0] == '\r' && text[1] == '\n' && text[1..][0] == '\n' && text[1..][1..] == text[2..];
    var a := FeedChar(st, '\r');
    var b := FeedChar(a, '\n');
    assert Feed(st, text) == Feed(a, text[1..]) == Feed(b, text[2..]);
    var next := if st.afterCr then st.(afterCr := false) else Splitter(st.lines + [st.current], "", false);
    SameEnd(b, next, text[2..]);
    var rest := Marks(text[2..], "", false);
    assert Marks(text[1..], "", true) == rest;
    FirstMark(Mark(st.current, st.afterCr), rest);
    assert Marks(text, st.current, st.afterCr) == [Mark(st.current, st.afterCr)] + rest;
    assert st.lines + ([st.current] + Kept(rest)) == st.lines + [st.current] + Kept(rest);
    assert st.lines + ([] + Kept(rest)) == st.lines + Kept(rest);
  }

  /** Lines already found have no influence on how a text ends. */
  lemma {:induction false} SameEnd(a: Splitter, b: Splitter, text: string)
    requires a.current == b.current && a.afterCr == b.afterCr
    ensures Feed(a, text).current == Feed(b, text).current && Feed(a, text).afterCr == Feed(b, text).afterCr
    decreases |text|
  {
    if text != "" {
      SameEnd(FeedChar(a, text[0]), FeedChar(b, text[0]), text[1..]);
    }
  }

  lemma OtherSplit(st: Splitter, text: string)
    requires Proper(st) && text != "" && !StartsWith(text, "\r\n")
    ensures var next := FeedChar(st, text[0]);
            && Proper(next) && Feed(st, text) == Feed(next, text[1..])
            && st.lines + Kept(Marks(text, st.current, st.afterCr)) == next.lines + Kept(Marks(text[1..], next.current, next.afterCr))
  {
    if text[0] == '\r' || (text[0] == '\n' && !st.afterCr) {
      var rest := Marks(text[1..], "", text[0] == '\r');
      FirstMark(Mark(st.current, false), rest);
      assert st.lines + ([st.current] + Kept(rest)) == st.lines + [st.current] + Kept(rest);
    }
  }

  // ---- what a dropped line does ----

  function KindOf(kind: string): string { if kind == "" then "message" else kind }

  /** Event type and last event ID as a client has them. */
  datatype Seen = Seen(kind: string, id: string)

  /** The event the plain client has dispatched at a dropped line, while the other client still holds its data. */
  datatype Pending = Nothing | Pending(kind: string, id: string)

  predicate UsableId(line: string) { SseMeaning.IsField(line, "id") && '\0' !in FieldValue(line) }

  function See(s: Seen, line: string): Seen {
    if SseMeaning.IsField(line, "event") then s.(kind := FieldValue(line))
    else if UsableId(line) then s.(id := FieldValue(line))
    else s
  }

  /** Read line by line, the plain client `a` (all lines) and the other one `b` (kept lines) dispatch the
      same events. Between two kept blank lines at most one block may hold data; and when `b` comes to
      dispatch it, event type and ID must still be those `a` dispatched it with. */
  predicate Faithful(marks: seq<Mark>, hasData: bool, a: Seen, b: Seen, held: Pending) {
    if marks == [] then held.Nothing?
    else
      var m, rest := marks[0], marks[1..];
      if m.text == "" && m.dropped then
        Faithful(rest, false, a.(kind := ""), b, if hasData then Pending(KindOf(a.kind), a.id) else held)
      else if m.text == "" then
        && (held.Pending? ==> held == Pending(KindOf(b.kind), b.id))
        && (hasData ==> KindOf(a.kind) == KindOf(b.kind) && a.id == b.id)
        && Faithful(rest, false, a.(kind := ""), b.(kind := ""), Nothing)
      else if SseMeaning.IsField(m.text, "data") then held.Nothing? && Faithful(rest, true, a, b, held)
      else Faithful(rest, hasData, See(a, m.text), See(b, m.text), held)
  }

  // ---- two clients ----

  function Strip(data: string): string {
    if data != "" && data[|data| - 1] == '\n' then data[..|data| - 1] else data
  }

  predicate Rel(a: Client, b: Client, hasData: bool, sa: Seen, sb: Seen, held: Pending) {
    && sa == Seen(a.kind, a.id) && sb == Seen(b.kind, b.id)
    && (hasData <==> a.data != "")
    && match held
       case Nothing => a.events == b.events && a.data == b.data
       case Pending(kind, id) => a.data == "" && b.data != "" && a.events == b.events + [Event(kind, Strip(b.data), id)]
  }

  /** Only blank lines are dropped, and the last line is a kept blank one. */
  predicate Closed(marks: seq<Mark>, a: Client, b: Client) {
    && (forall i :: 0 <= i < |marks| && marks[i].dropped ==> marks[i].text == "")
    && (if marks == [] then a.data == "" && b.data == "" else marks[|marks| - 1] == Mark("", false))
  }

  lemma ClosedRest(marks: seq<Mark>, a: Client, b: Client)
    requires marks != [] && Closed(marks, a, b)
    ensures var a', b' := ProcessLine(a, marks[0].text), if marks[0].dropped then b else ProcessLine(b, marks[0].text);
            Closed(marks[1..], a', b')
  {
  }

  lemma FoldMark(marks: seq<Mark>, a: Client, b: Client)
    requires marks != []
    ensures Fold(a, Texts(marks)) == Fold(ProcessLine(a, marks[0].text), Texts(marks[1..]))
    ensures Fold(b, Kept(marks)) == Fold(if marks[0].dropped then b else ProcessLine(b, marks[0].text), Kept(marks[1..]))
  {
    assert ([marks[0].text] + Texts(marks[1..]))[1..] == Texts(marks[1..]);
    assert ([marks[0].text] + Kept(marks[1..]))[1..] == Kept(marks[1..]);
    assert [] + Kept(marks[1..]) == Kept(marks[1..]);
  }

  /** Events are only ever added. */
  lemma EventsGrow(c: Client, lines: seq<string>)
    ensures c.events <= Fold(c, lines).events
  {
    SseMeaning.EventsPrefix(c.(events := []), c.events, lines);
    assert c.events + [] == c.events;
  }

  /** Events that differ at one place differ for good. */
  lemma ApartForGood(a: Client, b: Client, n: nat, x: seq<string>, y: seq<string>)
    requires n < |a.events| && n < |b.events| && a.events[n] != b.events[n]
    ensures Fold(a, x).events != Fold(b, y).events
  {
    EventsGrow(a, x);
    EventsGrow(b, y);
    assert Fold(a, x).events[n] == a.events[n] && Fold(b, y).events[n] == b.events[n];
  }

  function Weight(c: Client): nat { |c.events| + if c.data == "" then 0 else 1 }

  /** Once the plain client is ahead by an event, dispatched or buffered, it stays ahead. */
  lemma {:induction false} AheadForGood(marks: seq<Mark>, a: Client, b: Client)
    requires Closed(marks, a, b) && Weight(a) > Weight(b) && (a.data != "" ==> b.data != "")
    ensures |Fold(a, Texts(marks)).events| > |Fold(b, Kept(marks)).events|
    decreases marks
  {
    if marks != [] {
      FoldMark(marks, a, b);
      ClosedRest(marks, a, b);
      var a', b' := ProcessLine(a, marks[0].text), if marks[0].dropped then b else ProcessLine(b, marks[0].text);
      WeightStep(a, marks[0].text);
      WeightStep(b, marks[0].text);
      AheadForGood(marks[1..], a', b');
    }
  }

  lemma WeightStep(c: Client, line: string)
    ensures var c' := ProcessLine(c, line);
            if line == "" then Weight(c') == Weight(c) && c'.data == ""
            else if SseMeaning.IsField(line, "data") then |c'.events| == |c.events| && c'.data != ""
            else c'.events == c.events && c'.data == c.data
  {
  }

  lemma OtherLine(c: Client, line: string)
    requires line != "" && !SseMeaning.IsField(line, "data")
    ensures var c' := ProcessLine(c, line);
            c'.events == c.events && c'.data == c.data && Seen(c'.kind, c'.id) == See(Seen(c.kind, c.id), line)
  {
  }

  lemma DataLine(c: Client, line: string)
    requires SseMeaning.IsField(line, "data")
    ensures ProcessLine(c, line) == c.(data := c.data + FieldValue(line) + "\n")
  {
  }

  lemma BlankLine(c: Client)
    ensures var c' := ProcessLine(c, "");
            c' == if c.data == "" then c.(kind := "") else Client("", "", c.id, c.events + [Event(KindOf(c.kind), Strip(c.data), c.id)])
  {
  }

  /** Two clients in step dispatch the same events exactly when the lines are faithful. */
  lemma {:induction false} FaithfulExactly(marks: seq<Mark>, a: Client, b: Client, hasData: bool, sa: Seen, sb: Seen, held: Pending)
    requires Closed(marks, a, b) && Rel(a, b, hasData, sa, sb, held)
    ensures Fold(a, Texts(marks)).events == Fold(b, Kept(marks)).events <==> Faithful(marks, hasData, sa, sb, held)
    decreases marks
  {
    if marks != [] {
      FoldMark(marks, a, b);
      ClosedRest(marks, a, b);
      var m, rest := marks[0], marks[1..];
      var a', b' := ProcessLine(a, m.text), if m.dropped then b else ProcessLine(b, m.text);
      if m.text == "" && m.dropped {
        BlankLine(a);
        FaithfulExactly(rest, a', b', false, sa.(kind := ""), sb, if hasData then Pending(KindOf(sa.kind), sa.id) else held);
      } else if m.text == "" {
        BlankLine(a);
        BlankLine(b);
        if KeptAgrees(hasData, sa, sb, held) {
          FaithfulExactly(rest, a', b', false, sa.(kind := ""), sb.(kind := ""), Nothing);
        } else {
          ApartForGood(a', b', |b.events|, Texts(rest), Kept(rest));
        }
      } else if SseMeaning.IsField(m.text, "data") {
        DataLine(a, m.text);
        DataLine(b, m.text);
        if held.Nothing? {
          FaithfulExactly(rest, a', b', true, sa, sb, held);
        } else {
          AheadForGood(rest, a', b');
        }
      } else {
        OtherLine(a, m.text);
        OtherLine(b, m.text);
        FaithfulExactly(rest, a', b', hasData, See(sa, m.text), See(sb, m.text), held);
      }
    }
  }

  predicate KeptAgrees(hasData: bool, sa: Seen, sb: Seen, held: Pending) {
    && (held.Pending? ==> held == Pending(KindOf(sb.kind), sb.id))
    && (hasData ==> KindOf(sa.kind) == KindOf(sb.kind) && sa.id == sb.id)
  }

  // ---- a lost first data line ----

  /** The plain client has buffered a line the other one never saw. */
  predicate Extra(a: Client, b: Client, extra: string) {
    && a.events == b.events && a.data == extra + b.data && extra != "" && extra[|extra| - 1] == '\n'
    && (b.data != "" ==> b.data[|b.data| - 1] == '\n')
  }

  /** The plain client has dispatched it, with more of the other client's data. */
  predicate ExtraSent(a: Client, b: Client, extra: string) {
    && a.data == "" && b.data != "" && b.data[|b.data| - 1] == '\n' && extra != ""
    && |a.events| == |b.events| + 1 && b.events <= a.events && a.events[|b.events|].data == Strip(extra + b.data)
  }

  lemma {:induction false} SentIsLost(marks: seq<Mark>, a: Client, b: Client, extra: string)
    requires Closed(marks, a, b) && ExtraSent(a, b, extra)
    ensures Fold(a, Texts(marks)).events != Fold(b, Kept(marks)).events
    decreases marks
  {
    FoldMark(marks, a, b);
    ClosedRest(marks, a, b);
    var m, rest := marks[0], marks[1..];
    var a', b' := ProcessLine(a, m.text), if m.dropped then b else ProcessLine(b, m.text);
    if m.text == "" {
      BlankLine(a);
      BlankLine(b);
      if m.dropped {
        SentIsLost(rest, a', b', extra);
      } else {
        var n := |b.events|;
        assert |Strip(extra + b.data)| == |extra| + |Strip(b.data)|;
        assert b'.events[n].data == Strip(b.data) && a'.events[n].data == Strip(extra + b.data);
        ApartForGood(a', b', n, Texts(rest), Kept(rest));
      }
    } else if SseMeaning.IsField(m.text, "data") {
      DataLine(a, m.text);
      DataLine(b, m.text);
      AheadForGood(rest, a', b');
    } else {
      OtherLine(a, m.text);
      OtherLine(b, m.text);
      SentIsLost(rest, a', b', extra);
    }
  }

  /** A blank line that both clients see sends the extra line. */
  lemma ExtraBlank(marks: seq<Mark>, a: Client, b: Client, extra: string)
    requires marks != [] && Closed(marks, a, b) && Extra(a, b, extra) && marks[0].text == ""
    ensures Fold(a, Texts(marks)).events != Fold(b, Kept(marks)).events
  {
    FoldMark(marks, a, b);
    ClosedRest(marks, a, b);
    var m, rest := marks[0], marks[1..];
    var a', b' := ProcessLine(a, ""), if m.dropped then b else ProcessLine(b, "");
    BlankLine(a);
    BlankLine(b);
    if b.data == "" {
      AheadForGood(rest, a', b');
    } else if m.dropped {
      SentIsLost(rest, a', b', extra);
    } else {
      var n := |b.events|;
      StripLonger(extra, b.data);
      assert a'.events[n].data == Strip(extra + b.data) && b'.events[n].data == Strip(b.data);
      ApartForGood(a', b', n, Texts(rest), Kept(rest));
    }
  }

  lemma StripLonger(extra: string, data: string)
    requires extra != "" && data != "" && data[|data| - 1] == '\n'
    ensures Strip(extra + data) != Strip(data)
  {
    assert (extra + data)[|extra + data| - 1] == '\n';
    assert |Strip(extra + data)| == |extra| + |Strip(data)|;
  }

  lemma ExtraLine(a: Client, b: Client, extra: string, line: string)
    requires Extra(a, b, extra) && line != ""
    ensures Extra(ProcessLine(a, line), ProcessLine(b, line), extra)
  {
    if SseMeaning.IsField(line, "data") {
      DataLine(a, line);
      DataLine(b, line);
      ExtraData(a, b, extra, FieldValue(line));
    } else {
      OtherLine(a, line);
      OtherLine(b, line);
    }
  }

  lemma ExtraData(a: Client, b: Client, extra: string, value: string)
    requires Extra(a, b, extra)
    ensures Extra(a.(data := a.data + value + "\n"), b.(data := b.data + value + "\n"), extra)
  {
    assert extra + (b.data + value + "\n") == (extra + b.data) + value + "\n";
  }

  lemma {:induction false} ExtraIsLost(marks: seq<Mark>, a: Client, b: Client, extra: string)
    requires Closed(marks, a, b) && Extra(a, b, extra)
    ensures Fold(a, Texts(marks)).events != Fold(b, Kept(marks)).events
    decreases marks
  {
    if marks[0].text == "" {
      ExtraBlank(marks, a, b, extra);
    } else {
      FoldMark(marks, a, b);
      ClosedRest(marks, a, b);
      ExtraLine(a, b, extra, marks[0].text);
      ExtraIsLost(marks[1..], ProcessLine(a, marks[0].text), ProcessLine(b, marks[0].text), extra);
    }
  }

  // ---- whole streams ----

  const NONE := Seen("", "")

  /** The stream's lines without its byte order mark, and the blank line the signer ends with. */
  function ClosedMarks(stream: string): (marks: seq<Mark>)
    ensures marks != []
  {
    Marks(StripBom(stream), "", false) + [Mark("", false)]
  }

  /** The condition: the lines are faithful; and behind a byte order mark, which costs the other client
      the first line, that line is no data line and the rest is faithful without it. */
  predicate Preserved(stream: string) {
    var marks := ClosedMarks(stream);
    if !HasBom(stream) then Faithful(marks, false, NONE, NONE, Nothing)
    else !SseMeaning.IsField(marks[0].text, "data") && Faithful(marks[1..], false, See(NONE, marks[0].text), NONE, Nothing)
  }

  lemma {:induction false} OnlyBlankDropped(text: string, current: string, afterCr: bool)
    ensures forall i :: 0 <= i < |Marks(text, current, afterCr)| && Marks(text, current, afterCr)[i].dropped ==> Marks(text, current, afterCr)[i].text == ""
    decreases |text|
  {
    if text != "" {
      if text[0] == '\n' || text[0] == '\r' {
        OnlyBlankDropped(text[1..], if text[0] == '\n' && afterCr then current else "", text[0] == '\r');
      } else {
        OnlyBlankDropped(text[1..], current + [text[0]], false);
      }
    }
  }

  /** The first line is never dropped. */
  lemma {:induction false} FirstKept(text: string, current: string)
    ensures Marks(text, current, false) != [] ==> !Marks(text, current, false)[0].dropped
    decreases |text|
  {
    if text != "" && text[0] != '\n' && text[0] != '\r' {
      FirstKept(text[1..], current + [text[0]]);
    }
  }

  lemma Finished(c: Client, lines: seq<string>, blanks: seq<string>)
    requires blanks == [""] || blanks == ["", ""]
    ensures Fold(c, lines + blanks).events == Fold(c, lines + [""]).events
  {
    FoldConcat(c, lines, [""]);
    var d := Fold(c, lines + [""]);
    FoldEndsBetween(c, lines + [""]);
    if blanks == ["", ""] {
      assert lines + blanks == (lines + [""]) + [""];
      FoldConcat(c, lines + [""], [""]);
      SseMeaning.BlanksUnheard(d, [""]);
    }
  }

  /** What the signed stream's client sees behind the first line end the signer adds. */
  lemma RewrittenLines(text: string) returns (blanks: seq<string>)
    requires Feed(START, text).current == ""
    ensures blanks == [""] || blanks == ["", ""]
    ensures Lines(ReplaceCrLf(text) + "\n\n") == Kept(Marks(text, "", false)) + blanks
  {
    MarksRewritten(START, text);
    FeedConcat(START, ReplaceCrLf(text), "\n\n");
    var f := Feed(START, ReplaceCrLf(text));
    assert f.lines == [] + Kept(Marks(text, "", false)) == Kept(Marks(text, "", false));
    SseMeaning.FeedTwo(f, "\n\n");
    blanks := if f.afterCr then [""] else ["", ""];
    assert "\n\n"[2..] == "";
    assert (f.lines + [""]) + [""] == f.lines + ["", ""];
  }

  lemma PlainLines(stream: string)
    requires SseMeaning.Complete(stream)
    ensures Events(stream) == Fold(IDLE, Texts(ClosedMarks(stream))).events
  {
    var text := StripBom(stream);
    var marks := Marks(text, "", false);
    MarksSplit(START, text);
    assert [] + Texts(marks) == Texts(marks);
    OneMore(marks, Mark("", false));
    SseMeaning.ClosedEvents(Texts(marks), [""]);
  }

  lemma MarksClosed(stream: string)
    ensures Closed(ClosedMarks(stream), IDLE, IDLE)
  {
    OnlyBlankDropped(StripBom(stream), "", false);
  }

  lemma UnmarkedExactly(stream: string)
    requires SseMeaning.Complete(stream) && !HasBom(stream)
    ensures Fold(IDLE, Lines(ReplaceCrLf(stream) + "\n\n")).events == Events(stream) <==> Preserved(stream)
  {
    var marks := Marks(stream, "", false);
    var blanks := RewrittenLines(stream);
    Finished(IDLE, Kept(marks), blanks);
    OneMore(marks, Mark("", false));
    PlainLines(stream);
    MarksClosed(stream);
    FaithfulExactly(ClosedMarks(stream), IDLE, IDLE, false, NONE, NONE, Nothing);
  }

  /** Behind the byte order mark the signed stream's client sees all lines but the first. */
  lemma MarkedLines(text: string)
    requires Feed(START, text).current == ""
    ensures var marks := Marks(text, "", false) + [Mark("", false)];
            Fold(IDLE, Lines(BOM + ReplaceCrLf(text) + "\n\n")).events == Fold(IDLE, Kept(marks[1..])).events
  {
    var marks := Marks(text, "", false);
    var blanks := RewrittenLines(text);
    var closed := Kept(marks) + blanks;
    SseMeaning.BomClosedLines(ReplaceCrLf(text));
    SseMeaning.BomLine(IDLE, closed[0]);
    assert ([BOM + closed[0]] + closed[1..])[1..] == closed[1..];
    assert Fold(IDLE, [BOM + closed[0]] + closed[1..]) == Fold(IDLE, closed[1..]);
    if marks == [] {
      assert closed == blanks && (marks + [Mark("", false)])[1..] == [];
      SseMeaning.BlanksUnheard(IDLE, closed[1..]);
    } else {
      FirstKept(text, "");
      var rest := marks[1..];
      FirstMark(marks[0], rest);
      assert marks == [marks[0]] + rest && Kept(marks) == [marks[0].text] + Kept(rest);
      assert closed[1..] == Kept(rest) + blanks;
      assert (marks + [Mark("", false)])[1..] == rest + [Mark("", false)];
      Finished(IDLE, Kept(rest), blanks);
      OneMore(rest, Mark("", false));
    }
  }

  lemma MarkedExactly(stream: string)
    requires SseMeaning.Complete(stream) && HasBom(stream)
    ensures Fold(IDLE, Lines(ReplaceCrLf(stream) + "\n\n")).events == Events(stream) <==> Preserved(stream)
  {
    var text := StripBom(stream);
    assert stream == BOM + text;
    SseMeaning.ReplaceKeepsBom(text);
    MarkedLines(text);
    PlainLines(stream);
    MarksClosed(stream);
    var marks := ClosedMarks(stream);
    FirstKept(text, "");
    FoldMark(marks, IDLE, IDLE);
    ClosedRest(marks, IDLE, IDLE);
    FirstLine(marks, ProcessLine(IDLE, marks[0].text));
  }

  lemma FirstLine(marks: seq<Mark>, a: Client)
    requires marks != [] && !marks[0].dropped && Closed(marks, IDLE, IDLE) && a == ProcessLine(IDLE, marks[0].text)
    ensures Fold(a, Texts(marks[1..])).events == Fold(IDLE, Kept(marks[1..])).events
            <==> !SseMeaning.IsField(marks[0].text, "data") && Faithful(marks[1..], false, See(NONE, marks[0].text), NONE, Nothing)
  {
    var line := marks[0].text;
    if SseMeaning.IsField(line, "data") {
      DataLine(IDLE, line);
      assert a.data == a.data + IDLE.data;
      ExtraIsLost(marks[1..], a, IDLE, a.data);
    } else {
      if line != "" { OtherLine(IDLE, line); } else { BlankLine(IDLE); }
      FaithfulExactly(marks[1..], a, IDLE, false, See(NONE, line), NONE, Nothing);
    }
  }

  /** For every complete stream at all: a client dispatches the same events signed and unsigned if and
      only if the condition holds, which a caller can evaluate line by line before signing. */
  lemma SigningPreservesExactly(k: Suite, stream: string, initial: string)
    requires Ideal(k) && SignStream(k, stream, initial).Ok? && SseMeaning.Complete(stream)
    ensures Events(SignStream(k, stream, initial).value.0) == Events(stream) <==> Preserved(stream)
  {
    SseMeaning.SignedStreamMeaning(k, stream, initial);
    if HasBom(stream) { MarkedExactly(stream); } else { UnmarkedExactly(stream); }
  }
}
