/** How a standard client reads an event stream: sections 9.2.5 (parsing) and 9.2.6
    (interpreting) of the WHATWG HTML Standard. Reconnection times set by `retry` are not
    events and are not tracked. */
module EventSource {
  import opened Text

  // ---- lines: CR LF, LF and CR each end a line ----

  datatype Splitter = Splitter(lines: seq<string>, current: string, afterCr: bool)

  const START := Splitter([], "", false)

  function FeedChar(st: Splitter, c: char): Splitter {
    if c == '\n' && st.afterCr then st.(afterCr := false)
    else if c == '\n' || c == '\r' then Splitter(st.lines + [st.current], "", c == '\r')
    else Splitter(st.lines, st.current + [c], false)
  }

  function Feed(st: Splitter, text: string): Splitter
    decreases text
  {
    if text == "" then st else Feed(FeedChar(st, text[0]), text[1..])
  }

  /** The terminated lines of a text; an unterminated last line is pending and not processed. */
  function Lines(text: string): seq<string> { Feed(START, text).lines }

  lemma {:induction false} FeedConcat(st: Splitter, a: string, b: string)
    ensures Feed(st, a + b) == Feed(Feed(st, a), b)
    decreases a
  {
    if a == "" {
      assert a + b == b;
    } else {
      assert (a + b)[1..] == a[1..] + b;
      FeedConcat(FeedChar(st, a[0]), a[1..], b);
    }
  }

  /** Lines already found do not influence how the rest is split. */
  lemma {:induction false} FeedPrefix(pre: seq<string>, st: Splitter, text: string)
    ensures Feed(st.(lines := pre + st.lines), text) ==
            Feed(st, text).(lines := pre + Feed(st, text).lines)
    decreases text
  {
    if text != "" {
      var next := FeedChar(st, text[0]);
      assert FeedChar(st.(lines := pre + st.lines), text[0]) == next.(lines := pre + next.lines) by {
        assert pre + (st.lines + [st.current]) == (pre + st.lines) + [st.current];
      }
      FeedPrefix(pre, next, text[1..]);
    }
  }

  /** Right after a CR the current line is empty. */
  predicate Sound(st: Splitter) { st.afterCr ==> st.current == "" }

  lemma {:induction false} FeedSound(st: Splitter, text: string)
    requires Sound(st)
    ensures Sound(Feed(st, text))
    decreases text
  {
    if text != "" {
      FeedSound(FeedChar(st, text[0]), text[1..]);
    }
  }

  /** Text ending in a line feed pair leaves the splitter between events, after a blank line. */
  lemma FeedClose(st: Splitter, text: string)
    requires Sound(st)
    ensures var f := Feed(st, text + "\n\n");
            f.current == "" && !f.afterCr && |f.lines| > 0 && f.lines[|f.lines| - 1] == ""
  {
    FeedConcat(st, text, "\n\n");
    FeedSound(st, text);
    var g := Feed(st, text);
    var g1 := FeedChar(g, '\n');
    assert "\n\n"[1..] == "\n" && "\n"[1..] == "";
    assert Feed(g, "\n\n") == Feed(g1, "\n") == FeedChar(g1, '\n');
    assert g.afterCr ==> g1.afterCr == false;
  }

  /** So what follows such text is split from scratch. */
  lemma LinesAfterClose(a: string, b: string)
    ensures Lines(a + "\n\n" + b) == Lines(a + "\n\n") + Lines(b)
  {
    FeedConcat(START, a + "\n\n", b);
    FeedClose(START, a);
    var f := Feed(START, a + "\n\n");
    assert f == START.(lines := f.lines + START.lines);
    FeedPrefix(f.lines, START, b);
  }

  // ---- fields and dispatch ----

  datatype Event = Event(kind: string, data: string, lastId: string)

  /** Data buffer, event type buffer, last event ID buffer, and what has been dispatched. */
  datatype Client = Client(data: string, kind: string, id: string, events: seq<Event>)

  const IDLE := Client("", "", "", [])

  function FieldName(line: string): string {
    var i := IndexOf(line, ':');
    if i < 0 then line else line[..i]
  }

  function FieldValue(line: string): string {
    var i := IndexOf(line, ':');
    if i < 0 then "" else
      var v := line[i + 1..];
      if v != "" && v[0] == ' ' then v[1..] else v
  }

  /** How a client reads a field: the name ends at the first colon, one blank behind it is dropped, and a
      line without a colon is a name alone. */
  lemma FieldExactly(name: string, value: string)
    requires ':' !in name
    ensures FieldName(name) == name && FieldValue(name) == ""
    ensures FieldName(name + ":" + value) == name
    ensures FieldValue(name + ":" + value) == if value != "" && value[0] == ' ' then value[1..] else value
    ensures FieldValue(name + ": " + value) == value
  {
    ColonAt(name, value);
    ColonAt(name, " " + value);
    assert name + ":" + (" " + value) == name + ": " + value;
    assert (" " + value)[1..] == value;
  }

  lemma ColonAt(name: string, value: string)
    requires ':' !in name
    ensures var line := name + ":" + value; IndexOf(line, ':') == |name| && line[..|name|] == name && line[|name| + 1..] == value
  {
    IndexOfFound(name, ':', value);
    assert name + [':'] + value == name + ":" + value;
  }

  function Dispatch(c: Client): Client {
    if c.data == "" then c.(kind := "") else
      var data := if c.data[|c.data| - 1] == '\n' then c.data[..|c.data| - 1] else c.data;
      Client("", "", c.id, c.events + [Event(if c.kind == "" then "message" else c.kind, data, c.id)])
  }

  function ProcessLine(c: Client, line: string): Client {
    if line == "" then Dispatch(c)
    else if line[0] == ':' then c
    else
      var name, value := FieldName(line), FieldValue(line);
      if name == "event" then c.(kind := value)
      else if name == "data" then c.(data := c.data + value + "\n")
      else if name == "id" && '\0' !in value then c.(id := value)
      else c
  }

  function Fold(c: Client, lines: seq<string>): Client
    decreases lines
  {
    if lines == [] then c else Fold(ProcessLine(c, lines[0]), lines[1..])
  }

  lemma {:induction false} FoldConcat(c: Client, a: seq<string>, b: seq<string>)
    ensures Fold(c, a + b) == Fold(Fold(c, a), b)
    decreases a
  {
    if a == [] {
      assert a + b == b;
    } else {
      assert (a + b)[1..] == a[1..] + b;
      FoldConcat(ProcessLine(c, a[0]), a[1..], b);
    }
  }

  /** One leading byte order mark, EF BB BF, is dropped by the UTF-8 decoder. */
  const BOM := "\U{00EF}\U{00BB}\U{00BF}"

  predicate HasBom(s: string) { StartsWith(s, BOM) }

  function StripBom(s: string): string { if HasBom(s) then s[3..] else s }

  /** The events a standard client dispatches for a whole stream. */
  function Events(stream: string): seq<Event> {
    Fold(IDLE, Lines(StripBom(stream))).events
  }

  /** Between events: nothing buffered but the last event ID. */
  predicate Between(c: Client) { c.data == "" && c.kind == "" }

  lemma FoldEndsBetween(c: Client, lines: seq<string>)
    requires |lines| > 0 && lines[|lines| - 1] == ""
    ensures Between(Fold(c, lines))
  {
    var n := |lines| - 1;
    assert lines == lines[..n] + [""];
    FoldConcat(c, lines[..n], [""]);
    assert Fold(Fold(c, lines[..n]), [""]) == ProcessLine(Fold(c, lines[..n]), "");
  }
}
