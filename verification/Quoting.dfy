/** Go's strconv.Quote and strconv.Unquote on byte strings, with the UTF-8 they decode and encode.
    Which runes beyond ASCII are printable is left to a parameter `p`, unicode.IsPrint. Characters
    beyond 255 do not occur in byte strings; the functions pass them through. */
module Quoting {
  import opened Text

  // ---- UTF-8 ----

  predicate Continues(c: char, low: int, high: int) { low <= c as int <= high }

  predicate Continuation(c: char) { Continues(c, 0x80, 0xBF) }

  /** Unicode code points that are not surrogates. */
  predicate ValidRune(r: int) { 0 <= r < 0xD800 || 0xE000 <= r <= 0x10FFFF }

  function Byte(n: int): char { if 0 <= n < 256 then n as char else '\0' }

  /** The length of a multi-byte rune at the front of s, or 0 if there is none. */
  function RuneLength(s: string): (n: nat)
    ensures n <= |s| && n <= 4 && n != 1
  {
    if s == "" then 0
    else
      var b := s[0] as int;
      if 0xC2 <= b <= 0xDF then
        if |s| >= 2 && Continuation(s[1]) then 2 else 0
      else if 0xE0 <= b <= 0xEF then
        if |s| >= 3 && Continues(s[1], if b == 0xE0 then 0xA0 else 0x80, if b == 0xED then 0x9F else 0xBF) && Continuation(s[2]) then 3 else 0
      else if 0xF0 <= b <= 0xF4 then
        if |s| >= 4 && Continues(s[1], if b == 0xF0 then 0x90 else 0x80, if b == 0xF4 then 0x8F else 0xBF) && Continuation(s[2]) && Continuation(s[3]) then 4 else 0
      else 0
  }

  function Rune2(a: int, b: int): int { (a - 0xC0) * 64 + (b - 0x80) }
  function Rune3(a: int, b: int, c: int): int { (a - 0xE0) * 4096 + (b - 0x80) * 64 + (c - 0x80) }
  function Rune4(a: int, b: int, c: int, d: int): int { (a - 0xF0) * 262144 + (b - 0x80) * 4096 + (c - 0x80) * 64 + (d - 0x80) }

  function RuneAt(s: string): int
    requires RuneLength(s) != 0
  {
    var n := RuneLength(s);
    if n == 2 then Rune2(s[0] as int, s[1] as int)
    else if n == 3 then Rune3(s[0] as int, s[1] as int, s[2] as int)
    else Rune4(s[0] as int, s[1] as int, s[2] as int, s[3] as int)
  }

  /** utf8.AppendRune. */
  function Encode(r: int): string
    requires ValidRune(r)
  {
    if r < 0x80 then [Byte(r)]
    else if r < 0x800 then [Byte(0xC0 + r / 64), Byte(0x80 + r % 64)]
    else if r < 0x10000 then [Byte(0xE0 + r / 4096), Byte(0x80 + r / 64 % 64), Byte(0x80 + r % 64)]
    else [Byte(0xF0 + r / 262144), Byte(0x80 + r / 4096 % 64), Byte(0x80 + r / 64 % 64), Byte(0x80 + r % 64)]
  }

  lemma Digits2(a: int, b: int)
    requires 0 <= a && 0 <= b < 64
    ensures (a * 64 + b) / 64 == a && (a * 64 + b) % 64 == b
  {
  }

  lemma Encode2(a: int, b: int)
    requires 0xC2 <= a <= 0xDF && 0x80 <= b <= 0xBF
    ensures var r := Rune2(a, b); 0x80 <= r < 0x800 && Encode(r) == [Byte(a), Byte(b)]
  {
    Digits2(a - 0xC0, b - 0x80);
  }

  lemma Encode3(a: int, b: int, c: int)
    requires 0xE0 <= a <= 0xEF && 0x80 <= b <= 0xBF && 0x80 <= c <= 0xBF
    requires (a == 0xE0 ==> b >= 0xA0) && (a == 0xED ==> b <= 0x9F)
    ensures var r := Rune3(a, b, c); 0x800 <= r < 0x10000 && ValidRune(r) && Encode(r) == [Byte(a), Byte(b), Byte(c)]
  {
    var q := (a - 0xE0) * 64 + (b - 0x80);
    assert Rune3(a, b, c) == q * 64 + (c - 0x80);
    Digits2(q, c - 0x80);
    Digits2(a - 0xE0, b - 0x80);
    assert Rune3(a, b, c) / 4096 == q / 64;
  }

  lemma Encode4(a: int, b: int, c: int, d: int)
    requires 0xF0 <= a <= 0xF4 && 0x80 <= b <= 0xBF && 0x80 <= c <= 0xBF && 0x80 <= d <= 0xBF
    requires (a == 0xF0 ==> b >= 0x90) && (a == 0xF4 ==> b <= 0x8F)
    ensures var r := Rune4(a, b, c, d); 0x10000 <= r <= 0x10FFFF && Encode(r) == [Byte(a), Byte(b), Byte(c), Byte(d)]
  {
    var q := (a - 0xF0) * 64 + (b - 0x80);
    var t := q * 64 + (c - 0x80);
    assert Rune4(a, b, c, d) == t * 64 + (d - 0x80);
    Digits2(t, d - 0x80);
    Digits2(q, c - 0x80);
    Digits2(a - 0xF0, b - 0x80);
    assert Rune4(a, b, c, d) / 4096 == t / 64 && Rune4(a, b, c, d) / 262144 == q / 64;
  }

  /** A rune that was decoded encodes to the bytes it was decoded from. */
  lemma DecodeThenEncode(s: string)
    requires RuneLength(s) != 0
    ensures ValidRune(RuneAt(s)) && RuneAt(s) >= 0x80 && Encode(RuneAt(s)) == s[..RuneLength(s)]
  {
    var n := RuneLength(s);
    if n == 2 {
      Encode2(s[0] as int, s[1] as int);
    } else if n == 3 {
      Encode3(s[0] as int, s[1] as int, s[2] as int);
    } else {
      Encode4(s[0] as int, s[1] as int, s[2] as int, s[3] as int);
    }
  }

  /** Only its own bytes decide whether a rune is there. */
  lemma DecodeFront(s: string, x: string)
    requires RuneLength(s) == |s| != 0
    ensures RuneLength(s + x) == |s| && RuneAt(s + x) == RuneAt(s)
  {
  }

  lemma RuneBytes(s: string)
    requires RuneLength(s) != 0
    ensures RuneLength(s[..RuneLength(s)]) == RuneLength(s) && RuneAt(s[..RuneLength(s)]) == RuneAt(s)
    ensures forall i :: 0 <= i < RuneLength(s) ==> 0x80 <= s[i] as int < 0x100
  {
  }

  // ---- hexadecimal ----

  function HexDigit(n: nat): char
    requires n < 16
  {
    if n < 10 then '0' + n as char else 'a' + (n - 10) as char
  }

  function HexValue(c: char): Option<nat> {
    if '0' <= c <= '9' then Some((c - '0') as nat)
    else if 'a' <= c <= 'f' then Some((c - 'a') as nat + 10)
    else if 'A' <= c <= 'F' then Some((c - 'A') as nat + 10)
    else None
  }

  function Hex(n: nat, width: nat): (s: string)
    ensures |s| == width
    ensures forall i :: 0 <= i < |s| ==> HexValue(s[i]).Some?
  {
    if width == 0 then "" else Hex(n / 16, width - 1) + [HexDigit(n % 16)]
  }

  function Unhex(s: string): Option<nat> {
    if s == "" then Some(0)
    else match (Unhex(s[..|s| - 1]), HexValue(s[|s| - 1]))
      case (Some(high), Some(low)) => Some(high * 16 + low)
      case _ => None
  }

  function Pow16(n: nat): nat { if n == 0 then 1 else 16 * Pow16(n - 1) }

  lemma {:induction false} UnhexHex(n: nat, width: nat)
    requires n < Pow16(width)
    ensures Unhex(Hex(n, width)) == Some(n)
    decreases width
  {
    if width > 0 {
      UnhexHex(n / 16, width - 1);
      var s := Hex(n, width);
      assert s[..|s| - 1] == Hex(n / 16, width - 1);
      assert HexValue(HexDigit(n % 16)) == Some(n % 16);
    }
  }

  // ---- Quote ----

  /** The letter of a one-letter escape, or NUL. */
  function Letter(c: char): char {
    if c == '\U{7}' then 'a' else if c == '\U{8}' then 'b' else if c == '\U{C}' then 'f'
    else if c == '\n' then 'n' else if c == '\r' then 'r' else if c == '\t' then 't' else if c == '\U{B}' then 'v' else '\0'
  }

  /** An ASCII character inside quotes. */
  function EscapeAscii(c: char): string {
    if c == '"' || c == '\\' then ['\\', c]
    else if ' ' <= c <= '~' then [c]
    else if Letter(c) != '\0' then ['\\', Letter(c)]
    else "\\x" + Hex(c as nat, 2)
  }

  /** A rune beyond ASCII, given with its bytes. */
  function EscapeRune(p: int -> bool, r: nat, bytes: string): string {
    if p(r) then bytes else if r < 0x10000 then "\\u" + Hex(r, 4) else "\\U" + Hex(r, 8)
  }

  /** How many bytes of s the first piece of its quoted form stands for. */
  function Width(s: string): (n: nat)
    requires s != ""
    ensures 0 < n <= |s|
  {
    if RuneLength(s) == 0 then 1 else RuneLength(s)
  }

  function Piece(p: int -> bool, s: string): string
    requires s != ""
  {
    if s[0] as int < 0x80 then EscapeAscii(s[0])
    else if s[0] as int >= 0x100 then [s[0]]
    else if RuneLength(s) == 0 then "\\x" + Hex(s[0] as nat, 2)
    else
      DecodeThenEncode(s);
      EscapeRune(p, RuneAt(s), s[..RuneLength(s)])
  }

  function Escape(p: int -> bool, s: string): string
    decreases |s|
  {
    if s == "" then "" else Piece(p, s) + Escape(p, s[Width(s)..])
  }

  /** strconv.Quote. */
  function Quote(p: int -> bool, s: string): string { "\"" + Escape(p, s) + "\"" }

  // ---- Unquote ----

  function Unletter(c: char): Option<char> {
    if c == 'a' then Some('\U{7}') else if c == 'b' then Some('\U{8}') else if c == 'f' then Some('\U{C}')
    else if c == 'n' then Some('\n') else if c == 'r' then Some('\r') else if c == 't' then Some('\t') else if c == 'v' then Some('\U{B}')
    else None
  }

  /** Some bytes of output, and how much input they took. */
  datatype Taken = Taken(bytes: string, width: nat)

  function TakeHex(s: string, digits: nat): Option<nat> {
    if |s| < 2 + digits then None else Unhex(s[2..2 + digits])
  }

  predicate Octal(c: char) { '0' <= c <= '7' }

  function TakeOctal(s: string): Option<nat> {
    if |s| < 4 || !Octal(s[1]) || !Octal(s[2]) || !Octal(s[3]) then None
    else
      var v := (s[1] - '0') as nat * 64 + (s[2] - '0') as nat * 8 + (s[3] - '0') as nat;
      if v > 255 then None else Some(v)
  }

  /** An escape, s[0] being its backslash. */
  function TakeEscape(s: string, quote: char): Option<Taken> {
    if |s| < 2 then None
    else
      var c := s[1];
      if Unletter(c).Some? then Some(Taken([Unletter(c).value], 2))
      else if c == 'x' then
        (match TakeHex(s, 2) case Some(v) => Some(Taken([Byte(v)], 4)) case None => None)
      else if c == 'u' || c == 'U' then
        var digits := if c == 'u' then 4 else 8;
        (match TakeHex(s, digits) case Some(v) => if ValidRune(v) then Some(Taken(Encode(v), 2 + digits)) else None case None => None)
      else if Octal(c) then
        (match TakeOctal(s) case Some(v) => Some(Taken([Byte(v)], 4)) case None => None)
      else if c == '\\' || c == quote then Some(Taken([c], 2))
      else None
  }

  const REPLACEMENT := "\U{EF}\U{BF}\U{BD}"

  /** strconv.UnquoteChar, with the bytes unquote appends for it. */
  function TakeChar(s: string, quote: char): (t: Option<Taken>)
    requires s != ""
    ensures t.Some? ==> 0 < t.value.width <= |s|
  {
    if s[0] == quote then None
    else if 0x80 <= s[0] as int < 0x100 then
      Some(if RuneLength(s) == 0 then Taken(REPLACEMENT, 1) else Taken(s[..RuneLength(s)], RuneLength(s)))
    else if s[0] != '\\' then Some(Taken([s[0]], 1))
    else TakeEscape(s, quote)
  }

  /** The characters up to the closing quote, and what follows it. */
  function Scan(s: string): Option<(string, string)>
    decreases |s|
  {
    if s == "" || s[0] == '\n' then None
    else if s[0] == '"' then Some(("", s[1..]))
    else match TakeChar(s, '"')
      case None => None
      case Some(t) => Extend(t.bytes, Scan(s[t.width..]))
  }

  function Extend(bytes: string, r: Option<(string, string)>): Option<(string, string)> {
    match r case None => None case Some((out, rest)) => Some((bytes + out, rest))
  }

  /** A single-quoted text holds at most one character. */
  function ScanOne(s: string): Option<string> {
    if s == "\'" then Some("")
    else if s == "" || s[0] == '\n' then None
    else match TakeChar(s, '\'')
      case None => None
      case Some(t) => if s[t.width..] == "\'" then Some(t.bytes) else None
  }

  function WithoutCr(s: string): string {
    if s == "" then "" else (if s[0] == '\r' then "" else [s[0]]) + WithoutCr(s[1..])
  }

  /** strconv.Unquote. */
  function Unquote(s: string): Option<string> {
    if |s| < 2 then None
    else if s[0] == '"' then
      match Scan(s[1..])
      case Some((out, "")) => Some(out)
      case _ => None
    else if s[0] == '\'' then ScanOne(s[1..])
    else if s[0] == '`' && IndexOf(s[1..], '`') == |s| - 2 then Some(WithoutCr(s[1..|s| - 1]))
    else None
  }

  // ---- reading back one piece ----

  lemma TakesHex(n: nat, digits: nat, c: char, x: string)
    requires n < Pow16(digits)
    ensures TakeHex(['\\', c] + Hex(n, digits) + x, digits) == Some(n)
  {
    var s := ['\\', c] + Hex(n, digits) + x;
    assert s[2..2 + digits] == Hex(n, digits);
    UnhexHex(n, digits);
  }

  lemma TakesByte(c: char, x: string)
    requires c as int < 0x100
    ensures TakeChar("\\x" + Hex(c as nat, 2) + x, '"') == Some(Taken([c], 4))
  {
    assert Pow16(2) == 256;
    TakesHex(c as nat, 2, 'x', x);
    assert "\\x" == ['\\', 'x'];
  }

  lemma TakesAscii(c: char, x: string)
    requires c as int < 0x80
    ensures TakeChar(EscapeAscii(c) + x, '"') == Some(Taken([c], |EscapeAscii(c)|))
  {
    if c != '"' && c != '\\' && !(' ' <= c <= '~') && Letter(c) == '\0' {
      TakesByte(c, x);
    }
  }

  lemma TakesRune(p: int -> bool, bytes: string, x: string)
    requires RuneLength(bytes) == |bytes| != 0
    ensures ValidRune(RuneAt(bytes))
    ensures TakeChar(EscapeRune(p, RuneAt(bytes), bytes) + x, '"') == Some(Taken(bytes, |EscapeRune(p, RuneAt(bytes), bytes)|))
  {
    DecodeThenEncode(bytes);
    assert bytes[..|bytes|] == bytes;
    var r := RuneAt(bytes);
    if p(r) {
      DecodeFront(bytes, x);
      RuneBytes(bytes);
      assert (bytes + x)[..|bytes|] == bytes;
    } else if r < 0x10000 {
      assert Pow16(4) == 0x10000;
      TakesHex(r, 4, 'u', x);
      assert "\\u" == ['\\', 'u'];
    } else {
      assert Pow16(8) == 0x1_0000_0000;
      TakesHex(r, 8, 'U', x);
      assert "\\U" == ['\\', 'U'];
    }
  }

  /** Whatever follows, the first piece of a quoted text is read back as the bytes it stands for. */
  lemma TakesPiece(p: int -> bool, s: string, x: string)
    requires s != ""
    ensures TakeChar(Piece(p, s) + x, '"') == Some(Taken(s[..Width(s)], |Piece(p, s)|))
  {
    assert s[..1] == [s[0]];
    if s[0] as int < 0x80 {
      TakesAscii(s[0], x);
    } else if s[0] as int >= 0x100 {
    } else if RuneLength(s) == 0 {
      TakesByte(s[0], x);
    } else {
      RuneBytes(s);
      TakesRune(p, s[..RuneLength(s)], x);
    }
  }

  // ---- what pieces are made of ----

  /** Characters no escape uses. */
  predicate Outside(c: char) { c == ' ' || c == ';' || c == ')' || c == '\n' }

  lemma HexPlain(n: nat, width: nat, c: char)
    requires Outside(c) || c == '"'
    ensures c !in Hex(n, width)
  {
  }

  /** A piece starts with no quote or line end, has a quote at most at its end, and shows a character
      outside the escapes exactly when it stands for it. */
  lemma PieceShape(p: int -> bool, s: string, c: char)
    requires s != "" && (Outside(c) || c == '"')
    ensures |Piece(p, s)| > 0 && Piece(p, s)[0] != '"' && Piece(p, s)[0] != '\n'
    ensures c != '"' && c != '\n' ==> (c in Piece(p, s) <==> c == s[0])
    ensures c == '\n' ==> c !in Piece(p, s)
    ensures c == '"' ==> c !in Piece(p, s)[..|Piece(p, s)| - 1]
  {
    if s[0] as int < 0x80 {
      HexPlain(s[0] as nat, 2, c);
    } else if s[0] as int < 0x100 {
      HexPlain(s[0] as nat, 2, c);
      if RuneLength(s) != 0 {
        DecodeThenEncode(s);
        RuneBytes(s);
        HexPlain(RuneAt(s), 4, c);
        HexPlain(RuneAt(s), 8, c);
      }
    }
  }

  // ---- whole texts ----

  lemma ScanFirst(piece: string, x: string, bytes: string)
    requires piece != "" && piece[0] != '"' && piece[0] != '\n' && TakeChar(piece + x, '"') == Some(Taken(bytes, |piece|))
    ensures Scan(piece + x) == Extend(bytes, Scan(x))
  {
    assert (piece + x)[|piece|..] == x;
  }

  lemma ExtendWhole(s: string, w: nat, rest: string)
    requires w <= |s|
    ensures Extend(s[..w], Some((s[w..], rest))) == Some((s, rest))
  {
    assert s[..w] + s[w..] == s;
  }

  lemma ScanClosed(rest: string)
    ensures Scan("\"" + rest) == Some(("", rest))
  {
    assert ("\"" + rest)[1..] == rest;
  }

  lemma ScanNext(p: int -> bool, s: string, x: string, rest: string)
    requires s != "" && Scan(x) == Some((s[Width(s)..], rest))
    ensures Scan(Piece(p, s) + x) == Some((s, rest))
  {
    TakesPiece(p, s, x);
    PieceShape(p, s, '"');
    ScanFirst(Piece(p, s), x, s[..Width(s)]);
    ExtendWhole(s, Width(s), rest);
  }

  /** Scanning a quoted body gives the text back and stops right behind its closing quote. */
  lemma {:induction false} ScanEscape(p: int -> bool, s: string, rest: string)
    ensures Scan(Escape(p, s) + "\"" + rest) == Some((s, rest))
    decreases |s|
  {
    if s == "" {
      ScanClosed(rest);
      assert Escape(p, s) + "\"" + rest == "\"" + rest;
    } else {
      ScanEscape(p, s[Width(s)..], rest);
      ScanNext(p, s, Escape(p, s[Width(s)..]) + "\"" + rest, rest);
      EscapeFirst(p, s, rest);
    }
  }

  lemma EscapeFirst(p: int -> bool, s: string, rest: string)
    requires s != ""
    ensures Escape(p, s) + "\"" + rest == Piece(p, s) + (Escape(p, s[Width(s)..]) + "\"" + rest)
  {
    Regroup(Piece(p, s), Escape(p, s[Width(s)..]), "\"", rest);
  }

  lemma Regroup(a: string, b: string, c: string, d: string)
    ensures a + b + c + d == a + (b + c + d)
  {
  }

  lemma {:induction false} NoQuoteNoScan(t: string)
    requires '"' !in t
    ensures Scan(t) == None
    decreases |t|
  {
    if t != "" && t[0] != '\n' && TakeChar(t, '"').Some? {
      NoQuoteNoScan(t[TakeChar(t, '"').value.width..]);
    }
  }

  /** A quoted body cut short has no closing quote. */
  lemma {:induction false} ScanCutShort(p: int -> bool, s: string, n: nat)
    requires n <= |Escape(p, s)|
    ensures Scan(Escape(p, s)[..n]) == None
    decreases |s|
  {
    if s != "" {
      var piece, w := Piece(p, s), Width(s);
      var t := Escape(p, s)[..n];
      PieceShape(p, s, '"');
      if n < |piece| {
        assert t == piece[..|piece| - 1][..n];
        NoQuoteNoScan(t);
      } else {
        var x := Escape(p, s[w..])[..n - |piece|];
        assert t == piece + x;
        TakesPiece(p, s, x);
        ScanFirst(piece, x, s[..w]);
        ScanCutShort(p, s[w..], n - |piece|);
      }
    }
  }

  /** Every byte string survives quoting. */
  lemma UnquoteQuote(p: int -> bool, s: string)
    ensures Unquote(Quote(p, s)) == Some(s)
  {
    ScanEscape(p, s, "");
    assert Quote(p, s)[1..] == Escape(p, s) + "\"" + "";
  }

  /** A quoted text cut short is not a quoted text. */
  lemma UnquoteCutShort(p: int -> bool, s: string, n: nat)
    requires 0 < n < |Quote(p, s)|
    ensures Unquote(Quote(p, s)[..n]) == None
  {
    var t := Quote(p, s)[..n];
    assert t[1..] == Escape(p, s)[..n - 1];
    ScanCutShort(p, s, n - 1);
  }

  lemma {:induction false} EscapeShows(p: int -> bool, s: string, c: char)
    requires Outside(c)
    ensures c in Escape(p, s) <==> c in s && c != '\n'
    decreases |s|
  {
    if s != "" {
      PieceShape(p, s, c);
      EscapeShows(p, s[Width(s)..], c);
      FirstOrLater(s, c);
    }
  }

  lemma FirstOrLater(s: string, c: char)
    requires s != "" && Outside(c)
    ensures c in s <==> c == s[0] || c in s[Width(s)..]
  {
    if RuneLength(s) != 0 { RuneBytes(s); }
    assert s == s[..Width(s)] + s[Width(s)..];
    assert c in s[..Width(s)] <==> c == s[0];
  }

  /** Blanks, semicolons and parentheses show through; line ends never do. */
  lemma QuoteShows(p: int -> bool, s: string, c: char)
    requires Outside(c)
    ensures c in Quote(p, s) <==> c in s && c != '\n'
  {
    EscapeShows(p, s, c);
  }

  // ---- white space ----

  /** No white space starts anywhere in s but at its ASCII blanks. */
  predicate OnlyBlanks(s: string) { forall i :: 0 <= i < |s| && s[i] != ' ' ==> SpaceLength(s[i..]) == 0 }

  predicate SpaceRune(r: int) {
    r == 0x85 || r == 0xA0 || r == 0x1680 || 0x2000 <= r <= 0x200A || r == 0x2028 || r == 0x2029 || r == 0x202F || r == 0x205F || r == 0x3000
  }

  /** unicode.IsPrint rejects every white space rune but the ASCII blank. */
  ghost predicate PrintsNoSpace(p: int -> bool) { forall r :: p(r) ==> !SpaceRune(r) }

  lemma SpaceIsRune(s: string)
    requires s != "" && s[0] as int >= 0x80 && SpaceLength(s) != 0
    ensures RuneLength(s) == SpaceLength(s) && SpaceRune(RuneAt(s))
  {
  }

  /** A character no white space starts with. */
  predicate Solid(c: char) {
    c != ' ' && !('\t' <= c <= '\r') && c != '\U{C2}' && c != '\U{E1}' && c != '\U{E2}' && c != '\U{E3}'
  }

  predicate AllSolid(s: string) { forall i :: 0 <= i < |s| ==> Solid(s[i]) }

  lemma AsciiSolid(c: char)
    requires c as int < 0x80 && c != ' '
    ensures AllSolid(EscapeAscii(c))
  {
    HexSolid(c as nat, 2, 'x');
    assert "\\x" == ['\\', 'x'];
  }

  lemma HexSolid(n: nat, digits: nat, c: char)
    requires Solid(c)
    ensures AllSolid(['\\', c] + Hex(n, digits))
  {
  }

  lemma RuneNoSpace(p: int -> bool, bytes: string, y: string, i: nat)
    requires RuneLength(bytes) == |bytes| != 0 && i < |bytes| && PrintsNoSpace(p) && p(RuneAt(bytes))
    ensures SpaceLength((bytes + y)[i..]) == 0
  {
    DecodeFront(bytes, y);
    var t := bytes + y;
    assert t[0..] == t;
    if i == 0 {
      if SpaceLength(t) != 0 { SpaceIsRune(t); }
    } else {
      RuneTail(bytes, i);
      assert t[i..][0] == bytes[i];
    }
  }

  lemma RuneTail(bytes: string, i: nat)
    requires RuneLength(bytes) == |bytes| != 0 && 0 < i < |bytes|
    ensures Continuation(bytes[i])
  {
  }

  lemma PieceNoSpace(p: int -> bool, s: string, y: string, i: nat)
    requires s != "" && PrintsNoSpace(p) && i < |Piece(p, s)| && Piece(p, s)[i] != ' '
    ensures SpaceLength((Piece(p, s) + y)[i..]) == 0
  {
    var piece := Piece(p, s);
    assert (piece + y)[i..][0] == piece[i];
    if s[0] as int < 0x80 {
      AsciiSolid(s[0]);
    } else if s[0] as int < 0x100 {
      if RuneLength(s) == 0 {
        HexSolid(s[0] as nat, 2, 'x');
        assert "\\x" == ['\\', 'x'];
      } else {
        RuneBytes(s);
        DecodeThenEncode(s);
        var r := RuneAt(s);
        if p(r) {
          RuneNoSpace(p, s[..RuneLength(s)], y, i);
        } else {
          HexSolid(r, 4, 'u');
          HexSolid(r, 8, 'U');
          assert "\\u" == ['\\', 'u'] && "\\U" == ['\\', 'U'];
        }
      }
    }
  }

  lemma {:induction false} EscapeOnlyBlanks(p: int -> bool, s: string, x: string)
    requires PrintsNoSpace(p) && OnlyBlanks(x)
    ensures OnlyBlanks(Escape(p, s) + x)
    decreases |s|
  {
    if s == "" {
      assert Escape(p, s) + x == x;
    } else {
      var piece, y := Piece(p, s), Escape(p, s[Width(s)..]) + x;
      EscapeOnlyBlanks(p, s[Width(s)..], x);
      assert Escape(p, s) + x == piece + y;
      forall i | 0 <= i < |piece + y| && (piece + y)[i] != ' ' ensures SpaceLength((piece + y)[i..]) == 0 {
        if i < |piece| {
          PieceNoSpace(p, s, y, i);
        } else {
          assert (piece + y)[i..] == y[i - |piece|..];
        }
      }
    }
  }

  /** The only white space a quoted text shows is the ASCII blank. */
  lemma QuoteOnlyBlanks(p: int -> bool, s: string)
    requires PrintsNoSpace(p)
    ensures OnlyBlanks(Quote(p, s))
  {
    assert OnlyBlanks("\"");
    EscapeOnlyBlanks(p, s, "\"");
    var body := Escape(p, s) + "\"";
    assert Quote(p, s) == "\"" + body;
    forall i | 0 <= i < |Quote(p, s)| && Quote(p, s)[i] != ' ' ensures SpaceLength(Quote(p, s)[i..]) == 0 {
      if i > 0 { assert Quote(p, s)[i..] == body[i - 1..]; }
    }
  }

  lemma UnquoteEscapedSemicolon()
    ensures Unquote("\"\\x3b\"") == Some(";")
  {
    var s := "\\x3b\"";
    assert Pow16(2) == 256 && Hex(59, 2) == "3b" by { assert Hex(3, 1) == Hex(0, 0) + "3"; }
    TakesHex(59, 2, 'x', "\"");
    assert ['\\', 'x'] + Hex(59, 2) + "\"" == s;
    ScanClosed("");
    assert s == "\\x3b" + ("\"" + "");
    assert [Byte(59)] == ";" && ";" + "" == ";";
    ScanFirst("\\x3b", "\"" + "", ";");
    assert Scan(s) == Some((";", ""));
    assert "\"\\x3b\""[1..] == s;
  }

  // ---- as a pair of function values ----

  /** A way to quote texts and to read quoted ones. */
  datatype Quoter = Quoter(quote: string -> string, unquote: string -> Option<string>)

  predicate CutShort(q: Quoter, s: string, n: nat)
    requires n <= |q.quote(s)|
  {
    q.unquote(q.quote(s)[..n]) == None
  }

  predicate Shows(q: Quoter, s: string, c: char) { c in q.quote(s) <==> c in s && c != '\n' }

  /** What the header texts need of one text's quoted form: it is read back, it is not read when cut
      short, and of blanks, semicolons, parentheses and line ends it shows just its own, line ends never. */
  ghost predicate LawfulAt(q: Quoter, s: string) {
    && |q.quote(s)| >= 2 && q.quote(s)[0] == '"' && q.quote(s)[|q.quote(s)| - 1] == '"'
    && q.unquote(q.quote(s)) == Some(s)
    && (forall n: nat :: 0 < n < |q.quote(s)| ==> CutShort(q, s, n))
    && (forall c :: Outside(c) ==> Shows(q, s, c))
    && OnlyBlanks(q.quote(s))
  }

  ghost predicate Lawful(q: Quoter) { forall s :: LawfulAt(q, s) }

  /** strconv's pair. */
  function Strconv(p: int -> bool): Quoter { Quoter((s: string) => Quote(p, s), (s: string) => Unquote(s)) }

  /** strconv keeps these laws on every byte string. */
  lemma StrconvLawful(p: int -> bool)
    requires PrintsNoSpace(p)
    ensures Lawful(Strconv(p))
  {
    forall s ensures LawfulAt(Strconv(p), s) {
      UnquoteQuote(p, s);
      QuoteOnlyBlanks(p, s);
      forall n: nat | 0 < n < |Quote(p, s)| ensures CutShort(Strconv(p), s, n) { UnquoteCutShort(p, s, n); }
      forall c | Outside(c) ensures Shows(Strconv(p), s, c) { QuoteShows(p, s, c); }
    }
  }
}
