/** The forms strconv.Quote writes and strconv.Unquote reads beside the round trip, and what the
    Signature-Input parsers ask of metadata and make of blanks. */
module QuotingForms {
  import opened Text
  import opened Quoting
  import opened SignatureInput

  // ---- what Quote writes ----

  /** ASCII characters: letters for the seven control characters that have one, a backslash in front of
      quotes and backslashes, two hexadecimal digits for the other control characters. */
  lemma QuotesAscii(c: char)
    requires c < '\U{80}'
    ensures c == '\n' ==> EscapeAscii(c) == "\\n"
    ensures c == '\r' ==> EscapeAscii(c) == "\\r"
    ensures c == '\t' ==> EscapeAscii(c) == "\\t"
    ensures c == '\U{7}' ==> EscapeAscii(c) == "\\a"
    ensures c == '\U{8}' ==> EscapeAscii(c) == "\\b"
    ensures c == '\U{B}' ==> EscapeAscii(c) == "\\v"
    ensures c == '\U{C}' ==> EscapeAscii(c) == "\\f"
    ensures c == '"' ==> EscapeAscii(c) == "\\\""
    ensures c == '\\' ==> EscapeAscii(c) == "\\\\"
    ensures ' ' <= c <= '~' && c != '"' && c != '\\' ==> EscapeAscii(c) == [c]
    ensures (c < '\U{7}' || '\U{E}' <= c < ' ' || c == '\U{7F}') ==> EscapeAscii(c) == "\\x" + Hex(c as nat, 2)
  {
  }

  // ---- what Unquote reads ----

  /** Hexadecimal digits of either case. */
  lemma HexDigits(n: nat)
    requires n < 16
    ensures HexValue("0123456789abcdef"[n]) == Some(n) && HexValue("0123456789ABCDEF"[n]) == Some(n)
  {
  }

  function DigitOf(n: nat): char
    requires n < 8
  {
    "01234567"[n]
  }

  /** Three octal digits are a byte, if it is one. */
  lemma OctalRead(a: nat, b: nat, c: nat, x: string)
    requires a < 8 && b < 8 && c < 8
    ensures TakeEscape(['\\', DigitOf(a), DigitOf(b), DigitOf(c)] + x, '"') ==
            if a * 64 + b * 8 + c <= 255 then Some(Taken([(a * 64 + b * 8 + c) as char], 4)) else None
  {
    var s := ['\\', DigitOf(a), DigitOf(b), DigitOf(c)] + x;
    assert s[1] == DigitOf(a) && s[2] == DigitOf(b) && s[3] == DigitOf(c);
    OctalDigit(a);
    OctalDigit(b);
    OctalDigit(c);
  }

  lemma OctalDigit(n: nat)
    requires n < 8
    ensures Octal(DigitOf(n)) && (DigitOf(n) - '0') as nat == n && DigitOf(n) != 'u' && DigitOf(n) != 'U' && DigitOf(n) != 'x' && Unletter(DigitOf(n)).None?
  {
  }

  /** Code points are written in UTF-8; surrogates and numbers beyond Unicode are not code points. */
  lemma CodePointsExactly(r: int)
    ensures ValidRune(r) <==> 0 <= r <= 0x10FFFF && !(0xD800 <= r <= 0xDFFF)
    ensures 0 <= r < 0x80 ==> Encode(r) == [r as char]
    ensures ValidRune(r) ==> |Encode(r)| == if r < 0x80 then 1 else if r < 0x800 then 2 else if r < 0x10000 then 3 else 4
  {
  }

  /** Text between back quotes is taken as it stands, without its carriage returns. */
  lemma RawRead(t: string)
    requires '`' !in t
    ensures Unquote("`" + t + "`") == Some(WithoutCr(t))
  {
    var s := "`" + t + "`";
    assert s[1..] == t + ['`'] + "" && s[1..|s| - 1] == t;
    IndexOfFound(t, '`', "");
  }

  lemma {:induction false} WithoutCrExactly(a: string)
    ensures '\r' !in WithoutCr(a) && ('\r' !in a ==> WithoutCr(a) == a)
    decreases a
  {
    if a != "" {
      WithoutCrExactly(a[1..]);
      assert a == [a[0]] + a[1..];
    }
  }

  lemma {:induction false} WithoutCrJoins(a: string, b: string)
    ensures WithoutCr(a + b) == WithoutCr(a) + WithoutCr(b)
    decreases a
  {
    if a == "" {
      assert a + b == b && "" + WithoutCr(b) == WithoutCr(b);
    } else {
      WithoutCrJoins(a[1..], b);
      assert (a + b)[1..] == a[1..] + b && (a + b)[0] == a[0];
      Reassociate(if a[0] == '\r' then "" else [a[0]], WithoutCr(a[1..]), WithoutCr(b));
    }
  }

  lemma Reassociate(a: string, b: string, c: string)
    ensures a + b + c == a + (b + c)
  {
  }

  /** An ASCII character between single quotes is itself, but for the quote, the backslash and the line
      feed. */
  lemma CharacterRead(c: char)
    requires c < '\U{80}'
    ensures Unquote("'" + [c] + "'") == if c == '\'' || c == '\\' || c == '\n' then None else Some([c])
  {
    var s := "'" + [c] + "'";
    assert s[1..] == [c] + "'" && ([c] + "'")[1..] == "'";
  }

  // ---- the parsers' demands and tolerance ----

  /** Metadata that is parsed names its key and its nonce, and has its times. */
  lemma ParsedIsComplete(q: Quoter, profile: Profile, value: string)
    requires Parse(q, profile, value).Some?
    ensures var m := Parse(q, profile, value).value;
            && m.keyId != "" && m.nonce != ""
            && (profile == General ==> m.created > 0)
            && (profile == Blob ==> m.created != 0 && m.expires != 0)
  {
  }

  /** A blank in front of a parameter makes no difference, of whatever kind it is. */
  lemma BlankIgnored(q: Quoter, profile: Profile, m: Metadata, blank: string, parameter: string)
    requires 0 < SpaceLength(blank) == |blank|
    ensures TakeParameter(q, profile, m, blank + parameter) == TakeParameter(q, profile, m, parameter)
  {
    var s := blank + parameter;
    assert s[|blank|..] == parameter;
    assert forall i :: 0 <= i < |blank| ==> s[i] == blank[i];
    assert SpaceLength(s) == |blank|;
  }

  /** A parameter without a value, or with another name, is passed over. */
  lemma OthersIgnored(q: Quoter, profile: Profile, m: Metadata, name: string, value: string)
    requires '=' !in name && name != "created" && name != "keyid" && name != "nonce" && (profile == Blob ==> name != "expires")
    ensures TakeText(q, profile, m, name) == Some(m) && TakeText(q, profile, m, name + "=" + value) == Some(m)
  {
    IndexOfFound(name, '=', value);
    assert name + ['='] + value == name + "=" + value;
    assert (name + "=" + value)[..|name|] == name;
  }
}
