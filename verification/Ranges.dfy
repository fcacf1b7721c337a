/** Byte ranges: ParseRange and ContentRange of internal/attachment/http_signature.go, and the Range
    header the receiver prints (sections 14.1.2 and 14.4 of RFC 9110). */
module Ranges {
  import opened Text
  import opened Decimal

  const UNIT := "bytes="

  function ParseRange(value: string, size: int, maxLength: int): Option<(int, int)> {
    if size <= 0 || maxLength <= 0 || !StartsWith(value, UNIT) || ',' in value then None
    else
      var spec := value[|UNIT|..];
      var dash := IndexOf(spec, '-');
      if dash <= 0 then None
      else match ParseInt64(spec[..dash])
        case None => None
        case Some(start) =>
          if start < 0 || start >= size then None
          else
            var last := spec[dash + 1..];
            var end := if last == "" then Some(size - 1) else ParseInt64(last);
            match end
            case None => None
            case Some(e) => if e < start || e >= size || e - start + 1 > maxLength then None else Some((start, e))
  }

  function ContentRange(start: int, end: int, size: int): string {
    "bytes " + FormatInt(start) + "-" + FormatInt(end) + "/" + FormatInt(size)
  }

  /** fmt.Sprintf("bytes=%d-%d", ...) */
  function RangeHeader(start: nat, end: nat): string { UNIT + (Digits(start) + "-" + Digits(end)) }

  /** Any accepted range lies in the representation and is no longer than allowed. */
  lemma ParsedRangeInside(value: string, size: int, maxLength: int)
    requires ParseRange(value, size, maxLength).Some?
    ensures var (start, end) := ParseRange(value, size, maxLength).value;
            0 <= start <= end < size && end - start + 1 <= maxLength
  {
  }

  /** What the text after the unit spells: a first byte, and a last one that may be left out for the
      end of the representation. */
  predicate Spells(spec: string, size: int, a: string, b: string, start: int, end: int) {
    && spec == a + ['-'] + b && '-' !in a && ParseInt64(a) == Some(start)
    && (if b == "" then end == size - 1 else ParseInt64(b) == Some(end))
  }

  /** A header is accepted exactly if it spells one range, inside the representation and within the
      length allowed. */
  lemma ParsedRangeSpells(value: string, size: int, maxLength: int, start: int, end: int)
    ensures ParseRange(value, size, maxLength) == Some((start, end)) <==>
            && StartsWith(value, UNIT) && ',' !in value && 0 <= start <= end < size && end - start + 1 <= maxLength
            && exists a, b :: Spells(value[|UNIT|..], size, a, b, start, end)
  {
    if ParseRange(value, size, maxLength) == Some((start, end)) {
      var spec := value[|UNIT|..];
      var dash := IndexOf(spec, '-');
      SpellsSplit(spec, size, dash, start, end);
    } else if StartsWith(value, UNIT) && ',' !in value && 0 <= start <= end < size && end - start + 1 <= maxLength {
      forall a, b ensures !Spells(value[|UNIT|..], size, a, b, start, end) {
        if Spells(value[|UNIT|..], size, a, b, start, end) { SpelledParses(value, size, maxLength, a, b, start, end); }
      }
    }
  }

  lemma SpellsSplit(spec: string, size: int, dash: nat, start: int, end: int)
    requires dash < |spec| && spec[dash] == '-' && '-' !in spec[..dash] && ParseInt64(spec[..dash]) == Some(start)
    requires if spec[dash + 1..] == "" then end == size - 1 else ParseInt64(spec[dash + 1..]) == Some(end)
    ensures exists a, b :: Spells(spec, size, a, b, start, end)
  {
    SplitAt(spec, dash);
    assert Spells(spec, size, spec[..dash], spec[dash + 1..], start, end);
  }

  lemma SplitAt(s: string, i: nat)
    requires i < |s|
    ensures s[..i] + [s[i]] + s[i + 1..] == s
  {
  }

  lemma Joined(a: string, c: char, b: string)
    ensures (a + [c] + b)[..|a|] == a && (a + [c] + b)[|a| + 1..] == b
  {
  }

  lemma SpelledParses(value: string, size: int, maxLength: int, a: string, b: string, start: int, end: int)
    requires StartsWith(value, UNIT) && ',' !in value && Spells(value[|UNIT|..], size, a, b, start, end)
    requires 0 <= start <= end < size && end - start + 1 <= maxLength
    ensures ParseRange(value, size, maxLength) == Some((start, end))
  {
    IndexOfFound(a, '-', b);
    Joined(a, '-', b);
  }

  lemma DigitsHave(n: nat, c: char)
    requires !IsDigit(c)
    ensures c !in Digits(n)
  {
  }

  /** A printed range is read back exactly when the server may serve it. */
  lemma PrintedRangeParses(start: nat, end: nat, size: int, maxLength: int)
    requires start < INT64_LIMIT && end < INT64_LIMIT
    ensures ParseRange(RangeHeader(start, end), size, maxLength) ==
            if start <= end < size && end - start + 1 <= maxLength then Some((start as int, end as int)) else None
  {
    var value := RangeHeader(start, end);
    var a, b := Digits(start), Digits(end);
    var spec := a + "-" + b;
    assert value[|UNIT|..] == spec && value[..|UNIT|] == UNIT;
    DigitsHave(start, ','); DigitsHave(end, ',');
    assert ',' !in spec && ',' !in UNIT;
    DigitsHave(start, '-');
    IndexOfFound(a, '-', b);
    assert a + ['-'] + b == spec;
    assert spec[..|a|] == a && spec[|a| + 1..] == b;
    ValueOfDigits(start); ValueOfDigits(end);
    ParseUnsigned(a); ParseUnsigned(b);
  }
}
