/** The colour resolver: maps a palette value to an RGB triple, to "do not
    tint", or to the exception the resolver raises. */
module Colors {
  import opened Failures

  /** The Python values a palette entry can hold, as far as the resolver
      distinguishes them: a string, a tuple of integers, None, or anything else. */
  datatype ColorValue = Text(s: string) | Tuple(items: seq<int>) | NoneValue | OtherValue

  /** A resolved colour: a triple (components not clamped) or None, meaning
      "keep the layer's own colours". */
  datatype Tint = NoTint | Rgb(r: int, g: int, b: int)

  predicate IsHexDigit(c: char)
  {
    '0' <= c <= '9' || 'a' <= c <= 'f' || 'A' <= c <= 'F'
  }

  function HexDigitValue(c: char): (d: nat)
    requires IsHexDigit(c)
    ensures d < 16
  {
    if '0' <= c <= '9' then c as int - '0' as int
    else if 'a' <= c <= 'f' then c as int - 'a' as int + 10
    else c as int - 'A' as int + 10
  }

  /** The characters C's `isspace` accepts: space, tab, line feed, vertical tab, form feed, carriage return. */
  predicate IsSpace(c: char)
  {
    c == ' ' || 9 <= c as int <= 13
  }

  /** Python 2's `int(a + b, base=16)` on a two-character string: leading and
      trailing whitespace and a leading sign are accepted around the digits. */
  function ParseHexPair(a: char, b: char): (r: Result<int>)
    ensures r.Ok? ==> IsHexDigit(a) || IsHexDigit(b)
    ensures r.Ok? ==> -15 <= r.value <= 255
    ensures r.Err? ==> r.error == InvalidHexLiteral
    ensures IsHexDigit(a) && IsHexDigit(b) ==> r == Ok(16 * HexDigitValue(a) + HexDigitValue(b))
  {
    if IsHexDigit(a) && IsHexDigit(b) then Ok(16 * HexDigitValue(a) + HexDigitValue(b))
    else if IsSpace(a) && IsHexDigit(b) then Ok(HexDigitValue(b))
    else if IsHexDigit(a) && IsSpace(b) then Ok(HexDigitValue(a))
    else if a == '+' && IsHexDigit(b) then Ok(HexDigitValue(b))
    else if a == '-' && IsHexDigit(b) then Ok(0 - HexDigitValue(b) as int)
    else Err(InvalidHexLiteral)
  }

  /** `s.lower().find('rgb') is 0`, for ASCII strings. */
  predicate StartsWithRgb(s: string)
  {
    |s| >= 3 && s[0] in "rR" && s[1] in "gG" && s[2] in "bB"
  }

  /** The resolver. `names` are the keys of the named-colour table; a string
      found there reaches a call of an undefined name and raises NameError. */
  function Resolve(v: ColorValue, names: set<string>): (r: Result<Tint>)
    ensures r.Ok? && r.value.NoTint? <==>
              v.NoneValue? || (v == Text("transparent") && "transparent" !in names)
    ensures r.Err? ==> Kind(r.error) in {ValueError, NameError, NotModelled}
    ensures v.OtherValue? ==> r == Err(UnknownColorFormat)
  {
    match v
    case Text(s) =>
      if |s| > 0 && s[0] == '#' then
        if |s| == 7 then
          var red :- ParseHexPair(s[1], s[2]);
          var green :- ParseHexPair(s[3], s[4]);
          var blue :- ParseHexPair(s[5], s[6]);
          Ok(Rgb(red, green, blue))
        else if |s| == 4 then
          var red :- ParseHexPair(s[1], s[1]);
          var green :- ParseHexPair(s[2], s[2]);
          var blue :- ParseHexPair(s[3], s[3]);
          Ok(Rgb(red, green, blue))
        else
          Ok(Rgb(0, 0, 0))
      else if StartsWithRgb(s) then Err(RgbNotationNotModelled)
      else if s in names then Err(NamedColorUndefined)
      else if s == "transparent" then Ok(NoTint)
      else Err(UnknownColorFormat)
    case Tuple(items) =>
      if |items| == 3 then Ok(Rgb(items[0], items[1], items[2])) else Err(UnknownColorFormat)
    case NoneValue => Ok(NoTint)
    case OtherValue => Err(UnknownColorFormat)
  }

  predicate AllHexDigits(s: string, from: nat)
  {
    forall i | from <= i < |s| :: IsHexDigit(s[i])
  }

  /** `#RRGGBB`: each pair is decoded as a byte. */
  lemma SixDigitHexDecodes(s: string, names: set<string>)
    requires |s| == 7 && s[0] == '#' && AllHexDigits(s, 1)
    ensures Resolve(Text(s), names) == Ok(Rgb(16 * HexDigitValue(s[1]) + HexDigitValue(s[2]),
                                              16 * HexDigitValue(s[3]) + HexDigitValue(s[4]),
                                              16 * HexDigitValue(s[5]) + HexDigitValue(s[6])))
    ensures var t := Resolve(Text(s), names).value;
            0 <= t.r <= 255 && 0 <= t.g <= 255 && 0 <= t.b <= 255
  {
    assert IsHexDigit(s[1]) && IsHexDigit(s[2]) && IsHexDigit(s[3]);
    assert IsHexDigit(s[4]) && IsHexDigit(s[5]) && IsHexDigit(s[6]);
  }

  /** `#RGB`: each nibble is doubled, so each channel is the nibble times 17. */
  lemma ThreeDigitHexDuplicatesNibbles(s: string, names: set<string>)
    requires |s| == 4 && s[0] == '#' && AllHexDigits(s, 1)
    ensures Resolve(Text(s), names) == Ok(Rgb(17 * HexDigitValue(s[1]),
                                              17 * HexDigitValue(s[2]),
                                              17 * HexDigitValue(s[3])))
  {
    assert IsHexDigit(s[1]) && IsHexDigit(s[2]) && IsHexDigit(s[3]);
  }

  /** A doubled character parses only if it is a hex digit, so `#RGB` resolves
      exactly when its three characters are hex digits. */
  lemma ThreeDigitHexNeedsDigits(s: string, names: set<string>)
    requires |s| == 4 && s[0] == '#'
    ensures Resolve(Text(s), names).Ok? <==> AllHexDigits(s, 1)
    ensures Resolve(Text(s), names).Err? ==> Resolve(Text(s), names).error == InvalidHexLiteral
  {
    if AllHexDigits(s, 1) {
      ThreeDigitHexDuplicatesNibbles(s, names);
    } else {
      var i :| 1 <= i < 4 && !IsHexDigit(s[i]);
      assert ParseHexPair(s[i], s[i]).Err?;
    }
  }

  /** A `#` token of any other length yields the default black, not an error. */
  lemma OtherHashLengthIsBlack(s: string, names: set<string>)
    requires |s| > 0 && s[0] == '#' && |s| != 7 && |s| != 4
    ensures Resolve(Text(s), names) == Ok(Rgb(0, 0, 0))
  {
  }

  /** A 3-tuple is returned unchanged, out-of-range components included;
      tuples of other lengths are an unknown format. */
  lemma TuplePassesThrough(items: seq<int>, names: set<string>)
    ensures |items| == 3 ==> Resolve(Tuple(items), names) == Ok(Rgb(items[0], items[1], items[2]))
    ensures |items| != 3 ==> Resolve(Tuple(items), names) == Err(UnknownColorFormat)
  {
  }

  /** Any string that is not a `#` token, not `rgb...`, not a colour name and
      not "transparent" raises ValueError. */
  lemma UnmatchedStringIsValueError(s: string, names: set<string>)
    requires !(|s| > 0 && s[0] == '#') && !StartsWithRgb(s) && s !in names && s != "transparent"
    ensures Resolve(Text(s), names) == Err(UnknownColorFormat)
    ensures Kind(UnknownColorFormat) == ValueError
  {
  }
}
