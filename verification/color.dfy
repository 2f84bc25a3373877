/**
 * CSS colour strings of the form `#rrggbb`, as the fill and stroke styles
 * of the `TapisserieTexture` canvases are written, and the RGB triples
 * they denote.
 */
module Color {
  import opened Optional

  /** An RGB triple; `Valid` when every channel fits in a byte. */
  datatype Rgb = Rgb(red: nat, green: nat, blue: nat)

  predicate Valid(c: Rgb) {
    c.red < 256 && c.green < 256 && c.blue < 256
  }

  /** The grey level of a colour whose three channels agree. */
  predicate IsGrey(c: Rgb) {
    c.red == c.green == c.blue
  }

  const HexDigits: string := "0123456789abcdef"

  /** The value of one hexadecimal digit; CSS accepts either case. */
  function DigitValue(ch: char): (r: Option<nat>)
    ensures r.Some? ==> r.value < 16
    ensures r.Some? <==> ('0' <= ch <= '9' || 'a' <= ch <= 'f' || 'A' <= ch <= 'F')
  {
    if '0' <= ch <= '9' then Some(ch as int - '0' as int)
    else if 'a' <= ch <= 'f' then Some(ch as int - 'a' as int + 10)
    else if 'A' <= ch <= 'F' then Some(ch as int - 'A' as int + 10)
    else None
  }

  /** Two hexadecimal digits, most significant first, as one byte. */
  function ParseByte(hi: char, lo: char): (r: Option<nat>)
    ensures r.Some? ==> r.value < 256
    ensures r.Some? <==> DigitValue(hi).Some? && DigitValue(lo).Some?
  {
    match (DigitValue(hi), DigitValue(lo))
    case (Some(h), Some(l)) => Some(16 * h + l)
    case _ => None
  }

  /** Reads `#rrggbb`; anything else is not a colour of this form. */
  function ParseHex(s: string): (r: Option<Rgb>)
    ensures r.Some? ==> Valid(r.value)
    ensures r.Some? <==>
      |s| == 7 && s[0] == '#' && forall i :: 1 <= i < 7 ==> DigitValue(s[i]).Some?
  {
    if |s| != 7 || s[0] != '#' then None
    else
      match (ParseByte(s[1], s[2]), ParseByte(s[3], s[4]), ParseByte(s[5], s[6]))
      case (Some(r), Some(g), Some(b)) => Some(Rgb(r, g, b))
      case _ => None
  }

  /** A byte as two lower-case hexadecimal digits. */
  function ByteHex(b: nat): (s: string)
    requires b < 256
    ensures |s| == 2
  {
    [HexDigits[b / 16], HexDigits[b % 16]]
  }

  /**
   * The `#rrggbb` spelling of a colour, in lower case. The texture only
   * writes colour literals; this inverse of `ParseHex` shows that every
   * valid colour has a spelling the parser accepts.
   */
  function ToHex(c: Rgb): (s: string)
    requires Valid(c)
    ensures |s| == 7 && s[0] == '#'
  {
    "#" + ByteHex(c.red) + ByteHex(c.green) + ByteHex(c.blue)
  }

  lemma DigitRoundTrip(d: nat)
    requires d < 16
    ensures DigitValue(HexDigits[d]) == Some(d)
  {
    if d < 10 {
      assert HexDigits[d] as int == '0' as int + d;
    } else {
      assert HexDigits[d] as int == 'a' as int + d - 10;
    }
  }

  lemma ByteRoundTrip(b: nat)
    requires b < 256
    ensures ParseByte(ByteHex(b)[0], ByteHex(b)[1]) == Some(b)
  {
    DigitRoundTrip(b / 16);
    DigitRoundTrip(b % 16);
  }

  /** Writing a colour out and reading it back gives the colour again. */
  lemma {:induction false} ParseToHex(c: Rgb)
    requires Valid(c)
    ensures ParseHex(ToHex(c)) == Some(c)
  {
    ByteRoundTrip(c.red);
    ByteRoundTrip(c.green);
    ByteRoundTrip(c.blue);
    var r, g, b := ByteHex(c.red), ByteHex(c.green), ByteHex(c.blue);
    assert ToHex(c) == ['#', r[0], r[1], g[0], g[1], b[0], b[1]];
  }
}
