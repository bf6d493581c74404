/** Managed colours: parsing of the six-digit "#RRGGBB" hex notation (the
    form of section 5.2 of CSS Color Module Level 4), with white and black
    fallbacks, and the cache that hands out one live colour per RGB value. */
module Colors {
  import opened Common
  import opened JavaText

  datatype RGB = RGB(red: int, green: int, blue: int)

  /** What SWT's RGB constructor accepts; it throws for anything else. */
  predicate InRange(r: int, g: int, b: int) {
    0 <= r <= 255 && 0 <= g <= 255 && 0 <= b <= 255
  }

  predicate ValidRGB(c: RGB) {
    InRange(c.red, c.green, c.blue)
  }

  const ErrorRGB := RGB(255, 180, 180)
  const LinkBlueRGB := RGB(25, 76, 127)
  const GrayRGB := RGB(128, 128, 128)

  /** Integer.parseInt(s, 16) on two characters: an optional sign and a
      digit, or two digits; None where parseInt throws. */
  function ParseHexPair(s: string): (r: Option<int>)
    requires |s| == 2
    ensures r.Some? ==> -15 <= r.value <= 255
  {
    if s[0] == '-' || s[0] == '+' then
      if HexValue(s[1]) < 0 then None
      else if s[0] == '-' then Some(-HexValue(s[1])) else Some(HexValue(s[1]))
    else if HexValue(s[0]) < 0 || HexValue(s[1]) < 0 then None
    else Some(16 * HexValue(s[0]) + HexValue(s[1]))
  }

  /** The outcome of fromHex: the system white or black, or a managed colour. */
  datatype HexColor = White | Black | Rgb(rgb: RGB)

  /** The text fromHex parses: trimmed, without one leading '#'. */
  function HexBody(hex: string): string {
    var t := Trim(hex);
    if |t| > 0 && t[0] == '#' then t[1..] else t
  }

  /** The three components of "RRGGBB": black when a pair does not parse
      or a component is out of range. */
  function ParseSix(six: string): HexColor
    requires |six| == 6
  {
    match (ParseHexPair(six[0..2]), ParseHexPair(six[2..4]), ParseHexPair(six[4..6]))
    case (Some(r), Some(g), Some(b)) => if InRange(r, g, b) then Rgb(RGB(r, g, b)) else Black
    case _ => Black
  }

  /** fromHex: null and short input give white; the first three pairs of
      hex digits give the colour, anything after them is ignored; a pair
      that does not parse, or a component out of range, gives black. */
  function ParseHex(hex: Option<string>): (r: HexColor)
    ensures r.Rgb? ==> ValidRGB(r.rgb)
  {
    if hex.None? then White
    else
      var s := HexBody(hex.value);
      if |s| < 6 then White else ParseSix(s[..6])
  }

  /** Two upper-case hex digits, as String.format("%02X") writes a component. */
  function HexByte(v: int): string
    requires 0 <= v <= 255
  {
    [HexDigit(v / 16), HexDigit(v % 16)]
  }

  /** The "#RRGGBB" text of a colour. */
  function ToHex(c: RGB): (s: string)
    requires ValidRGB(c)
    ensures |s| == 7 && s[0] == '#'
  {
    "#" + HexByte(c.red) + HexByte(c.green) + HexByte(c.blue)
  }

  lemma HexBytePair(v: int)
    requires 0 <= v <= 255
    ensures ParseHexPair(HexByte(v)) == Some(v)
    ensures forall k :: 0 <= k < 2 ==> HexByte(v)[k] > ' ' && HexByte(v)[k] != '#'
  {
    HexDigitValue(v / 16);
    HexDigitValue(v % 16);
  }

  /** Trailing trimming keeps every character up to a visible one. */
  lemma {:induction false} TrimTrailingKeeps(s: string, k: int)
    requires 0 < k <= |s| && s[k - 1] > ' '
    ensures k <= |TrimTrailing(s)| && TrimTrailing(s)[..k] == s[..k]
    decreases |s|
  {
    if s[|s| - 1] <= ' ' {
      var s' := s[..|s| - 1];
      TrimTrailingKeeps(s', k);
      assert s'[..k] == s[..k];
    }
  }

  /** Trimming a text that starts with a visible character keeps its
      first k characters when the k-th is visible too. */
  lemma TrimKeeps(s: string, k: int)
    requires 0 < k <= |s| && s[0] > ' ' && s[k - 1] > ' '
    ensures k <= |Trim(s)| && Trim(s)[..k] == s[..k]
  {
    assert TrimLeading(s) == s;
    TrimTrailingKeeps(s, k);
  }

  /** The text after the '#' begins with the six characters that follow it. */
  lemma HexBodyOf(six: string, suffix: string)
    requires |six| == 6 && six[0] > ' ' && six[0] != '#' && six[5] > ' '
    ensures |HexBody("#" + six + suffix)| >= 6 && HexBody("#" + six + suffix)[..6] == six
    ensures |HexBody(six + suffix)| >= 6 && HexBody(six + suffix)[..6] == six
  {
    var withHash := "#" + six + suffix;
    TrimKeeps(withHash, 7);
    var t := Trim(withHash);
    assert t[..7] == withHash[..7] == "#" + six;
    assert t[0] == '#';
    assert HexBody(withHash)[..6] == t[1..7];
    var plain := six + suffix;
    TrimKeeps(plain, 6);
    var u := Trim(plain);
    assert u[..6] == plain[..6] == six;
    assert u[0] != '#';
  }

  /** Only the first six characters after the optional '#' count: whatever
      follows them is ignored, and the '#' itself may be left out. */
  lemma SuffixIgnored(six: string, suffix: string)
    requires |six| == 6 && six[0] > ' ' && six[0] != '#' && six[5] > ' '
    ensures ParseHex(Some("#" + six + suffix)) == ParseSix(six)
    ensures ParseHex(Some(six + suffix)) == ParseSix(six)
  {
    HexBodyOf(six, suffix);
  }

  /** Writing a colour as "#RRGGBB" and parsing it gives the colour back,
      whatever text follows. */
  lemma HexRoundTrip(c: RGB, suffix: string)
    requires ValidRGB(c)
    ensures ParseHex(Some(ToHex(c) + suffix)) == Rgb(c)
  {
    var six := HexByte(c.red) + HexByte(c.green) + HexByte(c.blue);
    HexBytePair(c.red);
    HexBytePair(c.green);
    HexBytePair(c.blue);
    assert six[0] == HexByte(c.red)[0] && six[5] == HexByte(c.blue)[1];
    assert ToHex(c) + suffix == "#" + six + suffix;
    SuffixIgnored(six, suffix);
    assert six[0..2] == HexByte(c.red) && six[2..4] == HexByte(c.green) && six[4..6] == HexByte(c.blue);
  }

  /** An SWT colour: its value and whether it has been disposed. */
  class Color {
    const rgb: RGB
    var disposed: bool

    constructor (rgb: RGB)
      ensures this.rgb == rgb && !disposed
    {
      this.rgb := rgb;
      disposed := false;
    }
  }

  /** The static state of Colors: the colours created so far, by value, and
      the display's system white and black. */
  class ColorCache {
    var created: map<RGB, Color>
    const white: Color
    const black: Color

    /** Every cached colour has the value it is stored under. */
    ghost predicate Valid()
      reads this, created.Values
    {
      forall x :: x in created ==> created[x].rgb == x
    }

    constructor (white: Color, black: Color)
      ensures Valid() && created == map[] && this.white == white && this.black == black
    {
      created := map[];
      this.white := white;
      this.black := black;
    }

    /** c is what a lookup of rgb in the cache gives: the colour cached
        before when it is live, with the cache unchanged; otherwise a fresh
        colour stored under rgb, with every other entry unchanged. */
    twostate predicate LookedUp(rgb: RGB, new c: Color)
      reads this
    {
      && (old(rgb in created && !created[rgb].disposed) ==> c == old(created[rgb]) && created == old(created))
      && (!old(rgb in created && !created[rgb].disposed) ==> fresh(c) && created == old(created)[rgb := c])
    }

    /** get(RGB): the cached colour unless it is missing or disposed, in
        which case a new one is created and cached. */
    method Get(rgb: RGB) returns (c: Color)
      requires Valid()
      modifies this`created
      ensures Valid()
      ensures c.rgb == rgb && !c.disposed && rgb in created && created[rgb] == c
      ensures LookedUp(rgb, c)
    {
      if rgb in created && !created[rgb].disposed {
        c := created[rgb];
        return;
      }
      c := new Color(rgb);
      created := created[rgb := c];
    }

    /** get(r, g, b): the same cache; None where the RGB constructor throws. */
    method GetComponents(r: int, g: int, b: int) returns (c: Option<Color>)
      requires Valid()
      modifies this`created
      ensures Valid()
      ensures c.Some? <==> InRange(r, g, b)
      ensures c.Some? ==> c.value.rgb == RGB(r, g, b) && !c.value.disposed
      ensures c.Some? ==> RGB(r, g, b) in created && created[RGB(r, g, b)] == c.value
      ensures c.Some? ==> LookedUp(RGB(r, g, b), c.value)
      ensures c.None? ==> created == old(created)
    {
      if !InRange(r, g, b) {
        return None;
      }
      var color := Get(RGB(r, g, b));
      c := Some(color);
    }

    /** fromHex: white and black are the system colours, any other result
        comes from the cache. */
    method FromHex(hex: Option<string>) returns (c: Color)
      requires Valid()
      modifies this`created
      ensures Valid()
      ensures ParseHex(hex) == White ==> c == white && created == old(created)
      ensures ParseHex(hex) == Black ==> c == black && created == old(created)
      ensures ParseHex(hex).Rgb? ==> c.rgb == ParseHex(hex).rgb && !c.disposed
      ensures ParseHex(hex).Rgb? ==> c.rgb in created && created[c.rgb] == c
      ensures ParseHex(hex).Rgb? ==> LookedUp(ParseHex(hex).rgb, c)
    {
      if hex.None? {
        return white;
      }
      var s := Trim(hex.value);
      if |s| > 0 && s[0] == '#' {
        s := s[1..];
      }
      assert s == HexBody(hex.value);
      if |s| < 6 {
        return white;
      }
      c := FromPairs(s);
    }

    /** The try block of fromHex: the first three pairs of characters as
        the components; a pair that does not parse, or a component the RGB
        constructor refuses, gives black. */
    method FromPairs(s: string) returns (c: Color)
      requires Valid() && |s| >= 6
      modifies this`created
      ensures Valid()
      ensures ParseSix(s[..6]) == Black ==> c == black && created == old(created)
      ensures ParseSix(s[..6]).Rgb? ==> c.rgb == ParseSix(s[..6]).rgb && !c.disposed
      ensures ParseSix(s[..6]).Rgb? ==> c.rgb in created && created[c.rgb] == c
      ensures ParseSix(s[..6]).Rgb? ==> LookedUp(ParseSix(s[..6]).rgb, c)
    {
      assert s[..6][0..2] == s[0..2] && s[..6][2..4] == s[2..4] && s[..6][4..6] == s[4..6];
      var r := ParseHexPair(s[0..2]);
      if r.None? {
        return black;
      }
      var g := ParseHexPair(s[2..4]);
      if g.None? {
        return black;
      }
      var b := ParseHexPair(s[4..6]);
      if b.None? {
        return black;
      }
      var color := GetComponents(r.value, g.value, b.value);
      if color.None? {
        return black;
      }
      c := color.value;
    }

    method ErrorColor() returns (c: Color)
      requires Valid()
      modifies this`created
      ensures Valid() && c.rgb == ErrorRGB && !c.disposed
      ensures LookedUp(ErrorRGB, c)
    {
      c := Get(ErrorRGB);
    }

    method LinkBlue() returns (c: Color)
      requires Valid()
      modifies this`created
      ensures Valid() && c.rgb == LinkBlueRGB && !c.disposed
      ensures LookedUp(LinkBlueRGB, c)
    {
      var color := GetComponents(25, 76, 127);
      c := color.value;
    }

    method Gray() returns (c: Color)
      requires Valid()
      modifies this`created
      ensures Valid() && c.rgb == GrayRGB && !c.disposed
      ensures LookedUp(GrayRGB, c)
    {
      var color := GetComponents(128, 128, 128);
      c := color.value;
    }
  }
}
