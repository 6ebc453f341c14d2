/** The pure parts of the Excel reader: deciding whether a cell fill colour
    is a shade of red, and mapping the 1-based Excel rows of red-filled
    cells to 0-based table rows (row 1 holds the headers). */
module ExcelProcessor {
  import opened Wrappers
  import opened Text

  /** The shapes a fill colour arrives in: nothing, an RGB triple, a hex
      string ("RRGGBB", "AARRGGBB", optionally with '#'), or a colour
      object whose `rgb` attribute is given here already rendered by
      `str()`. Anything else (a theme colour, say) is `OtherColor`. */
  datatype ColorValue =
    | NoColor
    | RgbTuple(r: int, g: int, b: int)
    | HexString(s: string)
    | ColorObject(rgb: string)
    | OtherColor

  /** "Red": the red channel is bright and well above the other two. */
  predicate IsRedRgb(r: int, g: int, b: int) {
    r > 150 && r > g + 50 && r > b + 50
  }

  predicate IsHexDigit(c: char) {
    IsDigit(c) || ('A' <= c <= 'F') || ('a' <= c <= 'f')
  }

  function HexDigitValue(c: char): (v: nat)
    requires IsHexDigit(c)
    ensures v < 16
  {
    if IsDigit(c) then c as int - '0' as int
    else if 'A' <= c <= 'F' then c as int - 'A' as int + 10
    else c as int - 'a' as int + 10
  }

  /** Python's `int(t, 16)` for a two-character `t`: two hex digits, a sign
      and one digit, or one digit padded by one whitespace character (which
      `int` strips). Anything else raises `ValueError`, here `None`. */
  function ParseHexPair(t: string): (v: Option<int>)
    requires |t| == 2
    ensures v.Some? ==> -15 <= v.value <= 255
    ensures IsHexDigit(t[0]) && IsHexDigit(t[1]) ==> v == Some(16 * HexDigitValue(t[0]) + HexDigitValue(t[1]))
    ensures !IsHexDigit(t[0]) && !IsHexDigit(t[1]) ==> v.None?
  {
    if IsHexDigit(t[0]) && IsHexDigit(t[1]) then Some(16 * HexDigitValue(t[0]) + HexDigitValue(t[1]))
    else if t[0] == '+' && IsHexDigit(t[1]) then Some(HexDigitValue(t[1]))
    else if t[0] == '-' && IsHexDigit(t[1]) then Some(0 - HexDigitValue(t[1]) as int)
    else if IsSpace(t[0]) && IsHexDigit(t[1]) then Some(HexDigitValue(t[1]))
    else if IsHexDigit(t[0]) && IsSpace(t[1]) then Some(HexDigitValue(t[0]))
    else None
  }

  /** Drop every '#', upper-case, and drop the alpha byte of an 8-character
      ARGB value. */
  function CleanHex(s: string): (r: string)
    ensures |r| <= |s|
    ensures forall i :: 0 <= i < |r| ==> r[i] != '#' && !IsLowerLetter(r[i])
  {
    var h := Upper(Remove(s, c => c == '#'));
    if |h| == 8 then h[2..] else h
  }

  /** The verdict on a string colour: only a six-character cleaned value
      whose three pairs all parse is judged by its channels. */
  function HexIsRed(s: string): (red: bool)
    ensures red ==> |CleanHex(s)| == 6
  {
    var h := CleanHex(s);
    if |h| != 6 then false
    else
      match (ParseHexPair(h[0..2]), ParseHexPair(h[2..4]), ParseHexPair(h[4..6]))
      case (Some(r), Some(g), Some(b)) => IsRedRgb(r, g, b)
      case _ => false
  }

  /** `_is_red_color`. A string whose cleaned length is not six falls past
      the string branch to the final `False`, since strings have no `rgb`
      attribute; an empty `str(rgb)` is not examined. */
  function IsRedColor(color: ColorValue): (red: bool)
    ensures color.NoColor? || color.OtherColor? ==> !red
    ensures color.RgbTuple? ==> (red <==> IsRedRgb(color.r, color.g, color.b))
    ensures color.HexString? ==> red == HexIsRed(color.s)
    ensures color.ColorObject? ==> red == HexIsRed(color.rgb)
  {
    match color
    case NoColor => false
    case RgbTuple(r, g, b) => IsRedRgb(r, g, b)
    case HexString(s) => HexIsRed(s)
    case ColorObject(rgb) => if rgb == [] then false else HexIsRed(rgb)
    case OtherColor => false
  }

  function HexDigitChar(v: nat): (c: char)
    requires v < 16
    ensures IsHexDigit(c) && HexDigitValue(c) == v
    ensures !IsLowerLetter(c)
  {
    if v < 10 then ('0' as int + v) as char else ('A' as int + v - 10) as char
  }

  /** Two upper-case hex digits for a byte. */
  function ByteHex(v: nat): (t: string)
    requires v < 256
    ensures |t| == 2
  {
    [HexDigitChar(v / 16), HexDigitChar(v % 16)]
  }

  /** Printing a byte in hex and parsing it back gives the byte. */
  lemma ByteHexRoundTrip(v: nat)
    requires v < 256
    ensures ParseHexPair(ByteHex(v)) == Some(v)
  {
  }

  /** The channels written as "RRGGBB" are judged exactly like the triple,
      with or without a '#', an alpha byte, or lower-case letters. */
  lemma HexAgreesWithTuple(r: nat, g: nat, b: nat)
    requires r < 256 && g < 256 && b < 256
    ensures var h := ByteHex(r) + ByteHex(g) + ByteHex(b);
      HexIsRed(h) == IsRedRgb(r, g, b)
  {
    var h := ByteHex(r) + ByteHex(g) + ByteHex(b);
    NoHashNoCase(h);
    assert CleanHex(h) == h;
    assert h[0..2] == ByteHex(r) && h[2..4] == ByteHex(g) && h[4..6] == ByteHex(b);
    ByteHexRoundTrip(r);
    ByteHexRoundTrip(g);
    ByteHexRoundTrip(b);
  }

  /** A leading '#' makes no difference. */
  lemma CleanHexIgnoresHash(s: string)
    ensures CleanHex("#" + s) == CleanHex(s)
  {
    assert ("#" + s)[1..] == s;
  }

  /** An eight-character ARGB value loses its first two (alpha) characters
      and is upper-cased. */
  lemma CleanHexDropsAlpha(argb: string)
    requires |argb| == 8 && forall i :: 0 <= i < 8 ==> argb[i] != '#'
    ensures CleanHex(argb) == Upper(argb[2..])
  {
    RemoveNothing(argb, c => c == '#');
  }

  /** A value without '#' whose length is not eight is only upper-cased. */
  lemma CleanHexUpperCases(s: string)
    requires |s| != 8 && forall i :: 0 <= i < |s| ==> s[i] != '#'
    ensures CleanHex(s) == Upper(s)
  {
    RemoveNothing(s, c => c == '#');
  }

  /** A string of upper-case hex digits and no '#' is left alone by the
      cleaning before the length test. */
  lemma NoHashNoCase(h: string)
    requires forall i :: 0 <= i < |h| ==> h[i] != '#' && !('a' <= h[i] <= 'z')
    ensures Upper(Remove(h, c => c == '#')) == h
  {
    RemoveNothing(h, c => c == '#');
  }

  /** '#' characters are ignored. */
  lemma HashIgnored(s: string)
    ensures HexIsRed("#" + s) == HexIsRed(s)
  {
    var drop := c => c == '#';
    RemoveAppend("#", s, drop);
    assert Remove("#", drop) == [];
    assert "" + Remove(s, drop) == Remove(s, drop);
  }

  /** Letter case is ignored. */
  lemma CaseIgnored(s: string)
    ensures HexIsRed(Lower(s)) == HexIsRed(s)
  {
    var drop := c => c == '#';
    LowerRemove(s, drop);
    UpperOfLower(Remove(s, drop));
  }

  lemma {:induction false} LowerRemove(s: string, drop: char -> bool)
    requires forall c :: drop(c) <==> c == '#'
    ensures Remove(Lower(s), drop) == Lower(Remove(s, drop))
  {
    if s != [] {
      assert Lower(s)[1..] == Lower(s[1..]);
      LowerRemove(s[1..], drop);
    }
  }

  /** The first two characters of an eight-character value are an alpha
      byte and do not matter. */
  lemma AlphaIgnored(a: string, s: string)
    requires |a| == 2 && |s| == 6
    requires forall i :: 0 <= i < 2 ==> a[i] != '#'
    requires forall i :: 0 <= i < 6 ==> s[i] != '#'
    ensures HexIsRed(a + s) == HexIsRed(s)
  {
    var drop := c => c == '#';
    RemoveAppend(a, s, drop);
    RemoveNothing(a, drop);
    RemoveNothing(s, drop);
    var u := Upper(a + s);
    assert u[2..] == Upper(s);
  }

  /** A cleaned value of any length other than six is never red. */
  lemma WrongLengthNotRed(s: string)
    requires |CleanHex(s)| != 6
    ensures !IsRedColor(HexString(s)) && !IsRedColor(ColorObject(s))
  {
  }

  lemma RedExamples(argb: string, hash: string)
    requires argb == "FFFF0000" && hash == "#FF0000"
    ensures IsRedColor(HexString(argb)) && IsRedColor(HexString(hash))
  {
    ArgbRedIsRed(argb);
    HashRedIsRed(hash);
  }

  lemma ArgbRedIsRed(argb: string)
    requires argb == "FFFF0000"
    ensures HexIsRed(argb)
  {
    var red := "FF0000";
    PureRedIsRed(red);
    assert argb == "FF" + red;
    AlphaIgnored("FF", red);
  }

  lemma HashRedIsRed(hash: string)
    requires hash == "#FF0000"
    ensures HexIsRed(hash)
  {
    var red := "FF0000";
    PureRedIsRed(red);
    assert hash == "#" + red;
    HashIgnored(red);
  }

  lemma PureRedIsRed(red: string)
    requires red == "FF0000"
    ensures HexIsRed(red)
  {
    HexAgreesWithTuple(255, 0, 0);
    assert ByteHex(255) + ByteHex(0) + ByteHex(0) == red;
  }

  /** Yellow, full red and green with no blue, is not red. */
  lemma YellowIsNotRed(yellow: string)
    requires yellow == "FFFF00"
    ensures !IsRedColor(HexString(yellow))
  {
    HexAgreesWithTuple(255, 255, 0);
    assert ByteHex(255) + ByteHex(255) + ByteHex(0) == "FFFF00";
  }

  /** Excel rows 2, 3, ... become table rows 0, 1, ...; the header row and
      anything above it are dropped. Order and repeats are kept. */
  function RedTableRows(excelRows: seq<int>): (r: seq<nat>)
    ensures |r| <= |excelRows|
  {
    if excelRows == [] then []
    else if excelRows[0] >= 2 then [excelRows[0] - 2] + RedTableRows(excelRows[1..])
    else RedTableRows(excelRows[1..])
  }

  /** Every table row marked comes from an Excel row two further down, and
      every Excel data row is marked. */
  lemma {:induction false} RedTableRowsExact(excelRows: seq<int>)
    ensures forall k :: 0 <= k < |RedTableRows(excelRows)| ==> RedTableRows(excelRows)[k] + 2 in excelRows
    ensures forall x :: x in excelRows && x >= 2 ==> x - 2 in RedTableRows(excelRows)
  {
    if excelRows != [] {
      var tail := excelRows[1..];
      RedTableRowsExact(tail);
      assert forall x :: x in tail ==> x in excelRows;
      assert forall x :: x in excelRows ==> x == excelRows[0] || x in tail;
    }
  }

  /** The `_IS_RED_ROW` column for a table of `n` rows: exactly the rows
      named, shifted, are marked. */
  function RedRowFlags(n: nat, excelRows: seq<int>): (flags: seq<bool>)
    ensures |flags| == n
    ensures forall i :: 0 <= i < n ==> (flags[i] <==> i + 2 in excelRows)
  {
    var red := RedTableRows(excelRows);
    RedTableRowsExact(excelRows);
    seq(n, i requires 0 <= i < n => i in red)
  }
}
