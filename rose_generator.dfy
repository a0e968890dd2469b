/**
 * Rose generation (create_rose.py): the inverse of rose decoding. A rose is
 * drawn by flood-filling regions of a blank rose image, one fill per seed
 * coordinate, with the colour registered for the danger of that region.
 *
 * The pixel semantics of the flood fill belong to the image library; the
 * model records the ORDERED list of fills `(seed, rgba)` that `create_rose`
 * issues, since a later fill can paint over an earlier one.
 */
module RoseGenerator {
  import opened Wrappers

  // ---------------------------------------------------------------------
  // hex_to_rgb: Python's int(text, 16) on the pairs of a colour code
  // ---------------------------------------------------------------------

  /** The characters Python's `int()` strips from both ends of its argument. */
  predicate IsPythonSpace(c: char)
  {
    var n := c as int;
    n == 0x20 || 0x09 <= n <= 0x0D || 0x1C <= n <= 0x1F || n == 0x85 || n == 0xA0 || n == 0x1680
    || 0x2000 <= n <= 0x200A || n == 0x2028 || n == 0x2029 || n == 0x202F || n == 0x205F || n == 0x3000
  }

  predicate IsHexDigit(c: char)
  {
    '0' <= c <= '9' || 'a' <= c <= 'f' || 'A' <= c <= 'F'
  }

  function HexDigitValue(c: char): (v: nat)
    requires IsHexDigit(c)
    ensures v < 16
  {
    if '0' <= c <= '9' then c as int - '0' as int
    else if 'a' <= c <= 'f' then c as int - 'a' as int + 10
    else c as int - 'A' as int + 10
  }

  predicate AllHexDigits(s: string)
  {
    forall i :: 0 <= i < |s| ==> IsHexDigit(s[i])
  }

  /** The value of a run of hex digits, most significant first. */
  function HexValue(s: string): nat
    requires AllHexDigits(s)
  {
    if s == [] then 0 else 16 * HexValue(s[..|s| - 1]) + HexDigitValue(s[|s| - 1])
  }

  /** Two hex digits make a byte. */
  lemma PairValueBound(p: string)
    requires |p| == 2 && AllHexDigits(p)
    ensures HexValue(p) == 16 * HexDigitValue(p[0]) + HexDigitValue(p[1]) < 256
  {
    assert p[..1][..0] == [];
    assert HexValue(p[..1]) == HexDigitValue(p[0]);
  }

  /** `str.strip()`'s left half: leading white space goes. */
  function TrimLeft(s: string): string
  {
    if s != [] && IsPythonSpace(s[0]) then TrimLeft(s[1..]) else s
  }

  /** `str.strip()`'s right half: trailing white space goes. */
  function TrimRight(s: string): string
  {
    if s != [] && IsPythonSpace(s[|s| - 1]) then TrimRight(s[..|s| - 1]) else s
  }

  /**
   * `int(text, 16)`: surrounding white space, an optional sign, then hex
   * digits; anything else raises ValueError (`None` here). A text of hex
   * digits only is read directly; the trimmed reading gives the same value.
   * The texts it is given are at most two characters long, where Python's
   * `0x` prefix and digit-group underscores cannot form a valid literal.
   */
  function ParseHexInt(text: string): (r: Option<int>)
  {
    if text != [] && AllHexDigits(text) then Some(HexValue(text))
    else ParseSignedHex(TrimRight(TrimLeft(text)))
  }

  /** The same reading once the white space is gone: an optional sign, then hex digits. */
  function ParseSignedHex(t: string): Option<int>
  {
    var negative := t != [] && t[0] == '-';
    var digits := if t != [] && (t[0] == '+' || t[0] == '-') then t[1..] else t;
    if digits != [] && AllHexDigits(digits) then
      var v: int := HexValue(digits);
      Some(if negative then -v else v)
    else None
  }

  /** A run of hex digits with nothing around it reads as its value. */
  lemma ParseHexDigits(text: string)
    requires AllHexDigits(text) && text != []
    ensures ParseHexInt(text) == Some(HexValue(text))
  {
  }

  /** Python's slice `s[i:j]` for `0 <= i <= j`: both ends are clamped to the length. */
  function Slice(s: string, i: nat, j: nat): (t: string)
    requires i <= j
    ensures |t| == (if j <= |s| then j - i else if i <= |s| then |s| - i else 0)
  {
    if |s| <= i then [] else if |s| <= j then s[i..] else s[i..j]
  }

  /** `str.lstrip('#')`: every leading `#` goes. */
  function StripHashes(code: string): (h: string)
    ensures |h| <= |code| && h == code[|code| - |h|..]
    ensures h != [] ==> h[0] != '#'
    ensures forall i :: 0 <= i < |code| - |h| ==> code[i] == '#'
  {
    if code != [] && code[0] == '#' then StripHashes(code[1..]) else code
  }

  /** An RGBA colour; the components are plain integers as Python builds them. */
  datatype Rgba = Rgba(r: int, g: int, b: int, a: int)

  /**
   * `hex_to_rgb`: strip the leading `#`s, read the pairs at offsets 0, 2
   * and 4 with `int(pair, 16)`, and append an alpha of 255. `None` models
   * the ValueError of a pair that is not a number.
   */
  function HexToRgb(code: string): (c: Option<Rgba>)
    ensures c.Some? ==> c.value.a == 255
  {
    var h := StripHashes(code);
    var r, g, b := ParseHexInt(Slice(h, 0, 2)), ParseHexInt(Slice(h, 2, 4)), ParseHexInt(Slice(h, 4, 6));
    if r.Some? && g.Some? && b.Some? then Some(Rgba(r.value, g.value, b.value, 255)) else None
  }

  lemma StripHashesPrefix(s: string)
    ensures StripHashes("#" + s) == StripHashes(s)
  {
    assert ("#" + s)[1..] == s;
  }

  /** Any number of leading `#`s is accepted and changes nothing. */
  lemma HexToRgbIgnoresHashes(s: string)
    ensures HexToRgb("#" + s) == HexToRgb(s)
  {
    StripHashesPrefix(s);
  }

  /** Only the first six characters after the `#`s are read; the rest is ignored. */
  lemma HexToRgbReadsSixCharacters(code: string, tail: string)
    requires |StripHashes(code)| >= 6
    ensures HexToRgb(code) == HexToRgb(StripHashes(code)[..6] + tail)
  {
    var h := StripHashes(code);
    KeepFirstSix(h, tail);
    SameSlicesSameColour(code, h[..6] + tail);
  }

  /** Cutting a hash-free code after six characters and appending a tail keeps it hash-free and keeps its pairs. */
  lemma KeepFirstSix(h: string, tail: string)
    requires |h| >= 6 && h[0] != '#'
    ensures var k := h[..6] + tail;
      && StripHashes(k) == k
      && Slice(k, 0, 2) == Slice(h, 0, 2) && Slice(k, 2, 4) == Slice(h, 2, 4) && Slice(k, 4, 6) == Slice(h, 4, 6)
  {
    var k := h[..6] + tail;
    assert k[0] == h[0];
    assert k[0..2] == h[0..2] && k[2..4] == h[2..4] && k[4..6] == h[4..6];
  }

  /** Two codes whose first three pairs agree after the `#`s parse alike. */
  lemma SameSlicesSameColour(a: string, b: string)
    requires Slice(StripHashes(a), 0, 2) == Slice(StripHashes(b), 0, 2)
    requires Slice(StripHashes(a), 2, 4) == Slice(StripHashes(b), 2, 4)
    requires Slice(StripHashes(a), 4, 6) == Slice(StripHashes(b), 4, 6)
    ensures HexToRgb(a) == HexToRgb(b)
  {
  }

  /** `hex_to_rgb("#RRGGBB")` is `(RR, GG, BB, 255)`, each component in 0..255. */
  lemma HexToRgbOfSixDigits(code: string)
    requires var h := StripHashes(code);
      |h| >= 6 && AllHexDigits(h[0..2]) && AllHexDigits(h[2..4]) && AllHexDigits(h[4..6])
    ensures var h := StripHashes(code);
      && HexToRgb(code) == Some(Rgba(HexValue(h[0..2]), HexValue(h[2..4]), HexValue(h[4..6]), 255))
      && 0 <= HexValue(h[0..2]) < 256 && 0 <= HexValue(h[2..4]) < 256 && 0 <= HexValue(h[4..6]) < 256
  {
    var h := StripHashes(code);
    ParsePair(h, 0);
    ParsePair(h, 2);
    ParsePair(h, 4);
    ColourOfPairs(code, HexValue(h[0..2]), HexValue(h[2..4]), HexValue(h[4..6]));
  }

  /** The pair of hex digits at offset `i` reads as its value, a byte. */
  lemma ParsePair(h: string, i: nat)
    requires i + 2 <= |h| && AllHexDigits(h[i..i + 2])
    ensures ParseHexInt(Slice(h, i, i + 2)) == Some(HexValue(h[i..i + 2]))
    ensures HexValue(h[i..i + 2]) < 256
  {
    assert Slice(h, i, i + 2) == h[i..i + 2];
    ParseHexDigits(h[i..i + 2]);
    PairValueBound(h[i..i + 2]);
  }

  /** A code whose three pairs read as `r`, `g` and `b` is the opaque colour (r, g, b). */
  lemma ColourOfPairs(code: string, r: int, g: int, b: int)
    requires var h := StripHashes(code);
      && ParseHexInt(Slice(h, 0, 2)) == Some(r)
      && ParseHexInt(Slice(h, 2, 4)) == Some(g)
      && ParseHexInt(Slice(h, 4, 6)) == Some(b)
    ensures HexToRgb(code) == Some(Rgba(r, g, b, 255))
  {
  }

  /** The pairs of six hex digits are hex digits. */
  lemma HexPairsOfSix(h: string)
    requires |h| >= 6 && AllHexDigits(h[..6])
    ensures AllHexDigits(h[0..2]) && AllHexDigits(h[2..4]) && AllHexDigits(h[4..6])
  {
    assert forall i :: 0 <= i < 2 ==> h[0..2][i] == h[..6][i];
    assert forall i :: 0 <= i < 2 ==> h[2..4][i] == h[..6][i + 2];
    assert forall i :: 0 <= i < 2 ==> h[4..6][i] == h[..6][i + 4];
  }

  /** The two lower-case hex digits of a byte: the code a colour table holds. */
  function HexPair(v: nat): (p: string)
    requires v < 256
    ensures |p| == 2 && AllHexDigits(p)
  {
    [HexChar(v / 16), HexChar(v % 16)]
  }

  function HexChar(d: nat): (c: char)
    requires d < 16
    ensures IsHexDigit(c) && HexDigitValue(c) == d
  {
    if d < 10 then ('0' as int + d) as char else ('a' as int + d - 10) as char
  }

  /** `#rrggbb` of an opaque colour. */
  function HexCode(r: nat, g: nat, b: nat): (code: string)
    requires r < 256 && g < 256 && b < 256
    ensures |code| == 7 && code[0] == '#'
  {
    "#" + HexPair(r) + HexPair(g) + HexPair(b)
  }

  /** A `#` and six hex digits read as the three pair values. */
  lemma HashAndSixDigits(h: string)
    requires |h| == 6 && AllHexDigits(h)
    ensures HexToRgb("#" + h) == Some(Rgba(HexValue(h[0..2]), HexValue(h[2..4]), HexValue(h[4..6]), 255))
    ensures HexValue(h[0..2]) < 256 && HexValue(h[2..4]) < 256 && HexValue(h[4..6]) < 256
  {
    assert h[0] != '#' by { assert IsHexDigit(h[0]); }
    StripHashesPrefix(h);
    assert StripHashes("#" + h) == h;
    assert h[..6] == h;
    HexPairsOfSix(h);
    HexToRgbOfSixDigits("#" + h);
  }

  lemma ConcatFour(a: string, b: string, c: string, d: string)
    ensures a + b + c + d == a + (b + c + d)
  {
  }

  lemma SplitSix(h: string)
    requires |h| == 6
    ensures h[0..2] + h[2..4] + h[4..6] == h
  {
    assert h[0..2] + h[2..4] == h[..4];
    assert h[..4] + h[4..6] == h;
  }

  lemma SixSlices(a: string, b: string, c: string)
    requires |a| == 2 && |b| == 2 && |c| == 2
    ensures (a + b + c)[0..2] == a && (a + b + c)[2..4] == b && (a + b + c)[4..6] == c
  {
    var h := a + b + c;
    assert h[0..2] == a by { assert h[0] == a[0] && h[1] == a[1]; }
    assert h[2..4] == b by { assert h[2] == b[0] && h[3] == b[1]; }
    assert h[4..6] == c by { assert h[4] == c[0] && h[5] == c[1]; }
  }

  /** Parsing a written colour gives it back, opaque. */
  lemma {:induction false} HexToRgbInvertsHexCode(r: nat, g: nat, b: nat)
    requires r < 256 && g < 256 && b < 256
    ensures HexToRgb(HexCode(r, g, b)) == Some(Rgba(r, g, b, 255))
  {
    var h := HexPair(r) + HexPair(g) + HexPair(b);
    assert HexCode(r, g, b) == "#" + h;
    assert AllHexDigits(h) by {
      assert forall i :: 0 <= i < 2 ==> h[i] == HexPair(r)[i] && h[i + 2] == HexPair(g)[i] && h[i + 4] == HexPair(b)[i];
    }
    HashAndSixDigits(h);
    SixSlices(HexPair(r), HexPair(g), HexPair(b));
    PairValue(r);
    PairValue(g);
    PairValue(b);
  }

  lemma PairValue(v: nat)
    requires v < 256
    ensures HexValue(HexPair(v)) == v
  {
    var p := HexPair(v);
    assert p[..1] == [p[0]];
    assert HexValue(p[..1]) == HexDigitValue(p[0]) by {
      assert p[..1][..0] == [];
    }
  }

  predicate IsLowerHexDigit(c: char)
  {
    '0' <= c <= '9' || 'a' <= c <= 'f'
  }

  /** The code written for the pair values of a lower-case `rrggbb` is `#rrggbb`. */
  lemma {:induction false} HexCodeOfLowerPairs(h: string)
    requires |h| == 6 && forall i :: 0 <= i < 6 ==> IsLowerHexDigit(h[i])
    ensures AllHexDigits(h[0..2]) && AllHexDigits(h[2..4]) && AllHexDigits(h[4..6])
    ensures HexValue(h[0..2]) < 256 && HexValue(h[2..4]) < 256 && HexValue(h[4..6]) < 256
    ensures HexCode(HexValue(h[0..2]), HexValue(h[2..4]), HexValue(h[4..6])) == "#" + h
  {
    var p0, p1, p2 := h[0..2], h[2..4], h[4..6];
    LowerPairRoundTrip(p0);
    LowerPairRoundTrip(p1);
    LowerPairRoundTrip(p2);
    assert HexCode(HexValue(p0), HexValue(p1), HexValue(p2)) == "#" + p0 + p1 + p2;
    SplitSix(h);
    ConcatFour("#", p0, p1, p2);
  }

  /** Writing back a parsed lower-case `#rrggbb` code gives the same code. */
  lemma {:induction false} HexCodeInvertsHexToRgb(h: string)
    requires |h| == 6 && forall i :: 0 <= i < 6 ==> IsLowerHexDigit(h[i])
    ensures var c := HexToRgb("#" + h);
      && c.Some? && 0 <= c.value.r < 256 && 0 <= c.value.g < 256 && 0 <= c.value.b < 256
      && HexCode(c.value.r, c.value.g, c.value.b) == "#" + h
  {
    assert AllHexDigits(h) by {
      assert forall i :: 0 <= i < 6 ==> IsLowerHexDigit(h[i]) ==> IsHexDigit(h[i]);
    }
    HashAndSixDigits(h);
    HexCodeOfLowerPairs(h);
  }

  lemma LowerPairRoundTrip(p: string)
    requires |p| == 2 && IsLowerHexDigit(p[0]) && IsLowerHexDigit(p[1])
    ensures AllHexDigits(p) && HexValue(p) < 256 && HexPair(HexValue(p)) == p
  {
    assert p[..1] == [p[0]];
    assert HexValue(p[..1]) == HexDigitValue(p[0]) by {
      assert p[..1][..0] == [];
    }
    var v := HexValue(p);
    assert v / 16 == HexDigitValue(p[0]) && v % 16 == HexDigitValue(p[1]);
    LowerHexCharInverse(p[0]);
    LowerHexCharInverse(p[1]);
  }

  lemma LowerHexCharInverse(c: char)
    requires IsLowerHexDigit(c)
    ensures HexChar(HexDigitValue(c)) == c
  {
  }

  // ---------------------------------------------------------------------
  // num_to_danger and the numeric danger strings
  // ---------------------------------------------------------------------

  /** `num_to_danger`: the six danger names by number; `None` for any other integer. */
  function NumToDanger(num: int): (name: Option<string>)
    ensures name.Some? <==> 0 <= num <= 5
  {
    if num == 0 then Some("none")
    else if num == 1 then Some("low")
    else if num == 2 then Some("moderate")
    else if num == 3 then Some("considerable")
    else if num == 4 then Some("high")
    else if num == 5 then Some("extreme")
    else None
  }

  /** The number of a danger name: the partner of `NumToDanger`. */
  function DangerNumber(name: string): (num: Option<int>)
  {
    if name == "none" then Some(0)
    else if name == "low" then Some(1)
    else if name == "moderate" then Some(2)
    else if name == "considerable" then Some(3)
    else if name == "high" then Some(4)
    else if name == "extreme" then Some(5)
    else None
  }

  /** `NumToDanger` and `DangerNumber` invert each other, both ways. */
  lemma NumToDangerInverse(num: int, name: string)
    ensures NumToDanger(num) == Some(name) <==> DangerNumber(name) == Some(num)
  {
  }

  /** `NumToDanger` is injective on 0..5. */
  lemma NumToDangerInjective(m: int, n: int)
    requires NumToDanger(m).Some? && NumToDanger(m) == NumToDanger(n)
    ensures m == n
  {
    NumToDangerInverse(m, NumToDanger(m).value);
    NumToDangerInverse(n, NumToDanger(n).value);
  }

  /** `str.isnumeric`, for the ASCII digits. */
  predicate IsNumeric(s: string)
  {
    s != [] && forall i :: 0 <= i < |s| ==> '0' <= s[i] <= '9'
  }

  /** `int(s)` of a string of decimal digits. */
  function DecimalValue(s: string): (v: nat)
    requires IsNumeric(s) || s == []
  {
    if s == [] then 0 else 10 * DecimalValue(s[..|s| - 1]) + (s[|s| - 1] as int - '0' as int)
  }

  // ---------------------------------------------------------------------
  // The image and fill_region
  // ---------------------------------------------------------------------

  /** A seed coordinate of a flood fill, as stored in coordinates.json. */
  datatype Seed = Seed(x: int, y: int)

  /** One `ImageDraw.floodfill` call. */
  datatype Fill = Fill(seed: Seed, colour: Rgba)

  /**
   * An RGBA image: the blank rose it was opened from and the flood fills
   * applied to it so far, in order.
   */
  class Image {
    var source: string
    var fills: seq<Fill>

    /** `Image.open(path).convert('RGBA')`. */
    constructor Open(path: string)
      ensures source == path && fills == []
    {
      source := path;
      fills := [];
    }

    /** `img.copy()`: a new image with the same contents. */
    constructor Copy(other: Image)
      ensures source == other.source && fills == other.fills
    {
      source := other.source;
      fills := other.fills;
    }

    /** `ImageDraw.floodfill(self, seed, colour)`: paints this image in place. */
    method FloodFill(seed: Seed, colour: Rgba)
      modifies this
      ensures source == old(source) && fills == old(fills) + [Fill(seed, colour)]
    {
      fills := fills + [Fill(seed, colour)];
    }
  }

  /** The exceptions `create_rose` does not catch. */
  datatype Crash = ValueError | AttributeError

  /**
   * `fill_region`: parse the colour, copy the image, flood-fill the copy.
   * The image passed in is left as it was; a colour that does not parse
   * raises ValueError before anything is copied.
   */
  method FillRegion(img: Image, seed: Seed, hex: string) returns (r: Result<Image, Crash>)
    ensures HexToRgb(hex).None? ==> r == Err(ValueError)
    ensures HexToRgb(hex).Some? ==>
      && r.Ok? && fresh(r.value)
      && r.value.source == img.source
      && r.value.fills == img.fills + [Fill(seed, HexToRgb(hex).value)]
    ensures unchanged(img)
  {
    var colour := HexToRgb(hex);
    if colour.None? {
      return Err(ValueError);
    }
    var copy := new Image.Copy(img);
    copy.FloodFill(seed, colour.value);
    r := Ok(copy);
  }

  // ---------------------------------------------------------------------
  // create_rose as an ordered fill plan
  // ---------------------------------------------------------------------

  /** The value of the `danger` variable: a string, or the `None` of an unknown number. */
  datatype Danger = Name(name: string) | NoName

  function DangerOf(name: Option<string>): Danger
  {
    if name.Some? then Name(name.value) else NoName
  }

  /** The danger after `if danger.isnumeric(): danger = num_to_danger(int(danger))`. */
  function Converted(name: string): Danger
  {
    if IsNumeric(name) then DangerOf(NumToDanger(DecimalValue(name))) else Name(name)
  }

  /** A converted danger is converted already: a danger name is not numeric. */
  lemma ConvertedIdempotent(name: string)
    requires Converted(name).Name?
    ensures Converted(Converted(name).name) == Converted(name)
  {
    var d := Converted(name);
    if IsNumeric(name) {
      assert !('0' <= d.name[0] <= '9');
    }
  }

  /** The rendering layers, in the order they are drawn. */
  const LAYERS: seq<string> := ["colors", "light-shadow", "dark-shadow"]

  /** coordinates.json: `"<tier>-<layer>"` -> direction -> seed coordinates. */
  type SeedTable = map<string, map<string, seq<Seed>>>

  /** colors.json: layer -> danger name -> hex colour code. */
  type ColourTable = map<string, map<string, string>>

  /** The `input` of `create_rose`: tiers in order, each with its directions and danger strings in order. */
  type RoseInput = seq<(string, seq<(string, string)>)>

  /** What one layer (or the layers of one direction) leaves behind. */
  datatype LayerOut = Done(fills: seq<Fill>, danger: Danger) | Crashed(error: Crash)

  /** `fills` issued before `out`. */
  function Prepend(fills: seq<Fill>, out: LayerOut): LayerOut
  {
    if out.Done? then Done(fills + out.fills, out.danger) else out
  }

  lemma PrependAssoc(a: seq<Fill>, b: seq<Fill>, out: LayerOut)
    ensures Prepend(a, Prepend(b, out)) == Prepend(a + b, out)
  {
    if out.Done? {
      assert a + (b + out.fills) == (a + b) + out.fills;
    }
  }

  predicate AllOpaque(fills: seq<Fill>)
  {
    forall i :: 0 <= i < |fills| ==> fills[i].colour.a == 255
  }

  lemma PrependOpaque(fills: seq<Fill>, out: LayerOut)
    requires AllOpaque(fills) && (out.Done? ==> AllOpaque(out.fills))
    ensures Prepend(fills, out).Done? ==> AllOpaque(Prepend(fills, out).fills)
  {
    if out.Done? {
      assert forall i :: |fills| <= i < |fills| + |out.fills| ==> (fills + out.fills)[i] == out.fills[i - |fills|];
    }
  }

  /**
   * The seed loop of one layer: before every seed the danger is converted
   * if numeric (`None.isnumeric()` is an AttributeError); a colour table
   * without the layer or the danger raises a KeyError that ends the layer
   * with the fills issued so far; a colour that does not parse is a
   * ValueError.
   */
  function LayerFills(seeds: seq<Seed>, layerColours: Option<map<string, string>>, danger: Danger): (out: LayerOut)
    ensures out.Done? ==> AllOpaque(out.fills)
    ensures out.Done? && seeds != [] ==> danger.Name? && out.danger == Converted(danger.name)
  {
    if seeds == [] then Done([], danger)
    else if danger.NoName? then Crashed(AttributeError)
    else
      var d := Converted(danger.name);
      if layerColours.None? || d.NoName? || d.name !in layerColours.value then Done([], d)
      else
        var colour := HexToRgb(layerColours.value[d.name]);
        if colour.None? then Crashed(ValueError)
        else
          var rest := LayerFills(seeds[1..], layerColours, d);
          ConvertedIdempotent(danger.name);
          PrependOpaque([Fill(seeds[0], colour.value)], rest);
          Prepend([Fill(seeds[0], colour.value)], rest)
  }

  function LayerColours(colours: ColourTable, layer: string): Option<map<string, string>>
  {
    if layer in colours then Some(colours[layer]) else None
  }

  /** One layer of one direction: a missing `"<tier>-<layer>"` key or direction is a KeyError that skips the layer. */
  function LayerOf(tier: string, direction: string, layer: string, seeds: SeedTable, colours: ColourTable,
                   danger: Danger): (out: LayerOut)
    ensures out.Done? ==> AllOpaque(out.fills)
  {
    var key := tier + "-" + layer;
    if key !in seeds || direction !in seeds[key] then Done([], danger)
    else LayerFills(seeds[key][direction], LayerColours(colours, layer), danger)
  }

  /** The layers of one direction, in order; the danger carries over from layer to layer. */
  function DirectionLayers(tier: string, direction: string, layers: seq<string>, seeds: SeedTable,
                           colours: ColourTable, danger: Danger): (out: LayerOut)
    ensures out.Done? ==> AllOpaque(out.fills)
  {
    if layers == [] then Done([], danger)
    else
      var first := LayerOf(tier, direction, layers[0], seeds, colours, danger);
      if first.Crashed? then first
      else Prepend(first.fills, DirectionLayers(tier, direction, layers[1..], seeds, colours, first.danger))
  }

  /** One direction of one tier: its danger string starts the three layers. */
  function DirectionFills(tier: string, direction: (string, string), seeds: SeedTable, colours: ColourTable)
    : (r: Result<seq<Fill>, Crash>)
    ensures r.Ok? ==> AllOpaque(r.value)
  {
    var out := DirectionLayers(tier, direction.0, LAYERS, seeds, colours, Name(direction.1));
    if out.Done? then Ok(out.fills) else Err(out.error)
  }

  /** `r1` then `r2`: the first exception wins, otherwise the fills in order. */
  function Then(r1: Result<seq<Fill>, Crash>, r2: Result<seq<Fill>, Crash>): Result<seq<Fill>, Crash>
  {
    if r1.Err? then r1 else if r2.Err? then r2 else Ok(r1.value + r2.value)
  }

  lemma ThenAssoc(x: Result<seq<Fill>, Crash>, y: Result<seq<Fill>, Crash>, z: Result<seq<Fill>, Crash>)
    ensures Then(Then(x, y), z) == Then(x, Then(y, z))
  {
    if x.Ok? && y.Ok? && z.Ok? {
      assert (x.value + y.value) + z.value == x.value + (y.value + z.value);
    }
  }

  lemma ThenOpaque(x: Result<seq<Fill>, Crash>, y: Result<seq<Fill>, Crash>)
    requires x.Ok? ==> AllOpaque(x.value)
    requires y.Ok? ==> AllOpaque(y.value)
    ensures Then(x, y).Ok? ==> AllOpaque(Then(x, y).value)
  {
    if x.Ok? && y.Ok? {
      assert forall i :: |x.value| <= i < |x.value| + |y.value| ==>
        (x.value + y.value)[i] == y.value[i - |x.value|];
    }
  }

  /** The directions of one tier, in input order. */
  function TierFills(tier: string, directions: seq<(string, string)>, seeds: SeedTable, colours: ColourTable)
    : (r: Result<seq<Fill>, Crash>)
    ensures r.Ok? ==> AllOpaque(r.value)
  {
    if directions == [] then Ok([])
    else
      var first, rest := DirectionFills(tier, directions[0], seeds, colours), TierFills(tier, directions[1..], seeds, colours);
      ThenOpaque(first, rest);
      Then(first, rest)
  }

  /** The fills `create_rose` issues: tiers in input order, or the exception it raises. */
  function RosePlan(input: RoseInput, seeds: SeedTable, colours: ColourTable): (r: Result<seq<Fill>, Crash>)
    ensures r.Ok? ==> AllOpaque(r.value)
  {
    if input == [] then Ok([])
    else
      var first, rest := TierFills(input[0].0, input[0].1, seeds, colours), RosePlan(input[1..], seeds, colours);
      ThenOpaque(first, rest);
      Then(first, rest)
  }

  // ---------------------------------------------------------------------
  // What the plan promises
  // ---------------------------------------------------------------------

  lemma ThenOkEmpty(r: Result<seq<Fill>, Crash>)
    ensures Then(Ok([]), r) == r
  {
    if r.Ok? {
      assert [] + r.value == r.value;
    }
  }

  /** Tiers are drawn in input order: the fills of `a` come before those of `b`, and an exception in `a` wins. */
  lemma {:induction false} RosePlanConcat(a: RoseInput, b: RoseInput, seeds: SeedTable, colours: ColourTable)
    ensures RosePlan(a + b, seeds, colours) == Then(RosePlan(a, seeds, colours), RosePlan(b, seeds, colours))
  {
    if a == [] {
      assert a + b == b;
      ThenOkEmpty(RosePlan(b, seeds, colours));
    } else {
      assert (a + b)[0] == a[0] && (a + b)[1..] == a[1..] + b;
      RosePlanConcat(a[1..], b, seeds, colours);
      ThenAssoc(TierFills(a[0].0, a[0].1, seeds, colours), RosePlan(a[1..], seeds, colours), RosePlan(b, seeds, colours));
    }
  }

  /** Directions are drawn in input order, each starting afresh from its own danger string. */
  lemma {:induction false} TierFillsConcat(tier: string, a: seq<(string, string)>, b: seq<(string, string)>,
                                           seeds: SeedTable, colours: ColourTable)
    ensures TierFills(tier, a + b, seeds, colours) == Then(TierFills(tier, a, seeds, colours), TierFills(tier, b, seeds, colours))
  {
    if a == [] {
      assert a + b == b;
      ThenOkEmpty(TierFills(tier, b, seeds, colours));
    } else {
      assert (a + b)[0] == a[0] && (a + b)[1..] == a[1..] + b;
      TierFillsConcat(tier, a[1..], b, seeds, colours);
      ThenAssoc(DirectionFills(tier, a[0], seeds, colours), TierFills(tier, a[1..], seeds, colours),
                TierFills(tier, b, seeds, colours));
    }
  }

  /**
   * A layer whose colour is known fills every one of its seeds, in stored
   * order, with that colour, and hands on the converted danger.
   */
  lemma {:induction false} LayerFillsEverySeed(seeds: seq<Seed>, colourOf: map<string, string>, danger: Danger,
                                               colour: Rgba)
    requires seeds != [] && danger.Name? && Converted(danger.name).Name?
    requires Converted(danger.name).name in colourOf && HexToRgb(colourOf[Converted(danger.name).name]) == Some(colour)
    ensures LayerFills(seeds, Some(colourOf), danger).Done?
    ensures LayerFills(seeds, Some(colourOf), danger).danger == Converted(danger.name)
    ensures |LayerFills(seeds, Some(colourOf), danger).fills| == |seeds|
    ensures forall i :: 0 <= i < |seeds| ==> LayerFills(seeds, Some(colourOf), danger).fills[i] == Fill(seeds[i], colour)
  {
    var d := Converted(danger.name);
    ConvertedIdempotent(danger.name);
    var rest := LayerFills(seeds[1..], Some(colourOf), d);
    var out := LayerFills(seeds, Some(colourOf), danger);
    assert out == Prepend([Fill(seeds[0], colour)], rest);
    if |seeds| == 1 {
      assert seeds[1..] == [];
    } else {
      LayerFillsEverySeed(seeds[1..], colourOf, d, colour);
      forall i | 0 <= i < |seeds|
        ensures out.fills[i] == Fill(seeds[i], colour)
      {
        if i > 0 {
          assert out.fills[i] == rest.fills[i - 1] && seeds[1..][i - 1] == seeds[i];
        }
      }
    }
  }

  /** A missing `"<tier>-<layer>"` key or direction skips the layer; the next layer sees the same danger. */
  lemma MissingSeedsSkipLayer(tier: string, direction: string, layers: seq<string>, seeds: SeedTable,
                              colours: ColourTable, danger: Danger)
    requires layers != []
    requires var key := tier + "-" + layers[0]; key !in seeds || direction !in seeds[key]
    ensures DirectionLayers(tier, direction, layers, seeds, colours, danger)
         == DirectionLayers(tier, direction, layers[1..], seeds, colours, danger)
  {
    var rest := DirectionLayers(tier, direction, layers[1..], seeds, colours, danger);
    if rest.Done? {
      assert [] + rest.fills == rest.fills;
    }
  }

  /**
   * A colour table without the layer or without the (converted) danger
   * skips the layer after the danger has been converted; the next layer
   * sees the converted danger.
   */
  lemma MissingColourSkipsLayer(tier: string, direction: string, layers: seq<string>, seeds: SeedTable,
                                colours: ColourTable, danger: Danger)
    requires layers != [] && danger.Name?
    requires var key := tier + "-" + layers[0]; key in seeds && direction in seeds[key] && seeds[key][direction] != []
    requires var d := Converted(danger.name); layers[0] !in colours || d.NoName? || d.name !in colours[layers[0]]
    ensures DirectionLayers(tier, direction, layers, seeds, colours, danger)
         == DirectionLayers(tier, direction, layers[1..], seeds, colours, Converted(danger.name))
  {
    var rest := DirectionLayers(tier, direction, layers[1..], seeds, colours, Converted(danger.name));
    if rest.Done? {
      assert [] + rest.fills == rest.fills;
    }
  }

  /** Two dangers that convert alike: after the first seed they are the same. */
  predicate SameDanger(d1: Danger, d2: Danger)
  {
    d1 == d2 || (d1.Name? && d2.Name? && Converted(d1.name) == Converted(d2.name))
  }

  /** Two outcomes with the same fills, or the same exception. */
  predicate SameOutcome(o1: LayerOut, o2: LayerOut)
  {
    o1 == o2 || (o1.Done? && o2.Done? && o1.fills == o2.fills && SameDanger(o1.danger, o2.danger))
  }

  lemma LayerOfAlias(tier: string, direction: string, layer: string, seeds: SeedTable, colours: ColourTable,
                     d1: Danger, d2: Danger)
    requires SameDanger(d1, d2)
    ensures SameOutcome(LayerOf(tier, direction, layer, seeds, colours, d1),
                        LayerOf(tier, direction, layer, seeds, colours, d2))
  {
    var key := tier + "-" + layer;
    if key in seeds && direction in seeds[key] && seeds[key][direction] != [] && d1 != d2 {
      assert Converted(d1.name) == Converted(d2.name);
    }
  }

  lemma PrependAlias(fills: seq<Fill>, o1: LayerOut, o2: LayerOut)
    requires SameOutcome(o1, o2)
    ensures SameOutcome(Prepend(fills, o1), Prepend(fills, o2))
  {
  }

  lemma {:induction false} DirectionLayersAlias(tier: string, direction: string, layers: seq<string>, seeds: SeedTable,
                                                colours: ColourTable, d1: Danger, d2: Danger)
    requires SameDanger(d1, d2)
    ensures SameOutcome(DirectionLayers(tier, direction, layers, seeds, colours, d1),
                        DirectionLayers(tier, direction, layers, seeds, colours, d2))
    decreases |layers|
  {
    if layers != [] {
      var o1 := LayerOf(tier, direction, layers[0], seeds, colours, d1);
      var o2 := LayerOf(tier, direction, layers[0], seeds, colours, d2);
      LayerOfAlias(tier, direction, layers[0], seeds, colours, d1, d2);
      if o1.Done? && o2.Done? {
        DirectionLayersAlias(tier, direction, layers[1..], seeds, colours, o1.danger, o2.danger);
        PrependAlias(o1.fills, DirectionLayers(tier, direction, layers[1..], seeds, colours, o1.danger),
                     DirectionLayers(tier, direction, layers[1..], seeds, colours, o2.danger));
      }
    }
  }

  /** Danger strings that convert alike draw a direction alike. */
  lemma DirectionNumericAlias(tier: string, direction: string, s1: string, s2: string, seeds: SeedTable,
                              colours: ColourTable)
    requires Converted(s1) == Converted(s2)
    ensures DirectionFills(tier, (direction, s1), seeds, colours) == DirectionFills(tier, (direction, s2), seeds, colours)
  {
    DirectionLayersAlias(tier, direction, LAYERS, seeds, colours, Name(s1), Name(s2));
  }

  /** A danger given as its number, such as `"3"`, draws exactly as its name, such as `"considerable"`. */
  lemma NumberDrawsAsName(tier: string, direction: string, num: nat, seeds: SeedTable, colours: ColourTable)
    requires num <= 5
    ensures DirectionFills(tier, (direction, [('0' as int + num) as char]), seeds, colours)
         == DirectionFills(tier, (direction, NumToDanger(num).value), seeds, colours)
  {
    var digit := [('0' as int + num) as char];
    var name := NumToDanger(num).value;
    assert DecimalValue(digit) == num by {
      assert digit[..0] == [];
    }
    assert !('0' <= name[0] <= '9');
    assert Converted(digit) == Converted(name);
    DirectionNumericAlias(tier, direction, digit, name, seeds, colours);
  }

  /**
   * A number outside 0..5 has no name: the `colors` layer skips with a
   * KeyError and leaves `None` behind, and the next layer with seeds calls
   * `None.isnumeric()`, an AttributeError that ends `create_rose`.
   */
  lemma UnknownNumberCrashes(tier: string, direction: string, s: string, seeds: SeedTable, colours: ColourTable)
    requires IsNumeric(s) && DecimalValue(s) > 5
    requires var key := tier + "-" + "colors"; key in seeds && direction in seeds[key] && seeds[key][direction] != []
    requires var key := tier + "-" + "light-shadow"; key in seeds && direction in seeds[key] && seeds[key][direction] != []
    ensures DirectionFills(tier, (direction, s), seeds, colours) == Err(AttributeError)
  {
    assert LAYERS[0] == "colors" && LAYERS[1..][0] == "light-shadow";
    var first := LayerOf(tier, direction, LAYERS[0], seeds, colours, Name(s));
    assert first == Done([], NoName);
    var second := LayerOf(tier, direction, LAYERS[1..][0], seeds, colours, NoName);
    assert second == Crashed(AttributeError);
    assert DirectionLayers(tier, direction, LAYERS[1..], seeds, colours, NoName) == Crashed(AttributeError);
    assert DirectionLayers(tier, direction, LAYERS, seeds, colours, Name(s)) == Crashed(AttributeError);
  }

  // ---------------------------------------------------------------------
  // The four nested loops of create_rose
  // ---------------------------------------------------------------------

  /** The seed loop of one layer. */
  method FillLayer(img: Image, seeds: seq<Seed>, layerColours: Option<map<string, string>>, danger0: Danger)
    returns (res: Image, danger: Danger, crash: Option<Crash>)
    ensures crash.None? ==>
      Done(res.fills, danger) == Prepend(img.fills, LayerFills(seeds, layerColours, danger0)) && res.source == img.source
    ensures crash.Some? ==> LayerFills(seeds, layerColours, danger0) == Crashed(crash.value)
  {
    res, danger, crash := img, danger0, None;
    for k := 0 to |seeds|
      invariant res.source == img.source
      invariant Prepend(res.fills, LayerFills(seeds[k..], layerColours, danger))
             == Prepend(img.fills, LayerFills(seeds, layerColours, danger0))
    {
      assert seeds[k..][1..] == seeds[k + 1..];
      if danger.NoName? {
        crash := Some(AttributeError);
        return;
      }
      if IsNumeric(danger.name) {
        danger := DangerOf(NumToDanger(DecimalValue(danger.name)));
      }
      if layerColours.None? || danger.NoName? || danger.name !in layerColours.value {
        assert res.fills + [] == res.fills;
        return;
      }
      var filled := FillRegion(res, seeds[k], layerColours.value[danger.name]);
      if filled.Err? {
        crash := Some(filled.error);
        return;
      }
      PrependAssoc(res.fills, [Fill(seeds[k], HexToRgb(layerColours.value[danger.name]).value)],
                   LayerFills(seeds[k + 1..], layerColours, danger));
      res := filled.value;
    }
    assert res.fills + [] == res.fills;
  }

  /** The layer loop of one direction, with its `try`/`except KeyError`. */
  method FillDirection(img: Image, tier: string, direction: (string, string), seeds: SeedTable, colours: ColourTable)
    returns (res: Image, crash: Option<Crash>)
    ensures crash.None? ==>
      Then(Ok(img.fills), DirectionFills(tier, direction, seeds, colours)) == Ok(res.fills) && res.source == img.source
    ensures crash.Some? ==> DirectionFills(tier, direction, seeds, colours) == Err(crash.value)
  {
    res, crash := img, None;
    var danger := Name(direction.1);
    for l := 0 to |LAYERS|
      invariant res.source == img.source
      invariant Prepend(res.fills, DirectionLayers(tier, direction.0, LAYERS[l..], seeds, colours, danger))
             == Prepend(img.fills, DirectionLayers(tier, direction.0, LAYERS, seeds, colours, Name(direction.1)))
    {
      var layer := LAYERS[l];
      var key := tier + "-" + layer;
      assert LAYERS[l..][1..] == LAYERS[l + 1..];
      if key in seeds && direction.0 in seeds[key] {
        var next, d, c := FillLayer(res, seeds[key][direction.0], LayerColours(colours, layer), danger);
        if c.Some? {
          crash := c;
          return;
        }
        PrependAssoc(res.fills, next.fills[|res.fills|..],
                     DirectionLayers(tier, direction.0, LAYERS[l + 1..], seeds, colours, d));
        assert res.fills + next.fills[|res.fills|..] == next.fills;
        res, danger := next, d;
      } else {
        assert res.fills + [] == res.fills;
      }
    }
    assert res.fills + [] == res.fills;
  }

  /** The direction loop of one tier. */
  method FillTier(img: Image, tier: string, directions: seq<(string, string)>, seeds: SeedTable, colours: ColourTable)
    returns (res: Image, crash: Option<Crash>)
    ensures crash.None? ==>
      Then(Ok(img.fills), TierFills(tier, directions, seeds, colours)) == Ok(res.fills) && res.source == img.source
    ensures crash.Some? ==> TierFills(tier, directions, seeds, colours) == Err(crash.value)
  {
    res, crash := img, None;
    for j := 0 to |directions|
      invariant res.source == img.source && crash.None?
      invariant Then(Ok(res.fills), TierFills(tier, directions[j..], seeds, colours))
             == Then(Ok(img.fills), TierFills(tier, directions, seeds, colours))
    {
      assert directions[j..][1..] == directions[j + 1..];
      var before := res;
      res, crash := FillDirection(before, tier, directions[j], seeds, colours);
      if crash.Some? {
        assert TierFills(tier, directions[j..], seeds, colours) == Err(crash.value);
        assert Then(Ok(before.fills), TierFills(tier, directions[j..], seeds, colours)) == Err(crash.value);
        return;
      }
      ThenAssoc(Ok(before.fills), DirectionFills(tier, directions[j], seeds, colours),
                TierFills(tier, directions[j + 1..], seeds, colours));
    }
    assert res.fills + [] == res.fills;
  }

  /**
   * `create_rose`: open the blank rose and walk tier, direction, layer and
   * seed, rebinding the image to each filled copy. The image it returns
   * carries exactly the planned fills, in order; an uncaught exception
   * yields that exception.
   */
  method CreateRose(imagePath: string, input: RoseInput, seeds: SeedTable, colours: ColourTable)
    returns (result: Result<Image, Crash>)
    ensures RosePlan(input, seeds, colours).Ok? <==> result.Ok?
    ensures result.Ok? ==>
      result.value.fills == RosePlan(input, seeds, colours).value && result.value.source == imagePath
    ensures result.Err? ==> result.error == RosePlan(input, seeds, colours).error
  {
    var img := new Image.Open(imagePath);
    assert Then(Ok([]), RosePlan(input, seeds, colours)) == RosePlan(input, seeds, colours) by {
      var p := RosePlan(input, seeds, colours);
      if p.Ok? { assert [] + p.value == p.value; }
    }
    for i := 0 to |input|
      invariant img.source == imagePath
      invariant Then(Ok(img.fills), RosePlan(input[i..], seeds, colours)) == RosePlan(input, seeds, colours)
    {
      assert input[i..][1..] == input[i + 1..];
      var before := img;
      var crash;
      img, crash := FillTier(before, input[i].0, input[i].1, seeds, colours);
      if crash.Some? {
        return Err(crash.value);
      }
      ThenAssoc(Ok(before.fills), TierFills(input[i].0, input[i].1, seeds, colours),
                RosePlan(input[i + 1..], seeds, colours));
    }
    assert img.fills + [] == img.fills;
    result := Ok(img);
  }
}
