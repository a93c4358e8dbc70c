/** Style resolution: colours (rgb, then theme, then the indexed palette), border widths, the
  * `apply*` flags of a cell format, and the CSS property maps built from fonts, fills, borders,
  * differential formats and cell formats. A CSS object is a map from property (named by
  * `PropName`) to value. */
module Styles {
  import opened Wrappers
  import opened Text
  import opened Numbers

  type Css = map<Prop, string>

  /** An attribute as the style helpers (`resolveColor`, `borderStyleToPx`, `fontToCss`) test
    * it for truthiness: present and non-empty. */
  predicate Present(a: Option<string>) { a.Some? && a.value != "" }

  // ---- normalizeRgb ----

  predicate IsHexDigit(c: char) { IsDigit(c) || 'A' <= c <= 'F' || 'a' <= c <= 'f' }

  predicate StartsHexPrefix(s: string) { |s| >= 2 && s[0] == '0' && (s[1] == 'x' || s[1] == 'X') }

  /** `raw.replace(/^0x/i, '').replace(/^#/, '')`. */
  function StripPrefixes(raw: string): (s: string)
    ensures |s| <= |raw| && s == raw[|raw| - |s|..]
  {
    var a := if StartsHexPrefix(raw) then raw[2..] else raw;
    if a != [] && a[0] == '#' then a[1..] else a
  }

  /** `normalizeRgb`: after the prefixes, eight characters lose the first two (the alpha), six are
    * kept, and any other length (or an empty input) gives `None`. */
  function NormalizeRgb(raw: string): (r: Option<string>)
    ensures r.Some? ==> |r.value| == 7 && r.value[0] == '#'
    ensures r.Some? ==> |raw| >= 6 && r.value[1..] == raw[|raw| - 6..]
    ensures r.Some? <==> raw != "" && (|StripPrefixes(raw)| == 8 || |StripPrefixes(raw)| == 6)
  {
    if raw == "" then None
    else
      var s := StripPrefixes(raw);
      if |s| == 8 then Some("#" + s[2..])
      else if |s| == 6 then Some("#" + s)
      else None
  }

  /** Six hex digits are kept as they are, behind a `#`. */
  lemma SixDigitsKept(h: string)
    requires |h| == 6 && forall i :: 0 <= i < 6 ==> IsHexDigit(h[i])
    ensures NormalizeRgb(h) == Some("#" + h)
  {
  }

  /** An ARGB value loses its alpha byte. */
  lemma AlphaDropped(h: string)
    requires |h| == 8 && forall i :: 0 <= i < 8 ==> IsHexDigit(h[i])
    ensures NormalizeRgb(h) == Some("#" + h[2..])
  {
    assert !StartsHexPrefix(h) by { assert IsHexDigit(h[1]); }
  }

  /** Inputs that strip to the same text normalize alike. */
  lemma SameStripSameColor(a: string, b: string)
    requires a != "" && b != "" && StripPrefixes(a) == StripPrefixes(b)
    ensures NormalizeRgb(a) == NormalizeRgb(b)
  {
  }

  lemma StripHash(h: string)
    requires h != [] && h[0] != '#' && !StartsHexPrefix(h)
    ensures StripPrefixes(h) == h && StripPrefixes("#" + h) == h
  {
    var s := "#" + h;
    assert s[0] == '#' && s[1..] == h;
  }

  lemma StripHex(h: string, x: char)
    requires x == 'x' || x == 'X'
    requires !StartsHexPrefix(h)
    ensures StripPrefixes(['0', x] + h) == StripPrefixes(h)
  {
    var s := ['0', x] + h;
    assert StartsHexPrefix(s) && s[2..] == h;
  }

  /** A leading `0x` (in any case), a leading `#`, or both in that order, change nothing. */
  lemma PrefixesIgnored(h: string)
    requires h != [] && h[0] != '#' && !StartsHexPrefix(h)
    ensures NormalizeRgb("#" + h) == NormalizeRgb(h)
    ensures NormalizeRgb("0x" + h) == NormalizeRgb(h) && NormalizeRgb("0X" + h) == NormalizeRgb(h)
    ensures NormalizeRgb("0x#" + h) == NormalizeRgb(h)
  {
    StripHash(h);
    SameStripSameColor("#" + h, h);
    StripHex(h, 'x');
    assert "0x" + h == ['0', 'x'] + h;
    SameStripSameColor("0x" + h, h);
    StripHex(h, 'X');
    assert "0X" + h == ['0', 'X'] + h;
    SameStripSameColor("0X" + h, h);
    assert !StartsHexPrefix("#" + h);
    StripHex("#" + h, 'x');
    assert "0x#" + h == ['0', 'x'] + ("#" + h);
    SameStripSameColor("0x#" + h, h);
  }

  /** Normalizing a normalized colour gives it back. */
  lemma NormalizeIdempotent(raw: string)
    requires NormalizeRgb(raw).Some?
    ensures NormalizeRgb(NormalizeRgb(raw).value) == NormalizeRgb(raw)
  {
    var r := NormalizeRgb(raw).value;
    assert !StartsHexPrefix(r);
    assert StripPrefixes(r) == r[1..];
  }

  // ---- resolveColor ----

  /** The colour attributes of a font, border side or fill colour; `tint` is not modelled. */
  datatype ColorSpec = ColorSpec(rgb: Option<string>, theme: Option<string>, indexed: Option<string>)

  /** The standard indexed palette. */
  const INDEXED_COLORS: seq<string> := [
    "000000", "FFFFFF", "FF0000", "00FF00", "0000FF", "FFFF00", "FF00FF", "00FFFF",
    "000000", "FFFFFF", "FF0000", "00FF00", "0000FF", "FFFF00", "FF00FF", "00FFFF",
    "800000", "008000", "000080", "808000", "800080", "008080", "C0C0C0", "808080",
    "9999FF", "993366", "FFFFCC", "CCFFFF", "660066", "FF8080", "0066CC", "CCCCFF",
    "000080", "FF00FF", "FFFF00", "00FFFF", "800080", "800000", "008080", "0000FF",
    "00CCFF", "CCFFFF", "CCFFCC", "FFFF99", "99CCFF", "FF99CC", "CC99FF", "FFCC99",
    "3366FF", "33CCCC", "99CC00", "FFCC00", "FF9900", "FF6600", "666699", "969696",
    "003366", "339966", "003300", "333300", "993300", "993366", "333399", "333333"]

  /** `s.replace('#', '')`: the first `#` removed, wherever it is. */
  function RemoveFirstHash(s: string): (r: string)
    ensures '#' !in s ==> r == s
    ensures '#' in s ==> |r| == |s| - 1
  {
    if s == [] then []
    else if s[0] == '#' then s[1..]
    else [s[0]] + RemoveFirstHash(s[1..])
  }

  /** Only the first `#` goes: what comes before it is kept, and so is everything after it. */
  lemma {:induction false} RemoveFirstHashSplits(a: string, b: string)
    requires '#' !in a
    ensures RemoveFirstHash(a + "#" + b) == a + b
  {
    var s := a + "#" + b;
    if a == [] {
      assert s == "#" + b;
    } else {
      var rest := a[1..] + "#" + b;
      assert s[0] == a[0] && s[1..] == rest;
      assert a[0] in a;
      assert RemoveFirstHash(s) == [a[0]] + RemoveFirstHash(rest);
      assert '#' !in a[1..] by { assert forall c :: c in a[1..] ==> c in a; }
      RemoveFirstHashSplits(a[1..], b);
      assert a == [a[0]] + a[1..];
    }
  }

  /** The theme step: a readable index with a non-empty theme colour. */
  function ThemeColor(theme: Option<string>, themeColors: map<int, string>): (r: Option<string>)
    ensures r.Some? ==> r.value != [] && r.value[0] == '#'
  {
    match theme
    case None => None
    case Some(raw) =>
      match ParseIntPrefix(raw)
      case None => None
      case Some(idx) =>
        if idx in themeColors && themeColors[idx] != "" then Some("#" + RemoveFirstHash(themeColors[idx]))
        else None
  }

  /** The palette step: a readable index inside the palette. */
  function IndexedColor(indexed: Option<string>): (r: Option<string>)
    ensures r.Some? ==> r.value != [] && r.value[0] == '#'
  {
    match indexed
    case None => None
    case Some(raw) =>
      match ParseIntPrefix(raw)
      case None => None
      case Some(idx) => if 0 <= idx < |INDEXED_COLORS| then Some("#" + INDEXED_COLORS[idx]) else None
  }

  /** `resolveColor` without a tint: a present rgb decides alone (a malformed one gives `None`),
    * else a usable theme slot, else a usable palette index, else `None`. Every colour it gives
    * starts with `#`. */
  function ResolveColor(color: Option<ColorSpec>, themeColors: map<int, string>): (r: Option<string>)
    ensures r.Some? ==> r.value != [] && r.value[0] == '#'
    ensures color.None? ==> r.None?
    ensures color.Some? && Present(color.value.rgb) ==> r == NormalizeRgb(color.value.rgb.value)
  {
    match color
    case None => None
    case Some(c) =>
      if Present(c.rgb) then NormalizeRgb(c.rgb.value)
      else
        var t := ThemeColor(c.theme, themeColors);
        if t.Some? then t else IndexedColor(c.indexed)
  }

  /** Without an rgb, a usable theme slot wins over the palette. */
  lemma ThemeBeforeIndexed(c: ColorSpec, themeColors: map<int, string>, i: int)
    requires !Present(c.rgb) && i in themeColors && themeColors[i] != ""
    ensures ResolveColor(Some(c.(theme := Some(IntToStr(i)))), themeColors) ==
            Some("#" + RemoveFirstHash(themeColors[i]))
  {
    ParseIntPrefixOfIntToStr(i);
  }

  /** Without an rgb or a usable theme slot, a readable palette index resolves exactly when it is
    * inside the palette, to that palette entry. */
  lemma IndexedIffInPalette(c: ColorSpec, themeColors: map<int, string>, raw: string, idx: int)
    requires !Present(c.rgb) && ThemeColor(c.theme, themeColors).None?
    requires c.indexed == Some(raw) && ParseIntPrefix(raw) == Some(idx)
    ensures ResolveColor(Some(c), themeColors).Some? <==> 0 <= idx < 64
    ensures 0 <= idx < 64 ==> ResolveColor(Some(c), themeColors) == Some("#" + INDEXED_COLORS[idx])
  {
  }

  /** A palette index written as an integer reads back as that palette entry. */
  lemma PaletteEntryRead(i: int, themeColors: map<int, string>)
    requires 0 <= i < 64
    ensures ResolveColor(Some(ColorSpec(None, None, Some(IntToStr(i)))), themeColors) == Some("#" + INDEXED_COLORS[i])
  {
    ParseIntPrefixOfIntToStr(i);
  }

  // ---- borderStyleToPx ----

  /** `borderStyleToPx`: thin and hair are 1px, medium 2px, thick 3px, in any case; anything
    * else, and a missing style, 1px. */
  function BorderStyleToPx(style: Option<string>): (px: string)
    ensures px == "1px" || px == "2px" || px == "3px"
    ensures px == "2px" <==> Present(style) && Lower(style.value) == "medium"
    ensures px == "3px" <==> Present(style) && Lower(style.value) == "thick"
  {
    if !Present(style) then "1px"
    else
      var s := Lower(style.value);
      if s == "thin" || s == "hair" then "1px"
      else if s == "medium" then "2px"
      else if s == "thick" then "3px"
      else "1px"
  }

  /** The width does not depend on the case of the style name. */
  lemma BorderWidthIgnoresCase(s: string)
    ensures BorderStyleToPx(Some(Upper(s))) == BorderStyleToPx(Some(s))
    ensures BorderStyleToPx(Some(Lower(s))) == BorderStyleToPx(Some(s))
  {
    LowerOfUpper(s);
    LowerIdempotent(s);
  }

  lemma ThinIsOnePx()
    ensures BorderStyleToPx(Some("thin")) == "1px"
  {
    assert Lower("thin") == "thin";
  }

  lemma MediumIsTwoPx()
    ensures BorderStyleToPx(Some("medium")) == "2px"
  {
    assert Lower("medium") == "medium";
  }

  // ---- shouldApply ----

  /** One cell format (`xf`): its font, fill, border and base-format indices and its flags. */
  datatype Xf = Xf(fontId: Option<string>, fillId: Option<string>, borderId: Option<string>,
                   xfId: Option<string>,
                   applyFont: Option<string>, applyFill: Option<string>, applyBorder: Option<string>)

  datatype ApplyKey = ApplyFont | ApplyFill | ApplyBorder

  function Flag(xf: Xf, key: ApplyKey): Option<string>
  {
    match key
    case ApplyFont => xf.applyFont
    case ApplyFill => xf.applyFill
    case ApplyBorder => xf.applyBorder
  }

  /** `shouldApply`: no format applies nothing, a missing flag applies, and a present flag
    * applies only when it is `'1'`. */
  function ShouldApply(xf: Option<Xf>, key: ApplyKey): (b: bool)
    ensures b <==> xf.Some? && (Flag(xf.value, key).None? || Flag(xf.value, key) == Some("1"))
  {
    match xf
    case None => false
    case Some(x) =>
      match Flag(x, key)
      case None => true
      case Some(raw) => raw == "1"
  }

  // ---- CSS properties ----

  /** The CSS properties the style mapping writes. */
  datatype Prop = FontFamily | FontWeight | FontStyle | TextDecoration | Color | BackgroundColor
                | BorderTop | BorderRight | BorderBottom | BorderLeft

  const ALL_PROPS: set<Prop> := {FontFamily, FontWeight, FontStyle, TextDecoration, Color, BackgroundColor,
                                 BorderTop, BorderRight, BorderBottom, BorderLeft}

  /** The name a property has in a CSS object. */
  function PropName(p: Prop): string
  {
    match p
    case FontFamily => "fontFamily"
    case FontWeight => "fontWeight"
    case FontStyle => "fontStyle"
    case TextDecoration => "textDecoration"
    case Color => "color"
    case BackgroundColor => "backgroundColor"
    case BorderTop => "borderTop"
    case BorderRight => "borderRight"
    case BorderBottom => "borderBottom"
    case BorderLeft => "borderLeft"
  }

  /** Distinct properties have distinct names, so a map over properties is a CSS object. */
  lemma PropNamesDistinct(p: Prop, q: Prop)
    requires PropName(p) == PropName(q)
    ensures p == q
  {
    var n, m := PropName(p), PropName(q);
    assert |n| == |m| && n[0] == m[0];
    if |n| > 6 { assert n[6] == m[6]; }
    if |n| > 9 { assert n[9] == m[9]; }
  }

  // ---- fontToCss ----

  /** A font: its name, its bold, italic, underline and strike flags and its colour (the size is
    * not modelled). */
  datatype Font = Font(name: Option<string>, bold: bool, italic: bool, underline: bool, strike: bool,
                       color: ColorSpec)

  /** The decorations of a font, underline before line-through. */
  function Decoration(underline: bool, strike: bool): Option<string>
  {
    if underline && strike then Some("underline line-through")
    else if underline then Some("underline")
    else if strike then Some("line-through")
    else None
  }

  /** The value `fontToCss` gives one property, if any, for a font whose colour resolves to
    * `color`. */
  function FontField(f: Font, color: Option<string>, p: Prop): Option<string>
  {
    match p
    case FontFamily => if Present(f.name) then f.name else None
    case FontWeight => if f.bold then Some("bold") else None
    case FontStyle => if f.italic then Some("italic") else None
    case TextDecoration => Decoration(f.underline, f.strike)
    case Color => color
    case _ => None
  }

  /** The CSS of a font: every font property that has a value. */
  function FontCss(font: Option<Font>, themeColors: map<int, string>): Css
  {
    match font
    case None => map[]
    case Some(f) =>
      var color := ResolveColor(Some(f.color), themeColors);
      map p | p in ALL_PROPS && FontField(f, color, p).Some? :: FontField(f, color, p).value
  }

  /** The decorations collected in order and joined with a space are `Decoration`. */
  lemma DecorationsJoined(underline: bool, strike: bool)
    ensures var ds := (if underline then ["underline"] else []) + (if strike then ["line-through"] else []);
      (ds != [] <==> Decoration(underline, strike).Some?) &&
      (ds != [] ==> Join(ds, " ") == Decoration(underline, strike).value)
  {
    if underline && strike {
      var ds := ["underline", "line-through"];
      assert ds[1..] == ["line-through"];
      assert Join(ds, " ") == "underline" + " " + "line-through";
    }
  }

  /** The properties of a font in the order `fontToCss` writes them. */
  function FontRank(p: Prop): nat
  {
    match p
    case FontFamily => 0
    case FontWeight => 1
    case FontStyle => 2
    case TextDecoration => 3
    case Color => 4
    case _ => 5
  }

  /** `css` holds exactly the font's properties of rank below `k`. */
  predicate FontDone(css: Css, f: Font, color: Option<string>, k: nat)
  {
    (forall p :: p in css <==> FontRank(p) < k && FontField(f, color, p).Some?) &&
    (forall p :: p in css ==> css[p] == FontField(f, color, p).value)
  }

  /** Writing the next property, when it has a value, extends what is done by one rank. */
  lemma FontStep(css: Css, f: Font, color: Option<string>, p: Prop, next: Css)
    requires FontRank(p) < 5 && FontDone(css, f, color, FontRank(p))
    requires FontField(f, color, p).Some? ==> next == css[p := FontField(f, color, p).value]
    requires FontField(f, color, p).None? ==> next == css
    ensures FontDone(next, f, color, FontRank(p) + 1)
  {
  }

  /** `fontToCss`, property by property; the decorations are collected in a list and joined with
    * a space. */
  method FontToCss(font: Option<Font>, themeColors: map<int, string>) returns (css: Css)
    ensures css == FontCss(font, themeColors)
  {
    css := map[];
    if font.None? {
      return;
    }
    var f := font.value;
    ghost var color := ResolveColor(Some(f.color), themeColors);
    ghost var before := css;
    if Present(f.name) {
      css := css[FontFamily := f.name.value];
    }
    FontStep(before, f, color, FontFamily, css);
    before := css;
    if f.bold {
      css := css[FontWeight := "bold"];
    }
    FontStep(before, f, color, FontWeight, css);
    before := css;
    if f.italic {
      css := css[FontStyle := "italic"];
    }
    FontStep(before, f, color, FontStyle, css);
    before := css;
    var decorations: seq<string> := [];
    if f.underline {
      decorations := decorations + ["underline"];
    }
    assert decorations == (if f.underline then ["underline"] else []);
    if f.strike {
      decorations := decorations + ["line-through"];
    }
    DecorationsJoined(f.underline, f.strike);
    if |decorations| > 0 {
      css := css[TextDecoration := Join(decorations, " ")];
    }
    FontStep(before, f, color, TextDecoration, css);
    before := css;
    var fontColor := ResolveColor(Some(f.color), themeColors);
    if fontColor.Some? {
      css := css[Color := fontColor.value];
    }
    FontStep(before, f, color, Color, css);
    FontDoneIsFontCss(css, f, color, themeColors);
  }

  /** Once every rank is done, the map is the font's CSS. */
  lemma FontDoneIsFontCss(css: Css, f: Font, color: Option<string>, themeColors: map<int, string>)
    requires color == ResolveColor(Some(f.color), themeColors) && FontDone(css, f, color, 5)
    ensures css == FontCss(Some(f), themeColors)
  {
    assert forall p :: p in css <==> p in ALL_PROPS && FontField(f, color, p).Some?;
  }

  /** The decoration is `underline`, `line-through` or `underline line-through`, in that order,
    * and there is none when the font has neither. */
  lemma DecorationOrder(f: Font, themeColors: map<int, string>)
    ensures TextDecoration in FontCss(Some(f), themeColors) <==> f.underline || f.strike
    ensures f.underline && f.strike ==> FontCss(Some(f), themeColors)[TextDecoration] == "underline line-through"
    ensures f.underline && !f.strike ==> FontCss(Some(f), themeColors)[TextDecoration] == "underline"
    ensures !f.underline && f.strike ==> FontCss(Some(f), themeColors)[TextDecoration] == "line-through"
  {
  }

  /** A font writes only font properties. */
  lemma FontCssKeys(font: Option<Font>, themeColors: map<int, string>)
    ensures forall p :: p in FontCss(font, themeColors) ==> p.FontFamily? || p.FontWeight? || p.FontStyle? || p.TextDecoration? || p.Color?
  {
  }

  // ---- borderDefToCss ----

  /** A border side: its style and its colour. */
  datatype BorderSide = BorderSide(style: Option<string>, color: ColorSpec)

  /** A border definition; the diagonal is not read by the CSS mapping. */
  datatype BorderDef = BorderDef(top: Option<BorderSide>, right: Option<BorderSide>,
                                 bottom: Option<BorderSide>, left: Option<BorderSide>)

  datatype Side = Top | Right | Bottom | Left

  /** The sides in the order they are written. */
  const SIDES: seq<Side> := [Top, Right, Bottom, Left]

  function SideName(side: Side): string
  {
    match side
    case Top => "top"
    case Right => "right"
    case Bottom => "bottom"
    case Left => "left"
  }

  function SideOf(def: BorderDef, side: Side): Option<BorderSide>
  {
    match side
    case Top => def.top
    case Right => def.right
    case Bottom => def.bottom
    case Left => def.left
  }

  /** The property a side is written under. */
  function SideProp(side: Side): (p: Prop)
    ensures PropName(p) == CssKey(SideName(side))
  {
    match side
    case Top => assert CssKey("top") == "borderTop"; BorderTop
    case Right => assert CssKey("right") == "borderRight"; BorderRight
    case Bottom => assert CssKey("bottom") == "borderBottom"; BorderBottom
    case Left => assert CssKey("left") == "borderLeft"; BorderLeft
  }

  /** The name of a side's property: `border` and the side name capitalized. */
  function CssKey(side: string): string
    requires side != ""
  {
    "border" + [UpperChar(side[0])] + side[1..]
  }

  /** The side a border property is about. */
  function PropSide(p: Prop): Option<Side>
  {
    match p
    case BorderTop => Some(Top)
    case BorderRight => Some(Right)
    case BorderBottom => Some(Bottom)
    case BorderLeft => Some(Left)
    case _ => None
  }

  /** `<px> solid <colour>`, with `#000` when no colour resolves. */
  function SideCss(s: BorderSide, themeColors: map<int, string>): string
  {
    var c := ResolveColor(Some(s.color), themeColors);
    BorderStyleToPx(s.style) + " solid " + (if c.Some? then c.value else "#000")
  }

  /** The side of a definition a property writes, if it is a border property and the side is
    * present. */
  function PropBorder(d: BorderDef, p: Prop): Option<BorderSide>
  {
    match PropSide(p)
    case None => None
    case Some(side) => SideOf(d, side)
  }

  /** The CSS of a border definition: one property per present side. */
  function BorderCss(def: Option<BorderDef>, themeColors: map<int, string>): Css
  {
    match def
    case None => map[]
    case Some(d) =>
      map p | p in ALL_PROPS && PropBorder(d, p).Some? :: SideCss(PropBorder(d, p).value, themeColors)
  }

  function SideRank(side: Side): nat
  {
    match side
    case Top => 0
    case Right => 1
    case Bottom => 2
    case Left => 3
  }

  /** `css` holds exactly the present sides of rank below `k`. */
  predicate BorderDone(css: Css, d: BorderDef, themeColors: map<int, string>, k: nat)
  {
    (forall p :: p in css <==> PropBorder(d, p).Some? && SideRank(PropSide(p).value) < k) &&
    (forall p :: p in css ==> css[p] == SideCss(PropBorder(d, p).value, themeColors))
  }

  /** Writing the next side, when it is present, extends what is done by one rank. */
  lemma BorderStep(css: Css, d: BorderDef, themeColors: map<int, string>, side: Side, next: Css)
    requires BorderDone(css, d, themeColors, SideRank(side))
    requires SideOf(d, side).Some? ==> next == css[SideProp(side) := SideCss(SideOf(d, side).value, themeColors)]
    requires SideOf(d, side).None? ==> next == css
    ensures BorderDone(next, d, themeColors, SideRank(side) + 1)
  {
    assert PropSide(SideProp(side)) == Some(side);
  }

  /** Once all four sides are done, the map is the border's CSS. */
  lemma BorderDoneIsBorderCss(css: Css, d: BorderDef, themeColors: map<int, string>)
    requires BorderDone(css, d, themeColors, 4)
    ensures css == BorderCss(Some(d), themeColors)
  {
    assert forall p :: p in css <==> p in ALL_PROPS && PropBorder(d, p).Some?;
  }

  /** `borderDefToCss`: the sides in order, each present one written under its property. */
  method BorderDefToCss(def: Option<BorderDef>, themeColors: map<int, string>) returns (css: Css)
    ensures css == BorderCss(def, themeColors)
  {
    css := map[];
    if def.None? {
      return;
    }
    var d := def.value;
    for i := 0 to |SIDES|
      invariant BorderDone(css, d, themeColors, i)
    {
      var side := SIDES[i];
      assert SideRank(side) == i;
      ghost var before := css;
      var sideObj := SideOf(d, side);
      if sideObj.Some? {
        var px := BorderStyleToPx(sideObj.value.style);
        var color := "#000";
        var resolved := ResolveColor(Some(sideObj.value.color), themeColors);
        if resolved.Some? {
          color := resolved.value;
        }
        assert px + " solid " + color == SideCss(sideObj.value, themeColors);
        css := css[SideProp(side) := px + " solid " + color];
      }
      BorderStep(before, d, themeColors, side, css);
    }
    BorderDoneIsBorderCss(css, d, themeColors);
  }

  /** Each side is written under `border` and its capitalized name, exactly when it is present,
    * as that side's CSS; nothing but border properties is written. */
  lemma BorderSideWritten(d: BorderDef, themeColors: map<int, string>, side: Side)
    ensures PropName(SideProp(side)) == CssKey(SideName(side))
    ensures SideProp(side) in BorderCss(Some(d), themeColors) <==> SideOf(d, side).Some?
    ensures SideOf(d, side).Some? ==>
      BorderCss(Some(d), themeColors)[SideProp(side)] == SideCss(SideOf(d, side).value, themeColors)
    ensures forall p :: p in BorderCss(Some(d), themeColors) ==> PropSide(p).Some?
  {
    assert PropSide(SideProp(side)) == Some(side);
  }

  /** A side whose colour does not resolve is drawn in `#000`. */
  lemma UnresolvedSideIsBlack(s: BorderSide, themeColors: map<int, string>)
    requires ResolveColor(Some(s.color), themeColors).None?
    ensures SideCss(s, themeColors) == BorderStyleToPx(s.style) + " solid #000"
  {
  }

  // ---- dxfToCss ----

  /** A differential format of a conditional rule: a font, a fill colour and a border. */
  datatype Dxf = Dxf(font: Option<Font>, fill: Option<ColorSpec>, border: Option<BorderDef>)

  function FillCss(fill: Option<ColorSpec>, themeColors: map<int, string>): Css
  {
    var c := ResolveColor(fill, themeColors);
    if c.Some? then map[BackgroundColor := c.value] else map[]
  }

  /** The CSS of a differential format: the font's, the fill colour as background and the
    * border's. */
  function DxfCss(dxf: Dxf, themeColors: map<int, string>): Css
  {
    FontCss(dxf.font, themeColors) + FillCss(dxf.fill, themeColors) + BorderCss(dxf.border, themeColors)
  }

  /** Writing one property is joining a one-entry map. */
  lemma UpdateIsJoin(m: Css, p: Prop, v: string)
    ensures m[p := v] == m + map[p := v]
  {
  }

  /** `dxfToCss`. */
  method DxfToCss(dxf: Dxf, themeColors: map<int, string>) returns (css: Css)
    ensures css == DxfCss(dxf, themeColors)
  {
    css := map[];
    if dxf.font.Some? {
      var fontCss := FontToCss(dxf.font, themeColors);
      assert map[] + fontCss == fontCss;
      css := css + fontCss;
    }
    assert css == FontCss(dxf.font, themeColors);
    if dxf.fill.Some? {
      var resolved := ResolveColor(dxf.fill, themeColors);
      if resolved.Some? {
        UpdateIsJoin(css, BackgroundColor, resolved.value);
        css := css[BackgroundColor := resolved.value];
      }
    }
    assert css == FontCss(dxf.font, themeColors) + FillCss(dxf.fill, themeColors);
    if dxf.border.Some? {
      var borderCss := BorderDefToCss(dxf.border, themeColors);
      css := css + borderCss;
    }
  }

  /** The three parts write disjoint properties, so each property of a differential format's CSS
    * is exactly what its own part gives. */
  lemma DxfPartsDisjoint(dxf: Dxf, themeColors: map<int, string>)
    ensures forall p :: p in DxfCss(dxf, themeColors) && PropSide(p).None? && !p.BackgroundColor? ==>
      p in FontCss(dxf.font, themeColors) && DxfCss(dxf, themeColors)[p] == FontCss(dxf.font, themeColors)[p]
    ensures BackgroundColor in DxfCss(dxf, themeColors) <==> ResolveColor(dxf.fill, themeColors).Some?
    ensures forall p :: p in DxfCss(dxf, themeColors) && PropSide(p).Some? ==>
      p in BorderCss(dxf.border, themeColors) && DxfCss(dxf, themeColors)[p] == BorderCss(dxf.border, themeColors)[p]
  {
    FontCssKeys(dxf.font, themeColors);
    if dxf.border.Some? {
      BorderSideWritten(dxf.border.value, themeColors, Top);
    }
  }

  // ---- the colours of the conditional-formatting tests ----

  /** An ARGB colour with full alpha reads as its last six digits. */
  lemma OpaqueArgbRead(h: string)
    requires |h| == 8 && h[0] == 'F' && h[1] == 'F'
    ensures ResolveColor(Some(ColorSpec(Some(h), None, None)), map[]) == Some("#" + h[2..])
  {
    assert !StartsHexPrefix(h) && h[0] != '#';
    assert StripPrefixes(h) == h;
  }

  /** Example from the conditional-format tests (not a general property): a red font and a
    * green fill. */
  lemma ArgbColorsExample()
    ensures ResolveColor(Some(ColorSpec(Some("FFFF0000"), None, None)), map[]) == Some("#FF0000")
    ensures ResolveColor(Some(ColorSpec(Some("FF00FF00"), None, None)), map[]) == Some("#00FF00")
  {
    var red, green := "FFFF0000", "FF00FF00";
    OpaqueArgbRead(red);
    assert "#" + red[2..] == "#FF0000";
    OpaqueArgbRead(green);
    assert "#" + green[2..] == "#00FF00";
  }

  /** Example from the same test: the thin blue side. */
  lemma ArgbSideExample(side: BorderSide)
    requires side == BorderSide(Some("thin"), ColorSpec(Some("FF0000FF"), None, None))
    ensures SideCss(side, map[]) == "1px solid #0000FF"
  {
    BlueRead();
    ThinIsOnePx();
    SideCssOf(side, map[], "1px", "#0000FF");
    assert "1px" + " solid " + "#0000FF" == "1px solid #0000FF";
  }

  lemma BlueRead()
    ensures ResolveColor(Some(ColorSpec(Some("FF0000FF"), None, None)), map[]) == Some("#0000FF")
  {
    var blue := "FF0000FF";
    OpaqueArgbRead(blue);
    assert "#" + blue[2..] == "#0000FF";
  }

  lemma SideCssOf(s: BorderSide, themeColors: map<int, string>, px: string, color: string)
    requires BorderStyleToPx(s.style) == px && ResolveColor(Some(s.color), themeColors) == Some(color)
    ensures SideCss(s, themeColors) == px + " solid " + color
  {
  }

  lemma SmallNumbersRead()
    ensures ParseIntPrefix("2") == Some(2) && ParseIntPrefix("5") == Some(5)
  {
    ParseIntPrefixOfIntToStr(2);
    ParseIntPrefixOfIntToStr(5);
    assert IntToStr(2) == "2" && IntToStr(5) == "5";
  }

  lemma HashRemoved()
    ensures RemoveFirstHash("#123456") == "123456" && RemoveFirstHash("#abcdef") == "abcdef"
  {
    assert "#123456"[0] == '#' && "#123456"[1..] == "123456";
    assert "#abcdef"[0] == '#' && "#abcdef"[1..] == "abcdef";
  }

  /** Example from the conditional-format tests (not a general property): slot 2 for the
    * font, slot 5 for the fill. */
  lemma ThemeColorsExample()
    ensures ResolveColor(Some(ColorSpec(None, Some("2"), None)), map[2 := "#123456", 5 := "#abcdef"]) == Some("#123456")
    ensures ResolveColor(Some(ColorSpec(None, Some("5"), None)), map[2 := "#123456", 5 := "#abcdef"]) == Some("#abcdef")
  {
    SmallNumbersRead();
    HashRemoved();
    var tc := map[2 := "#123456", 5 := "#abcdef"];
    assert 2 in tc && tc[2] == "#123456" && 5 in tc && tc[5] == "#abcdef";
    assert ThemeColor(Some("2"), tc) == Some("#" + "123456");
    assert ThemeColor(Some("5"), tc) == Some("#" + "abcdef");
    assert "#" + "123456" == "#123456" && "#" + "abcdef" == "#abcdef";
  }

  /** Example from the same test: the medium bottom side, in the colour slot 2 resolves to. */
  lemma ThemeSideExample(themeColors: map<int, string>)
    requires ResolveColor(Some(ColorSpec(None, Some("2"), None)), themeColors) == Some("#123456")
    ensures SideCss(BorderSide(Some("medium"), ColorSpec(None, Some("2"), None)), themeColors) == "2px solid #123456"
  {
    MediumIsTwoPx();
    assert "2px" + " solid " + "#123456" == "2px solid #123456";
  }

  // ---- applyXfStyle and getCellStyle ----

  /** A fill: its pattern type and its foreground colour. */
  datatype Fill = Fill(patternType: Option<string>, fg: Option<ColorSpec>)

  /** The element a present, readable index attribute picks out of a list, if any. */
  function At<T>(xs: seq<T>, raw: Option<string>): (r: Option<T>)
    ensures r.Some? ==> (raw.Some? && ParseIntPrefix(raw.value).Some? &&
                         0 <= ParseIntPrefix(raw.value).value < |xs| && r.value == xs[ParseIntPrefix(raw.value).value])
    ensures raw.Some? && ParseIntPrefix(raw.value).Some? && 0 <= ParseIntPrefix(raw.value).value < |xs| ==> r.Some?
  {
    match raw
    case None => None
    case Some(s) =>
      match ParseIntPrefix(s)
      case None => None
      case Some(i) => if 0 <= i < |xs| then Some(xs[i]) else None
  }

  /** The lists of a workbook's styles that a cell format points into. */
  datatype Styles = Styles(fonts: seq<Font>, fills: seq<Fill>, borders: seq<BorderDef>,
                           themeColors: map<int, string>)

  function FontPart(xf: Xf, st: Styles): Css
  {
    var f := At(st.fonts, xf.fontId);
    if ShouldApply(Some(xf), ApplyFont) && f.Some? then FontCss(f, st.themeColors) else map[]
  }

  function FillPart(xf: Xf, st: Styles): Css
  {
    var f := At(st.fills, xf.fillId);
    if ShouldApply(Some(xf), ApplyFill) && f.Some? && f.value.patternType != Some("none") && f.value.fg.Some?
    then FillCss(f.value.fg, st.themeColors)
    else map[]
  }

  function BorderPart(xf: Xf, st: Styles): Css
  {
    var b := At(st.borders, xf.borderId);
    if ShouldApply(Some(xf), ApplyBorder) && b.Some? then BorderCss(b, st.themeColors) else map[]
  }

  /** What one cell format writes: its font's properties if the font applies, its fill's
    * foreground as background if the fill applies and has a pattern, and its border's. */
  function XfCss(xf: Xf, st: Styles): Css
  {
    FontPart(xf, st) + FillPart(xf, st) + BorderPart(xf, st)
  }

  lemma JoinNothing(m: Css)
    ensures m + map[] == m
  {
  }

  /** The index a present attribute reads as, or -1 when it has none. */
  function IndexOf(raw: Option<string>): int
  {
    if raw.Some? && ParseIntPrefix(raw.value).Some? then ParseIntPrefix(raw.value).value else -1
  }

  /** `At` picks the element at the index the attribute reads as. */
  lemma AtIndexOf<T>(xs: seq<T>, raw: Option<string>)
    ensures raw.Some? && 0 <= IndexOf(raw) < |xs| ==> At(xs, raw) == Some(xs[IndexOf(raw)])
    ensures !(raw.Some? && 0 <= IndexOf(raw) < |xs|) ==> At(xs, raw).None?
  {
  }

  lemma FontBlock(x: Xf, st: Styles, before: Css, after: Css)
    requires x.fontId.Some? && ShouldApply(Some(x), ApplyFont) && 0 <= IndexOf(x.fontId) < |st.fonts| ==>
      after == before + FontCss(Some(st.fonts[IndexOf(x.fontId)]), st.themeColors)
    requires !(x.fontId.Some? && ShouldApply(Some(x), ApplyFont) && 0 <= IndexOf(x.fontId) < |st.fonts|) ==>
      after == before
    ensures after == before + FontPart(x, st)
  {
  }

  /** The fill of a format is used: it applies, its index is in range, it has a pattern and a
    * foreground. */
  predicate FillUsed(x: Xf, st: Styles)
  {
    x.fillId.Some? && ShouldApply(Some(x), ApplyFill) && 0 <= IndexOf(x.fillId) < |st.fills| &&
    st.fills[IndexOf(x.fillId)].patternType != Some("none") && st.fills[IndexOf(x.fillId)].fg.Some?
  }

  lemma FillBlock(x: Xf, st: Styles, before: Css, after: Css)
    requires FillUsed(x, st) ==> after == before + FillCss(st.fills[IndexOf(x.fillId)].fg, st.themeColors)
    requires !FillUsed(x, st) ==> after == before
    ensures after == before + FillPart(x, st)
  {
  }

  lemma BorderBlock(x: Xf, st: Styles, before: Css, after: Css)
    requires x.borderId.Some? && ShouldApply(Some(x), ApplyBorder) && 0 <= IndexOf(x.borderId) < |st.borders| ==>
      after == before + BorderCss(Some(st.borders[IndexOf(x.borderId)]), st.themeColors)
    requires !(x.borderId.Some? && ShouldApply(Some(x), ApplyBorder) && 0 <= IndexOf(x.borderId) < |st.borders|) ==>
      after == before
    ensures after == before + BorderPart(x, st)
  {
  }

  /** Writing three maps over a target in turn is writing their join. */
  lemma JoinInTurn(target: Css, a: Css, b: Css, c: Css)
    ensures target + a + b + c == target + (a + b + c)
  {
  }

  /** The font block of `applyXfStyle`: the font's properties written over the target when the
    * format has a readable font index in range and its font flag applies. */
  method ApplyFontOf(target: Css, x: Xf, st: Styles) returns (result: Css)
    ensures result == target + FontPart(x, st)
  {
    result := target;
    if x.fontId.Some? && ShouldApply(Some(x), ApplyFont) {
      var fontIdx := ParseIntPrefix(x.fontId.value);
      if fontIdx.Some? && 0 <= fontIdx.value < |st.fonts| {
        var fontCss := FontToCss(Some(st.fonts[fontIdx.value]), st.themeColors);
        result := result + fontCss;
      }
    }
    FontBlock(x, st, target, result);
  }

  /** The fill block: the fill's foreground as background when the fill applies, is in range,
    * has a pattern other than `none` and a foreground that resolves. */
  method ApplyFillOf(target: Css, x: Xf, st: Styles) returns (result: Css)
    ensures result == target + FillPart(x, st)
  {
    result := target;
    if x.fillId.Some? && ShouldApply(Some(x), ApplyFill) {
      var fid := ParseIntPrefix(x.fillId.value);
      if fid.Some? && 0 <= fid.value < |st.fills| {
        var f := st.fills[fid.value];
        if f.patternType != Some("none") && f.fg.Some? {
          var resolved := ResolveColor(f.fg, st.themeColors);
          if resolved.Some? {
            UpdateIsJoin(result, BackgroundColor, resolved.value);
            result := result[BackgroundColor := resolved.value];
          } else {
            JoinNothing(result);
          }
        }
      }
    }
    FillBlock(x, st, target, result);
  }

  /** The border block: the border's sides written over the target when the border applies and
    * its index is in range. */
  method ApplyBorderOf(target: Css, x: Xf, st: Styles) returns (result: Css)
    ensures result == target + BorderPart(x, st)
  {
    result := target;
    if x.borderId.Some? && ShouldApply(Some(x), ApplyBorder) {
      var bid := ParseIntPrefix(x.borderId.value);
      if bid.Some? && 0 <= bid.value < |st.borders| {
        var borderCss := BorderDefToCss(Some(st.borders[bid.value]), st.themeColors);
        result := result + borderCss;
      }
    }
    BorderBlock(x, st, target, result);
  }

  /** `applyXfStyle`: the target with a format's font, fill and border written over it in turn. */
  method ApplyXfStyle(target: Css, xf: Option<Xf>, st: Styles) returns (result: Css)
    ensures xf.None? ==> result == target
    ensures xf.Some? ==> result == target + XfCss(xf.value, st)
  {
    result := target;
    if xf.None? {
      return;
    }
    var x := xf.value;
    result := ApplyFontOf(result, x, st);
    result := ApplyFillOf(result, x, st);
    result := ApplyBorderOf(result, x, st);
    JoinInTurn(target, FontPart(x, st), FillPart(x, st), BorderPart(x, st));
  }

  /** The format index of a cell: its own `s` attribute when readable, else the fallback when
    * readable. */
  function StyleIndex(s: Option<string>, fallback: Option<string>): Option<int>
  {
    if s.Some? && ParseIntPrefix(s.value).Some? then ParseIntPrefix(s.value)
    else if fallback.Some? then ParseIntPrefix(fallback.value)
    else None
  }

  /** The properties a cell format's base format writes, if it has one. */
  function BaseCss(xf: Xf, cellStyleXfs: seq<Xf>, st: Styles): Css
  {
    match At(cellStyleXfs, xf.xfId)
    case Some(base) => XfCss(base, st)
    case None => map[]
  }

  /** The style of a cell: the base format's properties, then the cell format's over them. */
  function CellStyle(s: Option<string>, fallback: Option<string>, cellXfs: seq<Xf>, cellStyleXfs: seq<Xf>,
                     st: Styles): Css
  {
    match StyleIndex(s, fallback)
    case None => map[]
    case Some(i) =>
      if 0 <= i < |cellXfs| then BaseCss(cellXfs[i], cellStyleXfs, st) + XfCss(cellXfs[i], st)
      else map[]
  }

  lemma NothingJoined(m: Css)
    ensures map[] + m == m
  {
  }

  /** The base format, when there is one, applied to an empty style and the cell format over it
    * give the cell's style. */
  lemma CellBlock(s: Option<string>, fallback: Option<string>, cellXfs: seq<Xf>, cellStyleXfs: seq<Xf>,
                  st: Styles, i: int, base: Css, result: Css)
    requires StyleIndex(s, fallback) == Some(i) && 0 <= i < |cellXfs|
    requires cellXfs[i].xfId.Some? && 0 <= IndexOf(cellXfs[i].xfId) < |cellStyleXfs| ==>
      base == map[] + XfCss(cellStyleXfs[IndexOf(cellXfs[i].xfId)], st)
    requires !(cellXfs[i].xfId.Some? && 0 <= IndexOf(cellXfs[i].xfId) < |cellStyleXfs|) ==> base == map[]
    requires result == base + XfCss(cellXfs[i], st)
    ensures result == CellStyle(s, fallback, cellXfs, cellStyleXfs, st)
  {
    var xf := cellXfs[i];
    AtIndexOf(cellStyleXfs, xf.xfId);
    if xf.xfId.Some? && 0 <= IndexOf(xf.xfId) < |cellStyleXfs| {
      NothingJoined(XfCss(cellStyleXfs[IndexOf(xf.xfId)], st));
      assert At(cellStyleXfs, xf.xfId) == Some(cellStyleXfs[IndexOf(xf.xfId)]);
    } else {
      assert At(cellStyleXfs, xf.xfId).None?;
    }
  }

  /** `getCellStyle`, the style part: the index from the cell or the fallback, then the base
    * format and the cell format applied in turn to an empty style. */
  method GetCellStyle(s: Option<string>, fallback: Option<string>, cellXfs: seq<Xf>, cellStyleXfs: seq<Xf>,
                      st: Styles) returns (baseStyle: Css)
    ensures baseStyle == CellStyle(s, fallback, cellXfs, cellStyleXfs, st)
  {
    baseStyle := map[];
    var styleIndex: Option<int> := None;
    if s.Some? {
      var idx := ParseIntPrefix(s.value);
      if idx.Some? {
        styleIndex := idx;
      }
    }
    if styleIndex.None? && fallback.Some? {
      var idx := ParseIntPrefix(fallback.value);
      if idx.Some? {
        styleIndex := idx;
      }
    }
    assert styleIndex == StyleIndex(s, fallback);
    if styleIndex.Some? && 0 <= styleIndex.value < |cellXfs| {
      var xf := cellXfs[styleIndex.value];
      if xf.xfId.Some? {
        var baseIdx := ParseIntPrefix(xf.xfId.value);
        if baseIdx.Some? && 0 <= baseIdx.value < |cellStyleXfs| {
          baseStyle := ApplyXfStyle(baseStyle, Some(cellStyleXfs[baseIdx.value]), st);
        }
      }
      ghost var base := baseStyle;
      baseStyle := ApplyXfStyle(baseStyle, Some(xf), st);
      CellBlock(s, fallback, cellXfs, cellStyleXfs, st, styleIndex.value, base, baseStyle);
    }
  }

  /** A readable `s` attribute decides the index, and the fallback is read only otherwise. */
  lemma CellIndexWins(i: int, fallback: Option<string>)
    ensures StyleIndex(Some(IntToStr(i)), fallback) == Some(i)
  {
    ParseIntPrefixOfIntToStr(i);
  }

  lemma FallbackIndexUsed(s: Option<string>, j: int)
    requires s.None? || ParseIntPrefix(s.value).None?
    ensures StyleIndex(s, Some(IntToStr(j))) == Some(j)
  {
    ParseIntPrefixOfIntToStr(j);
  }

  /** The cell format wins over its base: each property it writes has its value, and every other
    * property is the base format's. */
  lemma CellFormatWins(s: Option<string>, fallback: Option<string>, cellXfs: seq<Xf>, cellStyleXfs: seq<Xf>,
                       st: Styles, i: int)
    requires StyleIndex(s, fallback) == Some(i) && 0 <= i < |cellXfs|
    ensures forall k :: k in XfCss(cellXfs[i], st) ==>
      k in CellStyle(s, fallback, cellXfs, cellStyleXfs, st) &&
      CellStyle(s, fallback, cellXfs, cellStyleXfs, st)[k] == XfCss(cellXfs[i], st)[k]
    ensures At(cellStyleXfs, cellXfs[i].xfId).Some? ==>
      forall k :: k !in XfCss(cellXfs[i], st) ==>
        (k in CellStyle(s, fallback, cellXfs, cellStyleXfs, st) <==>
         k in XfCss(At(cellStyleXfs, cellXfs[i].xfId).value, st)) &&
        (k in CellStyle(s, fallback, cellXfs, cellStyleXfs, st) ==>
         CellStyle(s, fallback, cellXfs, cellStyleXfs, st)[k] == XfCss(At(cellStyleXfs, cellXfs[i].xfId).value, st)[k])
  {
    LaterWins(BaseCss(cellXfs[i], cellStyleXfs, st), XfCss(cellXfs[i], st));
  }

  /** In a join the right-hand map wins where it has a key, and the left-hand one gives the
    * rest. */
  lemma LaterWins(under: Css, over: Css)
    ensures forall k :: k in over ==> k in under + over && (under + over)[k] == over[k]
    ensures forall k :: k !in over ==>
      (k in under + over <==> k in under) && (k in under ==> (under + over)[k] == under[k])
  {
  }

  /** A flag other than `'1'` keeps that part of a format out of the style. */
  lemma FlagOffSkipsPart(xf: Xf, st: Styles)
    requires xf.applyFont.Some? && xf.applyFont != Some("1")
    ensures FontPart(xf, st) == map[]
    ensures forall p :: p in XfCss(xf, st) ==> p in FillPart(xf, st) || p in BorderPart(xf, st)
  {
  }
}
