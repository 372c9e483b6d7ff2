/**
 * The drawing helpers of the trace viewer (Viewer/Utils.hpp, Viewer/Utils.cpp):
 * case-insensitive search, clamping, the time/pixel mappings and the colour
 * helpers. Doubles and floats are modelled as reals.
 */
module ViewerUtils {
  import opened Wrappers

  datatype Vec2 = Vec2(x: real, y: real)

  function Min(a: real, b: real): real { if a <= b then a else b }
  function Max(a: real, b: real): real { if a >= b then a else b }

  // ---------------------------------------------------------------- strings

  /** `::tolower` in the "C" locale: only 'A'..'Z' change. */
  function LowerChar(c: char): char
  {
    if 'A' <= c <= 'Z' then (c as int - 'A' as int + 'a' as int) as char else c
  }

  /** utils::toLower: std::transform with ::tolower over every character. */
  function ToLower(s: string): (r: string)
    ensures |r| == |s|
    ensures forall i :: 0 <= i < |s| ==> r[i] == LowerChar(s[i])
  {
    if |s| == 0 then [] else [LowerChar(s[0])] + ToLower(s[1..])
  }

  predicate OccursAt(hay: string, needle: string, i: nat)
  {
    i + |needle| <= |hay| && hay[i..i + |needle|] == needle
  }

  /** std::string::find: the first index where `needle` occurs in `hay`, None for npos. */
  function Find(hay: string, needle: string): (pos: Option<nat>)
    ensures pos.Some? ==> OccursAt(hay, needle, pos.value) && forall j :: 0 <= j < pos.value ==> !OccursAt(hay, needle, j)
    ensures pos.None? ==> forall j :: 0 <= j <= |hay| ==> !OccursAt(hay, needle, j)
  {
    if |needle| <= |hay| && hay[..|needle|] == needle then Some(0)
    else if |hay| == 0 then None
    else
      match Find(hay[1..], needle)
      case None =>
        forall j | 1 <= j <= |hay| ensures !OccursAt(hay, needle, j) {
          OccursInTail(hay, needle, j);
        }
        None
      case Some(p) =>
        forall j | 1 <= j <= p ensures !OccursAt(hay, needle, j) {
          OccursInTail(hay, needle, j);
        }
        OccursInTail(hay, needle, p + 1);
        Some(p + 1)
  }

  /** An occurrence after the first character is an occurrence in the tail, one place earlier. */
  lemma OccursInTail(hay: string, needle: string, j: nat)
    requires 1 <= j <= |hay|
    ensures OccursAt(hay, needle, j) <==> OccursAt(hay[1..], needle, j - 1)
  {
    if j + |needle| <= |hay| {
      var here, there := hay[j..j + |needle|], hay[1..][j - 1..j - 1 + |needle|];
      assert forall k :: 0 <= k < |needle| ==> here[k] == there[k];
      assert here == there;
    }
  }

  /** utils::containsIgnoreCase: an empty needle always matches; otherwise the lower-cased needle occurs in the lower-cased text. */
  function ContainsIgnoreCase(str: string, sub: string): (r: bool)
    ensures r <==> sub == [] || exists i :: 0 <= i <= |str| && OccursAt(ToLower(str), ToLower(sub), i)
  {
    if |sub| == 0 then true
    else
      match Find(ToLower(str), ToLower(sub))
      case Some(pos) => assert OccursAt(ToLower(str), ToLower(sub), pos); true
      case None => false
  }

  lemma {:induction false} ToLowerConcat(a: string, b: string)
    ensures ToLower(a + b) == ToLower(a) + ToLower(b)
  {
    var l, r := ToLower(a + b), ToLower(a) + ToLower(b);
    assert |l| == |r|;
    forall i | 0 <= i < |l| ensures l[i] == r[i] {
      if i < |a| { assert (a + b)[i] == a[i]; } else { assert (a + b)[i] == b[i - |a|]; }
    }
  }

  /** Any piece of a text is found in it, whatever the case of either. */
  lemma {:induction false} ContainsOwnPiece(before: string, piece: string, after: string)
    ensures ContainsIgnoreCase(before + piece + after, piece)
  {
    if |piece| > 0 {
      ToLowerConcat(before + piece, after);
      ToLowerConcat(before, piece);
      var hay := ToLower(before + piece + after);
      assert hay == ToLower(before) + ToLower(piece) + ToLower(after);
      assert OccursAt(hay, ToLower(piece), |before|);
    }
  }

  /** Lower-casing either argument first changes nothing. */
  lemma {:induction false} ContainsIgnoresCase(str: string, sub: string)
    ensures ContainsIgnoreCase(ToLower(str), ToLower(sub)) == ContainsIgnoreCase(str, sub)
  {
    ToLowerIdempotent(str);
    ToLowerIdempotent(sub);
  }

  lemma {:induction false} ToLowerIdempotent(s: string)
    ensures ToLower(ToLower(s)) == ToLower(s)
  {
    var t := ToLower(ToLower(s));
    forall i | 0 <= i < |s| ensures t[i] == ToLower(s)[i] { }
  }

  // --------------------------------------------------------------- numbers

  lemma MulMonotone(x: real, y: real, z: real)
    requires x <= y && 0.0 <= z
    ensures x * z <= y * z
  {
    assert y * z - x * z == (y - x) * z;
  }

  lemma MulStrict(x: real, y: real, z: real)
    requires x < y && 0.0 < z
    ensures x * z < y * z
  {
    assert y * z - x * z == (y - x) * z;
  }

  lemma ScaleBounds(a: real, t: real)
    ensures 0.0 <= a && 0.0 <= t <= 1.0 ==> 0.0 <= a * t <= a
  {
    if 0.0 <= a && 0.0 <= t <= 1.0 {
      MulMonotone(0.0, t, a);
      MulMonotone(t, 1.0, a);
    }
  }

  lemma UnitRatio(t: real, s: real, e: real)
    requires s < e
    ensures (t - s) / (e - s) * (e - s) == t - s
    ensures s <= t <= e ==> 0.0 <= (t - s) / (e - s) <= 1.0
  {
    var r := (t - s) / (e - s);
    assert r * (e - s) == t - s;
    if s <= t <= e {
      if r < 0.0 { MulStrict(r, 0.0, e - s); }
      if r > 1.0 { MulStrict(1.0, r, e - s); }
    }
  }

  lemma LerpBounds(a: real, b: real, t: real, r: real)
    requires r == a + t * (b - a)
    ensures a <= b && 0.0 <= t <= 1.0 ==> a <= r <= b
  {
    if a <= b && 0.0 <= t <= 1.0 {
      var d := b - a;
      MulMonotone(0.0, t, d);
      MulMonotone(t, 1.0, d);
      assert 0.0 <= t * d <= d;
    }
  }

  /** utils::clamp: max(lo, min(v, hi)). */
  function Clamp(v: real, lo: real, hi: real): (r: real)
    ensures lo <= hi ==> lo <= r <= hi
    ensures lo <= v <= hi ==> r == v
    ensures hi < lo ==> r == lo
  {
    Max(lo, Min(v, hi))
  }

  /** utils::calculateTimeRatio: where `t` falls in [s, e] as a fraction; 0 for an empty or inverted window. */
  function CalculateTimeRatio(t: real, s: real, e: real): real
  {
    if e <= s then 0.0 else (t - s) / (e - s)
  }

  /** The time ratio is 0 for an empty window, and otherwise the fraction that leads from s to t, in [0, 1] for t in [s, e]. */
  lemma TimeRatioFacts(t: real, s: real, e: real)
    ensures var r := CalculateTimeRatio(t, s, e);
      && (e <= s ==> r == 0.0)
      && (s < e ==> s + r * (e - s) == t)
      && (s < e && s <= t <= e ==> 0.0 <= r <= 1.0)
  {
    if s < e {
      UnitRatio(t, s, e);
    }
  }

  /** utils::interpolate: std::lerp, read over the reals. */
  function Interpolate(a: real, b: real, t: real): real
  {
    a + t * (b - a)
  }

  /** Interpolation gives a at 0 and b at 1, and stays in [a, b] for t in [0, 1]. */
  lemma InterpolateFacts(a: real, b: real, t: real)
    ensures var r := Interpolate(a, b, t);
      && (t == 0.0 ==> r == a)
      && (t == 1.0 ==> r == b)
      && (a <= b && 0.0 <= t <= 1.0 ==> a <= r <= b)
  {
    LerpBounds(a, b, t, Interpolate(a, b, t));
  }

  /** The ratio of an interpolated time gives back the interpolation parameter. */
  lemma RatioOfInterpolation(s: real, e: real, t: real)
    requires s < e
    ensures CalculateTimeRatio(Interpolate(s, e, t), s, e) == t
  {
    var x := Interpolate(s, e, t);
    assert x - s == t * (e - s);
  }

  /** utils::timeToPixel: the time's ratio in the window, scaled to the canvas width. */
  function TimeToPixel(t: real, s: real, e: real, width: real): (px: real)
    ensures e <= s ==> px == 0.0
    ensures s < e && s <= t <= e && 0.0 <= width ==> 0.0 <= px <= width
  {
    var ratio := CalculateTimeRatio(t, s, e);
    TimeRatioFacts(t, s, e);
    assert 0.0 <= width ==> (0.0 <= ratio <= 1.0 ==> 0.0 <= ratio * width <= width);
    ratio * width
  }

  /** utils::pixelToTime: the view start for a degenerate canvas, otherwise the time below the pixel. */
  function PixelToTime(px: real, canvasPos: real, width: real, s: real, e: real): (t: real)
    ensures width <= 0.0 ==> t == s
    ensures 0.0 < width && s <= e && canvasPos <= px <= canvasPos + width ==> s <= t <= e
  {
    if width <= 0.0 then s
    else
      var ratio := (px - canvasPos) / width;
      assert canvasPos <= px <= canvasPos + width ==> 0.0 <= ratio <= 1.0;
      InterpolateFacts(s, e, ratio);
      Interpolate(s, e, ratio)
  }

  /** pixelToTime undoes timeToPixel on a proper window and canvas. */
  lemma PixelOfTimeRoundTrip(t: real, s: real, e: real, canvasPos: real, width: real)
    requires s < e && 0.0 < width
    ensures PixelToTime(canvasPos + TimeToPixel(t, s, e, width), canvasPos, width, s, e) == t
  {
    var ratio := CalculateTimeRatio(t, s, e);
    var px := canvasPos + ratio * width;
    assert (px - canvasPos) / width == ratio;
  }

  /** timeToPixel undoes pixelToTime on a proper window and canvas. */
  lemma TimeOfPixelRoundTrip(px: real, canvasPos: real, width: real, s: real, e: real)
    requires s < e && 0.0 < width
    ensures canvasPos + TimeToPixel(PixelToTime(px, canvasPos, width, s, e), s, e, width) == px
  {
    var ratio := (px - canvasPos) / width;
    RatioOfInterpolation(s, e, ratio);
    assert ratio * width == px - canvasPos;
  }

  /** utils::isPointInRect: inclusive on all four edges. */
  function IsPointInRect(p: Vec2, lo: Vec2, hi: Vec2): (r: bool)
    ensures r <==> lo.x <= p.x <= hi.x && lo.y <= p.y <= hi.y
  {
    p.x >= lo.x && p.x <= hi.x && p.y >= lo.y && p.y <= hi.y
  }

  /** The corners of a proper rectangle lie inside it. */
  lemma CornersInRect(lo: Vec2, hi: Vec2)
    requires lo.x <= hi.x && lo.y <= hi.y
    ensures IsPointInRect(lo, lo, hi) && IsPointInRect(hi, lo, hi)
    ensures IsPointInRect(Vec2(lo.x, hi.y), lo, hi) && IsPointInRect(Vec2(hi.x, lo.y), lo, hi)
  {
  }

  // ---------------------------------------------------------------- colours

  /** ImU32, Dear ImGui's 32-bit packed colour. */
  type U32 = x: int | 0 <= x < 0x1_0000_0000

  /**
   * Where IM_COL32 places red and blue. RedLow is Dear ImGui's default
   * (red in bits 0-7, blue in bits 16-23); RedHigh is its BGRA packing. In
   * both, green is bits 8-15 and alpha bits 24-31.
   */
  datatype ColorLayout = RedLow | RedHigh

  /** Byte k (0 = lowest) of a colour: `(c >> 8k) & 0xFF`. */
  function Byte(c: U32, k: nat): (v: int)
    requires k < 4
    ensures 0 <= v < 256
  {
    if k == 0 then c % 0x100
    else if k == 1 then (c / 0x100) % 0x100
    else if k == 2 then (c / 0x1_0000) % 0x100
    else c / 0x100_0000
  }

  /** A colour made of four bytes, lowest first. */
  function FromBytes(b0: int, b1: int, b2: int, b3: int): (c: U32)
    requires 0 <= b0 < 256 && 0 <= b1 < 256 && 0 <= b2 < 256 && 0 <= b3 < 256
    ensures Byte(c, 0) == b0 && Byte(c, 1) == b1 && Byte(c, 2) == b2 && Byte(c, 3) == b3
  {
    var c := b3 * 0x100_0000 + b2 * 0x1_0000 + b1 * 0x100 + b0;
    assert c / 0x100 == b3 * 0x1_0000 + b2 * 0x100 + b1;
    assert c / 0x1_0000 == b3 * 0x100 + b2;
    assert c / 0x100_0000 == b3;
    c
  }

  /**
   * IM_COL32(R, G, B, A): each argument is cast to ImU32 and shifted into its
   * byte. The callers pass bytes for R, G and B; the alpha argument may be
   * any int, and the cast and the shift by 24 keep its value modulo 256.
   */
  function Col32(layout: ColorLayout, r: int, g: int, b: int, a: int): (c: U32)
    requires 0 <= r < 256 && 0 <= g < 256 && 0 <= b < 256
    ensures Byte(c, 1) == g && Byte(c, 3) == a % 256
    ensures layout.RedLow? ==> Byte(c, 0) == r && Byte(c, 2) == b
    ensures layout.RedHigh? ==> Byte(c, 0) == b && Byte(c, 2) == r
  {
    if layout.RedLow? then FromBytes(r, g, b, a % 256) else FromBytes(b, g, r, a % 256)
  }

  /** What IM_COL32 guarantees whatever the layout: green and alpha in place, red and blue in the two outer colour bytes. */
  function PackChannels(layout: ColorLayout, r: int, g: int, b: int, a: int): (c: U32)
    requires 0 <= r < 256 && 0 <= g < 256 && 0 <= b < 256
    ensures Byte(c, 1) == g && Byte(c, 3) == a % 256
    ensures 0 <= a < 256 ==> Byte(c, 3) == a
    ensures multiset{Byte(c, 0), Byte(c, 2)} == multiset{r, b}
  {
    Col32(layout, r, g, b, a)
  }

  /** C's float-to-int conversion truncates toward zero. */
  function Trunc(x: real): (n: int)
    ensures 0.0 <= x ==> n as real <= x < n as real + 1.0
    ensures x < 0.0 ==> n as real - 1.0 < x <= n as real
  {
    if x >= 0.0 then x.Floor else -((-x).Floor)
  }

  /** One channel of enhanceColorBrightness: scaled and truncated, then held in [100, 255]. */
  function BoostChannel(v: int, boost: real): (w: int)
    ensures 100 <= w <= 255
  {
    var scaled := Trunc(v as real * boost);
    if scaled < 100 then 100 else if scaled > 255 then 255 else scaled
  }

  /**
   * utils::enhanceColorBrightness: every colour channel is boosted into
   * [100, 255] and the alpha byte is kept. The channel read from bits 16-23
   * is passed to IM_COL32 as red, so the two outer colour bytes land where
   * the layout puts red and blue; green stays in bits 8-15 in both layouts.
   */
  function EnhanceColorBrightness(layout: ColorLayout, c: U32, boost: real): (res: U32)
    ensures 100 <= Byte(res, 0) <= 255 && 100 <= Byte(res, 1) <= 255 && 100 <= Byte(res, 2) <= 255
    ensures Byte(res, 3) == Byte(c, 3)
    ensures Byte(res, 1) == BoostChannel(Byte(c, 1), boost)
    ensures multiset{Byte(res, 0), Byte(res, 2)} == multiset{BoostChannel(Byte(c, 0), boost), BoostChannel(Byte(c, 2), boost)}
  {
    var r, g, b, a := Byte(c, 2), Byte(c, 1), Byte(c, 0), Byte(c, 3);
    PackChannels(layout, BoostChannel(r, boost), BoostChannel(g, boost), BoostChannel(b, boost), a)
  }

  /** The alpha computed by darkenColor: the truncation of a * (1 - f). */
  function DarkenedAlpha(a: int, f: real): (na: int)
    ensures 0 <= a && 0.0 <= f <= 1.0 ==> 0 <= na <= a
  {
    var x := a as real * (1.0 - f);
    ScaleBounds(a as real, 1.0 - f);
    Trunc(x)
  }

  /**
   * utils::darkenColor: only the alpha byte is recomputed, the darkened alpha
   * reduced to a byte by IM_COL32; for f in [0, 1] it never grows.
   */
  function DarkenColor(layout: ColorLayout, c: U32, f: real): (res: U32)
    ensures Byte(res, 3) == DarkenedAlpha(Byte(c, 3), f) % 256
    ensures 0.0 <= f <= 1.0 ==> Byte(res, 3) == DarkenedAlpha(Byte(c, 3), f) <= Byte(c, 3)
    ensures Byte(res, 1) == Byte(c, 1)
    ensures multiset{Byte(res, 0), Byte(res, 2)} == multiset{Byte(c, 0), Byte(c, 2)}
  {
    var r, g, b, a := Byte(c, 2), Byte(c, 1), Byte(c, 0), Byte(c, 3);
    PackChannels(layout, r, g, b, DarkenedAlpha(a, f))
  }

  /** size_t, the type of std::hash's result, on a 64-bit target. */
  type U64 = x: int | 0 <= x < 0x1_0000_0000_0000_0000

  /**
   * utils::generateColorFromHash given the string's hash: an opaque colour
   * whose three colour bytes are bits 0-23 of the hash.
   */
  function ColorFromHash(layout: ColorLayout, h: U64): (res: U32)
    ensures Byte(res, 3) == 255
    ensures Byte(res, 1) == (h / 0x100) % 0x100
    ensures multiset{Byte(res, 0), Byte(res, 2)} == multiset{h % 0x100, (h / 0x1_0000) % 0x100}
  {
    // (h & 0xFF0000) >> 16, (h & 0x00FF00) >> 8 and h & 0x0000FF
    PackChannels(layout, (h / 0x1_0000) % 0x100, (h / 0x100) % 0x100, h % 0x100, 255)
  }

  /** Only the low 24 bits of the hash decide the colour. */
  lemma ColorFromHashLow24(layout: ColorLayout, h1: U64, h2: U64)
    requires h1 % 0x100_0000 == h2 % 0x100_0000
    ensures ColorFromHash(layout, h1) == ColorFromHash(layout, h2)
  {
    LowBytesOfHash(h1);
    LowBytesOfHash(h2);
  }

  lemma LowBytesOfHash(h: U64)
    ensures h % 0x100 == (h % 0x100_0000) % 0x100
    ensures (h / 0x100) % 0x100 == ((h % 0x100_0000) / 0x100) % 0x100
    ensures (h / 0x1_0000) % 0x100 == (h % 0x100_0000) / 0x1_0000
  {
    var q, m := h / 0x100_0000, h % 0x100_0000;
    assert h == q * 0x100_0000 + m;
    assert h / 0x100 == q * 0x1_0000 + m / 0x100;
    assert h / 0x1_0000 == q * 0x100 + m / 0x1_0000;
  }
}
