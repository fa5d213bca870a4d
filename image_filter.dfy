// The two-pass "oily" image filter of the useFoodLessApp hook (getGrayValue,
// processImageData): an edge map from Sobel-style gradients of the luma,
// then an in-place remap of every pixel's R, G and B (desaturate, highlight
// or shadow tone shift, contrast, brightness, edge sharpening, clamp).
// Arithmetic is exact over `real`; the byte store is ToUint8Clamp.

module ImageFilter {
  import opened Types
  import opened Pixels

  // ---------------------------------------------------------------------
  // Configuration
  // ---------------------------------------------------------------------

  /** The filter parameters as fetched into `dynamicConfig.filter`; any may be missing. */
  datatype FilterSettings = FilterSettings(
    edgeThreshold: Option<real>,
    highlightThreshold: Option<real>,
    shadowThreshold: Option<real>,
    desaturation: Option<real>,
    contrast: Option<real>,
    brightness: Option<real>,
    edgeSharpness: Option<real>)

  /** The parameters the filter actually uses, every one resolved to a number. */
  datatype FilterConfig = FilterConfig(
    edgeThreshold: real,
    highlightThreshold: real,
    shadowThreshold: real,
    desaturation: real,
    contrast: real,
    brightness: real,
    edgeSharpness: real)

  /** The literal fallbacks written at each `||`, equal to IMAGE_CONFIG.filter. */
  const DefaultConfig: FilterConfig := FilterConfig(30.0, 180.0, 80.0, 0.9, 1.4, 0.75, 1.2)

  /**
   * The filter block the hook installs when loading the configuration
   * throws (CLIENT_IMAGE_CONFIG.filter): different values from the defaults.
   */
  const ExceptionFallbackSettings: FilterSettings :=
    FilterSettings(Some(25.0), Some(200.0), Some(60.0), Some(0.7), Some(1.2), Some(0.8), Some(1.1))

  /** JavaScript `v || d` on a number: a missing value or 0 is falsy. */
  function OrDefault(v: Option<real>, d: real): real
  {
    if v.Some? && v.value != 0.0 then v.value else d
  }

  /** Reads every parameter as `dynamicConfig.filter?.NAME || default`. */
  function Resolve(filter: Option<FilterSettings>): (cfg: FilterConfig)
    ensures filter.None? ==> cfg == DefaultConfig
  {
    match filter
    case None => DefaultConfig
    case Some(f) =>
      FilterConfig(
        OrDefault(f.edgeThreshold, 30.0),
        OrDefault(f.highlightThreshold, 180.0),
        OrDefault(f.shadowThreshold, 80.0),
        OrDefault(f.desaturation, 0.9),
        OrDefault(f.contrast, 1.4),
        OrDefault(f.brightness, 0.75),
        OrDefault(f.edgeSharpness, 1.2))
  }

  /**
   * Each parameter falls back to its default exactly when it is missing or
   * zero, and is used as given otherwise.
   */
  lemma ResolveFallsBackFieldByField(f: FilterSettings)
    ensures var cfg := Resolve(Some(f));
      && (cfg.edgeThreshold == 30.0 <== f.edgeThreshold in {None, Some(0.0)})
      && (cfg.highlightThreshold == 180.0 <== f.highlightThreshold in {None, Some(0.0)})
      && (cfg.shadowThreshold == 80.0 <== f.shadowThreshold in {None, Some(0.0)})
      && (cfg.desaturation == 0.9 <== f.desaturation in {None, Some(0.0)})
      && (cfg.contrast == 1.4 <== f.contrast in {None, Some(0.0)})
      && (cfg.brightness == 0.75 <== f.brightness in {None, Some(0.0)})
      && (cfg.edgeSharpness == 1.2 <== f.edgeSharpness in {None, Some(0.0)})
    ensures forall v: real :: v != 0.0 && f.edgeThreshold == Some(v) ==> Resolve(Some(f)).edgeThreshold == v
    ensures forall v: real :: v != 0.0 && f.highlightThreshold == Some(v) ==> Resolve(Some(f)).highlightThreshold == v
    ensures forall v: real :: v != 0.0 && f.shadowThreshold == Some(v) ==> Resolve(Some(f)).shadowThreshold == v
    ensures forall v: real :: v != 0.0 && f.desaturation == Some(v) ==> Resolve(Some(f)).desaturation == v
    ensures forall v: real :: v != 0.0 && f.contrast == Some(v) ==> Resolve(Some(f)).contrast == v
    ensures forall v: real :: v != 0.0 && f.brightness == Some(v) ==> Resolve(Some(f)).brightness == v
    ensures forall v: real :: v != 0.0 && f.edgeSharpness == Some(v) ==> Resolve(Some(f)).edgeSharpness == v
  {
  }

  /** The exception fallback yields a configuration different from the defaults. */
  lemma ExceptionFallbackDiffersFromDefaults()
    ensures Resolve(Some(ExceptionFallbackSettings)) == FilterConfig(25.0, 200.0, 60.0, 0.7, 1.2, 0.8, 1.1)
    ensures Resolve(Some(ExceptionFallbackSettings)) != DefaultConfig
  {
  }

  // ---------------------------------------------------------------------
  // Luma
  // ---------------------------------------------------------------------

  /** getGrayValue: the luma of pixel number `index` of an RGBA buffer. */
  function GrayValue(data: seq<Byte>, index: nat): (l: real)
    requires 4 * index + 2 < |data|
    ensures 0.0 <= l <= 255.0
  {
    var i := index * 4;
    Luma(data[i], data[i + 1], data[i + 2])
  }

  // ---------------------------------------------------------------------
  // Row-major coordinates
  // ---------------------------------------------------------------------

  lemma MulMonotone(a: int, b: int, w: nat)
    requires a <= b
    ensures a * w <= b * w
  {
    assert (b - a) * w >= 0;
  }

  /** Euclidean division by the row width recovers the row and the column. */
  lemma RowMajor(p: int, w: nat, y: int, x: int)
    requires 0 <= x < w && p == y * w + x
    ensures p / w == y && p % w == x
  {
    var q, r := p / w, p % w;
    assert p == q * w + r && 0 <= r < w;
    if q < y {
      MulMonotone(q + 1, y, w);
    } else if q > y {
      MulMonotone(y + 1, q, w);
    }
  }

  /** A pixel index at or past the start of row `y` lies in row `y` or later. */
  lemma RowAtLeast(p: int, w: nat, y: int)
    requires w > 0 && p >= y * w
    ensures p / w >= y
  {
    var q, r := p / w, p % w;
    assert p == q * w + r && 0 <= r < w;
    if q < y {
      MulMonotone(q + 1, y, w);
    }
  }

  /** The pixel at (x, y) lies inside a w-by-h buffer. */
  lemma PixelInImage(w: nat, h: nat, x: int, y: int)
    requires 0 <= x < w && 0 <= y < h
    ensures 0 <= y * w + x < w * h
    ensures 4 * (y * w + x) + 3 < 4 * w * h
  {
    MulMonotone(y + 1, h, w);
    MulMonotone(0, y, w);
  }

  // ---------------------------------------------------------------------
  // Pass 1: the edge map
  // ---------------------------------------------------------------------

  /** Interior pixels: not on the 1-pixel border. */
  predicate Interior(w: nat, h: nat, x: int, y: int)
  {
    1 <= x <= w - 2 && 1 <= y <= h - 2
  }

  /** Pixel number `p` of a buffer with rows of `w` pixels is an interior pixel. */
  predicate InteriorPixel(w: nat, h: nat, p: int)
  {
    w > 0 && Interior(w, h, p % w, p / w)
  }

  /** All eight neighbours of an interior pixel lie inside the buffer. */
  lemma InteriorNeighbours(w: nat, h: nat, p: int)
    requires 0 <= p && InteriorPixel(w, h, p)
    ensures 0 <= p - w - 1 && p + w + 1 < w * h
  {
    var x, y := p % w, p / w;
    assert p == y * w + x;
    MulMonotone(1, y, w);
    MulMonotone(y + 2, h, w);
  }

  /**
   * The horizontal gradient at pixel `p`: the Sobel x-kernel on the luma of
   * its neighbours (the pixel at (x + dx, y + dy) is p + dy * w + dx), divided by 8.
   */
  function GradX(s: seq<Byte>, w: nat, p: int): real
    requires 0 <= p - w - 1 && 4 * (p + w + 1) + 2 < |s|
  {
    (-1.0 * GrayValue(s, p - w - 1) + 1.0 * GrayValue(s, p - w + 1)
     + -2.0 * GrayValue(s, p - 1) + 2.0 * GrayValue(s, p + 1)
     + -1.0 * GrayValue(s, p + w - 1) + 1.0 * GrayValue(s, p + w + 1)) / 8.0
  }

  /** The vertical gradient at pixel `p`: the Sobel y-kernel on the luma, divided by 8. */
  function GradY(s: seq<Byte>, w: nat, p: int): real
    requires 0 <= p - w - 1 && 4 * (p + w + 1) + 2 < |s|
  {
    (-1.0 * GrayValue(s, p - w - 1) + -2.0 * GrayValue(s, p - w)
     + -1.0 * GrayValue(s, p - w + 1) + 1.0 * GrayValue(s, p + w - 1)
     + 2.0 * GrayValue(s, p + w) + 1.0 * GrayValue(s, p + w + 1)) / 8.0
  }

  /** ToUint8Clamp(Math.sqrt(gx * gx + gy * gy)). */
  function Magnitude(gx: real, gy: real): Byte
  {
    SquaresNonNegative(gx, gy);
    SqrtByte(gx * gx + gy * gy)
  }

  lemma SquaresNonNegative(gx: real, gy: real)
    ensures gx * gx + gy * gy >= 0.0
  {
  }

  /** The stored gradient magnitude of interior pixel `p`. */
  function EdgeStrength(s: seq<Byte>, w: nat, h: nat, p: int): Byte
    requires |s| == 4 * w * h && 0 <= p && InteriorPixel(w, h, p)
  {
    InteriorNeighbours(w, h, p);
    Magnitude(GradX(s, w, p), GradY(s, w, p))
  }

  /**
   * Entry `k` of the edge buffer: only the first byte of an interior pixel
   * ever receives a magnitude, every other entry keeps its initial 0.
   */
  function EdgeEntry(s: seq<Byte>, w: nat, h: nat, k: int): Byte
    requires |s| == 4 * w * h && 0 <= k < |s|
  {
    if k % 4 == 0 && InteriorPixel(w, h, k / 4) then EdgeStrength(s, w, h, k / 4) else 0
  }

  /** The edge buffer pass 1 leaves behind, computed from the original pixels. */
  function EdgeMap(s: seq<Byte>, w: nat, h: nat): (e: seq<Byte>)
    requires |s| == 4 * w * h
    ensures |e| == |s|
  {
    seq(|s|, k requires 0 <= k < |s| => EdgeEntry(s, w, h, k))
  }

  /**
   * The edge entry of the pixel at (x, y) is its gradient magnitude when it
   * is interior and 0 when it lies on the border.
   */
  lemma EdgeMapAt(s: seq<Byte>, w: nat, h: nat, x: int, y: int)
    requires |s| == 4 * w * h && 0 <= x < w && 0 <= y < h
    ensures 4 * (y * w + x) < |s|
    ensures InteriorPixel(w, h, y * w + x) == Interior(w, h, x, y)
    ensures EdgeMap(s, w, h)[4 * (y * w + x)] ==
      if Interior(w, h, x, y) then EdgeStrength(s, w, h, y * w + x) else 0
  {
    PixelInImage(w, h, x, y);
    RowMajor(y * w + x, w, y, x);
    assert 4 * (y * w + x) / 4 == y * w + x;
  }

  /** Border pixels are never edges when the threshold is not negative. */
  lemma BorderIsNeverEdge(s: seq<Byte>, w: nat, h: nat, x: int, y: int, threshold: real)
    requires |s| == 4 * w * h && 0 <= x < w && 0 <= y < h
    requires !Interior(w, h, x, y) && threshold >= 0.0
    ensures 4 * (y * w + x) < |s|
    ensures EdgeMap(s, w, h)[4 * (y * w + x)] == 0
    ensures !(EdgeMap(s, w, h)[4 * (y * w + x)] as real > threshold)
  {
    EdgeMapAt(s, w, h, x, y);
  }

  /** An image less than 3 pixels wide or tall has no edge anywhere. */
  lemma NarrowImageHasNoEdges(s: seq<Byte>, w: nat, h: nat)
    requires |s| == 4 * w * h && (w < 3 || h < 3)
    ensures forall k :: 0 <= k < |s| ==> EdgeMap(s, w, h)[k] == 0
  {
  }

  /** A 3×3 opaque image whose left column is black and whose other pixels are white. */
  function LeftColumnBlack(): (s: seq<Byte>)
    ensures |s| == 4 * 3 * 3
  {
    seq(36, k requires 0 <= k < 36 => if k % 4 == 3 || k % 12 >= 4 then 255 else 0)
  }

  /**
   * A black/white boundary is detected: the centre of LeftColumnBlack has
   * gradient (127.5, 0), so its edge entry is 128, above the default
   * threshold.
   */
  lemma BoundaryIsEdge()
    ensures EdgeMap(LeftColumnBlack(), 3, 3)[16] == 128
    ensures EdgeMap(LeftColumnBlack(), 3, 3)[16] as real > DefaultConfig.edgeThreshold
  {
    EdgeMapAt(LeftColumnBlack(), 3, 3, 1, 1);
    assert Interior(3, 3, 1, 1);
    BoundaryStrength();
  }

  /** The stored magnitude at the centre of LeftColumnBlack: 127.5 rounds to the even 128. */
  lemma BoundaryStrength()
    ensures InteriorPixel(3, 3, 4) && EdgeStrength(LeftColumnBlack(), 3, 3, 4) == 128
  {
    assert InteriorPixel(3, 3, 4);
    BoundaryGradient();
    SqrtByteIsStoreOfRoot(127.5);
    StoreAtHalf(127.5, 127);
    assert Magnitude(127.5, 0.0) == SqrtByte(127.5 * 127.5 + 0.0 * 0.0) == 128;
  }

  /**
   * Under any threshold below 128 (the default is 30), the white centre of
   * LeftColumnBlack is remapped on the sharpened (edge) path.
   */
  lemma BoundaryIsSharpened(cfg: FilterConfig)
    requires cfg.edgeThreshold < 128.0
    ensures var out := FilteredImage(LeftColumnBlack(), 3, 3, cfg);
      var px := RemapPixel(cfg, 255, 255, 255, true);
      out[16] == px.r && out[17] == px.g && out[18] == px.b
  {
    var s := LeftColumnBlack();
    assert s[16] == 255 && s[17] == 255 && s[18] == 255;
    BoundaryIsEdge();
    assert EdgeMap(s, 3, 3)[16] as real > cfg.edgeThreshold;
    FilteredPixel(s, 3, 3, cfg, 4);
  }

  /** The Sobel sums at the centre of LeftColumnBlack: a full step from left to right, none vertically. */
  lemma BoundaryGradient()
    ensures GradX(LeftColumnBlack(), 3, 4) == 127.5
    ensures GradY(LeftColumnBlack(), 3, 4) == 0.0
  {
    var s := LeftColumnBlack();
    LeftColumnBlackGrey(0);
    LeftColumnBlackGrey(1);
    LeftColumnBlackGrey(2);
    LeftColumnBlackGrey(3);
    LeftColumnBlackGrey(5);
    LeftColumnBlackGrey(6);
    LeftColumnBlackGrey(7);
    LeftColumnBlackGrey(8);
  }

  /** The grey value of pixel `q` of LeftColumnBlack: 0 in the left column, 255 elsewhere. */
  lemma LeftColumnBlackGrey(q: nat)
    requires q < 9
    ensures GrayValue(LeftColumnBlack(), q) == if q % 3 == 0 then 0.0 else 255.0
  {
    var s := LeftColumnBlack();
    var i := 4 * q;
    assert i % 12 >= 4 <==> q % 3 != 0;
    assert s[i] == s[i + 1] == s[i + 2];
  }

  // ---------------------------------------------------------------------
  // Pass 2: the colour remap of one pixel
  // ---------------------------------------------------------------------

  datatype Rgb = Rgb(r: real, g: real, b: real)

  /** Blends each channel towards the channel average by the factor `d`. */
  function Desaturate(c: Rgb, d: real): Rgb
  {
    var avg := (c.r + c.g + c.b) / 3.0;
    Rgb(c.r * (1.0 - d) + avg * d, c.g * (1.0 - d) + avg * d, c.b * (1.0 - d) + avg * d)
  }

  /** Desaturation keeps the channel average; full desaturation gives a grey. */
  lemma DesaturateKeepsAverage(c: Rgb, d: real)
    ensures var o := Desaturate(c, d);
      && o.r + o.g + o.b == c.r + c.g + c.b
      && (d == 1.0 ==> o.r == o.g == o.b)
      && (d == 0.0 ==> o == c)
  {
    var avg := (c.r + c.g + c.b) / 3.0;
    assert c.r * (1.0 - d) + c.g * (1.0 - d) + c.b * (1.0 - d) == (c.r + c.g + c.b) * (1.0 - d);
    assert avg * d + avg * d + avg * d == (c.r + c.g + c.b) * d;
  }

  datatype Tone = Highlight | Shadow | Midtone

  /** The highlight test comes first; the shadow test only when it fails. */
  function ToneOf(cfg: FilterConfig, luma: real): Tone
  {
    if luma > cfg.highlightThreshold then Highlight
    else if luma < cfg.shadowThreshold then Shadow
    else Midtone
  }

  /** How far a highlight lies towards white, in (0, 1]. */
  function Oiliness(luma: real, highlight: real): (o: real)
    requires highlight < luma <= 255.0
    ensures 0.0 < o <= 1.0
  {
    (luma - highlight) / (255.0 - highlight)
  }

  /** How far a shadow lies towards black, in (0, 1]. */
  function Coldness(luma: real, shadow: real): (c: real)
    requires 0.0 <= luma < shadow
    ensures 0.0 < c <= 1.0
  {
    (shadow - luma) / shadow
  }

  /** The highlight cast (+40, +35, -20) or shadow cast (-15, +10, +25), scaled. */
  function ToneShift(cfg: FilterConfig, luma: real, c: Rgb): Rgb
    requires 0.0 <= luma <= 255.0
  {
    match ToneOf(cfg, luma)
    case Highlight =>
      var oiliness := Oiliness(luma, cfg.highlightThreshold);
      Rgb(c.r + oiliness * 40.0, c.g + oiliness * 35.0, c.b - oiliness * 20.0)
    case Shadow =>
      var coldness := Coldness(luma, cfg.shadowThreshold);
      Rgb(c.r - coldness * 15.0, c.g + coldness * 10.0, c.b + coldness * 25.0)
    case Midtone => c
  }

  /** The colour after desaturation and the tone shift. */
  function Toned(cfg: FilterConfig, r: Byte, g: Byte, b: Byte): Rgb
  {
    ToneShift(cfg, Luma(r, g, b), Desaturate(Rgb(r as real, g as real, b as real), cfg.desaturation))
  }

  /** One channel after contrast around 128, brightness and, on an edge, sharpening. */
  function Finish(cfg: FilterConfig, v: real, isEdge: bool): real
  {
    var contrasted := (v - 128.0) * cfg.contrast + 128.0;
    var brightened := contrasted * cfg.brightness;
    if isEdge then brightened * cfg.edgeSharpness else brightened
  }

  /** Math.max(0, Math.min(255, v)) followed by the Uint8ClampedArray store. */
  function StoreChannel(v: real): Byte
  {
    ToByte(Clamp(v))
  }

  /** The new R, G and B of one pixel. */
  function RemapPixel(cfg: FilterConfig, r: Byte, g: Byte, b: Byte, isEdge: bool): Pixel
  {
    var t := Toned(cfg, r, g, b);
    Pixel(StoreChannel(Finish(cfg, t.r, isEdge)), StoreChannel(Finish(cfg, t.g, isEdge)), StoreChannel(Finish(cfg, t.b, isEdge)))
  }

  /**
   * The two tone branches are exclusive and strict: a pixel exactly at the
   * highlight threshold is no highlight, one exactly at the shadow threshold
   * no shadow, and a midtone is not shifted at all.
   */
  lemma ToneBranches(cfg: FilterConfig, luma: real, c: Rgb)
    requires 0.0 <= luma <= 255.0
    ensures ToneOf(cfg, luma) == Highlight <==> luma > cfg.highlightThreshold
    ensures ToneOf(cfg, luma) == Shadow <==> !(luma > cfg.highlightThreshold) && luma < cfg.shadowThreshold
    ensures luma == cfg.highlightThreshold ==> ToneOf(cfg, luma) != Highlight
    ensures luma == cfg.shadowThreshold ==> ToneOf(cfg, luma) != Shadow
    ensures cfg.shadowThreshold <= luma <= cfg.highlightThreshold ==> ToneShift(cfg, luma, c) == c
  {
  }

  /** The tone step reads only the desaturation and the two tone thresholds. */
  lemma TonedReadsToneFields(c1: FilterConfig, c2: FilterConfig, r: Byte, g: Byte, b: Byte)
    requires c1.desaturation == c2.desaturation
    requires c1.highlightThreshold == c2.highlightThreshold && c1.shadowThreshold == c2.shadowThreshold
    ensures Toned(c1, r, g, b) == Toned(c2, r, g, b)
  {
  }

  /** A pixel that is not an edge does not depend on the sharpness parameter. */
  lemma NonEdgeIgnoresSharpness(cfg: FilterConfig, r: Byte, g: Byte, b: Byte, k: real)
    ensures RemapPixel(cfg.(edgeSharpness := k), r, g, b, false) == RemapPixel(cfg, r, g, b, false)
  {
    var c2 := cfg.(edgeSharpness := k);
    TonedReadsToneFields(c2, cfg, r, g, b);
    var t := Toned(cfg, r, g, b);
    assert Finish(c2, t.r, false) == Finish(cfg, t.r, false);
    assert Finish(c2, t.g, false) == Finish(cfg, t.g, false);
    assert Finish(c2, t.b, false) == Finish(cfg, t.b, false);
  }

  lemma ProductNonNegative(a: real, b: real)
    requires a >= 0.0 && b >= 0.0
    ensures a * b >= 0.0
  {
  }

  /** Scaling by a factor of at least 1 never stores a smaller byte. */
  lemma ScaledNotSmaller(v: real, k: real)
    requires k >= 1.0
    ensures StoreChannel(v * k) >= StoreChannel(v)
  {
    if v >= 0.0 {
      GrowsWhenScaled(v, k);
      StoreMonotone(v, v * k);
    } else {
      ToByteOfByte(0);
    }
  }

  lemma GrowsWhenScaled(v: real, k: real)
    requires v >= 0.0 && k >= 1.0
    ensures v * k >= v
  {
    ProductNonNegative(v, k - 1.0);
    assert v * k == v + v * (k - 1.0);
  }

  /** The clamped store is monotone. */
  lemma StoreMonotone(u: real, v: real)
    requires u <= v
    ensures StoreChannel(u) <= StoreChannel(v)
  {
    ToByteOfClamp(u);
    ToByteOfClamp(v);
    ToByteMonotone(u, v);
  }

  /** On an edge, a channel is the non-edge value times the sharpness. */
  lemma SharpenScales(cfg: FilterConfig, v: real)
    ensures Finish(cfg, v, true) == Finish(cfg, v, false) * cfg.edgeSharpness
  {
  }

  /** With a sharpness of at least 1, a channel stores at least as much on an edge as off one. */
  lemma SharpenedChannelNotDarker(cfg: FilterConfig, v: real)
    requires cfg.edgeSharpness >= 1.0
    ensures StoreChannel(Finish(cfg, v, true)) >= StoreChannel(Finish(cfg, v, false))
  {
    SharpenScales(cfg, v);
    ScaledNotSmaller(Finish(cfg, v, false), cfg.edgeSharpness);
  }

  /**
   * With a sharpness of at least 1, an edge pixel is never darker in any
   * channel than the same pixel would be as a non-edge.
   */
  lemma EdgeIsNeverDarker(cfg: FilterConfig, r: Byte, g: Byte, b: Byte)
    requires cfg.edgeSharpness >= 1.0
    ensures RemapPixel(cfg, r, g, b, true).r >= RemapPixel(cfg, r, g, b, false).r
    ensures RemapPixel(cfg, r, g, b, true).g >= RemapPixel(cfg, r, g, b, false).g
    ensures RemapPixel(cfg, r, g, b, true).b >= RemapPixel(cfg, r, g, b, false).b
  {
    var t := Toned(cfg, r, g, b);
    SharpenedChannelNotDarker(cfg, t.r);
    SharpenedChannelNotDarker(cfg, t.g);
    SharpenedChannelNotDarker(cfg, t.b);
  }

  // ---------------------------------------------------------------------
  // The whole filter as a function of the original buffer
  // ---------------------------------------------------------------------

  /** The buffer `buf` with the colour `px` written over R, G and B of the pixel starting at byte `i`. */
  function WriteAt(buf: seq<Byte>, px: Pixel, i: nat): (out: seq<Byte>)
    requires i + 3 < |buf|
    ensures |out| == |buf|
  {
    buf[i := px.r][i + 1 := px.g][i + 2 := px.b]
  }

  /** The buffer `s` after its first `n` pixels have received the colours `cs[0]` to `cs[n - 1]`. */
  function WriteColours(s: seq<Byte>, cs: seq<Pixel>, n: nat): (out: seq<Byte>)
    requires 4 * n <= |s| && n <= |cs|
    ensures |out| == |s|
  {
    if n == 0 then s else WriteAt(WriteColours(s, cs, n - 1), cs[n - 1], 4 * (n - 1))
  }

  /**
   * After the first `n` colours are written, pixel `p` holds its colour when
   * it lies below `n` and is untouched otherwise; its alpha is untouched
   * either way.
   */
  lemma {:induction false} WriteColoursPixel(s: seq<Byte>, cs: seq<Pixel>, n: nat, p: nat)
    requires 4 * n <= |s| && n <= |cs| && 4 * p + 3 < |s|
    ensures var out := WriteColours(s, cs, n);
      var i := 4 * p;
      && (p < n ==> out[i] == cs[p].r && out[i + 1] == cs[p].g && out[i + 2] == cs[p].b)
      && (p >= n ==> out[i] == s[i] && out[i + 1] == s[i + 1] && out[i + 2] == s[i + 2])
      && out[i + 3] == s[i + 3]
  {
    if n > 0 {
      WriteColoursPixel(s, cs, n - 1, p);
    }
  }

  /** The new colour of the pixel starting at byte `i`, from its R, G, B and its edge entry. */
  function NewColour(s: seq<Byte>, edges: seq<Byte>, cfg: FilterConfig, i: nat): Pixel
    requires |edges| == |s| && i + 3 < |s|
  {
    RemapPixel(cfg, s[i], s[i + 1], s[i + 2], edges[i] as real > cfg.edgeThreshold)
  }

  /** The new colours of the first `n` pixels of `s`, in pixel order. */
  function NewColours(s: seq<Byte>, edges: seq<Byte>, cfg: FilterConfig, n: nat): (cs: seq<Pixel>)
    requires |edges| == |s| && 4 * n <= |s|
    ensures |cs| == n
  {
    if n == 0 then [] else NewColours(s, edges, cfg, n - 1) + [NewColour(s, edges, cfg, 4 * (n - 1))]
  }

  /** Colour number `p` is the new colour of pixel `p`. */
  lemma {:induction false} NewColoursAt(s: seq<Byte>, edges: seq<Byte>, cfg: FilterConfig, n: nat, p: nat)
    requires |edges| == |s| && 4 * n <= |s| && p < n
    ensures NewColours(s, edges, cfg, n)[p] == NewColour(s, edges, cfg, 4 * p)
  {
    if p < n - 1 {
      NewColoursAt(s, edges, cfg, n - 1, p);
    }
  }

  /** Every pixel of `s` recoloured, classified as an edge by its entry in `edges`. */
  function RemappedImage(s: seq<Byte>, edges: seq<Byte>, cfg: FilterConfig): (out: seq<Byte>)
    requires |edges| == |s| && |s| % 4 == 0
    ensures |out| == |s|
  {
    WriteColours(s, NewColours(s, edges, cfg, |s| / 4), |s| / 4)
  }

  /**
   * The buffer processImageData leaves behind: every pixel remapped, its
   * edge classification taken from the edge map of the ORIGINAL pixels.
   */
  function FilteredImage(s: seq<Byte>, w: nat, h: nat, cfg: FilterConfig): (out: seq<Byte>)
    requires |s| == 4 * w * h
    ensures |out| == |s|
  {
    assert |s| == 4 * (w * h);
    RemappedImage(s, EdgeMap(s, w, h), cfg)
  }

  /**
   * Pixel number `p` of the filtered buffer: its R, G, B are the remap of
   * its own original R, G, B, classified as an edge by its own edge-map
   * entry, and its alpha is unchanged.
   */
  lemma FilteredPixel(s: seq<Byte>, w: nat, h: nat, cfg: FilterConfig, p: nat)
    requires |s| == 4 * w * h && 4 * p + 3 < |s|
    ensures |FilteredImage(s, w, h, cfg)| == |s|
    ensures var i := 4 * p;
      var out := FilteredImage(s, w, h, cfg);
      var px := RemapPixel(cfg, s[i], s[i + 1], s[i + 2], EdgeMap(s, w, h)[i] as real > cfg.edgeThreshold);
      out[i] == px.r && out[i + 1] == px.g && out[i + 2] == px.b && out[i + 3] == s[i + 3]
  {
    assert |s| == 4 * (w * h);
    RemappedPixel(s, EdgeMap(s, w, h), cfg, p);
  }

  /** Pixel number `p` of the remapped buffer holds the new colour of its own R, G, B and edge entry. */
  lemma RemappedPixel(s: seq<Byte>, edges: seq<Byte>, cfg: FilterConfig, p: nat)
    requires |edges| == |s| && |s| % 4 == 0 && 4 * p + 3 < |s|
    ensures var i := 4 * p;
      var out := RemappedImage(s, edges, cfg);
      var px := NewColour(s, edges, cfg, i);
      out[i] == px.r && out[i + 1] == px.g && out[i + 2] == px.b && out[i + 3] == s[i + 3]
  {
    var n := |s| / 4;
    WriteColoursPixel(s, NewColours(s, edges, cfg, n), n, p);
    NewColoursAt(s, edges, cfg, n, p);
  }

  /**
   * A uniform image has no edges, so with a non-negative threshold every
   * pixel gets the same non-edge remap of the common colour.
   */
  lemma UniformImage(s: seq<Byte>, w: nat, h: nat, cfg: FilterConfig, r: Byte, g: Byte, b: Byte, p: nat)
    requires |s| == 4 * w * h && p < w * h
    requires forall q :: 0 <= q < w * h ==> s[4 * q] == r && s[4 * q + 1] == g && s[4 * q + 2] == b
    requires cfg.edgeThreshold >= 0.0
    ensures 4 * p + 3 < |s|
    ensures var out := FilteredImage(s, w, h, cfg);
      var px := RemapPixel(cfg, r, g, b, false);
      out[4 * p] == px.r && out[4 * p + 1] == px.g && out[4 * p + 2] == px.b
  {
    UniformPixel(s, w, h, r, g, b, p);
    NonEdgePixel(s, w, h, cfg, p);
  }

  /** Every pixel of a uniform image has the common colour and edge entry 0. */
  lemma UniformPixel(s: seq<Byte>, w: nat, h: nat, r: Byte, g: Byte, b: Byte, p: nat)
    requires |s| == 4 * w * h && p < w * h
    requires forall q :: 0 <= q < w * h ==> s[4 * q] == r && s[4 * q + 1] == g && s[4 * q + 2] == b
    ensures 4 * p + 3 < |s| && s[4 * p] == r && s[4 * p + 1] == g && s[4 * p + 2] == b
    ensures EdgeMap(s, w, h)[4 * p] == 0
  {
    assert |s| == 4 * (w * h);
    assert s[4 * p] == r && s[4 * p + 1] == g && s[4 * p + 2] == b;
    if InteriorPixel(w, h, p) {
      UniformStrength(s, w, h, r, g, b, p);
    }
    EdgeMapEntry(s, w, h, p);
  }

  /** A pixel whose edge entry is 0 gets the non-edge remap of its own colour. */
  lemma NonEdgePixel(s: seq<Byte>, w: nat, h: nat, cfg: FilterConfig, p: nat)
    requires |s| == 4 * w * h && 4 * p + 3 < |s|
    requires EdgeMap(s, w, h)[4 * p] == 0 && cfg.edgeThreshold >= 0.0
    ensures var out := FilteredImage(s, w, h, cfg);
      var px := RemapPixel(cfg, s[4 * p], s[4 * p + 1], s[4 * p + 2], false);
      out[4 * p] == px.r && out[4 * p + 1] == px.g && out[4 * p + 2] == px.b
  {
    FilteredPixel(s, w, h, cfg, p);
  }

  /** The edge entry of pixel `p` is its magnitude when it is interior and 0 otherwise. */
  lemma EdgeMapEntry(s: seq<Byte>, w: nat, h: nat, p: nat)
    requires |s| == 4 * w * h && 4 * p < |s|
    ensures EdgeMap(s, w, h)[4 * p] == if InteriorPixel(w, h, p) then EdgeStrength(s, w, h, p) else 0
  {
    assert 4 * p / 4 == p;
  }

  /** An interior pixel of a uniform image has gradient magnitude 0. */
  lemma UniformStrength(s: seq<Byte>, w: nat, h: nat, r: Byte, g: Byte, b: Byte, p: int)
    requires |s| == 4 * w * h && 0 <= p && InteriorPixel(w, h, p)
    requires forall q :: 0 <= q < w * h ==> s[4 * q] == r && s[4 * q + 1] == g && s[4 * q + 2] == b
    ensures EdgeStrength(s, w, h, p) == 0
  {
    InteriorNeighbours(w, h, p);
    UniformGray(s, w, h, r, g, b, p - w - 1);
    UniformGray(s, w, h, r, g, b, p - w);
    UniformGray(s, w, h, r, g, b, p - w + 1);
    UniformGray(s, w, h, r, g, b, p - 1);
    UniformGray(s, w, h, r, g, b, p + 1);
    UniformGray(s, w, h, r, g, b, p + w - 1);
    UniformGray(s, w, h, r, g, b, p + w);
    UniformGray(s, w, h, r, g, b, p + w + 1);
    FlatGradients(s, w, p, Luma(r, g, b));
    SqrtByteOfZero();
  }

  /** Where all eight neighbours have the same luma, both gradients are 0. */
  lemma FlatGradients(s: seq<Byte>, w: nat, p: int, l: real)
    requires 0 <= p - w - 1 && 4 * (p + w + 1) + 2 < |s|
    requires GrayValue(s, p - w - 1) == l && GrayValue(s, p - w) == l && GrayValue(s, p - w + 1) == l
    requires GrayValue(s, p - 1) == l && GrayValue(s, p + 1) == l
    requires GrayValue(s, p + w - 1) == l && GrayValue(s, p + w) == l && GrayValue(s, p + w + 1) == l
    ensures GradX(s, w, p) == 0.0 && GradY(s, w, p) == 0.0
  {
  }

  lemma UniformGray(s: seq<Byte>, w: nat, h: nat, r: Byte, g: Byte, b: Byte, q: int)
    requires |s| == 4 * w * h && 0 <= q < w * h
    requires forall p :: 0 <= p < w * h ==> s[4 * p] == r && s[4 * p + 1] == g && s[4 * p + 2] == b
    ensures 4 * q + 2 < |s| && GrayValue(s, q) == Luma(r, g, b)
  {
    assert s[4 * q] == r && s[4 * q + 1] == g && s[4 * q + 2] == b;
  }

  // ---------------------------------------------------------------------
  // Concrete pixels with the default configuration
  // ---------------------------------------------------------------------

  /** Mid-grey is a midtone: desaturation and the tone step leave it at 128. */
  lemma MidGreyToned()
    ensures Toned(DefaultConfig, 128, 128, 128) == Rgb(128.0, 128.0, 128.0)
  {
  }

  /** Mid-grey (128, 128, 128), no edge: contrast keeps 128, brightness 0.75 gives 96. */
  lemma MidGreyWithDefaults()
    ensures var px := RemapPixel(DefaultConfig, 128, 128, 128, false);
      px.r == 96 && px.g == 96 && px.b == 96
  {
    MidGreyToned();
    MidGreyFinished();
  }

  lemma MidGreyFinished()
    ensures StoreChannel(Finish(DefaultConfig, 128.0, false)) == 96
  {
    assert Finish(DefaultConfig, 128.0, false) == 96.0;
    ToByteOfByte(96);
  }

  /** White is a highlight with oiliness 1: the full cast (+40, +35, -20). */
  lemma WhiteToned()
    ensures Toned(DefaultConfig, 255, 255, 255) == Rgb(295.0, 290.0, 235.0)
  {
  }

  /**
   * White (255, 255, 255), no edge, becomes (255, 255, 208): yellow-green,
   * where contrast and brightness alone would give grey (229, 229, 229).
   */
  lemma WhiteTurnsYellowGreen()
    ensures var px := RemapPixel(DefaultConfig, 255, 255, 255, false);
      px.r == 255 && px.g == 255 && px.b == 208
    ensures StoreChannel(Finish(DefaultConfig, 255.0, false)) == 229
  {
    WhiteToned();
    WhiteFinished();
  }

  lemma WhiteFinished()
    ensures StoreChannel(Finish(DefaultConfig, 295.0, false)) == 255
    ensures StoreChannel(Finish(DefaultConfig, 290.0, false)) == 255
    ensures StoreChannel(Finish(DefaultConfig, 235.0, false)) == 208
    ensures StoreChannel(Finish(DefaultConfig, 255.0, false)) == 229
  {
    assert Finish(DefaultConfig, 295.0, false) > 255.0;
    assert Finish(DefaultConfig, 290.0, false) > 255.0;
    ToByteOfByte(255);
    assert Finish(DefaultConfig, 235.0, false) == 208.35;
    StoreInsideInterval(208.35, 208);
    assert Finish(DefaultConfig, 255.0, false) == 229.35;
    StoreInsideInterval(229.35, 229);
  }

  /** Near-black is a shadow with coldness 7/8: the cast moves it towards blue. */
  lemma NearBlackToned()
    ensures Toned(DefaultConfig, 10, 10, 10) == Rgb(-3.125, 18.75, 31.875)
  {
  }

  /**
   * Near-black (10, 10, 10), no edge, is stored as (0, 0, 0), exactly as it
   * would be without the shadow cast: every channel is negative after contrast.
   */
  lemma NearBlackClampsToBlack()
    ensures var px := RemapPixel(DefaultConfig, 10, 10, 10, false);
      px.r == 0 && px.g == 0 && px.b == 0
    ensures StoreChannel(Finish(DefaultConfig, 10.0, false)) == 0
  {
    NearBlackToned();
    NearBlackFinished();
  }

  lemma NearBlackFinished()
    ensures StoreChannel(Finish(DefaultConfig, -3.125, false)) == 0
    ensures StoreChannel(Finish(DefaultConfig, 18.75, false)) == 0
    ensures StoreChannel(Finish(DefaultConfig, 31.875, false)) == 0
    ensures StoreChannel(Finish(DefaultConfig, 10.0, false)) == 0
  {
    assert Finish(DefaultConfig, -3.125, false) < 0.0;
    assert Finish(DefaultConfig, 18.75, false) < 0.0;
    assert Finish(DefaultConfig, 31.875, false) < 0.0;
    assert Finish(DefaultConfig, 10.0, false) < 0.0;
    ToByteOfByte(0);
  }

  // ---------------------------------------------------------------------
  // processImageData
  // ---------------------------------------------------------------------

  /**
   * processImageData: pass 1 computes the edge map of the original pixels,
   * pass 2 rewrites R, G and B of every pixel in place, leaving alpha alone.
   */
  method ProcessImageData(data: array<Byte>, width: nat, height: nat, filter: Option<FilterSettings>)
    requires data.Length == 4 * width * height
    modifies data
    ensures data[..] == FilteredImage(old(data[..]), width, height, Resolve(filter))
  {
    var cfg := Resolve(filter);
    var edgeData := DetectEdges(data, width, height);
    assert data.Length == 4 * (width * height);
    RemapColours(data, edgeData, cfg);
  }

  /**
   * Pass 1: a fresh zero-filled buffer receives, in nested row and column
   * loops over the interior, the gradient magnitude of each interior pixel
   * at that pixel's first byte.
   */
  method DetectEdges(data: array<Byte>, width: nat, height: nat) returns (edgeData: array<Byte>)
    requires data.Length == 4 * width * height
    ensures fresh(edgeData)
    ensures edgeData[..] == EdgeMap(data[..], width, height)
  {
    ghost var orig := data[..];
    ghost var w, h := width, height;
    edgeData := new Byte[data.Length](_ => 0);

    InitialPixelsAreBorder(orig, w, h);
    SkipBorder(edgeData[..], orig, w, h, 0, 1 * width + 1);
    var y := 1;
    while y < height - 1
      invariant 1 <= y && (height >= 2 ==> y <= height - 1)
      invariant edgeData.Length == data.Length
      invariant EdgesDoneBelow(edgeData[..], orig, w, h, y * width + 1)
    {
      var x := 1;
      while x < width - 1
        invariant 1 <= x <= (if width >= 2 then width - 1 else 1)
        invariant edgeData.Length == data.Length
        invariant EdgesDoneBelow(edgeData[..], orig, w, h, y * width + x)
      {
        var idx := (y * width + x) * 4;
        var magnitude := InteriorMagnitude(data, width, height, x, y);
        StoredMagnitudeIsEntry(orig, w, h, x, y, idx);
        ghost var before := edgeData[..];
        edgeData[idx] := magnitude;
        EdgeStep(before, edgeData[..], orig, w, h, y * width + x);
        x := x + 1;
      }
      RowGapIsBorder(orig, w, h, y, x);
      SkipBorder(edgeData[..], orig, w, h, y * width + x, (y + 1) * width + 1);
      y := y + 1;
    }
    FinalPixelsAreBorder(orig, w, h, y);
    ghost var last := if y * width + 1 < w * h then w * h else y * width + 1;
    SkipBorder(edgeData[..], orig, w, h, y * width + 1, last);
    DoneIsEdgeMap(edgeData[..], orig, w, h, last);
  }

  /**
   * The body of the pass-1 loop for the interior pixel (x, y): the two Sobel
   * sums over the luma of its neighbours, and their stored magnitude.
   */
  method InteriorMagnitude(data: array<Byte>, width: nat, height: nat, x: int, y: int) returns (magnitude: Byte)
    requires data.Length == 4 * width * height && Interior(width, height, x, y)
    ensures InteriorPixel(width, height, y * width + x) && y * width + x >= 0
    ensures magnitude == EdgeStrength(data[..], width, height, y * width + x)
  {
    ghost var p := y * width + x;
    SobelNeighbours(width, height, x, y);
    RowMajor(p, width, y, x);

    var gx :=
      (-1.0 * GrayValue(data[..], (y - 1) * width + (x - 1)) +
        1.0 * GrayValue(data[..], (y - 1) * width + (x + 1)) +
        -2.0 * GrayValue(data[..], y * width + (x - 1)) +
        2.0 * GrayValue(data[..], y * width + (x + 1)) +
        -1.0 * GrayValue(data[..], (y + 1) * width + (x - 1)) +
        1.0 * GrayValue(data[..], (y + 1) * width + (x + 1))) / 8.0;

    var gy :=
      (-1.0 * GrayValue(data[..], (y - 1) * width + (x - 1)) +
        -2.0 * GrayValue(data[..], (y - 1) * width + x) +
        -1.0 * GrayValue(data[..], (y - 1) * width + (x + 1)) +
        1.0 * GrayValue(data[..], (y + 1) * width + (x - 1)) +
        2.0 * GrayValue(data[..], (y + 1) * width + x) +
        1.0 * GrayValue(data[..], (y + 1) * width + (x + 1))) / 8.0;

    assert gx == GradX(data[..], width, p) && gy == GradY(data[..], width, p);
    magnitude := Magnitude(gx, gy);
  }

  /**
   * Pass 2: for every pixel, four bytes at a time, compute the new colour
   * from the original R, G, B and the pixel's edge entry and store it,
   * leaving alpha alone.
   */
  method RemapColours(data: array<Byte>, edgeData: array<Byte>, cfg: FilterConfig)
    requires edgeData.Length == data.Length && data.Length % 4 == 0 && data != edgeData
    modifies data
    ensures data[..] == RemappedImage(old(data[..]), edgeData[..], cfg)
  {
    ghost var orig := data[..];
    ghost var edges := edgeData[..];
    ghost var pixels := data.Length / 4;
    ghost var colours := NewColours(orig, edges, cfg, pixels);
    ghost var done := 0;
    var i := 0;
    while i < data.Length
      invariant data.Length == 4 * pixels && edgeData[..] == edges
      invariant 0 <= done <= pixels && i == 4 * done
      invariant data[..] == WriteColours(orig, colours, done)
    {
      WriteColoursPixel(orig, colours, done, done);
      NewColoursAt(orig, edges, cfg, pixels, done);
      RemapPixelInPlace(data, edgeData, cfg, i);
      i := i + 4;
      done := done + 1;
    }
  }

  /**
   * The body of the pass-2 loop: the pixel starting at byte `i` gets the new
   * colour of its current R, G and B; alpha and every other pixel stay.
   */
  method RemapPixelInPlace(data: array<Byte>, edgeData: array<Byte>, cfg: FilterConfig, i: nat)
    requires edgeData.Length == data.Length && i + 3 < data.Length && data != edgeData
    modifies data
    ensures data[..] == WriteAt(old(data[..]), NewColour(old(data[..]), edgeData[..], cfg, i), i)
  {
    var r := data[i];
    var g := data[i + 1];
    var b := data[i + 2];
    var isEdge := edgeData[i] as real > cfg.edgeThreshold;
    var finalR, finalG, finalB := AdjustPixel(cfg, r, g, b, isEdge);
    data[i] := ToByte(Clamp(finalR));
    data[i + 1] := ToByte(Clamp(finalG));
    data[i + 2] := ToByte(Clamp(finalB));
  }

  /**
   * The body of the pass-2 loop for one pixel: luminance, desaturation and
   * tone shift for the three channels together, then contrast, brightness
   * and sharpening, which treat each channel alike and on its own.
   */
  method AdjustPixel(cfg: FilterConfig, r: Byte, g: Byte, b: Byte, isEdge: bool)
    returns (finalR: real, finalG: real, finalB: real)
    ensures var t := Toned(cfg, r, g, b);
      finalR == Finish(cfg, t.r, isEdge) && finalG == Finish(cfg, t.g, isEdge) && finalB == Finish(cfg, t.b, isEdge)
  {
    finalR, finalG, finalB := ToneStep(cfg, r, g, b);
    finalR := FinishStep(cfg, finalR, isEdge);
    finalG := FinishStep(cfg, finalG, isEdge);
    finalB := FinishStep(cfg, finalB, isEdge);
  }

  /** The second half of the pass-2 loop body on one channel: contrast, brightness, sharpening. */
  method FinishStep(cfg: FilterConfig, v: real, isEdge: bool) returns (out: real)
    ensures out == Finish(cfg, v, isEdge)
  {
    var contrast := cfg.contrast;
    out := (v - 128.0) * contrast + 128.0;
    var brightness := cfg.brightness;
    out := out * brightness;
    if isEdge {
      var edgeSharpness := cfg.edgeSharpness;
      out := out * edgeSharpness;
    }
  }

  /** The first half of the pass-2 loop body: luminance, desaturation, tone shift. */
  method ToneStep(cfg: FilterConfig, r: Byte, g: Byte, b: Byte) returns (finalR: real, finalG: real, finalB: real)
    ensures var t := Toned(cfg, r, g, b); finalR == t.r && finalG == t.g && finalB == t.b
  {
    var luminance := 0.299 * (r as real) + 0.587 * (g as real) + 0.114 * (b as real);
    var desatR, desatG, desatB := DesaturateStep(cfg, r, g, b);
    finalR, finalG, finalB := ShiftStep(cfg, luminance, Rgb(desatR, desatG, desatB));
  }

  /** Desaturation towards the channel average. */
  method DesaturateStep(cfg: FilterConfig, r: Byte, g: Byte, b: Byte) returns (desatR: real, desatG: real, desatB: real)
    ensures Rgb(desatR, desatG, desatB) == Desaturate(Rgb(r as real, g as real, b as real), cfg.desaturation)
  {
    var avgColor := (r as real + g as real + b as real) / 3.0;
    var desatFactor := cfg.desaturation;
    desatR := (r as real) * (1.0 - desatFactor) + avgColor * desatFactor;
    desatG := (g as real) * (1.0 - desatFactor) + avgColor * desatFactor;
    desatB := (b as real) * (1.0 - desatFactor) + avgColor * desatFactor;
  }

  /** The highlight cast, else the shadow cast, else nothing. */
  method ShiftStep(cfg: FilterConfig, luminance: real, c: Rgb) returns (finalR: real, finalG: real, finalB: real)
    requires 0.0 <= luminance <= 255.0
    ensures var t := ToneShift(cfg, luminance, c); finalR == t.r && finalG == t.g && finalB == t.b
  {
    if luminance > cfg.highlightThreshold {
      var highlightThreshold := cfg.highlightThreshold;
      var oiliness := (luminance - highlightThreshold) / (255.0 - highlightThreshold);
      finalR := c.r + oiliness * 40.0;
      finalG := c.g + oiliness * 35.0;
      finalB := c.b - oiliness * 20.0;
    } else if luminance < cfg.shadowThreshold {
      var shadowThreshold := cfg.shadowThreshold;
      var coldness := (shadowThreshold - luminance) / shadowThreshold;
      finalR := c.r - coldness * 15.0;
      finalG := c.g + coldness * 10.0;
      finalB := c.b + coldness * 25.0;
    } else {
      finalR := c.r;
      finalG := c.g;
      finalB := c.b;
    }
  }

  // Helper lemmas for the loops of ProcessImageData.

  /** The edge buffer holds its final entries for the pixels below `n` and 0 from `n` on. */
  ghost predicate EdgesDoneBelow(e: seq<Byte>, s: seq<Byte>, w: nat, h: nat, n: int)
    requires |s| == 4 * w * h
  {
    |e| == |s| && forall k :: 0 <= k < |e| ==> e[k] == if k / 4 < n then EdgeEntry(s, w, h, k) else 0
  }

  /** The neighbour indices of the pass-1 loop, rewritten around the pixel index. */
  lemma SobelNeighbours(w: nat, h: nat, x: int, y: int)
    requires Interior(w, h, x, y)
    ensures var p := y * w + x;
      && (y - 1) * w + (x - 1) == p - w - 1 && (y - 1) * w + x == p - w && (y - 1) * w + (x + 1) == p - w + 1
      && (y + 1) * w + (x - 1) == p + w - 1 && (y + 1) * w + x == p + w && (y + 1) * w + (x + 1) == p + w + 1
      && 0 <= p - w - 1 && 4 * (p + w + 1) + 2 < 4 * w * h
  {
    PixelInImage(w, h, x + 1, y + 1);
    MulMonotone(0, y - 1, w);
  }

  /** Storing the entry of pixel `p` extends the finished part by one pixel. */
  lemma EdgeStep(before: seq<Byte>, after: seq<Byte>, s: seq<Byte>, w: nat, h: nat, p: int)
    requires |s| == 4 * w * h && 0 <= 4 * p && 4 * p + 3 < |s|
    requires EdgesDoneBelow(before, s, w, h, p)
    requires after == before[4 * p := EdgeEntry(s, w, h, 4 * p)]
    ensures EdgesDoneBelow(after, s, w, h, p + 1)
  {
    forall k | 0 <= k < |after|
      ensures after[k] == if k / 4 < p + 1 then EdgeEntry(s, w, h, k) else 0
    {
      if k / 4 == p && k != 4 * p {
        assert k % 4 != 0;
      }
    }
  }

  /** Pixels whose entries are 0 anyway can be counted as finished without a write. */
  lemma SkipBorder(e: seq<Byte>, s: seq<Byte>, w: nat, h: nat, n: int, m: int)
    requires |s| == 4 * w * h && n <= m && |e| == |s|
    requires n <= 0 ==> forall k :: 0 <= k < |e| ==> e[k] == 0
    requires n > 0 ==> EdgesDoneBelow(e, s, w, h, n)
    requires forall k :: 0 <= k < |s| && n <= k / 4 < m ==> EdgeEntry(s, w, h, k) == 0
    ensures EdgesDoneBelow(e, s, w, h, m)
  {
  }

  /** Once every pixel is finished, the edge buffer is the edge map. */
  lemma DoneIsEdgeMap(e: seq<Byte>, s: seq<Byte>, w: nat, h: nat, n: int)
    requires |s| == 4 * w * h && n >= w * h && EdgesDoneBelow(e, s, w, h, n)
    ensures e == EdgeMap(s, w, h)
  {
    assert |s| == 4 * (w * h);
    forall k | 0 <= k < |e|
      ensures e[k] == EdgeMap(s, w, h)[k]
    {
      assert k / 4 < w * h;
    }
  }


  /** The magnitude stored at `idx` for the interior pixel (x, y) is its edge-map entry. */
  lemma StoredMagnitudeIsEntry(s: seq<Byte>, w: nat, h: nat, x: int, y: int, idx: int)
    requires |s| == 4 * w * h && Interior(w, h, x, y) && idx == (y * w + x) * 4
    ensures 0 <= idx && idx + 3 < |s| && idx / 4 == y * w + x && idx == 4 * (y * w + x)
    ensures InteriorPixel(w, h, y * w + x)
    ensures EdgeEntry(s, w, h, idx) == EdgeStrength(s, w, h, y * w + x)
  {
    PixelInImage(w, h, x, y);
    RowMajor(idx / 4, w, y, x);
  }

  /** Row 0 and the first pixel of row 1 are border pixels. */
  lemma InitialPixelsAreBorder(s: seq<Byte>, w: nat, h: nat)
    requires |s| == 4 * w * h
    ensures forall k :: 0 <= k < |s| && k / 4 < 1 * w + 1 ==> EdgeEntry(s, w, h, k) == 0
  {
    forall k | 0 <= k < |s| && k / 4 < 1 * w + 1
      ensures EdgeEntry(s, w, h, k) == 0
    {
      var p := k / 4;
      if w > 0 {
        if p < w {
          RowMajor(p, w, 0, p);
        } else {
          RowMajor(p, w, 1, 0);
        }
      }
    }
  }

  /**
   * Once a row's interior is done, the pixels up to the first interior
   * column of the next row (the last column of this row and the first of
   * the next) are border pixels.
   */
  lemma RowGapIsBorder(s: seq<Byte>, w: nat, h: nat, y: int, x: int)
    requires |s| == 4 * w * h && 1 <= y && 1 <= x
    requires x >= w - 1 && (w >= 2 ==> x == w - 1) && (w < 2 ==> x == 1)
    ensures forall k :: 0 <= k < |s| && y * w + x <= k / 4 < (y + 1) * w + 1 ==> EdgeEntry(s, w, h, k) == 0
  {
    forall k | 0 <= k < |s| && y * w + x <= k / 4 < (y + 1) * w + 1
      ensures EdgeEntry(s, w, h, k) == 0
    {
      var p := k / 4;
      if w > 0 {
        if p == (y + 1) * w {
          RowMajor(p, w, y + 1, 0);
        } else {
          RowMajor(p, w, y, w - 1);
        }
      }
    }
  }

  /** Every pixel from the start of the last row on is a border pixel. */
  lemma FinalPixelsAreBorder(s: seq<Byte>, w: nat, h: nat, y: int)
    requires |s| == 4 * w * h && 1 <= y && y >= h - 1
    ensures forall k :: 0 <= k < |s| && k / 4 >= y * w + 1 ==> EdgeEntry(s, w, h, k) == 0
  {
    forall k | 0 <= k < |s| && k / 4 >= y * w + 1
      ensures EdgeEntry(s, w, h, k) == 0
    {
      if w > 0 {
        RowAtLeast(k / 4, w, y);
      }
    }
  }
}
