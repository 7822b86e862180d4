/**
 * Image scale and resolution: millimetres per pixel from a physical image size, the Nyquist limit,
 * the pixel count, the texture-based effective resolution and, when a scale is known, DPI.
 */
module Resolution {
  import opened Wrappers
  import opened Values
  import opened Pixels

  /** Millimetres per inch. */
  const MmPerInch: real := 25.4

  /** Millimetres per pixel along x (columns) and y (rows). */
  datatype Scale = Scale(x: real, y: real)

  /**
   * `calculate_image_scale`: the physical size divided by the pixel size along each axis. A size
   * with fewer than two entries makes the indexing raise (None).
   */
  function ScaleOf(g: Gray, physical: seq<real>): (s: Option<Scale>)
    ensures s.Some? <==> |physical| >= 2
    ensures s.Some? ==> s.value.x * Width(g) as real == physical[0]
    ensures s.Some? ==> s.value.y * Height(g) as real == physical[1]
  {
    if |physical| >= 2 then Some(Scale(physical[0] / Width(g) as real, physical[1] / Height(g) as real))
    else None
  }

  /** `min(scale_x, scale_y)`. */
  function ScaleFactor(s: Scale): (f: real)
    ensures f <= s.x && f <= s.y && (f == s.x || f == s.y)
  {
    if s.y < s.x then s.y else s.x
  }

  /** The `scale` record: both scales, their minimum, and the pixel size as the pair of them. */
  function ScaleRecord(s: Scale): (r: Record)
    ensures r.Keys == {"scale_x", "scale_y", "scale_factor", "pixel_size_mm"}
    ensures r["pixel_size_mm"] == Tuple([r["scale_x"], r["scale_y"]])
    ensures r["scale_factor"].PyFloat? && r["scale_factor"].x <= s.x && r["scale_factor"].x <= s.y
  {
    map[
      "scale_x" := PyFloat(s.x),
      "scale_y" := PyFloat(s.y),
      "scale_factor" := PyFloat(ScaleFactor(s)),
      "pixel_size_mm" := Tuple([PyFloat(s.x), PyFloat(s.y)])
    ]
  }

  /** `25.4 / v`; None when the division raises (a zero or a value that is not a number). */
  function InchRatio(v: Value): (d: Option<real>)
    ensures d.Some? ==> |Numbers(v)| == 1 && Numbers(v)[0] != 0.0 && d.value * Numbers(v)[0] == MmPerInch
  {
    match v
    case PyFloat(x) => if x != 0.0 then Some(MmPerInch / x) else None
    case PyInt(i) => if i != 0 then Some(MmPerInch / i as real) else None
    case _ => None
  }

  /** The two DPI values of a stored scale record, None when reading or dividing raises. */
  function DpiOf(scale: Record): (d: Option<(real, real)>)
    ensures d.Some? ==> "scale_x" in scale && "scale_y" in scale
    ensures d.Some? ==> |Numbers(scale["scale_x"])| == 1 && d.value.0 * Numbers(scale["scale_x"])[0] == MmPerInch
    ensures d.Some? ==> |Numbers(scale["scale_y"])| == 1 && d.value.1 * Numbers(scale["scale_y"])[0] == MmPerInch
  {
    if "scale_x" in scale && "scale_y" in scale then
      match InchRatio(scale["scale_x"])
      case None => None
      case Some(dx) =>
        match InchRatio(scale["scale_y"])
        case None => None
        case Some(dy) => Some((dx, dy))
    else None
  }

  /** The fields every resolution record starts with. */
  function BaseRecord(g: Gray, effective: real): (r: Record)
    ensures r.Keys == {"width_pixels", "height_pixels", "total_pixels", "nyquist_frequency", "effective_resolution"}
    ensures r["effective_resolution"] == PyFloat(effective)
  {
    var w, h := Width(g), Height(g);
    map[
      "width_pixels" := PyInt(w),
      "height_pixels" := PyInt(h),
      "total_pixels" := PyInt(w * h),
      "nyquist_frequency" := Tuple([PyFloat(w as real / 2.0), PyFloat(h as real / 2.0)]),
      "effective_resolution" := PyFloat(effective)
    ]
  }

  /**
   * The `resolution` record of image g. `texture` is the mean of the local-variance map, None
   * when computing it raised; `scale` is the stored `scale` record, if any. Any failure gives the
   * record with effective resolution 0.0 and no DPI.
   */
  function ResolutionRecord(g: Gray, texture: Option<real>, scale: Option<Record>): (r: Record)
    ensures "width_pixels" in r && "height_pixels" in r && "total_pixels" in r
    ensures "nyquist_frequency" in r && "effective_resolution" in r
  {
    match texture
    case None => BaseRecord(g, 0.0)
    case Some(t) =>
      match scale
      case None => BaseRecord(g, t)
      case Some(rec) =>
        match DpiOf(rec)
        case None => BaseRecord(g, 0.0)
        case Some(dpi) => BaseRecord(g, t)["dpi_x" := PyFloat(dpi.0)]["dpi_y" := PyFloat(dpi.1)]
  }

  /**
   * The entry the full analysis adds when a step raised before any resolution was stored: the
   * three pixel counts, with the values every resolution record holds for them.
   */
  function MinimalResolution(g: Gray): (r: Record)
    ensures r.Keys == {"width_pixels", "height_pixels", "total_pixels"}
    ensures forall e: real, k :: k in r ==> k in BaseRecord(g, e) && BaseRecord(g, e)[k] == r[k]
  {
    map[
      "width_pixels" := PyInt(Width(g)),
      "height_pixels" := PyInt(Height(g)),
      "total_pixels" := PyInt(Width(g) * Height(g))
    ]
  }

  // ---------------------------------------------------------------- properties

  /** The record's fixed fields: pixel counts and the Nyquist limit of half a cycle per pixel. */
  lemma ResolutionFields(g: Gray, texture: Option<real>, scale: Option<Record>)
    ensures var r := ResolutionRecord(g, texture, scale);
      && r["width_pixels"] == PyInt(Width(g))
      && r["height_pixels"] == PyInt(Height(g))
      && r["total_pixels"] == PyInt(Width(g) * Height(g))
      && r["nyquist_frequency"] == Tuple([PyFloat(Width(g) as real / 2.0), PyFloat(Height(g) as real / 2.0)])
  {
  }

  /**
   * DPI appears exactly when the texture measure succeeded, a scale record is stored and both of
   * its ratios can divide 25.4; otherwise the effective resolution falls back to 0.0 when a step
   * raised.
   */
  lemma DpiPresence(g: Gray, texture: Option<real>, scale: Option<Record>)
    ensures var r := ResolutionRecord(g, texture, scale);
      ("dpi_x" in r <==> texture.Some? && scale.Some? && DpiOf(scale.value).Some?)
      && ("dpi_y" in r <==> "dpi_x" in r)
    ensures var r := ResolutionRecord(g, texture, scale);
      (texture.None? || (scale.Some? && DpiOf(scale.value).None?)) ==> r["effective_resolution"] == PyFloat(0.0)
    ensures var r := ResolutionRecord(g, texture, scale);
      texture.Some? && (scale.None? || DpiOf(scale.value).Some?) ==> r["effective_resolution"] == PyFloat(texture.value)
  {
  }

  /**
   * After a scale computed from a physical size with non-zero sides, DPI is the pixel count per
   * inch of that size: dpi_x = 25.4 * width / physical[0], and dpi_x * scale_x = 25.4.
   */
  lemma ScaleGivesDpi(g: Gray, physical: seq<real>, t: real)
    requires |physical| >= 2 && physical[0] != 0.0 && physical[1] != 0.0
    ensures var s := ScaleOf(g, physical).value;
      var r := ResolutionRecord(g, Some(t), Some(ScaleRecord(s)));
      && r["dpi_x"] == PyFloat(MmPerInch * Width(g) as real / physical[0])
      && r["dpi_y"] == PyFloat(MmPerInch * Height(g) as real / physical[1])
      && r["dpi_x"].x * s.x == MmPerInch && r["dpi_y"].x * s.y == MmPerInch
  {
    var s := ScaleOf(g, physical).value;
    var w, h := Width(g) as real, Height(g) as real;
    assert s.x == physical[0] / w && s.x != 0.0;
    assert s.y == physical[1] / h && s.y != 0.0;
    InvertRatio(physical[0], w);
    InvertRatio(physical[1], h);
  }

  lemma InvertRatio(p: real, n: real)
    requires p != 0.0 && n > 0.0
    ensures MmPerInch / (p / n) == MmPerInch * n / p
  {
    var q := p / n;
    assert q * n == p;
    assert (MmPerInch * n / p) * q == MmPerInch;
  }

  /** A zero physical side makes the DPI division raise: no DPI and effective resolution 0.0. */
  lemma ZeroSizeFallsBack(g: Gray, physical: seq<real>, t: real)
    requires |physical| >= 2 && (physical[0] == 0.0 || physical[1] == 0.0)
    ensures var r := ResolutionRecord(g, Some(t), Some(ScaleRecord(ScaleOf(g, physical).value)));
      "dpi_x" !in r && r["effective_resolution"] == PyFloat(0.0)
  {
    var s := ScaleOf(g, physical).value;
    assert physical[0] == 0.0 ==> s.x == 0.0;
    assert physical[1] == 0.0 ==> s.y == 0.0;
  }
}
