/**
 * The image quality analyzer: an object holding the loaded image and the `results` dictionary,
 * whose step methods each write one metric category and whose full analysis runs them in order.
 * Library outputs computed from the image (edge map, FFT magnitudes, filters) arrive as a
 * `Measurements` bundle.
 */
module Analyzer {
  import opened Wrappers
  import opened Values
  import opened Pixels
  import Mtf
  import Discretization
  import Noise
  import Contrast
  import Resolution
  import Serialization
  import Storage

  /** The three sharpness measures, outputs of the Sobel and Laplacian filters. */
  datatype Sharpness = Sharpness(tenengrad: real, laplacianVariance: real, normalizedVariance: real)

  /** The `sharpness` record: three numpy floats. */
  function SharpnessRecord(s: Sharpness): Record {
    map[
      "tenengrad" := NpFloat(s.tenengrad),
      "laplacian_variance" := NpFloat(s.laplacianVariance),
      "normalized_variance" := NpFloat(s.normalizedVariance)
    ]
  }

  /**
   * What the numerical libraries return for the loaded image. None marks a call that raised:
   * the Canny detector, the sharpness filters, the texture variance map, the 2-D spectrum, the
   * median filter, the local-contrast map. The transcendental functions are parameters too.
   */
  datatype Measurements = Measurements(
    edges: Option<seq<seq<bool>>>,
    fft: Mtf.Magnitude,
    sharpness: Option<Sharpness>,
    texture: Option<real>,
    spectrum: Option<seq<seq<real>>>,
    median: Option<seq<seq<Byte>>>,
    localContrast: Option<real>,
    sqrt: real -> real,
    log10: real -> real,
    log2: real -> real)

  /** The image-shaped library outputs have the image's shape. */
  predicate Fits(m: Measurements, g: Gray) {
    && (m.edges.Some? ==> SameShape(m.edges.value, g))
    && (m.spectrum.Some? ==> SameShape(m.spectrum.value, g))
    && (m.median.Some? ==> SameShape(m.median.value, g))
  }

  /** Why `perform_full_analysis` raised. */
  datatype AnalysisError = NoImageLoaded | StepRaised

  /** Python truthiness of an optional size tuple: present and non-empty. */
  predicate Truthy(size: Option<seq<real>>) {
    size.Some? && |size.value| > 0
  }

  /** The outcome of a full analysis and the results dictionary it leaves behind. */
  datatype Analysis = Analysis(outcome: Outcome<AnalysisError>, results: map<string, Record>)

  /**
   * The records the steps after the scale step compute for one image. The resolution record
   * also depends on the scale record stored when that step runs, so the image and the texture
   * measure are kept in its place.
   */
  datatype StepRecords = StepRecords(
    mtf: Record,
    sharpness: Option<Record>,
    image: Gray,
    texture: Option<real>,
    discretization: Record,
    noise: Record,
    contrast: Record,
    minimal: Record)

  /** The scale record for a physical size; None when indexing the size raises. */
  function ScaleStep(g: Gray, physical: seq<real>): (r: Option<Record>)
    ensures r.None? <==> |physical| < 2
  {
    if |physical| >= 2 then Some(Resolution.ScaleRecord(Resolution.ScaleOf(g, physical).value)) else None
  }

  /**
   * The step records for image g and library outputs m: sharpness raises exactly when its
   * filters do, each record has its category's fields, and the handler's entry is the minimal one.
   */
  function StepRecordsOf(g: Gray, m: Measurements): (recs: StepRecords)
    requires Fits(m, g)
    ensures recs.sharpness.None? <==> m.sharpness.None?
    ensures recs.image == g && recs.texture == m.texture
    ensures recs.minimal == Resolution.MinimalResolution(g)
    ensures && recs.mtf.Keys == Mtf.MtfFields
            && recs.discretization.Keys == Discretization.DiscretizationFields
            && recs.noise.Keys == Noise.NoiseFields
            && recs.contrast.Keys == Contrast.ContrastFields
  {
    StepRecords(
      Mtf.MtfRecord(g, m.edges, m.fft),
      if m.sharpness.Some? then Some(SharpnessRecord(m.sharpness.value)) else None,
      g,
      m.texture,
      Discretization.DiscretizationRecord(g, m.spectrum, m.log2),
      Noise.NoiseRecord(g, m.median, m.sqrt, m.log10),
      Contrast.ContrastRecord(g, m.localContrast, m.sqrt),
      Resolution.MinimalResolution(g))
  }

  /** The `except` branch: add the minimal resolution entry if there is none, then re-raise. */
  function Raised(minimal: Record, r: map<string, Record>): (a: Analysis)
    ensures a.outcome == Fail(StepRaised)
    ensures "resolution" in a.results && OnlyWrites(r, a.results, "resolution")
    ensures "resolution" in r ==> a.results == r
  {
    Analysis(Fail(StepRaised), if "resolution" in r then r else r["resolution" := minimal])
  }

  /** The stored scale record, as `calculate_resolution` looks it up. */
  function StoredScale(r: map<string, Record>): Option<Record> {
    if "scale" in r then Some(r["scale"]) else None
  }

  /** The resolution record of the step records' image, given the stored scale record. */
  function ResolutionFor(recs: StepRecords, stored: Option<Record>): Record {
    Resolution.ResolutionRecord(recs.image, recs.texture, stored)
  }

  /**
   * The steps after sharpness, which never raise: they add their four categories, keep every
   * other entry, and the resolution step reads the stored scale.
   */
  function LaterSteps(r: map<string, Record>, recs: StepRecords): (out: map<string, Record>)
    ensures out.Keys == r.Keys + {"resolution", "discretization_artifacts", "noise", "contrast"}
    ensures && out["resolution"] == ResolutionFor(recs, StoredScale(r))
            && out["discretization_artifacts"] == recs.discretization
            && out["noise"] == recs.noise
            && out["contrast"] == recs.contrast
    ensures forall k :: k in r && k !in {"resolution", "discretization_artifacts", "noise", "contrast"} ==> out[k] == r[k]
  {
    r["resolution" := ResolutionFor(recs, StoredScale(r))]
     ["discretization_artifacts" := recs.discretization]
     ["noise" := recs.noise]
     ["contrast" := recs.contrast]
  }

  /**
   * The steps in order, on the dictionary `before`: the scale step (giving `scale`) when
   * `scaled`, then MTF, sharpness and the later steps; a raising step ends the run through the
   * handler.
   */
  function Steps(before: map<string, Record>, scale: Option<Record>, recs: StepRecords, scaled: bool): (a: Analysis)
    ensures a.outcome.Fail? ==> a.outcome.error == StepRaised
    ensures scaled && scale.None? ==> OnlyWrites(before, a.results, "resolution")
  {
    if scaled && scale.None? then Raised(recs.minimal, before)
    else AfterScale(if scaled then before["scale" := scale.value] else before, recs)
  }

  /**
   * The steps from MTF on, on the dictionary r1 the scale step left: they raise exactly when
   * sharpness does, always store the MTF record, store all six core categories when they pass,
   * and leave the scale entry alone.
   */
  function AfterScale(r1: map<string, Record>, recs: StepRecords): (a: Analysis)
    ensures a.outcome.Pass? <==> recs.sharpness.Some?
    ensures a.outcome.Fail? ==> a.outcome.error == StepRaised
    ensures r1.Keys + {"mtf"} <= a.results.Keys && a.results["mtf"] == recs.mtf
    ensures a.outcome.Pass? ==> HasCoreKeys(a.results)
    ensures "scale" in a.results <==> "scale" in r1
    ensures "scale" in r1 ==> a.results["scale"] == r1["scale"]
  {
    var r2 := r1["mtf" := recs.mtf];
    match recs.sharpness
    case None => Raised(recs.minimal, r2)
    case Some(s) => Analysis(Pass, LaterSteps(r2["sharpness" := s], recs))
  }

  /**
   * `perform_full_analysis` as a function of the state before it: refuse without an image; the
   * scale step only when both sizes are truthy.
   */
  function FullAnalysis(before: map<string, Record>, loaded: bool, gray: Option<Gray>,
                        physical: Option<seq<real>>, sensor: Option<seq<real>>, m: Measurements): (a: Analysis)
    requires loaded ==> gray.Some? && Fits(m, gray.value)
    ensures a.outcome == Fail(NoImageLoaded) <==> !loaded
    ensures !loaded ==> a.results == before
  {
    if !loaded then Analysis(Fail(NoImageLoaded), before)
    else
      var scaled := Truthy(physical) && Truthy(sensor);
      Steps(before, ScaleArgument(gray.value, physical, sensor), StepRecordsOf(gray.value, m), scaled)
  }

  /** r2 is r1 with at most category `key` written: no other category is added, removed or changed. */
  predicate OnlyWrites(r1: map<string, Record>, r2: map<string, Record>, key: string) {
    && r1.Keys <= r2.Keys <= r1.Keys + {key}
    && forall k :: k in r1 && k != key ==> r2[k] == r1[k]
  }

  /** Writing one category writes only that category. */
  lemma UpdateOnlyWrites(r1: map<string, Record>, key: string, v: Record)
    ensures OnlyWrites(r1, r1[key := v], key)
  {
  }

  /** The six categories every successful analysis stores. */
  predicate HasCoreKeys(r: map<string, Record>) {
    && "mtf" in r && "sharpness" in r && "resolution" in r
    && "discretization_artifacts" in r && "noise" in r && "contrast" in r
  }

  class ImageQualityAnalyzer {
    /** Whether an image was decoded (`self.image is not None`). */
    var loaded: bool
    /** `self.image_gray`: the grey image, kept from an earlier load when a later load fails. */
    var gray: Option<Gray>
    /** `self.results`: metric category to record. */
    var results: map<string, Record>

    /** A loaded image has its grey version. */
    predicate Valid()
      reads this
    {
      loaded ==> gray.Some?
    }

    constructor()
      ensures Valid()
      ensures !loaded && gray == None && results == map[]
    {
      loaded := false;
      gray := None;
      results := map[];
    }

    /**
     * `load_image`: `decoded` is the decoded grey image, None when decoding failed. A failed load
     * clears the image but leaves the previous grey image in place.
     */
    method LoadImage(decoded: Option<Gray>) returns (ok: bool)
      requires Valid()
      modifies this`loaded, this`gray
      ensures Valid()
      ensures ok == decoded.Some? && loaded == ok
      ensures decoded.Some? ==> gray == decoded
      ensures decoded.None? ==> gray == old(gray)
    {
      if decoded.Some? {
        loaded, gray := true, decoded;
        ok := true;
      } else {
        loaded := false;
        ok := false;
      }
    }

    /** `calculate_image_scale`; None when the physical size is too short to index. */
    method CalculateImageScale(physical: seq<real>) returns (r: Option<Record>)
      requires gray.Some?
      modifies this`results
      ensures gray == old(gray) && loaded == old(loaded)
      ensures r.Some? <==> |physical| >= 2
      ensures r.Some? ==> r.value == Resolution.ScaleRecord(Resolution.ScaleOf(gray.value, physical).value)
      ensures r.Some? ==> results == old(results)["scale" := r.value]
      ensures r.None? ==> results == old(results)
      ensures OnlyWrites(old(results), results, "scale")
    {
      var s := Resolution.ScaleOf(gray.value, physical);
      if s.Some? {
        var rec := Resolution.ScaleRecord(s.value);
        UpdateOnlyWrites(results, "scale", rec);
        results := results["scale" := rec];
        r := Some(rec);
      } else {
        r := None;
      }
    }

    /** `calculate_spatial_frequency_response`. */
    method CalculateSpatialFrequencyResponse(m: Measurements) returns (r: Record)
      requires gray.Some? && Fits(m, gray.value)
      modifies this`results
      ensures gray == old(gray) && loaded == old(loaded)
      ensures r == Mtf.MtfRecord(gray.value, m.edges, m.fft)
      ensures results == old(results)["mtf" := r]
      ensures OnlyWrites(old(results), results, "mtf")
    {
      r := Mtf.MtfRecord(gray.value, m.edges, m.fft);
      UpdateOnlyWrites(results, "mtf", r);
      results := results["mtf" := r];
    }

    /** `calculate_sharpness`, which has no handler of its own: None when a filter raised. */
    method CalculateSharpness(m: Measurements) returns (r: Option<Record>)
      modifies this`results
      ensures gray == old(gray) && loaded == old(loaded)
      ensures r.Some? <==> m.sharpness.Some?
      ensures r.Some? ==> r.value == SharpnessRecord(m.sharpness.value)
      ensures r.Some? ==> results == old(results)["sharpness" := r.value]
      ensures r.None? ==> results == old(results)
      ensures OnlyWrites(old(results), results, "sharpness")
    {
      if m.sharpness.Some? {
        var rec := SharpnessRecord(m.sharpness.value);
        UpdateOnlyWrites(results, "sharpness", rec);
        results := results["sharpness" := rec];
        r := Some(rec);
      } else {
        r := None;
      }
    }

    /** `calculate_resolution`, reading the scale record stored so far. */
    method CalculateResolution(m: Measurements) returns (r: Record)
      requires gray.Some?
      modifies this`results
      ensures gray == old(gray) && loaded == old(loaded)
      ensures r == Resolution.ResolutionRecord(gray.value, m.texture, StoredScale(old(results)))
      ensures results == old(results)["resolution" := r]
      ensures OnlyWrites(old(results), results, "resolution")
    {
      r := Resolution.ResolutionRecord(gray.value, m.texture, StoredScale(results));
      UpdateOnlyWrites(results, "resolution", r);
      results := results["resolution" := r];
    }

    /** `analyze_discretization_artifacts`. */
    method AnalyzeDiscretizationArtifacts(m: Measurements) returns (r: Record)
      requires gray.Some? && Fits(m, gray.value)
      modifies this`results
      ensures gray == old(gray) && loaded == old(loaded)
      ensures r == Discretization.DiscretizationRecord(gray.value, m.spectrum, m.log2)
      ensures results == old(results)["discretization_artifacts" := r]
      ensures OnlyWrites(old(results), results, "discretization_artifacts")
    {
      r := Discretization.DiscretizationRecord(gray.value, m.spectrum, m.log2);
      UpdateOnlyWrites(results, "discretization_artifacts", r);
      results := results["discretization_artifacts" := r];
    }

    /** `calculate_noise_parameters`. */
    method CalculateNoiseParameters(m: Measurements) returns (r: Record)
      requires gray.Some? && Fits(m, gray.value)
      modifies this`results
      ensures gray == old(gray) && loaded == old(loaded)
      ensures r == Noise.NoiseRecord(gray.value, m.median, m.sqrt, m.log10)
      ensures results == old(results)["noise" := r]
      ensures OnlyWrites(old(results), results, "noise")
    {
      r := Noise.NoiseRecord(gray.value, m.median, m.sqrt, m.log10);
      UpdateOnlyWrites(results, "noise", r);
      results := results["noise" := r];
    }

    /** `calculate_contrast_parameters`. */
    method CalculateContrastParameters(m: Measurements) returns (r: Record)
      requires gray.Some?
      modifies this`results
      ensures gray == old(gray) && loaded == old(loaded)
      ensures r == Contrast.ContrastRecord(gray.value, m.localContrast, m.sqrt)
      ensures results == old(results)["contrast" := r]
      ensures OnlyWrites(old(results), results, "contrast")
    {
      r := Contrast.ContrastRecord(gray.value, m.localContrast, m.sqrt);
      UpdateOnlyWrites(results, "contrast", r);
      results := results["contrast" := r];
    }

    /**
     * `perform_full_analysis`: Pass with the six categories stored, or the error it raises with
     * the results it leaves behind.
     */
    method PerformFullAnalysis(physical: Option<seq<real>>, sensor: Option<seq<real>>, m: Measurements)
      returns (outcome: Outcome<AnalysisError>)
      requires Valid() && (loaded ==> Fits(m, gray.value))
      modifies this`results
      ensures gray == old(gray) && loaded == old(loaded)
      ensures Analysis(outcome, results) == FullAnalysis(old(results), loaded, gray, physical, sensor, m)
      ensures Serialization.StorableResults(old(results)) ==> Serialization.StorableResults(results)
    {
      if Serialization.StorableResults(results) {
        FullAnalysisStorable(results, loaded, gray, physical, sensor, m);
      }
      if !loaded {
        return Fail(NoImageLoaded);
      }
      var g := gray.value;
      if Truthy(physical) && Truthy(sensor) {
        var s := CalculateImageScale(physical.value);
        if s.None? {
          AddMinimalResolution(g);
          return Fail(StepRaised);
        }
      }
      outcome := RunAfterScale(m);
    }

    /** The steps from MTF on; sharpness is the one that can raise. */
    method RunAfterScale(m: Measurements) returns (outcome: Outcome<AnalysisError>)
      requires gray.Some? && Fits(m, gray.value)
      modifies this`results
      ensures gray == old(gray) && loaded == old(loaded)
      ensures Analysis(outcome, results) == AfterScale(old(results), StepRecordsOf(gray.value, m))
    {
      ghost var recs := StepRecordsOf(gray.value, m);
      StepRecordsValues(gray.value, m);
      var _ := CalculateSpatialFrequencyResponse(m);
      var sharp := CalculateSharpness(m);
      if sharp.None? {
        AddMinimalResolution(gray.value);
        return Fail(StepRaised);
      }
      RunLaterSteps(m);
      outcome := Pass;
    }

    /** The four steps after sharpness, which catch their own failures. */
    method RunLaterSteps(m: Measurements)
      requires gray.Some? && Fits(m, gray.value)
      modifies this`results
      ensures gray == old(gray) && loaded == old(loaded)
      ensures results == LaterSteps(old(results), StepRecordsOf(gray.value, m))
    {
      StepRecordsValues(gray.value, m);
      var _ := CalculateResolution(m);
      var _ := AnalyzeDiscretizationArtifacts(m);
      var _ := CalculateNoiseParameters(m);
      var _ := CalculateContrastParameters(m);
    }

    /** The handler of `perform_full_analysis`: store basic image information if none is stored. */
    method AddMinimalResolution(g: Gray)
      modifies this`results
      ensures gray == old(gray) && loaded == old(loaded)
      ensures results == Raised(Resolution.MinimalResolution(g), old(results)).results
      ensures OnlyWrites(old(results), results, "resolution")
    {
      if "resolution" !in results {
        UpdateOnlyWrites(results, "resolution", Resolution.MinimalResolution(g));
        results := results["resolution" := Resolution.MinimalResolution(g)];
      }
    }

    /**
     * The dictionary `save_results` builds before writing it: one filtered record per category,
     * built field by field.
     */
    method SaveResults() returns (saved: map<string, Record>)
      ensures saved == Serialization.Serialize(results)
      ensures Serialization.StorableResults(results) ==> Serialization.JsonReady(saved) && Serialization.Serialize(saved) == saved
    {
      saved := map[];
      var pending := results.Keys;
      while pending != {}
        invariant pending <= results.Keys
        invariant saved.Keys == results.Keys - pending
        invariant forall c :: c in saved ==> saved[c] == Serialization.SerializeRecord(results[c])
        decreases pending
      {
        var c :| c in pending;
        var rec := results[c];
        var out := SaveRecord(rec);
        saved := saved[c := out];
        pending := pending - {c};
      }
      if Serialization.StorableResults(results) {
        Serialization.SavedJsonReady(results);
      }
    }

    /** The inner loop of `save_results` over one record's fields. */
    static method SaveRecord(rec: Record) returns (out: Record)
      ensures out == Serialization.SerializeRecord(rec)
    {
      out := map[];
      var fields := rec.Keys;
      while fields != {}
        invariant fields <= rec.Keys
        invariant forall k :: k in out <==> k in rec && k !in fields && Serialization.SerializeField(k, rec[k]).Some?
        invariant forall k :: k in out ==> out[k] == Serialization.SerializeField(k, rec[k]).value
        decreases fields
      {
        var k :| k in fields;
        var v := rec[k];
        if v.NdArray? {
          if k != "magnitude_spectrum" && k != "noise_image" {
            out := out[k := ToList(v)];
          }
        } else if v.NpFloat? {
          out := out[k := PyFloat(v.x)];
        } else if v.NpInt? {
          out := out[k := PyFloat(v.i as real)];
        } else if !v.PyNone? {
          out := out[k := v];
        }
        fields := fields - {k};
      }
    }
  }

  // ---------------------------------------------------------------- properties

  /** Proof helper: unfolds `StepRecordsOf` into the records the step methods compute. */
  lemma StepRecordsValues(g: Gray, m: Measurements)
    requires Fits(m, g)
    ensures var recs := StepRecordsOf(g, m);
      && recs.mtf == Mtf.MtfRecord(g, m.edges, m.fft)
      && recs.discretization == Discretization.DiscretizationRecord(g, m.spectrum, m.log2)
      && recs.noise == Noise.NoiseRecord(g, m.median, m.sqrt, m.log10)
      && recs.contrast == Contrast.ContrastRecord(g, m.localContrast, m.sqrt)
  {
  }

  /** A run of the steps raises exactly when the scale step is due and cannot index, or sharpness raises. */
  lemma StepsRaise(before: map<string, Record>, scale: Option<Record>, recs: StepRecords, scaled: bool)
    ensures var a := Steps(before, scale, recs, scaled);
      a.outcome.Fail? <==> (scaled && scale.None?) || recs.sharpness.None?
  {
    if !(scaled && scale.None?) {
      var r1 := if scaled then before["scale" := scale.value] else before;
      assert Steps(before, scale, recs, scaled) == AfterScale(r1, recs);
    }
  }

  /**
   * What a run of the steps leaves: a passing run holds the six categories, a raising one keeps
   * or adds a resolution entry; no run removes a category.
   */
  lemma StepsOutcome(before: map<string, Record>, scale: Option<Record>, recs: StepRecords, scaled: bool)
    ensures var a := Steps(before, scale, recs, scaled);
      && (a.outcome.Pass? ==> HasCoreKeys(a.results))
      && before.Keys <= a.results.Keys
      && (a.outcome.Fail? ==> "resolution" in a.results)
      && (a.outcome.Fail? && "resolution" in before ==> a.results["resolution"] == before["resolution"])
      && (a.outcome.Fail? && "resolution" !in before ==> a.results["resolution"] == recs.minimal)
  {
    var a := Steps(before, scale, recs, scaled);
    if !(scaled && scale.None?) && recs.sharpness.Some? {
      var r1 := if scaled then before["scale" := scale.value] else before;
      var r3 := r1["mtf" := recs.mtf]["sharpness" := recs.sharpness.value];
      assert a == AfterScale(r1, recs);
      assert a.results == LaterSteps(r3, recs);
    }
  }

  /** Where the scale record comes from: the new one on a sized run, else the one stored before. */
  lemma StepsScale(before: map<string, Record>, scale: Option<Record>, recs: StepRecords, scaled: bool)
    ensures var a := Steps(before, scale, recs, scaled);
      && (!scaled ==> ("scale" in a.results <==> "scale" in before))
      && (!scaled && "scale" in before ==> a.results["scale"] == before["scale"])
      && (!scaled && a.outcome.Pass? ==> a.results["resolution"] == ResolutionFor(recs, StoredScale(before)))
      && (scaled && a.outcome.Pass? ==> a.results["scale"] == scale.value)
      && (scaled && a.outcome.Pass? ==> a.results["resolution"] == ResolutionFor(recs, scale))
  {
    var a := Steps(before, scale, recs, scaled);
    if !(scaled && scale.None?) {
      var r1 := if scaled then before["scale" := scale.value] else before;
      var r2 := r1["mtf" := recs.mtf];
      if recs.sharpness.Some? {
        var r3 := r2["sharpness" := recs.sharpness.value];
        assert a == AfterScale(r1, recs);
        assert a.results == LaterSteps(r3, recs);
        assert StoredScale(r3) == StoredScale(r1);
      } else {
        assert a.results == Raised(recs.minimal, r2).results;
      }
    }
  }

  /** The scale record the full analysis hands to the steps. */
  function ScaleArgument(g: Gray, physical: Option<seq<real>>, sensor: Option<seq<real>>): (r: Option<Record>)
    ensures Truthy(physical) && Truthy(sensor) ==> (r.None? <==> |physical.value| < 2)
  {
    if Truthy(physical) && Truthy(sensor) then ScaleStep(g, physical.value) else None
  }

  /** Without an image the analysis raises before writing anything. */
  lemma NoImageWritesNothing(before: map<string, Record>, gray: Option<Gray>,
                             physical: Option<seq<real>>, sensor: Option<seq<real>>, m: Measurements)
    ensures FullAnalysis(before, false, gray, physical, sensor, m) == Analysis(Fail(NoImageLoaded), before)
  {
  }

  /**
   * With an image, the analysis raises exactly when the scale step indexes a short size or the
   * sharpness filters raise, and what it raises is then the step's error.
   */
  lemma OutcomeCases(before: map<string, Record>, g: Gray,
                     physical: Option<seq<real>>, sensor: Option<seq<real>>, m: Measurements)
    requires Fits(m, g)
    ensures var a := FullAnalysis(before, true, Some(g), physical, sensor, m);
      && (a.outcome.Fail? <==> (Truthy(physical) && Truthy(sensor) && |physical.value| < 2) || m.sharpness.None?)
      && (a.outcome.Fail? ==> a.outcome.error == StepRaised)
  {
    var recs, scale, scaled := StepRecordsOf(g, m), ScaleArgument(g, physical, sensor), Truthy(physical) && Truthy(sensor);
    StepsRaise(before, scale, recs, scaled);
  }

  /** A run that passes stores all six core categories. */
  lemma PassStoresCore(before: map<string, Record>, g: Gray,
                       physical: Option<seq<real>>, sensor: Option<seq<real>>, m: Measurements)
    requires Fits(m, g)
    ensures var a := FullAnalysis(before, true, Some(g), physical, sensor, m);
      a.outcome.Pass? ==> HasCoreKeys(a.results)
  {
    StepsOutcome(before, ScaleArgument(g, physical, sensor), StepRecordsOf(g, m), Truthy(physical) && Truthy(sensor));
  }

  /** No run removes a category: the dictionary is never cleared. */
  lemma NeverClears(before: map<string, Record>, loaded: bool, gray: Option<Gray>,
                    physical: Option<seq<real>>, sensor: Option<seq<real>>, m: Measurements)
    requires loaded ==> gray.Some? && Fits(m, gray.value)
    ensures before.Keys <= FullAnalysis(before, loaded, gray, physical, sensor, m).results.Keys
  {
    if loaded {
      StepsOutcome(before, ScaleArgument(gray.value, physical, sensor), StepRecordsOf(gray.value, m),
                   Truthy(physical) && Truthy(sensor));
    }
  }

  /**
   * The scale record is written only when both sizes are truthy; otherwise an earlier scale
   * survives unchanged and is the one the resolution step divides by.
   */
  lemma ScaleOnlyWhenSized(before: map<string, Record>, g: Gray,
                           physical: Option<seq<real>>, sensor: Option<seq<real>>, m: Measurements)
    requires Fits(m, g)
    requires !(Truthy(physical) && Truthy(sensor))
    ensures var a := FullAnalysis(before, true, Some(g), physical, sensor, m);
      && ("scale" in a.results <==> "scale" in before)
      && ("scale" in before ==> a.results["scale"] == before["scale"])
      && (a.outcome.Pass? ==> a.results["resolution"] == Resolution.ResolutionRecord(g, m.texture, StoredScale(before)))
  {
    StepsScale(before, None, StepRecordsOf(g, m), false);
  }

  /** A successful sized run stores the new scale and the resolution derived from it. */
  lemma SizedRunUsesNewScale(before: map<string, Record>, g: Gray,
                             physical: seq<real>, sensor: seq<real>, m: Measurements)
    requires Fits(m, g) && |physical| >= 2 && |sensor| > 0 && m.sharpness.Some?
    ensures var a := FullAnalysis(before, true, Some(g), Some(physical), Some(sensor), m);
      var scale := Resolution.ScaleRecord(Resolution.ScaleOf(g, physical).value);
      && a.outcome.Pass?
      && a.results["scale"] == scale
      && a.results["resolution"] == Resolution.ResolutionRecord(g, m.texture, Some(scale))
  {
    var recs := StepRecordsOf(g, m);
    StepsRaise(before, ScaleStep(g, physical), recs, true);
    StepsScale(before, ScaleStep(g, physical), recs, true);
  }

  /**
   * A raising run leaves a resolution entry: the one already stored, or the minimal
   * width/height/total entry when there was none.
   */
  lemma RaisedRunKeepsResolution(before: map<string, Record>, g: Gray,
                                 physical: Option<seq<real>>, sensor: Option<seq<real>>, m: Measurements)
    requires Fits(m, g)
    ensures var a := FullAnalysis(before, true, Some(g), physical, sensor, m);
      a.outcome.Fail? ==>
        && "resolution" in a.results
        && ("resolution" in before ==> a.results["resolution"] == before["resolution"])
        && ("resolution" !in before ==> a.results["resolution"] == Resolution.MinimalResolution(g))
  {
    StepsOutcome(before, ScaleArgument(g, physical, sensor), StepRecordsOf(g, m), Truthy(physical) && Truthy(sensor));
  }

  /** Saving the results of a successful run keeps every category and drops both large arrays. */
  lemma SavedAnalysis(before: map<string, Record>, g: Gray,
                      physical: Option<seq<real>>, sensor: Option<seq<real>>, m: Measurements)
    requires Fits(m, g)
    ensures var a := FullAnalysis(before, true, Some(g), physical, sensor, m);
      var saved := Serialization.Serialize(a.results);
      a.outcome.Pass? ==>
        && HasCoreKeys(saved)
        && "magnitude_spectrum" !in saved["discretization_artifacts"]
        && "noise_image" !in saved["noise"]
  {
    var recs := StepRecordsOf(g, m);
    var scaled := Truthy(physical) && Truthy(sensor);
    var scale := ScaleArgument(g, physical, sensor);
    var a := Steps(before, scale, recs, scaled);
    StepsOutcome(before, scale, recs, scaled);
    PassedRecords(before, scale, recs, scaled);
    if a.outcome.Pass? {
      StepRecordsValues(g, m);
      Serialization.DropsLargeArraysAndNone(recs.discretization);
      Serialization.DropsLargeArraysAndNone(recs.noise);
    }
  }

  /** A passing run stores the discretization and noise records of its step records. */
  lemma PassedRecords(before: map<string, Record>, scale: Option<Record>, recs: StepRecords, scaled: bool)
    ensures var a := Steps(before, scale, recs, scaled);
      a.outcome.Pass? ==>
        && a.results["discretization_artifacts"] == recs.discretization
        && a.results["noise"] == recs.noise
  {
    var a := Steps(before, scale, recs, scaled);
    if a.outcome.Pass? {
      var r1 := if scaled then before["scale" := scale.value] else before;
      var r3 := r1["mtf" := recs.mtf]["sharpness" := recs.sharpness.value];
      assert a == AfterScale(r1, recs);
      assert a.results == LaterSteps(r3, recs);
    }
  }

  // ---------------------------------------------------------------- storability

  /** Every record the step records hold is storable, and so is the resolution record for any stored scale. */
  ghost predicate StorableSteps(recs: StepRecords) {
    && Serialization.StorableRecord(recs.mtf)
    && (recs.sharpness.Some? ==> Serialization.StorableRecord(recs.sharpness.value))
    && Serialization.StorableRecord(recs.discretization)
    && Serialization.StorableRecord(recs.noise)
    && Serialization.StorableRecord(recs.contrast)
    && Serialization.StorableRecord(recs.minimal)
    && forall stored :: Serialization.StorableRecord(ResolutionFor(recs, stored))
  }

  /** The analysis steps compute storable records only. */
  lemma StepRecordsStorable(g: Gray, m: Measurements)
    requires Fits(m, g)
    ensures StorableSteps(StepRecordsOf(g, m))
  {
    var recs := StepRecordsOf(g, m);
    StepRecordsValues(g, m);
    Storage.MtfStorable(g, m.edges, m.fft);
    if m.sharpness.Some? {
      SharpnessStorable(m.sharpness.value);
    }
    Storage.DiscretizationStorable(g, m.spectrum, m.log2);
    Storage.NoiseStorable(g, m.median, m.sqrt, m.log10);
    Storage.ContrastStorable(g, m.localContrast, m.sqrt);
    Storage.ResolutionStorable(g, m.texture, None);
    ResolutionForStorable(recs);
  }

  /** The `sharpness` record holds three numpy floats. */
  lemma SharpnessStorable(s: Sharpness)
    ensures Serialization.StorableRecord(SharpnessRecord(s))
  {
  }

  /** The resolution record of the step records is storable whatever scale record is stored. */
  lemma ResolutionForStorable(recs: StepRecords)
    ensures forall stored :: Serialization.StorableRecord(ResolutionFor(recs, stored))
  {
    forall stored ensures Serialization.StorableRecord(ResolutionFor(recs, stored)) {
      Storage.ResolutionStorable(recs.image, recs.texture, stored);
    }
  }

  /** Storing a storable record keeps the results storable. */
  lemma StoreStorable(r: map<string, Record>, key: string, v: Record)
    requires Serialization.StorableResults(r) && Serialization.StorableRecord(v)
    ensures Serialization.StorableResults(r[key := v])
  {
  }

  /** The steps, storing storable records only, keep a storable dictionary storable. */
  lemma StepsStorable(before: map<string, Record>, scale: Option<Record>, recs: StepRecords, scaled: bool)
    requires Serialization.StorableResults(before) && StorableSteps(recs)
    requires scale.Some? ==> Serialization.StorableRecord(scale.value)
    ensures Serialization.StorableResults(Steps(before, scale, recs, scaled).results)
  {
    if scaled && scale.None? {
      StoreStorable(before, "resolution", recs.minimal);
    } else {
      var r1 := if scaled then before["scale" := scale.value] else before;
      if scaled {
        StoreStorable(before, "scale", scale.value);
      }
      var r2 := r1["mtf" := recs.mtf];
      StoreStorable(r1, "mtf", recs.mtf);
      match recs.sharpness
      case None =>
        StoreStorable(r2, "resolution", recs.minimal);
      case Some(sh) =>
        var r3 := r2["sharpness" := sh];
        StoreStorable(r2, "sharpness", sh);
        var r4 := r3["resolution" := ResolutionFor(recs, StoredScale(r3))];
        StoreStorable(r3, "resolution", ResolutionFor(recs, StoredScale(r3)));
        var r5 := r4["discretization_artifacts" := recs.discretization];
        StoreStorable(r4, "discretization_artifacts", recs.discretization);
        var r6 := r5["noise" := recs.noise];
        StoreStorable(r5, "noise", recs.noise);
        StoreStorable(r6, "contrast", recs.contrast);
        assert LaterSteps(r3, recs) == r6["contrast" := recs.contrast];
    }
  }

  /** A full analysis started on storable results leaves storable results, whatever it raises. */
  lemma FullAnalysisStorable(before: map<string, Record>, loaded: bool, gray: Option<Gray>,
                             physical: Option<seq<real>>, sensor: Option<seq<real>>, m: Measurements)
    requires loaded ==> gray.Some? && Fits(m, gray.value)
    requires Serialization.StorableResults(before)
    ensures Serialization.StorableResults(FullAnalysis(before, loaded, gray, physical, sensor, m).results)
  {
    if loaded {
      var g := gray.value;
      var scale := ScaleArgument(g, physical, sensor);
      if scale.Some? {
        Storage.ScaleStorable(Resolution.ScaleOf(g, physical.value).value);
      }
      StepRecordsStorable(g, m);
      StepsStorable(before, scale, StepRecordsOf(g, m), Truthy(physical) && Truthy(sensor));
    }
  }

  /**
   * What `save_results` writes after a full analysis started on storable results holds no numpy
   * value at any depth, and saving it again changes nothing.
   */
  lemma SavedAnalysisJsonReady(before: map<string, Record>, loaded: bool, gray: Option<Gray>,
                               physical: Option<seq<real>>, sensor: Option<seq<real>>, m: Measurements)
    requires loaded ==> gray.Some? && Fits(m, gray.value)
    requires Serialization.StorableResults(before)
    ensures var saved := Serialization.Serialize(FullAnalysis(before, loaded, gray, physical, sensor, m).results);
      Serialization.JsonReady(saved) && Serialization.Serialize(saved) == saved
  {
    var a := FullAnalysis(before, loaded, gray, physical, sensor, m);
    FullAnalysisStorable(before, loaded, gray, physical, sensor, m);
    Serialization.SavedJsonReady(a.results);
  }
}
