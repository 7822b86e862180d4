# Image-quality analyzer and photodiode illumination, modelled in Dafny

This project models three pieces of a small image-quality toolkit.

- **`ImageQualityAnalyzer` (VKR2.py).** It keeps a greyscale uint8 image and a `results`
  dictionary. Each analysis step writes one category into that dictionary: `scale`, `mtf`,
  `sharpness`, `resolution`, `discretization_artifacts`, `noise` and `contrast`.
  `perform_full_analysis` runs the steps in sequence and keeps or adds a minimal `resolution`
  entry when a step raises. `save_results` filters the dictionary before it is written as JSON.
  The analyzer is a `class` (`Analyzer.ImageQualityAnalyzer`) with `loaded`, `gray` and `results`
  fields, and each step is a method that updates `results`. What each step stores is given by a
  pure record function in its own module:
  - `Resolution`: scale, Nyquist limit, pixel counts, DPI;
  - `Mtf`: edge-row choice, line-spread function, fftfreq mask, normalisation, MTF50/MTF10 search;
  - `Discretization`: 256-bin histogram, empty levels, quantization quality, entropy, corner aliasing;
  - `Noise`: median residual, powers, SNR with its 999.0 sentinel;
  - `Contrast`: the Michelson contrast as the analyzer computes it (uint8 arithmetic, see Findings), RMS contrast, range, mean;
  - `Serialization`: the JSON field filter;
  - `Storage`: proofs that every record the analyzer stores is made only of values the filter can convert.

  The image-processing library calls are inputs of the model, bundled in
  `Analyzer.Measurements`: the Canny edge map, the FFT magnitude of a 1-D signal, the
  log-magnitude spectrum, the median-filtered image, the local-variance and local-contrast means,
  and the three sharpness values. Where a step catches an exception from such a call, the input is
  an `Option` and `None` models the exception.
- **`calculate_discrete_illumination` and `validate_parameters` (VKR1_1.py).** An N x N photodiode
  matrix lies under an illumination that changes linearly from E1 to E2 across a blur zone
  [a, b]. Module `BlurIllumination` models both functions.
- **The same pair in progs/VKR.py.** Here one sharp boundary at position a crosses the matrix,
  and a single transition row gets an aperture-weighted mix of E1 and E2. Module
  `EdgeIllumination` models both functions.

Python floats are modelled as Dafny `real`, Python ints as `int`, and uint8 pixels as `Byte`
(0..255). uint8 wrap-around is written out where the source depends on it. `sqrt`, `log2` and
`log10` are function parameters: the proofs only use the properties each lemma states about them.
The JSON values the analyzer stores are the datatype `Values.Value`, which keeps apart Python
floats and ints, numpy scalars, tuples, lists, numpy arrays and None, because `save_results`
treats each kind differently.

## Model

| member | source | states |
|---|---|---|
| Analyzer.ImageQualityAnalyzer.constructor | VKR2.py:16-19 | A new analyzer has no image, no grey image and an empty results dictionary. |
| Analyzer.ImageQualityAnalyzer.LoadImage | VKR2.py:21-31 | Returns True exactly when the image decoded. The grey image is then replaced by the decoded one; on failure the previous grey image stays and the analyzer counts as not loaded. |
| Analyzer.ImageQualityAnalyzer.CalculateImageScale | VKR2.py:33-49 | Stores and returns the scale record exactly when the physical size has at least two entries. Otherwise indexing raises and nothing changes. No category other than `scale` is written. |
| Analyzer.ImageQualityAnalyzer.CalculateSpatialFrequencyResponse | VKR2.py:51-114 | Stores the MTF record of the current image under `mtf`; no other category is added, removed or changed. |
| Analyzer.ImageQualityAnalyzer.CalculateSharpness | VKR2.py:126-147 | When the filters succeed, stores the three sharpness values under `sharpness`; when they raise, the results stay unchanged. No other category is written. |
| Analyzer.ImageQualityAnalyzer.CalculateResolution | VKR2.py:149-202 | Stores the resolution record under `resolution`, computed from the scale record stored before the call; no other category changes. |
| Analyzer.ImageQualityAnalyzer.AnalyzeDiscretizationArtifacts | VKR2.py:204-266 | Stores the discretization record under `discretization_artifacts`; no other category changes. |
| Analyzer.ImageQualityAnalyzer.CalculateNoiseParameters | VKR2.py:268-304 | Stores the noise record under `noise`; exactly that category is written and every other one keeps its value. |
| Analyzer.ImageQualityAnalyzer.CalculateContrastParameters | VKR2.py:306-360 | Stores the contrast record under `contrast`; no other category changes. |
| Analyzer.ImageQualityAnalyzer.PerformFullAnalysis | VKR2.py:362-408 | The outcome and the new results are those of the sequencing function `FullAnalysis` applied to the old results; the lemmas below give that function's properties. Storable results stay storable. |
| Analyzer.ImageQualityAnalyzer.RunAfterScale | VKR2.py:376-406 | The steps after the scale step: MTF, then sharpness, which may raise and take the except path, then the later steps. |
| Analyzer.ImageQualityAnalyzer.RunLaterSteps | VKR2.py:382-392 | Resolution, discretization, noise and contrast, in source order. Resolution reads the scale stored by then. |
| Analyzer.ImageQualityAnalyzer.AddMinimalResolution | VKR2.py:399-405 | Adds the width/height/total entry only when no resolution is stored, and writes no other category. |
| Analyzer.ImageQualityAnalyzer.SaveResults | VKR2.py:413-425 | The dictionary built by the loop over categories is the field filter `Serialize` of the results. For storable results it holds no numpy value, and saving it again changes nothing. |
| Analyzer.ImageQualityAnalyzer.SaveRecord | VKR2.py:415-425 | The inner loop over one record's fields builds `SerializeRecord` of that record. |
| Analyzer.StepRecordsOf | VKR2.py:376-392 | The records the steps compute for one image: sharpness is missing exactly when its filters raise, each record has its category's fields, and the handler's entry is the minimal resolution record. |
| Analyzer.ScaleStep | VKR2.py:33-47 | The scale step raises (None) exactly when the physical size has fewer than two entries. |
| Analyzer.Raised | VKR2.py:396-406 | The except path re-raises the step's error. It leaves a resolution entry, writes nothing but `resolution`, and keeps an existing one. |
| Analyzer.LaterSteps | VKR2.py:382-392 | The four later steps add their categories with their records, keep every other entry, and the resolution record reads the scale stored by then. |
| Analyzer.AfterScale | VKR2.py:376-406 | From MTF on, a run raises exactly when sharpness raises, and only with the step's error. The MTF record is always stored, all six core categories are stored on a pass, and the scale entry is untouched. |
| Analyzer.Steps | VKR2.py:369-406 | Any error a run raises is the step's error. When the scale step is due and cannot index, nothing but `resolution` is written. |
| Analyzer.FullAnalysis | VKR2.py:362-408 | The no-image error is raised exactly when no image is loaded, and it leaves the dictionary unchanged. |
| Analyzer.NoImageWritesNothing | VKR2.py:364-365 | Without an image the analysis fails with no-image-loaded and the dictionary is unchanged. |
| Analyzer.OutcomeCases | VKR2.py:369-406 | With an image, the analysis raises iff both sizes are truthy and the physical size has fewer than two entries, or the sharpness filters raise. The error it raises is then the step's error. |
| Analyzer.PassStoresCore | VKR2.py:376-392 | A run that does not raise stores all six core categories. |
| Analyzer.NeverClears | VKR2.py:362-408 | No run, raising or not, removes a category that was already stored. |
| Analyzer.ScaleOnlyWhenSized | VKR2.py:371-383 | If either size is missing or empty, `scale` is neither written nor removed. A scale stored earlier survives, and the resolution step divides by it. |
| Analyzer.SizedRunUsesNewScale | VKR2.py:371-383 | A sized run with working filters passes. It stores the new scale and the resolution record derived from that scale. |
| Analyzer.RaisedRunKeepsResolution | VKR2.py:396-406 | After a raising run a resolution entry exists: the one stored before, or else the minimal width/height/total entry. |
| Analyzer.SavedAnalysis | VKR2.py:408-425 | Saving a successful run keeps all six categories and drops `magnitude_spectrum` and `noise_image`. |
| Analyzer.StepsRaise | VKR2.py:369-406 | For any step records: a run raises iff the scale step is due and fails, or sharpness raises. |
| Analyzer.StepsOutcome | VKR2.py:369-406 | For any step records: a passing run holds the core keys, and a raising one keeps or adds a resolution entry. |
| Analyzer.StepsScale | VKR2.py:371-383 | For any step records: the stored scale, and the resolution computed from it, come from the new scale on a sized run and from the earlier one otherwise. |
| Analyzer.PassedRecords | VKR2.py:385-390 | A passing run stores the discretization and noise records that the steps compute. |
| Analyzer.StepRecordsStorable | VKR2.py:42-360 | Every record a step stores for an image, including the resolution record for any stored scale and the minimal one, is storable. |
| Analyzer.StepsStorable | VKR2.py:369-406 | Steps that store storable records on storable results leave storable results, whether they pass or raise. |
| Analyzer.FullAnalysisStorable | VKR2.py:362-408 | The full analysis keeps the results storable, with an image or without. |
| Analyzer.SavedAnalysisJsonReady | VKR2.py:362-425 | Saving what the analysis leaves gives a dictionary with no numpy value in any field, and saving that again changes nothing. |
| Serialization.SerializeField | VKR2.py:419-425 | A field is dropped iff it is None or one of the two large arrays. Other arrays become lists, numpy scalars become floats, and every other value is kept. |
| Serialization.SerializeRecord | VKR2.py:415-425 | The survivors of a record are exactly the fields whose value is kept, each holding its saved value. |
| Serialization.Serialize | VKR2.py:413-425 | Every category is kept, and each holds its record after filtering. |
| Serialization.DropsLargeArraysAndNone | VKR2.py:419-425 | The saved record holds no None and neither large array. |
| Serialization.KeepsTheRest | VKR2.py:421-425 | Every other field is present after saving, converted as `tolist`/`float` say. |
| Serialization.SavedIsNumpyFree | VKR2.py:419-425 | The saved fields hold no numpy value at any depth, and each carries the same numbers, in order, as before. |
| Serialization.SerializeIdempotent | VKR2.py:413-425 | Filtering the saved dictionary again changes nothing. |
| Serialization.SavedJsonReady | VKR2.py:413-425 | For storable results the saved dictionary holds no numpy value in any field, and saving it again changes nothing. |
| Storage.CurveRecordStorable | VKR2.py:82-87 | The computed MTF record holds only numeric arrays, Python floats and None. |
| Storage.DegenerateRecordStorable | VKR2.py:88-112 | The basic MTF record holds only numeric arrays and None. |
| Storage.MtfStorable | VKR2.py:51-114 | Every `mtf` record, computed or basic, is storable. |
| Storage.DiscretizationStorable | VKR2.py:247-264 | Every `discretization_artifacts` record, computed or fallback, is storable. |
| Storage.NoiseStorable | VKR2.py:287-302 | Every `noise` record, computed or fallback, is storable. |
| Storage.ContrastStorable | VKR2.py:337-358 | Every `contrast` record is storable; the range is a tuple of Python ints. |
| Storage.ResolutionStorable | VKR2.py:175-200 | Every `resolution` record, and the minimal one of the except path, is storable. |
| Storage.ScaleStorable | VKR2.py:42-47 | The `scale` record is storable; its pixel size is a tuple of Python floats. |
| Values.ToListFaithful | VKR2.py:421 | `tolist` yields numpy-free nested lists with the same numbers in the same order and the same length. |
| Resolution.ScaleOf | VKR2.py:35-37 | The scale exists iff the physical size has two entries. Scale times pixel count gives the physical size back along each axis. |
| Resolution.ScaleFactor | VKR2.py:40 | The factor is the minimum of the two scales. |
| Resolution.ScaleRecord | VKR2.py:42-47 | The scale record has exactly its four fields; the pixel size is the pair (scale_x, scale_y), and the factor is at most both scales. |
| Resolution.DpiOf | VKR2.py:183-186 | A DPI pair exists only when the stored scale has both entries, and each DPI times its scale is 25.4. |
| Resolution.BaseRecord | VKR2.py:175-181 | The resolution record without DPI has exactly its five fields and stores the given effective resolution. |
| Resolution.MinimalResolution | VKR2.py:399-405 | The except path's entry has exactly width, height and total, each equal to the full record's field. |
| Resolution.InchRatio | VKR2.py:185-186 | A DPI value exists only for a non-zero number, and DPI times the scale is 25.4. |
| Resolution.ResolutionRecord | VKR2.py:175-200 | Every resolution record, computed or fallback, holds the pixel counts, Nyquist limit and effective resolution. |
| Resolution.ResolutionFields | VKR2.py:152-181 | Width, height, their product, and a Nyquist limit of half the pixel count per axis. |
| Resolution.DpiPresence | VKR2.py:183-200 | DPI is present iff the texture step succeeded and a stored scale record divides 25.4. The effective resolution falls back to 0.0 exactly when a step raised. |
| Resolution.ScaleGivesDpi | VKR2.py:183-186 | After a scale from non-zero sides, dpi = 25.4 * pixels / millimetres per axis, and dpi * scale = 25.4. |
| Resolution.ZeroSizeFallsBack | VKR2.py:183-200 | A zero physical side makes the DPI division raise: no DPI, and effective resolution 0.0. |
| Mtf.EdgeCount | VKR2.py:58 | The count of edge pixels of a row. It is bounded by the width and is zero iff the row has no edge. |
| Mtf.RowCounts | VKR2.py:58 | One edge count per row, in row order. |
| Mtf.FirstIndexOf | VKR2.py:63 | The first occurrence of a value, as `np.where(...)[0][0]`. |
| Mtf.FirstMaxIndex | VKR2.py:63 | An index of the maximum that no earlier entry reaches. |
| Mtf.EdgeRow | VKR2.py:62-63 | A row exists iff some row has an edge pixel. It is the first row with the most edge pixels. |
| Mtf.Lsf | VKR2.py:64-67 | The line-spread function has one sample fewer than the profile. Sample i is profile[i+1] - profile[i] in floating point. |
| Mtf.FftFreq | VKR2.py:75 | `fftfreq(n)` has n entries, each in [-1/2, 1/2). |
| Mtf.KeptBins | VKR2.py:75-78 | ceil(n/2) bins are kept: at least one, at most n, and n <= 2k <= n + 1. |
| Mtf.NonNegativeMask | VKR2.py:76-77 | The mask keeps exactly the non-negative frequencies. |
| Mtf.RealMax | VKR2.py:72 | The maximum is an element and bounds every element. |
| Mtf.Normalize | VKR2.py:71-72 | Normalisation keeps the length, and leaves the spectrum unchanged when the peak is not positive. |
| Mtf.FirstAtOrBelow | VKR2.py:119-121 | The smallest index at or below the threshold, or None when every value is above it. |
| Mtf.FindMtfValue | VKR2.py:116-124 | The frequency at the first index at or below the threshold. When lengths agree, None iff no value is at or below it. |
| Mtf.CurveOf | VKR2.py:71-86 | A present MTF50 or MTF10 is one of the kept frequencies. |
| Mtf.CurveRecord | VKR2.py:82-87 | The computed record has exactly the four MTF fields; each threshold is None exactly when no value reaches it. |
| Mtf.DegenerateRecord | VKR2.py:88-112 | The basic record has the four MTF fields and no threshold frequencies. |
| Mtf.MtfRecord | VKR2.py:51-114 | Every MTF record, computed or basic, has exactly the four MTF fields. |
| Mtf.FftFreqSign | VKR2.py:75-77 | Of the n fftfreq bins, exactly the first (n-1)/2 + 1 are non-negative. |
| Mtf.SelectPrefix | VKR2.py:78-80 | A mask that keeps an index prefix selects exactly that prefix. |
| Mtf.CurveShape | VKR2.py:71-80 | The kept frequencies are k/n for k = 0..(n-1)/2 in order, and the kept values are the first that many normalised samples. |
| Mtf.NormalizeRange | VKR2.py:71-72 | Normalised values lie in [0, 1], exactly the peak maps to 1 when the peak is positive, and everything stays 0 when it is not. |
| Mtf.KeptPeak | VKR2.py:71-80 | For a symmetric spectrum a peak off the Nyquist bin has a mirror among the kept bins, which normalises to 1. |
| Mtf.CurveInUnitRange | VKR2.py:71-80 | Every stored MTF value lies in [0, 1]. |
| Mtf.CurveReachesOne | VKR2.py:71-80 | With a positive peak, outside the Nyquist caveat below, the stored curve reaches 1. |
| Mtf.ZeroPeakCurve | VKR2.py:71-86 | A zero peak does not fall back: the curve stays all zero and both MTF50 and MTF10 are frequency 0.0. |
| Mtf.FirstBinCrosses | VKR2.py:119-121 | A first value at or below the threshold yields the first frequency. |
| Mtf.FirstAtOrBelowMonotone | VKR2.py:119-121 | A higher threshold crosses no later than a lower one. |
| Mtf.Mtf10ImpliesMtf50 | VKR2.py:85-86 | A present MTF10 implies a present MTF50 at an index no later than MTF10's. |
| Mtf.DegenerateCases | VKR2.py:62-112 | No edge pixel, a one-pixel-wide image or a raising edge detector gives the fixed basic record. |
| Mtf.ComputedCase | VKR2.py:62-87 | Otherwise the record is the curve of the chosen row, whose LSF has width - 1 samples. |
| Discretization.BinCount | VKR2.py:232 | A bin never counts more pixels than there are. |
| Discretization.Histogram | VKR2.py:232 | The histogram has 256 bins. |
| Discretization.BinIsLevel | VKR2.py:232 | With 256 bins over [0, 255], integer intensity v falls into bin v and no other. |
| Discretization.BinCountIsMultiplicity | VKR2.py:232 | Bin i counts exactly the pixels of intensity i. |
| Discretization.PrefixTotal | VKR2.py:232 | The first k bins together hold the pixels below level k. |
| Discretization.HistogramTotal | VKR2.py:232 | The bin counts sum to the pixel count. |
| Discretization.EmptyBinIsMissingLevel | VKR2.py:232-244 | A bin is empty iff no pixel has its level. |
| Discretization.ZeroCount | VKR2.py:244 | The count of zero bins is zero iff every bin is occupied, and full iff every bin is empty. |
| Discretization.EmptyLevels | VKR2.py:243-244 | Some level always occurs, so at most 255 of the 256 levels are empty. |
| Discretization.QuantizationQuality | VKR2.py:245 | The quality lies in [0, 1] for up to 256 empty levels, and is 1 iff none is empty. |
| Discretization.QuantizationBounds | VKR2.py:243-245 | For every image, `empty_levels` <= 255 and the quality lies in (0, 1]. Both are at their extreme iff all 256 levels occur. |
| Discretization.QualityMonotone | VKR2.py:245 | Fewer empty levels never lower the quality. |
| Discretization.Positive | VKR2.py:236 | Selecting the positive probabilities keeps only positive entries. |
| Discretization.Probabilities | VKR2.py:235 | One probability per bin, and a probability is zero exactly when its bin is empty. |
| Discretization.ProbabilitiesAtMostOne | VKR2.py:235 | Each normalised count lies in [0, 1]. |
| Discretization.SomeBinPositive | VKR2.py:235-241 | Every image has a positive probability, so the entropy's empty branch never applies. |
| Discretization.Entropy | VKR2.py:235-241 | With a logarithm that is non-positive on (0, 1], the entropy is non-negative. |
| Discretization.TermsNonPositive | VKR2.py:239 | With such a logarithm, the terms p log2 p of probabilities in (0, 1] sum to at most 0. |
| Discretization.SingleLevelEntropy | VKR2.py:232-241 | An image of one grey level has entropy -log2(1). |
| Discretization.Block | VKR2.py:221-224 | A corner region is the given rows, each cut to the given columns. |
| Discretization.Aliasing | VKR2.py:213-229 | A spectrum with fewer than four rows or columns has aliasing measure 0.0. |
| Discretization.CornerMeans | VKR2.py:219-225 | Four means, one per corner block, in the source order: top-left, top-right, bottom-left, bottom-right (the order is the definition itself; the contract states only the count). |
| Discretization.AliasingBounds | VKR2.py:219-229 | The measure is an average of spectrum entries, so it stays within any bounds of the entries. |
| Discretization.AliasingNonNegative | VKR2.py:213-229 | A log-magnitude spectrum gives a non-negative measure. |
| Discretization.ConstantAliasing | VKR2.py:219-229 | A constant spectrum c with corners gives measure c. |
| Discretization.DiscretizationRecord | VKR2.py:247-264 | Every record, computed or fallback, has exactly the five discretization fields and stores `magnitude_spectrum` as an array. |
| Discretization.FallbackRecord | VKR2.py:255-264 | The fallback record has the same five fields. |
| Discretization.ComputedRecord | VKR2.py:213-253 | In the computed record, `empty_levels` is the number of grey levels in 0..255 that no pixel has; `quantization_quality` lies in (0, 1] and is 1.0 exactly when every level occurs; a non-negative spectrum gives a non-negative `aliasing_measure`. |
| Discretization.ZeroCountIsZeroSet | VKR2.py:245 | `np.sum(hist == 0)` is the size of the set of indices of empty bins. |
| Discretization.ZeroBinsAreMissingLevels | VKR2.py:231-245 | The empty bins of the 256-bin histogram are exactly the grey levels no pixel has. |
| Noise.Residual | VKR2.py:273 | The residual is the entry-wise signed difference of the image and its median, in floating point. |
| Noise.ResidualValues | VKR2.py:273-276 | The flattened residual has one value per pixel. |
| Noise.Snr | VKR2.py:279-285 | The ratio is finite iff both powers are positive and is then 10 log10(signal/noise). It is +inf iff the noise power is zero. |
| Noise.ReportedSnr | VKR2.py:290 | An infinite SNR of either sign is reported as 999.0, a finite one as itself. |
| Noise.NoiseRecord | VKR2.py:273-302 | Every record, computed or fallback, has exactly the four noise fields and stores `noise_image` as an array. |
| Noise.FallbackRecord | VKR2.py:294-302 | The fallback record has the four noise fields and reports `snr_db` as 999.0. |
| Noise.SignalPower | VKR2.py:279 | The signal power is a mean of squares, so it is never negative. |
| Noise.SquaresMeanZero | VKR2.py:280 | A mean of squares is zero iff every entry is zero. |
| Noise.ResidualZero | VKR2.py:273 | The residual is zero everywhere iff the median filter left the image unchanged. |
| Noise.NoisePower | VKR2.py:280 | The noise power is never negative, and it is zero iff the median filter left the image unchanged. |
| Noise.SnrSentinel | VKR2.py:282-300 | In the stored record, `snr_db` is 999.0 when the noise power is zero, when the filter left the image unchanged, and on the except path; it is 10 log10(signal/noise) when both powers are positive. |
| Noise.NoiselessImage | VKR2.py:275-276 | An unchanged image leaves a residual with mean 0 and standard deviation sqrt(0). |
| Contrast.AddUint8 | VKR2.py:312 | A uint8 sum below 256 is exact; from 256 on it loses 256. |
| Contrast.SubUint8 | VKR2.py:313 | A uint8 difference of ordered operands is exact; otherwise it gains 256. |
| Contrast.MichelsonAsWritten | VKR2.py:310-315 | The value as the source computes it, with uint8 sum and difference: never negative, and 0.0 when max == min. |
| Contrast.Michelson | VKR2.py:310-315 | The corrected contrast lies in [0, 1]. It is 0 iff max == min, and 1 iff min is 0 and max is positive. |
| Contrast.NoWrapAgrees | VKR2.py:312-315 | When max + min < 256 the value as written equals the corrected contrast. |
| Contrast.TwentyToTwoHundred | VKR2.py:312-315 | Intensities 20 and 200 give 180/220 with either definition. |
| Contrast.WrapCases | VKR2.py:312-315 | From 256 on, the value as written is 0.0 at exactly 256; above 256 its denominator loses 256. |
| Contrast.WrapCounterexamples | VKR2.py:312-315 | As written, 100/200 gives 100/44 > 1 where the contrast is 1/3, and 1/255 gives 0.0 where it is 254/256. |
| Contrast.ContrastRecord | VKR2.py:306-360 | Every contrast record, computed or fallback, has exactly the five contrast fields. |
| Contrast.ContrastRangeFacts | VKR2.py:310-358 | The stored range is (min, max) with min <= max, and the stored mean lies inside it. |
| Contrast.ContrastMichelsonFacts | VKR2.py:310-358 | The stored Michelson value is the as-written uint8 value, never negative, and 0.0 on the fallback path. When max + min < 256 it equals the corrected contrast and lies in [0, 1]. |
| Contrast.ConstantImage | VKR2.py:310-343 | A constant image of level v has Michelson 0, RMS sqrt(0), range (v, v) and mean v. |
| BlurIllumination.CalculateDiscreteIllumination | VKR1_1.py:7-43 | `l_sh == 0` is the floor division's ZeroDivisionError. Otherwise the result is an N x N matrix whose row n holds E1 when its centre (n + 0.5) l_sh is at or before a, E2 at or after b, and the linear interpolation in between. |
| BlurIllumination.Validate | VKR1_1.py:99-112 | Passes iff all five checks hold. Each error is reported exactly when its check is the first to fail. |
| BlurIllumination.RowValue | VKR1_1.py:31-41 | Every row value lies between E1 and E2. |
| BlurIllumination.Interpolate | VKR1_1.py:40 | Inside the blur zone the interpolated value lies between E1 and E2. |
| BlurIllumination.RowValueMonotone | VKR1_1.py:29-41 | Row values never decrease along the matrix when E1 <= E2. |
| BlurIllumination.ValidatedIsComputable | VKR1_1.py:103-112 | Validated parameters have l_sh != 0, a < b and N > 0, and give a monotone matrix. |
| EdgeIllumination.CalculateDiscreteIllumination | progs/VKR.py:7-48 | `l_sh == 0` is the ZeroDivisionError. Otherwise row n holds E1 before the transition row n_a - 1 and E2 after it. The transition row gets E2, E1 or the aperture-weighted mix, depending on delta = l_sh n_a - a. |
| EdgeIllumination.TransitionIndex | progs/VKR.py:23 | n_a rounds a / l_sh to the nearest integer, halves up: n_a <= a / l_sh + 1/2 < n_a + 1. |
| EdgeIllumination.Delta | progs/VKR.py:37 | For the transition index and a positive pitch, delta lies in (-l_sh/2, l_sh/2]. |
| EdgeIllumination.TransitionValue | progs/VKR.py:37-46 | The transition row's value lies between E1 and E2 in every branch. |
| EdgeIllumination.CellValue | progs/VKR.py:31-46 | Every cell lies between E1 and E2. |
| EdgeIllumination.Validate | progs/VKR.py:103-112 | Passes iff 1 <= l_ap <= l_sh <= 10 and l_sh < a < (N - 1) l_sh. Each error is reported exactly when its check is the first to fail. |
| EdgeIllumination.MixedBranchIsConvex | progs/VKR.py:43-46 | In the mixed branch both weights are positive and sum to l_ap. The value lies strictly between distinct E1 and E2. |
| EdgeIllumination.CellValueMonotone | progs/VKR.py:28-46 | Cell values never decrease along the rows when E1 <= E2. |
| EdgeIllumination.ValidatedPitches | progs/VKR.py:107-112 | Validated parameters have a positive pitch and put the boundary more than one pitch from both ends: 1 < a / l_sh < N - 1. |
| EdgeIllumination.ValidatedTransitionRow | progs/VKR.py:107-112 | For validated parameters the transition row n_a - 1 lies in [0, N-2]. |
| EdgeIllumination.WeightedBetween | progs/VKR.py:43-46 | Inside the aperture the weighted mix lies strictly between distinct E1 and E2, and equals them when they agree. |

## Left out

- Image decoding, colour conversion and the file system (VKR2.py:21-31, 432-435): `LoadImage` takes the decoded grey image, or None when decoding failed. `json.dump` and the file it writes are left out; `SaveResults` returns the dictionary it would dump.
- Console output (`print`), `generate_report`, `visualize_results`, the plotting code in the illumination scripts and their `main` functions: output only.
- Library numerics: Canny, `np.fft.fft`/`fft2`/`fftshift`, `cv2.medianBlur`, Sobel, Laplacian and the local-variance and local-contrast filters are taken as inputs (`Analyzer.Measurements`). `sqrt`, `log2` and `log10` are uninterpreted parameters, and IEEE rounding, overflow and NaN are not modelled.
- `Analyzer.ImageQualityAnalyzer.CalculateSharpness`: the three sharpness values are inputs. Only the step's success or its exception, and what it then stores, are modelled.
- `Discretization.Entropy`: the entropy's value is only bounded, since its logarithm is a parameter.
- `sensor_size_mm` decides only whether the scale step runs (its truthiness). `calculate_image_scale` ignores its contents, and so does the model.
- `Resolution.InchRatio`: a scale stored as a numpy scalar is treated like a value that cannot divide 25.4. The analyzer itself only stores Python floats there.
- The step methods require a grey image: calling one before an image is loaded is not modelled. In the source, `calculate_image_scale` and `calculate_resolution` then raise AttributeError (the latter from its own fallback branch). The MTF, discretization and noise steps catch the error and store their fallback records (VKR2.py:106-112, 256-264, 294-302). The contrast step's fallback raises TypeError, and sharpness raises the image library's error. `PerformFullAnalysis` itself does handle the no-image case.
- `Analyzer.ImageQualityAnalyzer.SaveResults`: the branch for a category that is not a dict (VKR2.py:426-430) is left out, because every category the analyzer stores is a dict (`map<string, Record>`).
- `Mtf.CurveReachesOne`: it does not cover an even-length spectrum whose only peak is at the Nyquist bin n/2. fftfreq gives that bin a negative frequency, so the stored curve need not reach 1 there.
- `Mtf.FftFreq`: its contract states the length and the range [-1/2, 1/2); the sign pattern that the mask depends on is `Mtf.FftFreqSign`.
- `BlurIllumination.CalculateDiscreteIllumination` and `EdgeIllumination.CalculateDiscreteIllumination` take `num_pixels` as a natural number. A negative one makes `np.zeros` raise, and that path is not modelled.
- `Discretization.QuantizationBounds` is stronger than the range [0, 256]: some level always occurs, so at most 255 levels are empty.

## Findings

| source | as written | input that shows it | evidently intended | confidence | as-written member | corrected member |
|---|---|---|---|---|---|---|
| VKR2.py:310-315 | `max_intensity + min_intensity` and `max_intensity - min_intensity` are uint8 arithmetic, so the Michelson denominator is (max + min) mod 256 | intensities 100 and 200: (200 - 100) / 44 = 2.27 > 1; intensities 1 and 255: the sum wraps to 0 and the contrast is reported as 0.0 | (max - min) / (max + min) over unbounded integers, in [0, 1] | not executed | Contrast.MichelsonAsWritten (Contrast.WrapCounterexamples, Contrast.WrapCases; stored by Contrast.ContrastRecord, see Contrast.ContrastMichelsonFacts) | Contrast.Michelson (Contrast.NoWrapAgrees) |
