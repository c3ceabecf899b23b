/**
  * The brute-force window scorer (`_score_windows`): every window of the three configured
  * lengths, slid over the video in 5-second steps, is scored on audio energy, keyword density
  * and scene changes. The energy curve, keyword regions and scene-change times are inputs.
  */
module WindowScoring {
  import opened Text
  import opened Seqs
  import opened HighlightTypes

  /** The signals a window is scored on. `times` and `rms` are parallel: one entry per sample. */
  datatype Signals = Signals(keywordRegions: seq<KeywordRegion>, sceneChanges: seq<real>, times: seq<real>, rms: seq<real>)

  /** Seconds between two window starts. */
  const Step: real := 5.0

  /** `[min_dur, (min_dur + max_dur) // 2, max_dur]`; `/` on int rounds down for a positive divisor, as `//` does. */
  function WindowSizes(minDur: int, maxDur: int): seq<int>
  {
    [minDur, (minDur + maxDur) / 2, maxDur]
  }

  // ---- Energy (signal 1) ----

  /** `np.max`. */
  function MaxOf(s: seq<real>): real
    requires |s| > 0
  {
    if |s| == 1 then s[0] else Max(s[0], MaxOf(s[1..]))
  }

  /** `np.min`. */
  function MinOf(s: seq<real>): real
    requires |s| > 0
  {
    if |s| == 1 then s[0] else Min(s[0], MinOf(s[1..]))
  }

  function GlobalMax(rms: seq<real>): real
  {
    if |rms| > 0 then MaxOf(rms) else 1.0
  }

  function GlobalMin(rms: seq<real>): real
  {
    if |rms| > 0 then MinOf(rms) else 0.0
  }

  /** `global_max_rms - global_min_rms or 1.0`: a zero range falls back to 1.0. */
  function RmsRange(rms: seq<real>): real
  {
    var range := GlobalMax(rms) - GlobalMin(rms);
    if range == 0.0 then 1.0 else range
  }

  /** `rms[(times >= pos) & (times < end)]` over the first `n` samples, in sample order. */
  function InWindowRms(times: seq<real>, rms: seq<real>, pos: real, end: real, n: nat): seq<real>
    requires n <= |times| && n <= |rms|
  {
    if n == 0 then []
    else
      InWindowRms(times, rms, pos, end, n - 1)
      + (if pos <= times[n - 1] < end then [rms[n - 1]] else [])
  }

  /** The sum of `(w[i] - low) / range` over the window values. */
  function NormalizedSum(w: seq<real>, low: real, range: real): real
    requires range != 0.0
  {
    if w == [] then 0.0 else (w[0] - low) / range + NormalizedSum(w[1..], low, range)
  }

  /** The mean normalised energy of the samples inside `[pos, end)`; 0 when there are none. */
  function EnergyScore(times: seq<real>, rms: seq<real>, pos: real, end: real): real
    requires |times| == |rms|
  {
    if |times| == 0 then 0.0
    else
      var w := InWindowRms(times, rms, pos, end, |times|);
      if |w| == 0 then 0.0 else NormalizedSum(w, GlobalMin(rms), RmsRange(rms)) / |w| as real
  }

  // ---- Keyword density (signal 2) ----

  predicate Contains(r: KeywordRegion, pos: real, end: real)
  {
    r.start >= pos && r.end <= end
  }

  /** The greatest density among the first `n` regions lying inside `[pos, end]`, or 0. */
  function KeywordMax(regions: seq<KeywordRegion>, pos: real, end: real, n: nat): real
    requires n <= |regions|
  {
    if n == 0 then 0.0
    else
      var prior := KeywordMax(regions, pos, end, n - 1);
      if Contains(regions[n - 1], pos, end) then Max(prior, regions[n - 1].density) else prior
  }

  /** `min(1.0, kw_score * 3)`. */
  function KeywordScore(regions: seq<KeywordRegion>, pos: real, end: real): real
  {
    Min(1.0, KeywordMax(regions, pos, end, |regions|) * 3.0)
  }

  /** The keyword-score loop of `_score_windows`. */
  method KeywordScoreOf(regions: seq<KeywordRegion>, pos: real, end: real) returns (kwScore: real)
    ensures kwScore == KeywordScore(regions, pos, end)
  {
    kwScore := 0.0;
    var i := 0;
    while i < |regions|
      invariant 0 <= i <= |regions|
      invariant kwScore == KeywordMax(regions, pos, end, i)
    {
      var region := regions[i];
      if region.start >= pos && region.end <= end {
        kwScore := Max(kwScore, region.density);
      }
      i := i + 1;
    }
    kwScore := Min(1.0, kwScore * 3.0);
  }

  // ---- Scene changes (signal 3) ----

  /** `[t for t in scene_changes if pos <= t < end]`. */
  function ScenesIn(scenes: seq<real>, pos: real, end: real): seq<real>
  {
    if scenes == [] then []
    else (if pos <= scenes[0] < end then [scenes[0]] else []) + ScenesIn(scenes[1..], pos, end)
  }

  /** `min(1.0, len(scenes_in_window) / 2)`: true division. */
  function SceneScore(scenes: seq<real>, pos: real, end: real): real
  {
    Min(1.0, |ScenesIn(scenes, pos, end)| as real / 2.0)
  }

  // ---- Combining ----

  function Combined(config: DetectorConfig, energy: real, keyword: real, scene: real): real
  {
    config.audioEnergyWeight * energy + config.keywordWeight * keyword + config.sceneChangeWeight * scene
  }

  /** The tags of the signals that pass their thresholds, in the fixed order energy, keyword, scene. */
  function ReasonTags(energy: real, keyword: real, scene: real): seq<string>
  {
    (if energy > 0.6 then ["high energy"] else [])
    + (if keyword > 0.3 then ["keyword"] else [])
    + (if scene > 0.5 then ["scene change"] else [])
  }

  function Reason(energy: real, keyword: real, scene: real): string
  {
    var tags := ReasonTags(energy, keyword, scene);
    if tags == [] then "multi-signal" else Join(tags, ", ")
  }

  /** The candidate for the window of length `windowSize` starting at `pos`. */
  function WindowCandidate(signals: Signals, config: DetectorConfig, pos: real, windowSize: int): ClipCandidate
    requires |signals.times| == |signals.rms|
  {
    var end := pos + windowSize as real;
    var energy := EnergyScore(signals.times, signals.rms, pos, end);
    var keyword := KeywordScore(signals.keywordRegions, pos, end);
    var scene := SceneScore(signals.sceneChanges, pos, end);
    ClipCandidate(pos, end, Combined(config, energy, keyword, scene), Reason(energy, keyword, scene))
  }

  /** The start of the window `k` steps in. */
  function StepPos(k: nat): real
  {
    Step * k as real
  }

  /** How many windows of length `windowSize` fit: positions 0, 5, 10, ... while the window ends by `duration`. */
  function WindowCount(windowSize: int, duration: real): nat
  {
    if windowSize as real > duration then 0 else ((duration - windowSize as real) / Step).Floor + 1
  }

  /** The candidates of one window length, in ascending position. */
  function SizeCandidates(signals: Signals, config: DetectorConfig, duration: real, windowSize: int): seq<ClipCandidate>
    requires |signals.times| == |signals.rms|
  {
    seq(WindowCount(windowSize, duration), k => WindowCandidate(signals, config, Step * k as real, windowSize))
  }

  /** The candidates of the given window lengths, length by length. */
  function SizesCandidates(signals: Signals, config: DetectorConfig, duration: real, sizes: seq<int>): seq<ClipCandidate>
    requires |signals.times| == |signals.rms|
  {
    if sizes == [] then []
    else SizesCandidates(signals, config, duration, sizes[..|sizes| - 1])
         + SizeCandidates(signals, config, duration, sizes[|sizes| - 1])
  }

  /** The result of `_score_windows`: the minimum, middle and maximum lengths in turn. */
  function WindowCandidates(signals: Signals, config: DetectorConfig, duration: real, minDur: int, maxDur: int): seq<ClipCandidate>
    requires |signals.times| == |signals.rms|
  {
    SizesCandidates(signals, config, duration, WindowSizes(minDur, maxDur))
  }

  /**
    * The pool is generated length by length (minimum, middle, maximum), each length's windows
    * in ascending position (SizeCandidatesLayout).
    */
  lemma WindowOrder(signals: Signals, config: DetectorConfig, duration: real, minDur: int, maxDur: int)
    requires |signals.times| == |signals.rms|
    ensures WindowCandidates(signals, config, duration, minDur, maxDur)
         == SizeCandidates(signals, config, duration, minDur)
            + SizeCandidates(signals, config, duration, (minDur + maxDur) / 2)
            + SizeCandidates(signals, config, duration, maxDur)
  {
    var sizes := WindowSizes(minDur, maxDur);
    assert sizes[..0] == [];
    SizesCandidatesOneMore(signals, config, duration, sizes, 0);
    SizesCandidatesOneMore(signals, config, duration, sizes, 1);
    SizesCandidatesOneMore(signals, config, duration, sizes, 2);
    assert sizes[..3] == sizes;
  }

  /** A window starting at `k` steps fits exactly when `k` is below the window count. */
  lemma WindowFits(windowSize: int, duration: real, k: nat)
    ensures Step * k as real + windowSize as real <= duration <==> k < WindowCount(windowSize, duration)
  {
    if windowSize as real <= duration {
      var x := (duration - windowSize as real) / Step;
      assert x.Floor as real <= x < x.Floor as real + 1.0;
    }
  }

  /** The mean normalised level of the samples inside one window, 0 when none falls in it. */
  method WindowEnergy(times: seq<real>, rms: seq<real>, rmsMin: real, rmsRange: real, pos: real, end: real)
    returns (energyScore: real)
    requires |times| == |rms|
    requires rmsMin == GlobalMin(rms) && rmsRange == RmsRange(rms)
    ensures energyScore == EnergyScore(times, rms, pos, end)
  {
    energyScore := 0.0;
    if |times| > 0 {
      var windowRms := InWindowRms(times, rms, pos, end, |times|);
      if |windowRms| > 0 {
        energyScore := NormalizedSum(windowRms, rmsMin, rmsRange) / |windowRms| as real;
      }
    }
  }

  /** One window's scores, with the global statistics computed once by the caller. */
  method ScoreWindow(signals: Signals, config: DetectorConfig, rmsMin: real, rmsRange: real, pos: real, windowSize: int)
    returns (candidate: ClipCandidate)
    requires |signals.times| == |signals.rms|
    requires rmsMin == GlobalMin(signals.rms) && rmsRange == RmsRange(signals.rms)
    ensures candidate == WindowCandidate(signals, config, pos, windowSize)
  {
    var end := pos + windowSize as real;
    var energyScore := WindowEnergy(signals.times, signals.rms, rmsMin, rmsRange, pos, end);
    var kwScore := KeywordScoreOf(signals.keywordRegions, pos, end);
    var sceneScore := SceneScore(signals.sceneChanges, pos, end);
    var combined := config.audioEnergyWeight * energyScore + config.keywordWeight * kwScore
                    + config.sceneChangeWeight * sceneScore;
    var reason := Reason(energyScore, kwScore, sceneScore);
    assert combined == Combined(config, energyScore, kwScore, sceneScore);
    candidate := ClipCandidate(pos, end, combined, reason);
  }

  /** The first `j` window lengths and then one more. */
  lemma SizesCandidatesOneMore(signals: Signals, config: DetectorConfig, duration: real, sizes: seq<int>, j: int)
    requires |signals.times| == |signals.rms| && 0 <= j < |sizes|
    ensures SizesCandidates(signals, config, duration, sizes[..j + 1])
         == SizesCandidates(signals, config, duration, sizes[..j]) + SizeCandidates(signals, config, duration, sizes[j])
  {
    assert sizes[..j + 1][..j] == sizes[..j];
  }

  /** The `while pos + window_size <= duration` loop: appends the windows of one length. */
  method SlideWindow(candidates: seq<ClipCandidate>, signals: Signals, config: DetectorConfig,
                     rmsMin: real, rmsRange: real, duration: real, windowSize: int)
    returns (extended: seq<ClipCandidate>)
    requires |signals.times| == |signals.rms|
    requires rmsMin == GlobalMin(signals.rms) && rmsRange == RmsRange(signals.rms)
    ensures extended == candidates + SizeCandidates(signals, config, duration, windowSize)
  {
    ghost var windows := SizeCandidates(signals, config, duration, windowSize);
    extended := candidates;
    var pos := 0.0;
    ghost var k: nat := 0;
    while pos + windowSize as real <= duration
      invariant k <= |windows| && pos == Step * k as real
      invariant extended == candidates + windows[..k]
      decreases |windows| - k
    {
      WindowFits(windowSize, duration, k);
      var candidate := ScoreWindow(signals, config, rmsMin, rmsRange, pos, windowSize);
      assert windows[..k + 1] == windows[..k] + [candidate];
      extended := extended + [candidate];
      pos := pos + Step;
      k := k + 1;
    }
    WindowFits(windowSize, duration, k);
    assert windows[..k] == windows;
  }

  /** `_score_windows`. The energy peaks are accepted and, as in the source, never read. */
  method ScoreWindows(duration: real, energyPeaks: seq<real>, keywordRegions: seq<KeywordRegion>,
                      sceneChanges: seq<real>, times: seq<real>, rms: seq<real>,
                      minDur: int, maxDur: int, config: DetectorConfig)
    returns (candidates: seq<ClipCandidate>)
    requires |times| == |rms|
    ensures candidates == WindowCandidates(Signals(keywordRegions, sceneChanges, times, rms), config, duration, minDur, maxDur)
  {
    var signals := Signals(keywordRegions, sceneChanges, times, rms);
    candidates := [];
    var globalMaxRms := if |rms| > 0 then MaxOf(rms) else 1.0;
    var globalMinRms := if |rms| > 0 then MinOf(rms) else 0.0;
    var rmsRange := if globalMaxRms - globalMinRms == 0.0 then 1.0 else globalMaxRms - globalMinRms;
    var sizes := WindowSizes(minDur, maxDur);
    var j := 0;
    while j < |sizes|
      invariant 0 <= j <= |sizes|
      invariant candidates == SizesCandidates(signals, config, duration, sizes[..j])
    {
      candidates := SlideWindow(candidates, signals, config, globalMinRms, rmsRange, duration, sizes[j]);
      SizesCandidatesOneMore(signals, config, duration, sizes, j);
      j := j + 1;
    }
    assert sizes[..j] == sizes;
  }

  // ---- Properties ----

  /**
    * The windows of one length come in ascending position: the `k`-th starts at `5k`, has that
    * length, and ends by `duration`.
    */
  lemma SizeCandidatesLayout(signals: Signals, config: DetectorConfig, duration: real, windowSize: int)
    requires |signals.times| == |signals.rms|
    ensures var cs := SizeCandidates(signals, config, duration, windowSize);
      forall k :: 0 <= k < |cs| ==>
        cs[k].start == Step * k as real && cs[k].end == cs[k].start + windowSize as real && cs[k].end <= duration
  {
    var cs := SizeCandidates(signals, config, duration, windowSize);
    forall k | 0 <= k < |cs|
      ensures cs[k].start == Step * k as real && cs[k].end == cs[k].start + windowSize as real && cs[k].end <= duration
    {
      WindowFits(windowSize, duration, k);
    }
  }

  /** The windows of one length start on the 5-second grid, end by `duration` and have that length. */
  lemma SizeCandidatesShape(signals: Signals, config: DetectorConfig, duration: real, windowSize: int)
    requires |signals.times| == |signals.rms|
    ensures forall c :: c in SizeCandidates(signals, config, duration, windowSize) ==>
      (exists k: nat :: c.start == StepPos(k)) && c.start >= 0.0 && c.end <= duration && Duration(c) == windowSize as real
  {
    var cs := SizeCandidates(signals, config, duration, windowSize);
    SizeCandidatesLayout(signals, config, duration, windowSize);
    forall c | c in cs
      ensures (exists k: nat :: c.start == StepPos(k)) && c.start >= 0.0 && c.end <= duration && Duration(c) == windowSize as real
    {
      var k :| 0 <= k < |cs| && cs[k] == c;
      assert c.start == StepPos(k);
    }
  }

  /** Every candidate of a list of lengths is a candidate of one of those lengths. */
  lemma {:induction false} SizesCandidatesMembers(signals: Signals, config: DetectorConfig, duration: real, sizes: seq<int>)
    requires |signals.times| == |signals.rms|
    ensures forall c :: c in SizesCandidates(signals, config, duration, sizes) ==>
      exists i :: 0 <= i < |sizes| && c in SizeCandidates(signals, config, duration, sizes[i])
  {
    if sizes != [] {
      var init := sizes[..|sizes| - 1];
      SizesCandidatesMembers(signals, config, duration, init);
      forall c | c in SizesCandidates(signals, config, duration, sizes)
        ensures exists i :: 0 <= i < |sizes| && c in SizeCandidates(signals, config, duration, sizes[i])
      {
        if c in SizesCandidates(signals, config, duration, init) {
          var i :| 0 <= i < |init| && c in SizeCandidates(signals, config, duration, init[i]);
          assert init[i] == sizes[i];
        }
      }
    }
  }

  /** A list of lengths yields no candidate exactly when none of its lengths fits into `duration`. */
  lemma {:induction false} SizesCandidatesEmpty(signals: Signals, config: DetectorConfig, duration: real, sizes: seq<int>)
    requires |signals.times| == |signals.rms|
    ensures SizesCandidates(signals, config, duration, sizes) == [] <==> forall i :: 0 <= i < |sizes| ==> sizes[i] as real > duration
  {
    if sizes != [] {
      var init := sizes[..|sizes| - 1];
      SizesCandidatesEmpty(signals, config, duration, init);
      assert forall i :: 0 <= i < |init| ==> init[i] == sizes[i];
      assert |SizeCandidates(signals, config, duration, sizes[|sizes| - 1])| == WindowCount(sizes[|sizes| - 1], duration);
    }
  }

  /**
    * Every candidate starts at a non-negative multiple of 5 seconds, ends by `duration`, and
    * lasts one of the three window lengths.
    */
  lemma CandidateShape(signals: Signals, config: DetectorConfig, duration: real, minDur: int, maxDur: int)
    requires |signals.times| == |signals.rms|
    ensures forall c :: c in WindowCandidates(signals, config, duration, minDur, maxDur) ==>
      (exists k: nat :: c.start == StepPos(k))
      && c.start >= 0.0 && c.end <= duration
      && Duration(c) in {minDur as real, ((minDur + maxDur) / 2) as real, maxDur as real}
  {
    var sizes := WindowSizes(minDur, maxDur);
    SizesCandidatesMembers(signals, config, duration, sizes);
    forall c | c in WindowCandidates(signals, config, duration, minDur, maxDur)
      ensures (exists k: nat :: c.start == StepPos(k))
        && c.start >= 0.0 && c.end <= duration
        && Duration(c) in {minDur as real, ((minDur + maxDur) / 2) as real, maxDur as real}
    {
      var i :| 0 <= i < |sizes| && c in SizeCandidates(signals, config, duration, sizes[i]);
      SizeCandidatesShape(signals, config, duration, sizes[i]);
    }
  }

  /**
    * With `min_dur <= max_dur`, no window is scored (and `NoHighlightsError` follows) exactly
    * when the video is shorter than `min_dur`.
    */
  lemma PoolEmptyIffShort(signals: Signals, config: DetectorConfig, duration: real, minDur: int, maxDur: int)
    requires |signals.times| == |signals.rms| && minDur <= maxDur
    ensures WindowCandidates(signals, config, duration, minDur, maxDur) == [] <==> duration < minDur as real
  {
    var sizes := WindowSizes(minDur, maxDur);
    SizesCandidatesEmpty(signals, config, duration, sizes);
    assert minDur <= sizes[1] <= maxDur;
    if duration < minDur as real {
      assert forall i :: 0 <= i < |sizes| ==> sizes[i] as real > duration;
    } else {
      assert !(sizes[0] as real > duration);
    }
  }

  lemma MinMaxBound(s: seq<real>)
    requires |s| > 0
    ensures forall i :: 0 <= i < |s| ==> MinOf(s) <= s[i] <= MaxOf(s)
  {
    if |s| > 1 {
      MinMaxBound(s[1..]);
      forall i | 1 <= i < |s|
        ensures MinOf(s) <= s[i] <= MaxOf(s)
      {
        assert s[i] == s[1..][i - 1];
      }
    }
  }

  /** Every value in a window is one of the curve's samples. */
  lemma {:induction false} InWindowFromSamples(times: seq<real>, rms: seq<real>, pos: real, end: real, n: nat)
    requires n <= |times| && n <= |rms|
    ensures forall v :: v in InWindowRms(times, rms, pos, end, n) ==> exists i :: 0 <= i < n && rms[i] == v
  {
    if n > 0 {
      InWindowFromSamples(times, rms, pos, end, n - 1);
    }
  }

  /** A window holds no value exactly when no sample time falls inside it. */
  lemma {:induction false} InWindowEmpty(times: seq<real>, rms: seq<real>, pos: real, end: real, n: nat)
    requires n <= |times| && n <= |rms|
    ensures InWindowRms(times, rms, pos, end, n) == [] <==> forall i :: 0 <= i < n ==> !(pos <= times[i] < end)
  {
    if n > 0 {
      InWindowEmpty(times, rms, pos, end, n - 1);
    }
  }

  /** A ratio of a non-negative value to a larger positive one lies in [0, 1]. */
  lemma RatioInUnit(a: real, b: real)
    requires 0.0 <= a <= b && 0.0 < b
    ensures 0.0 <= a / b <= 1.0
  {
    var q := a / b;
    assert q * b == a;
  }

  /** Values inside `[low, low + range]` normalise into [0, 1], so their sum lies in [0, |w|]. */
  lemma {:induction false} NormalizedSumBounds(w: seq<real>, low: real, range: real)
    requires range > 0.0 && forall i :: 0 <= i < |w| ==> low <= w[i] <= low + range
    ensures 0.0 <= NormalizedSum(w, low, range) <= |w| as real
  {
    if w != [] {
      RatioInUnit(w[0] - low, range);
      NormalizedSumBounds(w[1..], low, range);
    }
  }

  /** Every sample lies in `[GlobalMin, GlobalMin + RmsRange]`; the range is positive. */
  lemma SamplesInRange(rms: seq<real>)
    ensures RmsRange(rms) > 0.0
    ensures forall i :: 0 <= i < |rms| ==> GlobalMin(rms) <= rms[i] <= GlobalMin(rms) + RmsRange(rms)
  {
    if |rms| > 0 {
      MinMaxBound(rms);
      assert MinOf(rms) <= rms[0] <= MaxOf(rms);
    }
  }

  /** The energy score lies in [0, 1], and is 0 when no sample falls inside the window. */
  lemma EnergyScoreInUnit(times: seq<real>, rms: seq<real>, pos: real, end: real)
    requires |times| == |rms|
    ensures 0.0 <= EnergyScore(times, rms, pos, end) <= 1.0
    ensures (forall i :: 0 <= i < |times| ==> !(pos <= times[i] < end)) ==> EnergyScore(times, rms, pos, end) == 0.0
  {
    InWindowEmpty(times, rms, pos, end, |times|);
    if |times| > 0 {
      var w := InWindowRms(times, rms, pos, end, |times|);
      if |w| > 0 {
        var low, range := GlobalMin(rms), RmsRange(rms);
        SamplesInRange(rms);
        InWindowFromSamples(times, rms, pos, end, |times|);
        forall i | 0 <= i < |w|
          ensures low <= w[i] <= low + range
        {
          assert w[i] in w;
        }
        NormalizedSumBounds(w, low, range);
        RatioInUnit(NormalizedSum(w, low, range), |w| as real);
      }
    }
  }

  /** A flat, non-empty curve has range 1.0 (not 0) and scores no energy anywhere. */
  lemma FlatCurveScoresZero(times: seq<real>, rms: seq<real>, pos: real, end: real)
    requires |times| == |rms| > 0 && forall i :: 0 <= i < |rms| ==> rms[i] == rms[0]
    ensures RmsRange(rms) == 1.0
    ensures EnergyScore(times, rms, pos, end) == 0.0
  {
    MinMaxBound(rms);
    MinMaxMember(rms);
    var w := InWindowRms(times, rms, pos, end, |times|);
    InWindowFromSamples(times, rms, pos, end, |times|);
    FlatSumZero(w, rms[0]);
  }

  /** The least and greatest values are samples. */
  lemma {:induction false} MinMaxMember(s: seq<real>)
    requires |s| > 0
    ensures MinOf(s) in s && MaxOf(s) in s
  {
    if |s| > 1 {
      MinMaxMember(s[1..]);
    }
  }

  /** Values all equal to `low` normalise to 0. */
  lemma {:induction false} FlatSumZero(w: seq<real>, low: real)
    requires forall v :: v in w ==> v == low
    ensures NormalizedSum(w, low, 1.0) == 0.0
  {
    if w != [] {
      assert w[0] in w;
      assert forall v :: v in w[1..] ==> v in w;
      FlatSumZero(w[1..], low);
    }
  }

  /**
    * `KeywordMax` is the greatest density of a contained region: it is at least 0, at least
    * every contained region's density, and is 0 or the density of some contained region.
    */
  lemma {:induction false} KeywordMaxIsMax(regions: seq<KeywordRegion>, pos: real, end: real, n: nat)
    requires n <= |regions|
    ensures var m := KeywordMax(regions, pos, end, n);
      m >= 0.0
      && (forall i :: 0 <= i < n && Contains(regions[i], pos, end) ==> regions[i].density <= m)
      && (m == 0.0 || exists i :: 0 <= i < n && Contains(regions[i], pos, end) && regions[i].density == m)
  {
    if n > 0 {
      KeywordMaxIsMax(regions, pos, end, n - 1);
    }
  }

  /** The keyword score lies in [0, 1]. */
  lemma KeywordScoreInUnit(regions: seq<KeywordRegion>, pos: real, end: real)
    ensures 0.0 <= KeywordScore(regions, pos, end) <= 1.0
  {
    KeywordMaxIsMax(regions, pos, end, |regions|);
  }

  /** The scene list holds exactly the scene changes inside `[pos, end)`, in order. */
  lemma {:induction false} ScenesInExact(scenes: seq<real>, pos: real, end: real)
    ensures forall t :: t in ScenesIn(scenes, pos, end) <==> t in scenes && pos <= t < end
    ensures |ScenesIn(scenes, pos, end)| <= |scenes|
  {
    if scenes != [] {
      ScenesInExact(scenes[1..], pos, end);
      assert scenes == [scenes[0]] + scenes[1..];
    }
  }

  /** The scene score lies in [0, 1] and reaches 1 exactly when two or more scene changes fall inside. */
  lemma SceneScoreRange(scenes: seq<real>, pos: real, end: real)
    ensures 0.0 <= SceneScore(scenes, pos, end) <= 1.0
    ensures SceneScore(scenes, pos, end) == 1.0 <==> |ScenesIn(scenes, pos, end)| >= 2
  {
  }

  /**
    * The reason is `"multi-signal"` exactly when no signal passes its threshold; otherwise it
    * starts with the first passing tag.
    */
  lemma ReasonMultiSignal(energy: real, keyword: real, scene: real)
    ensures Reason(energy, keyword, scene) == "multi-signal" <==> !(energy > 0.6 || keyword > 0.3 || scene > 0.5)
    ensures var tags := ReasonTags(energy, keyword, scene);
      tags != [] ==> Reason(energy, keyword, scene)[0] == tags[0][0]
  {
    var tags := ReasonTags(energy, keyword, scene);
    if tags != [] {
      JoinFirstChar(tags, ", ");
      assert "multi-signal"[0] == 'm';
    }
  }

  /** Position of a tag in the fixed order energy, keyword, scene. */
  function TagRank(tag: string): (r: nat)
    ensures r <= 2
    ensures r == 0 <==> tag == "high energy"
  {
    if tag == "high energy" then 0 else if tag == "keyword" then 1 else 2
  }

  /** The tags that pass appear, and only they. */
  lemma ReasonTagsMembers(energy: real, keyword: real, scene: real)
    ensures var tags := ReasonTags(energy, keyword, scene);
      ("high energy" in tags <==> energy > 0.6)
      && ("keyword" in tags <==> keyword > 0.3)
      && ("scene change" in tags <==> scene > 0.5)
  {
    assert |"high energy"| == 11 && |"keyword"| == 7 && |"scene change"| == 12;
    PickedMembers("high energy", "keyword", "scene change", energy > 0.6, keyword > 0.3, scene > 0.5);
  }

  /** The tags appear in the fixed order energy, keyword, scene, each at most once. */
  lemma ReasonTagsOrdered(energy: real, keyword: real, scene: real)
    ensures var tags := ReasonTags(energy, keyword, scene);
      forall i, j :: 0 <= i < j < |tags| ==> TagRank(tags[i]) < TagRank(tags[j])
  {
    assert |"high energy"| == 11 && |"keyword"| == 7 && |"scene change"| == 12;
    assert TagRank("high energy") == 0 && TagRank("keyword") == 1 && TagRank("scene change") == 2;
  }

  /** Picking some of three distinct values keeps exactly the picked ones. */
  lemma PickedMembers<T>(a: T, b: T, c: T, pa: bool, pb: bool, pc: bool)
    requires a != b && a != c && b != c
    ensures var picked := (if pa then [a] else []) + (if pb then [b] else []) + (if pc then [c] else []);
      (a in picked <==> pa) && (b in picked <==> pb) && (c in picked <==> pc)
  {
    var e: seq<T> := if pa then [a] else [];
    var k: seq<T> := if pb then [b] else [];
    var s: seq<T> := if pc then [c] else [];
    assert a in e + k + s <==> a in e || a in k || a in s;
    assert b in e + k + s <==> b in e || b in k || b in s;
    assert c in e + k + s <==> c in e || c in k || c in s;
  }

  /** A join starts with the first character of its first part. */
  lemma JoinFirstChar(parts: seq<string>, sep: string)
    requires parts != [] && parts[0] != []
    ensures Join(parts, sep) != [] && Join(parts, sep)[0] == parts[0][0]
  {
  }

  /** The windows of one length score between 0 and the sum of the (non-negative) weights. */
  lemma SizeScoreRange(signals: Signals, config: DetectorConfig, duration: real, windowSize: int)
    requires |signals.times| == |signals.rms|
    requires config.audioEnergyWeight >= 0.0 && config.keywordWeight >= 0.0 && config.sceneChangeWeight >= 0.0
    ensures forall c :: c in SizeCandidates(signals, config, duration, windowSize) ==>
      0.0 <= c.score <= config.audioEnergyWeight + config.keywordWeight + config.sceneChangeWeight
  {
    var cs := SizeCandidates(signals, config, duration, windowSize);
    forall k | 0 <= k < |cs|
      ensures 0.0 <= cs[k].score <= config.audioEnergyWeight + config.keywordWeight + config.sceneChangeWeight
    {
      WindowScoreRange(signals, config, Step * k as real, windowSize);
    }
  }

  /**
    * With non-negative weights, every candidate's score lies between 0 and the sum of the
    * weights (1.0 for the defaults).
    */
  lemma CandidateScoreRange(signals: Signals, config: DetectorConfig, duration: real, minDur: int, maxDur: int)
    requires |signals.times| == |signals.rms|
    requires config.audioEnergyWeight >= 0.0 && config.keywordWeight >= 0.0 && config.sceneChangeWeight >= 0.0
    ensures forall c :: c in WindowCandidates(signals, config, duration, minDur, maxDur) ==>
      0.0 <= c.score <= config.audioEnergyWeight + config.keywordWeight + config.sceneChangeWeight
  {
    var sizes := WindowSizes(minDur, maxDur);
    SizesCandidatesMembers(signals, config, duration, sizes);
    forall c | c in WindowCandidates(signals, config, duration, minDur, maxDur)
      ensures 0.0 <= c.score <= config.audioEnergyWeight + config.keywordWeight + config.sceneChangeWeight
    {
      var i :| 0 <= i < |sizes| && c in SizeCandidates(signals, config, duration, sizes[i]);
      SizeScoreRange(signals, config, duration, sizes[i]);
    }
  }

  /** One window's combined score lies between 0 and the sum of the (non-negative) weights. */
  lemma WindowScoreRange(signals: Signals, config: DetectorConfig, pos: real, windowSize: int)
    requires |signals.times| == |signals.rms|
    requires config.audioEnergyWeight >= 0.0 && config.keywordWeight >= 0.0 && config.sceneChangeWeight >= 0.0
    ensures var c := WindowCandidate(signals, config, pos, windowSize);
      0.0 <= c.score <= config.audioEnergyWeight + config.keywordWeight + config.sceneChangeWeight
  {
    var end := pos + windowSize as real;
    EnergyScoreInUnit(signals.times, signals.rms, pos, end);
    KeywordScoreInUnit(signals.keywordRegions, pos, end);
    SceneScoreRange(signals.sceneChanges, pos, end);
    CombinedRange(config, EnergyScore(signals.times, signals.rms, pos, end),
                  KeywordScore(signals.keywordRegions, pos, end), SceneScore(signals.sceneChanges, pos, end));
  }

  /** Scores in [0, 1] under non-negative weights combine to between 0 and the weights' sum. */
  lemma CombinedRange(config: DetectorConfig, energy: real, keyword: real, scene: real)
    requires config.audioEnergyWeight >= 0.0 && config.keywordWeight >= 0.0 && config.sceneChangeWeight >= 0.0
    requires 0.0 <= energy <= 1.0 && 0.0 <= keyword <= 1.0 && 0.0 <= scene <= 1.0
    ensures 0.0 <= Combined(config, energy, keyword, scene)
               <= config.audioEnergyWeight + config.keywordWeight + config.sceneChangeWeight
  {
    var a := config.audioEnergyWeight * energy;
    var b := config.keywordWeight * keyword;
    var c := config.sceneChangeWeight * scene;
    WeightedInRange(config.audioEnergyWeight, energy);
    WeightedInRange(config.keywordWeight, keyword);
    WeightedInRange(config.sceneChangeWeight, scene);
    SumInRange(a, config.audioEnergyWeight, b, config.keywordWeight, c, config.sceneChangeWeight);
    assert Combined(config, energy, keyword, scene) == a + b + c;
  }

  lemma SumInRange(a: real, wa: real, b: real, wb: real, c: real, wc: real)
    requires 0.0 <= a <= wa && 0.0 <= b <= wb && 0.0 <= c <= wc
    ensures 0.0 <= a + b + c <= wa + wb + wc
  {
  }

  /** A non-negative weight times a score in [0, 1] lies between 0 and the weight. */
  lemma WeightedInRange(weight: real, score: real)
    requires weight >= 0.0 && 0.0 <= score <= 1.0
    ensures 0.0 <= weight * score <= weight
  {
    assert weight * score <= weight * 1.0;
  }
}
