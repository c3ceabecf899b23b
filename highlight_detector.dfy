/**
  * The highlight engine's entry point (`find_highlights`): chapters, when there are enough that
  * fit the length bounds, are used directly; otherwise the signals are gathered, every window is
  * scored, and the best non-overlapping windows are chosen and snapped to word boundaries.
  *
  * The audio energy curve (`compute_audio_energy`) and the scene-change times
  * (`detect_scene_changes`) come in as parameters.
  */
module HighlightDetector {
  import opened Wrappers
  import opened Text
  import opened Transcript
  import opened HighlightTypes
  import opened Downloader
  import EnergyPeaks
  import KeywordScoring
  import WindowScoring
  import ClipSelection
  import BoundaryRefinement

  /** The outcome of `find_highlights`: the clips, or `NoHighlightsError` with its user message. */
  datatype Detection = Highlights(clips: seq<ClipCandidate>) | NoHighlights(userMessage: string)

  const NoHighlightsMessage := "Could not detect any highlights. Try a longer video or different content."

  /** The video length used when there is no transcript. */
  const DefaultDuration: real := 120.0

  // ---- Chapter fast path ----

  predicate ChapterFits(ch: Chapter, minDur: int, maxDur: int)
  {
    minDur as real <= ch.endTime - ch.startTime <= maxDur as real
  }

  /** A chapter as a clip: full score, and the first 40 characters of its title as the reason. */
  function ChapterClip(ch: Chapter): ClipCandidate
  {
    ClipCandidate(ch.startTime, ch.endTime, 1.0, "Chapter: " + PySliceTo(ch.title, 40))
  }

  /** The clips of the chapters that fit the bounds, in chapter order. */
  function ChapterClips(chapters: seq<Chapter>, minDur: int, maxDur: int): seq<ClipCandidate>
  {
    if chapters == [] then []
    else
      var ch := chapters[|chapters| - 1];
      ChapterClips(chapters[..|chapters| - 1], minDur, maxDur) + (if ChapterFits(ch, minDur, maxDur) then [ChapterClip(ch)] else [])
  }

  /** The chapter loop of `find_highlights`. */
  method ChapterClipsOf(chapters: seq<Chapter>, minDur: int, maxDur: int) returns (chapterClips: seq<ClipCandidate>)
    ensures chapterClips == ChapterClips(chapters, minDur, maxDur)
  {
    chapterClips := [];
    var i := 0;
    while i < |chapters|
      invariant 0 <= i <= |chapters|
      invariant chapterClips == ChapterClips(chapters[..i], minDur, maxDur)
    {
      var ch := chapters[i];
      assert chapters[..i + 1][..i] == chapters[..i];
      var dur := ch.endTime - ch.startTime;
      if minDur as real <= dur <= maxDur as real {
        chapterClips := chapterClips + [ChapterClip(ch)];
      }
      i := i + 1;
    }
    assert chapters[..i] == chapters;
  }

  /** The fast path's early result, if it applies. */
  function FastPath(chapters: seq<Chapter>, minDur: int, maxDur: int, maxClips: int): Option<seq<ClipCandidate>>
  {
    if chapters == [] then None
    else
      var clips := ChapterClips(chapters, minDur, maxDur);
      if |clips| >= maxClips then Some(PySliceTo(clips, maxClips)) else None
  }

  // ---- The full pipeline ----

  /** `words[-1].end if words else 120.0`. */
  function VideoDuration(words: seq<WordSegment>): real
  {
    if words == [] then DefaultDuration else words[|words| - 1].end
  }

  /**
    * Every chosen clip refined against the transcript by `_refine_boundaries` as the source
    * runs it, with the drifting anchor.
    */
  function RefineAll(selected: seq<ClipCandidate>, words: seq<WordSegment>, minDur: int, maxDur: int): (r: seq<ClipCandidate>)
    ensures |r| == |selected|
    ensures forall i :: 0 <= i < |r| ==> r[i].score == selected[i].score && r[i].reason == selected[i].reason
  {
    seq(|selected|, i requires 0 <= i < |selected| => BoundaryRefinement.RefineAsWritten(selected[i], words, minDur, maxDur))
  }

  /** The window pool for the slow path. */
  function Pool(words: seq<WordSegment>, times: seq<real>, rms: seq<real>, sceneChanges: seq<real>, config: DetectorConfig): seq<ClipCandidate>
    requires |times| == |rms|
  {
    var regions := KeywordScoring.KeywordHits(words, config.tiktokKeywords);
    WindowScoring.WindowCandidates(WindowScoring.Signals(regions, sceneChanges, times, rms), config,
                                   VideoDuration(words), config.clipMinDuration, config.clipMaxDuration)
  }

  /** The result of `find_highlights` once the chapter fast path has not applied. */
  function SignalDetect(words: seq<WordSegment>, times: seq<real>, rms: seq<real>,
                        sceneChanges: seq<real>, config: DetectorConfig): Detection
    requires |times| == |rms|
  {
    var candidates := Pool(words, times, rms, sceneChanges, config);
    if candidates == [] then NoHighlights(NoHighlightsMessage)
    else
      var minDur, maxDur := config.clipMinDuration, config.clipMaxDuration;
      Highlights(RefineAll(ClipSelection.SelectTop(candidates, config.maxClipsPerVideo, minDur, maxDur), words, minDur, maxDur))
  }

  /** The result of `find_highlights`. */
  function Detect(words: seq<WordSegment>, chapters: seq<Chapter>, times: seq<real>, rms: seq<real>,
                  sceneChanges: seq<real>, config: DetectorConfig): Detection
    requires |times| == |rms|
  {
    var fast := FastPath(chapters, config.clipMinDuration, config.clipMaxDuration, config.maxClipsPerVideo);
    if fast.Some? then Highlights(fast.value) else SignalDetect(words, times, rms, sceneChanges, config)
  }

  /** `find_highlights`, with the energy curve and the scene-change times given. */
  method FindHighlights(words: seq<WordSegment>, chapters: seq<Chapter>, times: seq<real>, rms: seq<real>,
                        sceneChanges: seq<real>, config: DetectorConfig)
    returns (result: Detection)
    requires |times| == |rms|
    ensures result == Detect(words, chapters, times, rms, sceneChanges, config)
  {
    var minDur := config.clipMinDuration;
    var maxDur := config.clipMaxDuration;
    var maxClips := config.maxClipsPerVideo;

    if |chapters| > 0 {
      var chapterClips := ChapterClipsOf(chapters, minDur, maxDur);
      if |chapterClips| >= maxClips {
        return Highlights(PySliceTo(chapterClips, maxClips));
      }
    }
    result := DetectFromSignals(words, times, rms, sceneChanges, config);
  }

  /** The part of `find_highlights` after the chapter fast path. */
  method DetectFromSignals(words: seq<WordSegment>, times: seq<real>, rms: seq<real>,
                           sceneChanges: seq<real>, config: DetectorConfig)
    returns (result: Detection)
    requires |times| == |rms|
    ensures result == SignalDetect(words, times, rms, sceneChanges, config)
  {
    var minDur := config.clipMinDuration;
    var maxDur := config.clipMaxDuration;
    var energyPeaks := EnergyPeaks.FindEnergyPeaks(times, rms, maxDur as real * 0.5);
    var keywordRegions := KeywordScoring.ScoreTranscriptKeywords(words, config.tiktokKeywords);
    var videoDuration := if |words| > 0 then words[|words| - 1].end else DefaultDuration;
    var candidates := WindowScoring.ScoreWindows(videoDuration, energyPeaks, keywordRegions, sceneChanges,
                                                 times, rms, minDur, maxDur, config);
    if |candidates| == 0 {
      return NoHighlights(NoHighlightsMessage);
    }
    var selected := ClipSelection.SelectTopClips(candidates, config.maxClipsPerVideo, minDur, maxDur);
    var refined := RefineEach(selected, words, minDur, maxDur);
    return Highlights(refined);
  }

  /** `[_refine_boundaries(c, words) for c in selected]`. */
  method RefineEach(selected: seq<ClipCandidate>, words: seq<WordSegment>, minDur: int, maxDur: int)
    returns (refined: seq<ClipCandidate>)
    ensures refined == RefineAll(selected, words, minDur, maxDur)
  {
    refined := [];
    var i := 0;
    while i < |selected|
      invariant 0 <= i <= |selected|
      invariant refined == RefineAll(selected, words, minDur, maxDur)[..i]
    {
      var clip := BoundaryRefinement.RefineBoundariesAsWritten(selected[i], words, minDur, maxDur);
      refined := refined + [clip];
      i := i + 1;
    }
  }

  // ---- Properties ----

  /**
    * The chapter clips are exactly the clips of the chapters that fit the bounds, and there are
    * no more of them than chapters.
    */
  lemma {:induction false} ChapterClipsExact(chapters: seq<Chapter>, minDur: int, maxDur: int)
    ensures forall c :: c in ChapterClips(chapters, minDur, maxDur) <==>
      exists ch :: ch in chapters && ChapterFits(ch, minDur, maxDur) && c == ChapterClip(ch)
    ensures |ChapterClips(chapters, minDur, maxDur)| <= |chapters|
  {
    if chapters != [] {
      var init := chapters[..|chapters| - 1];
      ChapterClipsExact(init, minDur, maxDur);
      assert chapters == init + [chapters[|chapters| - 1]];
    }
  }

  /** A chapter clip has score 1.0, the chapter's span, and a reason of at most 49 characters. */
  lemma ChapterClipShape(ch: Chapter)
    ensures var c := ChapterClip(ch);
      c.score == 1.0 && c.start == ch.startTime && c.end == ch.endTime
      && c.reason[..9] == "Chapter: " && |c.reason| <= 49
      && c.reason[9..] == ch.title[..|c.reason| - 9]
  {
  }

  /**
    * When at least `max_clips` (>= 0) chapters fit, the result is the first `max_clips` chapter
    * clips in chapter order, each with score 1.0 and a length within the bounds (so, trivially,
    * in descending score order).
    */
  lemma FastPathResult(words: seq<WordSegment>, chapters: seq<Chapter>, times: seq<real>, rms: seq<real>,
                       sceneChanges: seq<real>, config: DetectorConfig)
    requires |times| == |rms| && chapters != [] && config.maxClipsPerVideo >= 0
    requires |ChapterClips(chapters, config.clipMinDuration, config.clipMaxDuration)| >= config.maxClipsPerVideo
    ensures var all := ChapterClips(chapters, config.clipMinDuration, config.clipMaxDuration);
      var d := Detect(words, chapters, times, rms, sceneChanges, config);
      d == Highlights(all[..config.maxClipsPerVideo])
      && |d.clips| == config.maxClipsPerVideo
      && ClipSelection.ScoresDescending(d.clips)
      && forall c :: c in d.clips ==>
           c.score == 1.0 && config.clipMinDuration as real <= Duration(c) <= config.clipMaxDuration as real
  {
    var all := ChapterClips(chapters, config.clipMinDuration, config.clipMaxDuration);
    ChapterClipsExact(chapters, config.clipMinDuration, config.clipMaxDuration);
    forall c | c in all[..config.maxClipsPerVideo]
      ensures c.score == 1.0 && config.clipMinDuration as real <= Duration(c) <= config.clipMaxDuration as real
    {
      assert c in all;
    }
  }

  /**
    * With `min <= max`, `NoHighlightsError` is raised exactly when the fast path does not apply
    * and the video (the last word's end, or 120 seconds without words) is shorter than `min`.
    */
  lemma NoHighlightsIffShort(words: seq<WordSegment>, chapters: seq<Chapter>, times: seq<real>, rms: seq<real>,
                             sceneChanges: seq<real>, config: DetectorConfig)
    requires |times| == |rms| && config.clipMinDuration <= config.clipMaxDuration
    ensures Detect(words, chapters, times, rms, sceneChanges, config).NoHighlights? <==>
      FastPath(chapters, config.clipMinDuration, config.clipMaxDuration, config.maxClipsPerVideo).None?
      && VideoDuration(words) < config.clipMinDuration as real
  {
    var regions := KeywordScoring.KeywordHits(words, config.tiktokKeywords);
    WindowScoring.PoolEmptyIffShort(WindowScoring.Signals(regions, sceneChanges, times, rms), config,
                                    VideoDuration(words), config.clipMinDuration, config.clipMaxDuration);
  }

  /** With `min <= max`, a non-empty window pool leaves the selection non-empty, whatever `max_clips` is. */
  lemma PoolNonEmptySelects(words: seq<WordSegment>, times: seq<real>, rms: seq<real>,
                            sceneChanges: seq<real>, config: DetectorConfig)
    requires |times| == |rms| && config.clipMinDuration <= config.clipMaxDuration
    requires Pool(words, times, rms, sceneChanges, config) != []
    ensures ClipSelection.SelectTop(Pool(words, times, rms, sceneChanges, config), config.maxClipsPerVideo,
                                    config.clipMinDuration, config.clipMaxDuration) != []
  {
    var minDur, maxDur := config.clipMinDuration, config.clipMaxDuration;
    var regions := KeywordScoring.KeywordHits(words, config.tiktokKeywords);
    var signals := WindowScoring.Signals(regions, sceneChanges, times, rms);
    var candidates := Pool(words, times, rms, sceneChanges, config);
    WindowScoring.CandidateShape(signals, config, VideoDuration(words), minDur, maxDur);
    assert candidates[0] in candidates;
    assert ClipSelection.InBounds(candidates[0], minDur, maxDur);
    ClipSelection.ValidClipsExact(candidates, minDur, maxDur);
    ClipSelection.SelectTopBestFirst(candidates, config.maxClipsPerVideo, minDur, maxDur);
  }

  /**
    * Off the fast path, with `min <= max` and `max_clips >= 1`: at least one and at most
    * `max_clips` clips, each with a length within the bounds, in descending score order.
    */
  lemma SlowPathSound(words: seq<WordSegment>, chapters: seq<Chapter>, times: seq<real>, rms: seq<real>,
                      sceneChanges: seq<real>, config: DetectorConfig)
    requires |times| == |rms| && config.clipMinDuration <= config.clipMaxDuration && config.maxClipsPerVideo >= 1
    requires FastPath(chapters, config.clipMinDuration, config.clipMaxDuration, config.maxClipsPerVideo).None?
    ensures var d := Detect(words, chapters, times, rms, sceneChanges, config);
      d.Highlights? ==>
        1 <= |d.clips| <= config.maxClipsPerVideo
        && (forall c :: c in d.clips ==> config.clipMinDuration as real <= Duration(c) <= config.clipMaxDuration as real)
        && ClipSelection.ScoresDescending(d.clips)
  {
    var minDur, maxDur, maxClips := config.clipMinDuration, config.clipMaxDuration, config.maxClipsPerVideo;
    var candidates := Pool(words, times, rms, sceneChanges, config);
    var selected := ClipSelection.SelectTop(candidates, maxClips, minDur, maxDur);
    var refined := RefineAll(selected, words, minDur, maxDur);
    ClipSelection.SelectTopSound(candidates, maxClips, minDur, maxDur);
    ClipSelection.SelectTopDescending(candidates, maxClips, minDur, maxDur);
    if candidates != [] {
      PoolNonEmptySelects(words, times, rms, sceneChanges, config);
    }
    forall i | 0 <= i < |refined|
      ensures minDur as real <= Duration(refined[i]) <= maxDur as real
      ensures refined[i].score == selected[i].score
    {
      BoundaryRefinement.RefineAsWrittenKeepsScore(selected[i], words, minDur, maxDur);
      if words == [] {
        assert selected[i] in selected;
      }
    }
    assert ClipSelection.ScoresDescending(refined);
  }
}
