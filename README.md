# TikTok highlight pipeline: the detection engine and its pure helpers

This project models, in Dafny, the part of the TikTok clipping bot that decides *which* parts
of a long video become short vertical clips, and the small helpers around it:

- **Highlight detection** (`pipeline/highlight_detector.py`).
  - The chapter fast path.
  - The keyword-density windows and the audio-energy peaks.
  - The brute-force window scorer over three window lengths in 5-second steps.
  - The greedy selector, which sorts by score (stable, descending) and applies the asymmetric
    50% overlap rule.
  - The boundary snapper and duration clamp.
  - The `find_highlights` entry point with its `NoHighlightsError` outcome.
- **Time formatting and filename sanitising** (`utils/file_utils.py`).
- **Subtitles** (`pipeline/subtitle_styler.py`): the clip word filter and re-offset, grouping into
  lines of four, the two-layer dialogue events, and the highlighted line.
- **Video editing** (`pipeline/video_editor.py`): the 9:16 crop arithmetic, the rotation swap of
  probed dimensions, ASS-path escaping and the FFmpeg argument list.
- **Downloading** (`pipeline/downloader.py`): platform detection and chapter extraction.

Times, scores and weights are exact `real`s. Configuration durations and counts are `int`s, as
`config.py` declares them.

Python's semantics are written out where they matter:
- `//` on non-negative operands, and `int()` truncation towards zero.
- Slices with a negative end.
- `float("inf")` as an absent best distance.
- `zip` truncating to the shorter input.
- `np.median` (the mean of the two middle values of the sorted samples), and `np.min`/`np.max`.
- `list.sort(reverse=True)`, which is stable (modelled as an insertion sort).

Nearly every loop of the source is a `method` with loop invariants, proved equal to a
specification function. The exception is the platform search of `get_platform`, a first-match
scan with an early return, which is the recursive function `Downloader.FirstPlatform`. The
properties are proved as lemmas about those functions.

Modules, one per file:
- `Text`, `Wrappers`, `Seqs`: shared string, option and sequence helpers.
- `Transcript`: the transcriber's `WordSegment`.
- `FileUtils`.
- `Downloader`.
- `VideoEditor`.
- `SubtitleStyler`.
- `HighlightTypes`: the clip, keyword region and configuration values.
- The detector's components:
  - `EnergyPeaks`;
  - `KeywordScoring`;
  - `WindowScoring`;
  - `ClipSelection`;
  - `BoundaryRefinement`;
  - `HighlightDetector`, the entry point.

The audio energy curve and the scene-cut timestamps are inputs to the model; they are produced
by ffmpeg and pydub in the original.

Three behaviours of the code shape what the model proves about it:

- `_select_top_clips` promises "top-scoring non-overlapping clips" (its docstring), and the
  50% overlap rule holds for the selection (`ClipSelection.SelectTopSound`). The refined clips
  are not re-checked against that rule, and refinement moves the edges, so the returned clips
  are not guaranteed to satisfy it.
- The `max_clips` test runs after each candidate, whether or not it was accepted. So
  `max_clips <= 0` still yields one clip (`ClipSelection.NonPositiveMaxStillOne`).
- `find_highlights` refines the selection with `_refine_boundaries` as written, whose anchor
  drifts (see "## Findings"). The entry point models it that way. The corrected refinement is
  modelled and proved beside it, in `BoundaryRefinement.Refine`.

## Model

| member | source | states |
|---|---|---|
| HighlightDetector.FindHighlights | pipeline/highlight_detector.py:142-203 | the result is the chapter clips when the fast path applies, otherwise the signal path's result, as defined by `Detect`, which refines with `_refine_boundaries` as written |
| HighlightDetector.DetectFromSignals | pipeline/highlight_detector.py:173-203 | gathers peaks and keyword regions, scores the windows, then raises `NoHighlights` on an empty pool, otherwise selects and refines with the as-written (drifting) refinement; equal to `SignalDetect` |
| HighlightDetector.ChapterClipsOf | pipeline/highlight_detector.py:158-168 | the chapter loop collects exactly `ChapterClips`, the fitting chapters as clips in input order |
| HighlightDetector.RefineEach | pipeline/highlight_detector.py:200 | the list comprehension refines every selected clip, in order, with `_refine_boundaries` as written (`RefineBoundariesAsWritten`) |
| HighlightDetector.RefineAll | pipeline/highlight_detector.py:200 | refining with the as-written `_refine_boundaries` keeps the number of clips, and each clip's score and reason |
| HighlightDetector.ChapterClipsExact | pipeline/highlight_detector.py:159-168 | a clip is a chapter clip iff it comes from a chapter whose length lies in [min, max]; never more clips than chapters |
| HighlightDetector.ChapterClipShape | pipeline/highlight_detector.py:163-168 | a chapter clip has the chapter's span, score 1.0, and reason "Chapter: " followed by at most the first 40 characters of the title |
| HighlightDetector.FastPathResult | pipeline/highlight_detector.py:158-171 | with chapters given, `max_clips` ≥ 0 and at least `max_clips` fitting chapters, the result is exactly the first `max_clips` of them; each has score 1.0 and a length in bounds, and the list is score-descending |
| HighlightDetector.NoHighlightsIffShort | pipeline/highlight_detector.py:180-196 | `NoHighlightsError` is raised iff the fast path does not apply and the video is shorter than the minimum clip length; the duration is the last word's end, or 120 without words |
| HighlightDetector.PoolNonEmptySelects | pipeline/highlight_detector.py:195-199 | with min ≤ max, a non-empty window pool gives a non-empty selection, for any `max_clips` |
| HighlightDetector.SlowPathSound | pipeline/highlight_detector.py:173-203 | on the signal path, a `Highlights` result holds at least one and at most `max_clips` clips, each of length in [min, max] after the as-written refinement, in descending score order |
| EnergyPeaks.FindEnergyPeaks | pipeline/highlight_detector.py:90-111 | the scan loop returns exactly `EnergyPeaksOf` |
| EnergyPeaks.EnergyPeaksSound | pipeline/highlight_detector.py:95-108 | empty samples or a zero median give no peaks; otherwise every peak is the time of a sample louder than 1.8 × median, there are no peaks iff no sample is that loud, and consecutive peaks are at least `min_gap_s` apart |
| EnergyPeaks.PeakScanSpaced | pipeline/highlight_detector.py:105-108 | the accepted times keep the minimum gap, whatever the order of the input times |
| EnergyPeaks.PeakScanLoud | pipeline/highlight_detector.py:105-108 | every accepted time belongs to a sample above the threshold |
| EnergyPeaks.PeakScanEmpty | pipeline/highlight_detector.py:105-108 | the scan finds nothing iff no sample exceeds the threshold |
| EnergyPeaks.MedianWithinSamples | pipeline/highlight_detector.py:98 | the median lies between the smallest and the largest sample |
| EnergyPeaks.SortAscAscending | pipeline/highlight_detector.py:98 | the sort behind the median is ascending |
| EnergyPeaks.SortAscMultiset | pipeline/highlight_detector.py:98 | the sort behind the median is a permutation of the samples |
| KeywordScoring.ScoreTranscriptKeywords | pipeline/highlight_detector.py:114-139 | the word loop returns exactly `KeywordHits`, one hit per qualifying keyword occurrence in word order |
| KeywordScoring.KeywordHitsCount | pipeline/highlight_detector.py:119-137 | no words or one word give no hits; otherwise there is exactly one hit per keyword word |
| KeywordScoring.KeywordHitsSound | pipeline/highlight_detector.py:119-139 | every hit comes from a keyword word's context window, and its density lies in [0, 1] |
| KeywordScoring.HitsFromKeywords | pipeline/highlight_detector.py:125-137 | every hit among the first n words comes from a keyword at an index below n, with density in [0, 1] |
| KeywordScoring.DensityInUnit | pipeline/highlight_detector.py:132-136 | a window's density, the keyword count over the window length, lies in [0, 1] |
| KeywordScoring.ContextWindowShape | pipeline/highlight_detector.py:128-131 | the slice [max(0, i-5), min(n-1, i+10)) has at most 15 words; it holds word i iff i is not the last word, and it is non-empty iff there are at least two words |
| KeywordScoring.CountKeywords | pipeline/highlight_detector.py:132-135 | the keyword count never exceeds the window length |
| KeywordScoring.NormalizedKeywordTrimmed | pipeline/highlight_detector.py:122 | a configured keyword, once normalised, has no whitespace at either end |
| KeywordScoring.LeadingSpaceKept | pipeline/highlight_detector.py:126 | transcript words are stripped of punctuation only, so a leading space survives |
| KeywordScoring.LeadingSpaceNeverMatches | pipeline/highlight_detector.py:122-126 | a word with a leading space never matches a keyword |
| WindowScoring.ScoreWindows | pipeline/highlight_detector.py:206-274 | the loops over window lengths and positions return exactly `WindowCandidates` |
| WindowScoring.SlideWindow | pipeline/highlight_detector.py:227-272 | the `while pos + window_size <= duration` loop appends exactly the windows of one length |
| WindowScoring.ScoreWindow | pipeline/highlight_detector.py:229-270 | one window's candidate: its span, combined score and reason, as `WindowCandidate` defines them |
| WindowScoring.WindowEnergy | pipeline/highlight_detector.py:232-237 | the mean normalised level of the samples in [pos, end), and 0 with no samples or none inside |
| WindowScoring.KeywordScoreOf | pipeline/highlight_detector.py:240-244 | the region loop gives three times the best density of regions inside the window, capped at 1 |
| WindowScoring.WindowOrder | pipeline/highlight_detector.py:226-228 | the candidates come by length, min then (min+max)//2 then max, each in ascending position |
| WindowScoring.SizeCandidatesLayout | pipeline/highlight_detector.py:227-272 | the k-th window of one length starts at 5k, has that length, and ends by the duration |
| WindowScoring.SizeCandidatesShape | pipeline/highlight_detector.py:227-272 | every window of one length starts at a multiple of 5, at or after 0, ends by the duration, and has that length |
| WindowScoring.CandidateShape | pipeline/highlight_detector.py:226-272 | every candidate starts at 5k ≥ 0, ends by the duration, and has length min, (min+max)//2 or max |
| WindowScoring.SizesCandidatesEmpty | pipeline/highlight_detector.py:226-228 | there are no windows iff every length exceeds the duration |
| WindowScoring.PoolEmptyIffShort | pipeline/highlight_detector.py:226-228 | with min ≤ max, the pool is empty iff the duration is below min |
| WindowScoring.WindowFits | pipeline/highlight_detector.py:228 | the window k steps in fits iff k is below the window count |
| WindowScoring.SamplesInRange | pipeline/highlight_detector.py:222-224 | the range is positive (a flat curve falls back to 1.0) and every sample lies in [min, min + range] |
| WindowScoring.MinMaxBound | pipeline/highlight_detector.py:222-223 | `np.min` and `np.max` bound every sample |
| WindowScoring.MinMaxMember | pipeline/highlight_detector.py:222-223 | `np.min` and `np.max` are samples |
| WindowScoring.InWindowFromSamples | pipeline/highlight_detector.py:233-234 | the masked levels are samples |
| WindowScoring.InWindowEmpty | pipeline/highlight_detector.py:233-234 | the mask selects nothing iff no sample time lies in [pos, end) |
| WindowScoring.NormalizedSumBounds | pipeline/highlight_detector.py:235 | each normalised level lies in [0, 1], so their sum lies in [0, count] |
| WindowScoring.EnergyScoreInUnit | pipeline/highlight_detector.py:232-237 | the energy score lies in [0, 1], and is 0 when no sample falls in the window |
| WindowScoring.FlatCurveScoresZero | pipeline/highlight_detector.py:222-237 | a flat curve uses range 1.0 and scores 0 energy everywhere, with no division by zero |
| WindowScoring.KeywordMaxIsMax | pipeline/highlight_detector.py:240-243 | the running maximum bounds every contained region's density and is 0 or one of them |
| WindowScoring.KeywordScoreInUnit | pipeline/highlight_detector.py:240-244 | the keyword score lies in [0, 1] |
| WindowScoring.ScenesInExact | pipeline/highlight_detector.py:247 | the scene list holds exactly the cuts in [pos, end), never more than all cuts |
| WindowScoring.SceneScoreRange | pipeline/highlight_detector.py:247-248 | the scene score lies in [0, 1], and is 1 iff at least two cuts fall in the window |
| WindowScoring.CombinedRange | pipeline/highlight_detector.py:250-254 | with non-negative weights and unit scores, the combined score lies between 0 and the weight sum |
| WindowScoring.WindowScoreRange | pipeline/highlight_detector.py:229-254 | every window's score lies between 0 and the weight sum |
| WindowScoring.SizeScoreRange | pipeline/highlight_detector.py:227-272 | every window of one length has a score between 0 and the weight sum |
| WindowScoring.CandidateScoreRange | pipeline/highlight_detector.py:226-272 | every candidate's score lies between 0 and the weight sum |
| WindowScoring.ReasonMultiSignal | pipeline/highlight_detector.py:256-263 | the reason is "multi-signal" iff energy ≤ 0.6, keyword ≤ 0.3 and scene ≤ 0.5; otherwise it begins with the first character of the first passing tag |
| WindowScoring.ReasonTagsMembers | pipeline/highlight_detector.py:256-262 | "high energy", "keyword" and "scene change" appear iff energy > 0.6, keyword > 0.3 and scene > 0.5 respectively |
| WindowScoring.ReasonTagsOrdered | pipeline/highlight_detector.py:256-262 | the tags appear at most once each, in the fixed order energy, keyword, scene |
| ClipSelection.SelectTopClips | pipeline/highlight_detector.py:277-301 | filter, stable sort and greedy pass return exactly `SelectTop` |
| ClipSelection.GreedyPass | pipeline/highlight_detector.py:284-299 | the candidate loop with its count break returns exactly `Greedy` from an empty selection |
| ClipSelection.ConsiderClip | pipeline/highlight_detector.py:286-297 | a candidate is appended iff it overlaps no earlier pick by more than half its own length |
| ClipSelection.Overlaps | pipeline/highlight_detector.py:286-295 | the inner loop reports an overlap iff some picked clip overlaps the candidate by more than half the candidate's length |
| ClipSelection.ValidClipsExact | pipeline/highlight_detector.py:281 | the filter keeps exactly the candidates whose length lies in [min, max] |
| ClipSelection.SortByScoreDescending | pipeline/highlight_detector.py:282 | the sort orders by score, highest first |
| ClipSelection.SortByScorePermutation | pipeline/highlight_detector.py:282 | the sort is a permutation of its input |
| ClipSelection.SortByScoreStable | pipeline/highlight_detector.py:282 | clips with equal score keep their input order |
| ClipSelection.SelectTopSound | pipeline/highlight_detector.py:277-301 | the output is a subsequence of the sorted valid clips; each pick overlaps every earlier pick by at most half its own length; at most max(max_clips, 1) clips |
| ClipSelection.SelectTopDescending | pipeline/highlight_detector.py:282-301 | the output is in descending score order |
| ClipSelection.SelectTopMaximal | pipeline/highlight_detector.py:281-301 | below `max_clips` picks, every valid candidate was picked or overlaps a pick too much |
| ClipSelection.SelectTopBestFirst | pipeline/highlight_detector.py:281-297 | when any candidate is valid, the first pick has the highest valid score |
| ClipSelection.NonPositiveMaxStillOne | pipeline/highlight_detector.py:296-299 | with `max_clips` ≤ 0 and a valid candidate, exactly one clip comes back |
| ClipSelection.GreedySound | pipeline/highlight_detector.py:284-299 | from any partial selection that is separated, the pass keeps the subsequence, separation and count bounds |
| ClipSelection.ConsiderSeparated | pipeline/highlight_detector.py:287-297 | one acceptance step keeps the overlap rule among picks |
| ClipSelection.GreedyMaximal | pipeline/highlight_detector.py:285-299 | a pass that stops below the count leaves no acceptable candidate behind |
| ClipSelection.GreedyExtends | pipeline/highlight_detector.py:296-297 | picks are only ever appended |
| ClipSelection.RankedHoldsValid | pipeline/highlight_detector.py:281-282 | every in-bounds candidate reaches the sorted list |
| BoundaryRefinement.RefineBoundaries | pipeline/highlight_detector.py:304-338 | the two scan loops and the clamp compute `Refine`, snapping against the clip's own edges |
| BoundaryRefinement.RefineBoundariesAsWritten | pipeline/highlight_detector.py:304-338 | the loops as written compute `RefineAsWritten`, measuring each distance from the already-moved edge |
| BoundaryRefinement.RefineSnapsToNearest | pipeline/highlight_detector.py:308-321 | score and reason are kept and no words leave the clip unchanged; the start stays when no word start is within 2 s, else becomes the nearest one, first minimum winning |
| BoundaryRefinement.RefineEndSnapsToNearest | pipeline/highlight_detector.py:324-329 | the end stays when no word end is within 2 s, else becomes the nearest one, first minimum winning |
| BoundaryRefinement.SnapFixedNearest | pipeline/highlight_detector.py:316-321 | the scan finds nothing iff no target is within 2 s; otherwise it returns the first target at the smallest distance |
| BoundaryRefinement.SnapFixedKeepsAligned | pipeline/highlight_detector.py:316-321 | an edge that already equals a target stays put |
| BoundaryRefinement.ClampInBounds | pipeline/highlight_detector.py:331-336 | with min ≤ max, the clamped length lies in [min, max], and an in-bounds end is untouched |
| BoundaryRefinement.RefineDurationInBounds | pipeline/highlight_detector.py:331-338 | with words and min ≤ max, the refined length lies in [min, max] |
| BoundaryRefinement.RefineKeepsAligned | pipeline/highlight_detector.py:312-338 | a clip whose edges equal a word start and a word end and whose length is in bounds comes back unchanged |
| BoundaryRefinement.RefineAsWrittenKeepsScore | pipeline/highlight_detector.py:304-338 | the code as written keeps score and reason, and clamps the length into [min, max] |
| BoundaryRefinement.DriftBeyondTolerance | pipeline/highlight_detector.py:316-321 | on clip 10..40 with word starts 11.5 and 12.5, the code as written moves the start to 12.5, 2.5 s away; the corrected snap picks 11.5 |
| BoundaryRefinement.DriftMovesAlignedClip | pipeline/highlight_detector.py:316-321 | on a clip starting at a word start (10.0, with an earlier word at 9.0), the code as written moves it to 9.0; the corrected snap leaves it |
| FileUtils.AssTimeReadsBack | utils/file_utils.py:21-29 | "H:MM:SS.CC": hours, minutes and seconds read back to floor(seconds), and the two-digit centiseconds to the floor of the fraction × 100 |
| FileUtils.FfmpegTimeReadsBack | utils/file_utils.py:32-40 | "HH:MM:SS.mmm": the fields read back to floor(seconds) and the fraction's milliseconds |
| FileUtils.DurationReadsBack | utils/file_utils.py:62-71 | below an hour "M:SS", from an hour on "H:MM:SS"; the fields read back to floor(seconds) |
| FileUtils.DurationHoursReadsBack | utils/file_utils.py:69-70 | with h > 0, the text is "H:MM:SS" and reads back to floor(seconds) |
| FileUtils.DurationMinutesReadsBack | utils/file_utils.py:71 | with h = 0, the text is "M:SS" and reads back to floor(seconds) |
| FileUtils.ClockRecomposes | utils/file_utils.py:24-28 | h·3600 + m·60 + s is the truncated seconds, with m and s in [0, 59] and h ≥ 0 for non-negative input |
| FileUtils.Centis | utils/file_utils.py:23 | the centiseconds lie in [0, 99] |
| FileUtils.Millis | utils/file_utils.py:34 | the milliseconds lie in [0, 999] |
| FileUtils.Trunc | utils/file_utils.py:24 | `int()` truncates towards zero: the floor for non-negative input, and always within 1 of the input |
| FileUtils.RemoveUnsafe | utils/file_utils.py:57 | the substitution removes every character of `<>:"/\|?*` and 0x00–0x1F, and never lengthens |
| FileUtils.SanitizedHasNoUnsafeChar | utils/file_utils.py:55-59 | the sanitised name contains no unsafe character |
| FileUtils.SanitizedStartsClean | utils/file_utils.py:58-59 | the sanitised name does not start with '.' or ' ' |
| FileUtils.SanitizedLength | utils/file_utils.py:59 | an empty cleaned name gives "video"; otherwise the result is a prefix of the cleaned name, of length at most `max_len` when `max_len` ≥ 0 (a cleaned name "video" also gives "video", so the converse does not hold) |
| FileUtils.TruncationCanLeaveTrailingSpace | utils/file_utils.py:58-59 | stripping happens before truncation, so "ab c" with `max_len` 3 gives "ab " |
| SubtitleStyler.FilterClipWords | pipeline/subtitle_styler.py:66-76 | the filter loop returns exactly `ClipWords` |
| SubtitleStyler.ClipWordsSound | pipeline/subtitle_styler.py:67-76 | every kept word is an input word with start ≥ clip start and end ≤ clip end + 0.5, shifted by −clip start with text and probability kept; kept starts are ≥ 0 |
| SubtitleStyler.ClipWordsComplete | pipeline/subtitle_styler.py:68-76 | an input word is kept (shifted) iff it lies in the clip window |
| SubtitleStyler.GroupWordsIntoLines | pipeline/subtitle_styler.py:99-104 | a positive step gives `LineGroups`; a negative step gives an empty range |
| SubtitleStyler.LineGroupsFlatten | pipeline/subtitle_styler.py:99-104 | concatenating the groups gives back the words |
| SubtitleStyler.LineGroupsSizes | pipeline/subtitle_styler.py:101-104 | every group is non-empty with at most `words_per_line` words, and every group but the last has exactly that many |
| SubtitleStyler.LineGroupsCount | pipeline/subtitle_styler.py:102 | there are ceil(n / words_per_line) groups |
| SubtitleStyler.BuildHighlightedLine | pipeline/subtitle_styler.py:149-163 | the parts loop returns exactly `HighlightedLine` |
| SubtitleStyler.HighlightWrapsOneWord | pipeline/subtitle_styler.py:149-163 | the highlighted line is the layer-0 full text with only the chosen word wrapped in the highlight and primary colour tags; removing the tags gives back the full text |
| SubtitleStyler.HighlightOutOfRange | pipeline/subtitle_styler.py:157-163 | an index outside the group highlights nothing and gives the full text |
| SubtitleStyler.TaggedAround | pipeline/subtitle_styler.py:156-162 | only part i is wrapped; the other words are the stripped texts unchanged |
| SubtitleStyler.BuildDialogueLines | pipeline/subtitle_styler.py:107-146 | the loops return the rendered `DialogueEvents`, one layer-0 event per group followed by one layer-1 event per word |
| SubtitleStyler.BuildGroupLines | pipeline/subtitle_styler.py:120-144 | one group renders to its line event then its word events |
| SubtitleStyler.LineEventLine | pipeline/subtitle_styler.py:124-132 | the layer-0 line renders the group's line event |
| SubtitleStyler.WordEventLine | pipeline/subtitle_styler.py:135-144 | the i-th layer-1 line renders the group's (i+1)-th event |
| SubtitleStyler.DialogueCount | pipeline/subtitle_styler.py:114-146 | for non-empty words, the number of dialogue lines is the number of groups plus the number of words |
| SubtitleStyler.AllEventsCount | pipeline/subtitle_styler.py:120-144 | non-empty groups give one event per group plus one per word |
| SubtitleStyler.EventsAt | pipeline/subtitle_styler.py:120-144 | group j's events sit, in order, at that group's offset in the whole list |
| SubtitleStyler.LineEventAt | pipeline/subtitle_styler.py:124-132 | each group's layer-0 event comes first, spans first-word start to last-word end + 0.3, and shows the full text |
| SubtitleStyler.WordEventAt | pipeline/subtitle_styler.py:135-144 | the i-th word's layer-1 event follows, in word order, and spans word start to word end + 0.05 with that word highlighted |
| SubtitleStyler.GenerateAssEvents | pipeline/subtitle_styler.py:66-93 | the event part of the file is the dialogue lines of the filtered, re-offset words, joined by newlines, with a final newline |
| VideoEditor.CropCoversTarget | pipeline/video_editor.py:74-88 | for positive sizes, the side matching the target is the height when the source is wider than 9:16, else the width; the scaled frame covers the target, the crop offsets are non-negative, and the crop is centred to within one pixel |
| VideoEditor.RotationSwapsExactly | pipeline/video_editor.py:45-61 | the effective tag is `rotate` when present, else `Rotate`, else 0; width and height swap exactly when it is ±90 or ±270; a failed or empty probe, or an unreadable effective tag, falls back to 1280×720 |
| VideoEditor.EscapeRoundTrip | pipeline/video_editor.py:111 | undoing the colon escapes gives the path with every '\' replaced by '/' |
| VideoEditor.EscapedPathIsClean | pipeline/video_editor.py:111 | in the escaped path every backslash is followed by ':' and every ':' is preceded by a backslash |
| VideoEditor.ArgsLayout | pipeline/video_editor.py:115-129 | "-ss" and "-to" carry the times before "-i" and the input, the filter follows "-vf", and the output path is the last of the 23 arguments |
| VideoEditor.CrfReadsBack | pipeline/video_editor.py:124 | the crf argument is digits that read back to the crf value |
| VideoEditor.SeekBeforeInput | pipeline/video_editor.py:115-120 | no "-i" occurs before the seek options have been given (fast seek) |
| VideoEditor.CommandLayout | pipeline/video_editor.py:93-130 | for positive probed sizes, the command is built, and its filter is `calculate_crop_filter` of the probed width and height for 1080×1920, followed by the escaped subtitle path |
| Downloader.GetPlatform | pipeline/downloader.py:28-46 | the result is one of the table's names or "Unknown" |
| Downloader.FirstPlatform | pipeline/downloader.py:43-46 | the name of the first domain, in table order, that occurs in the URL, or "Unknown" when none does |
| Downloader.PlatformNameIsKnown | pipeline/downloader.py:31-46 | the result is one of the nine names |
| Downloader.ExtractChapters | pipeline/downloader.py:49-62 | the loop returns exactly `KeptChapters` of the (possibly missing) chapter list; a chapter is emitted iff it is a defaulted entry that ends after it starts |
| Downloader.Defaulted | pipeline/downloader.py:54-58 | each raw chapter maps to one chapter, with missing times read as 0 and a missing title as "" |
| Downloader.KeptChaptersExact | pipeline/downloader.py:53-61 | every entry whose end lies after its start is kept, and a chapter is kept iff it is a defaulted entry with end > start |
| Downloader.KeptChaptersSpans | pipeline/downloader.py:56-61 | every kept chapter has end > start |
| Downloader.KeptChaptersInOrder | pipeline/downloader.py:53-61 | the kept chapters are a subsequence of the input, in order |
| Downloader.KeptChaptersCount | pipeline/downloader.py:51-62 | never more chapters than given, and as many iff every chapter has a positive span |
| Text.PySliceTo | pipeline/highlight_detector.py:167 | Python's `s[:k]`: a prefix of s, of length k when 0 ≤ k ≤ len(s) |

## Left out

- Audio energy (`compute_audio_energy`) and scene detection (`detect_scene_changes`): these are pydub decoding and ffmpeg subprocesses. Their `(times, rms)` and timestamp outputs are parameters of the model.
- The ffprobe call in `get_video_dimensions`: its parsed answer is a parameter, with None for a failed, timed-out or unparsable probe.
- `process_clip`, `process_all_clips`, `probe_video`, `download_video` and `_find_file`: these are subprocess, network and filesystem work.
- `setup_logging`, `temp_working_dir`, `check_disk_space` and `get_file_size_mb`: filesystem and logging only.
- The ASS header template and the file write in `generate_ass_file`. `SubtitleStyler.GenerateAssEvents` models the dialogue part of the content.
- Whisper transcription (pipeline/transcriber.py), the Telegram bot (bot.py), configuration loading from the environment (config.py), and setup_bot_profile.py.
- Logging calls throughout.
- IEEE floating point: times, scores and weights are exact reals, so rounding effects in `int((seconds % 1) * 100)`, in the RMS normalisation and in `0.5 * candidate_dur` are not modelled.
- `str.lower()` is modelled on ASCII letters only; Unicode case mapping is not modelled.
- The energy peaks are computed and then, as in the source, never read by the window scorer. `WindowScoring.ScoreWindows` takes them and ignores them.
- `requires |times| == |rms|`: in the source both arrays come from the same framing loop. Numpy's boolean mask in the window scorer fails on unequal lengths.
- SubtitleStyler.GroupWordsIntoLines: a step of 0 raises ValueError in `range`, and the model requires a non-zero step instead of modelling the exception. The source always passes 4.
- VideoEditor.CalculateCropFilter: the filter text is stated by its definition (`scale=W:H,crop=TW:TH:X:Y` from the proved crop numbers). Reading the text back into numbers is not proved.
- HighlightDetector.SlowPathSound: the overlap rule is proved for the selection (`ClipSelection.SelectTopSound`), not for the refined clips. Refinement moves the edges and the source does not re-check overlaps.
- EnergyPeaks.PeakScanSpaced: the spacing is proved between consecutive accepted peaks whatever the order of the times. With ascending times it is the source's minimum gap.

## Findings

| source | as written | input that shows it | evidently intended | confidence | as-written member | corrected member |
|---|---|---|---|---|---|---|
| pipeline/highlight_detector.py:316-329 | each word's distance is measured from `start`/`end`, which the loop has already moved to earlier matches, so the edge can drift more than 2 s from the clip's edge, and a clip already on a word start can move | clip 10..40 with word starts 11.5 and 12.5: the start moves to 11.5, then 12.5 is 1.0 from it and wins, ending 2.5 s from 10 | measure each distance from `clip.start`/`clip.end` and take the nearest word edge within 2 s, as the docstring and the `best_*_diff` bookkeeping suggest | not executed | BoundaryRefinement.RefineAsWritten (BoundaryRefinement.DriftBeyondTolerance, BoundaryRefinement.DriftMovesAlignedClip) | BoundaryRefinement.Refine (BoundaryRefinement.RefineSnapsToNearest, BoundaryRefinement.RefineKeepsAligned) |
