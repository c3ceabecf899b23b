/**
  * Boundary refinement (`_refine_boundaries`): a clip's start is snapped to a nearby word start
  * and its end to a nearby word end (within 2 seconds), and the end is then moved so that the
  * length lies within the configured bounds.
  *
  * The source compares each word against the start (and end) as already snapped by earlier
  * words, so the anchor drifts. `RefineAsWritten` models that, and the engine's entry point uses
  * it. `Refine` measures every word against the clip's own edges, which is what snapping to the
  * nearest word boundary within 2 seconds means.
  */
module BoundaryRefinement {
  import opened Wrappers
  import opened Transcript
  import opened HighlightTypes

  /** How far a word edge may lie from the clip edge to be snapped to. */
  const Tolerance: real := 2.0

  function Abs(x: real): real
  {
    if x < 0.0 then -x else x
  }

  /** `diff < best`, where `None` stands for `float("inf")`. */
  predicate Below(diff: real, best: Option<real>)
  {
    best.None? || diff < best.value
  }

  /** The snapped edge so far and the smallest distance accepted so far (`None` while infinite). */
  datatype Snap = Snap(edge: real, best: Option<real>)

  function Starts(words: seq<WordSegment>): (r: seq<real>)
    ensures |r| == |words| && forall i :: 0 <= i < |words| ==> r[i] == words[i].start
  {
    seq(|words|, i requires 0 <= i < |words| => words[i].start)
  }

  function Ends(words: seq<WordSegment>): (r: seq<real>)
    ensures |r| == |words| && forall i :: 0 <= i < |words| ==> r[i] == words[i].end
  {
    seq(|words|, i requires 0 <= i < |words| => words[i].end)
  }

  /** The scan as written: each target is measured against the edge as snapped so far. */
  function SnapDrifting(targets: seq<real>, initial: real, n: nat): Snap
    requires n <= |targets|
  {
    if n == 0 then Snap(initial, None)
    else
      var prior := SnapDrifting(targets, initial, n - 1);
      var diff := Abs(targets[n - 1] - prior.edge);
      if Below(diff, prior.best) && diff <= Tolerance then Snap(targets[n - 1], Some(diff)) else prior
  }

  /** The intended scan: each target is measured against the clip's own edge `anchor`. */
  function SnapFixed(targets: seq<real>, anchor: real, n: nat): Snap
    requires n <= |targets|
  {
    if n == 0 then Snap(anchor, None)
    else
      var prior := SnapFixed(targets, anchor, n - 1);
      var diff := Abs(targets[n - 1] - anchor);
      if Below(diff, prior.best) && diff <= Tolerance then Snap(targets[n - 1], Some(diff)) else prior
  }

  /** Enforce the duration bounds by moving the end. */
  function Clamp(start: real, end: real, minDur: int, maxDur: int): real
  {
    var dur := end - start;
    if dur < minDur as real then start + minDur as real
    else if dur > maxDur as real then start + maxDur as real
    else end
  }

  /** `_refine_boundaries` as written, with the drifting anchor. */
  function RefineAsWritten(clip: ClipCandidate, words: seq<WordSegment>, minDur: int, maxDur: int): ClipCandidate
  {
    if words == [] then clip
    else
      var start := SnapDrifting(Starts(words), clip.start, |words|).edge;
      var end := SnapDrifting(Ends(words), clip.end, |words|).edge;
      ClipCandidate(start, Clamp(start, end, minDur, maxDur), clip.score, clip.reason)
  }

  /** `_refine_boundaries` as intended: each edge snaps to the nearest word edge within 2 seconds. */
  function Refine(clip: ClipCandidate, words: seq<WordSegment>, minDur: int, maxDur: int): ClipCandidate
  {
    if words == [] then clip
    else
      var start := SnapFixed(Starts(words), clip.start, |words|).edge;
      var end := SnapFixed(Ends(words), clip.end, |words|).edge;
      ClipCandidate(start, Clamp(start, end, minDur, maxDur), clip.score, clip.reason)
  }

  /** `_refine_boundaries` exactly as the source's loops run. */
  method RefineBoundariesAsWritten(clip: ClipCandidate, words: seq<WordSegment>, minDur: int, maxDur: int)
    returns (refined: ClipCandidate)
    ensures refined == RefineAsWritten(clip, words, minDur, maxDur)
  {
    if |words| == 0 {
      return clip;
    }
    var start := clip.start;
    var end := clip.end;
    var bestStartDiff: Option<real> := None;
    var i := 0;
    while i < |words|
      invariant 0 <= i <= |words|
      invariant Snap(start, bestStartDiff) == SnapDrifting(Starts(words), clip.start, i)
    {
      var diff := Abs(words[i].start - start);
      if Below(diff, bestStartDiff) && diff <= Tolerance {
        bestStartDiff := Some(diff);
        start := words[i].start;
      }
      i := i + 1;
    }
    var bestEndDiff: Option<real> := None;
    i := 0;
    while i < |words|
      invariant 0 <= i <= |words|
      invariant Snap(end, bestEndDiff) == SnapDrifting(Ends(words), clip.end, i)
    {
      var diff := Abs(words[i].end - end);
      if Below(diff, bestEndDiff) && diff <= Tolerance {
        bestEndDiff := Some(diff);
        end := words[i].end;
      }
      i := i + 1;
    }
    var dur := end - start;
    if dur < minDur as real {
      end := start + minDur as real;
    } else if dur > maxDur as real {
      end := start + maxDur as real;
    }
    refined := ClipCandidate(start, end, clip.score, clip.reason);
  }

  /** `_refine_boundaries` with every distance measured from the clip's own start and end. */
  method RefineBoundaries(clip: ClipCandidate, words: seq<WordSegment>, minDur: int, maxDur: int)
    returns (refined: ClipCandidate)
    ensures refined == Refine(clip, words, minDur, maxDur)
  {
    if |words| == 0 {
      return clip;
    }
    var start := clip.start;
    var end := clip.end;
    var bestStartDiff: Option<real> := None;
    var i := 0;
    while i < |words|
      invariant 0 <= i <= |words|
      invariant Snap(start, bestStartDiff) == SnapFixed(Starts(words), clip.start, i)
    {
      var diff := Abs(words[i].start - clip.start);
      if Below(diff, bestStartDiff) && diff <= Tolerance {
        bestStartDiff := Some(diff);
        start := words[i].start;
      }
      i := i + 1;
    }
    var bestEndDiff: Option<real> := None;
    i := 0;
    while i < |words|
      invariant 0 <= i <= |words|
      invariant Snap(end, bestEndDiff) == SnapFixed(Ends(words), clip.end, i)
    {
      var diff := Abs(words[i].end - clip.end);
      if Below(diff, bestEndDiff) && diff <= Tolerance {
        bestEndDiff := Some(diff);
        end := words[i].end;
      }
      i := i + 1;
    }
    var dur := end - start;
    if dur < minDur as real {
      end := start + minDur as real;
    } else if dur > maxDur as real {
      end := start + maxDur as real;
    }
    refined := ClipCandidate(start, end, clip.score, clip.reason);
  }

  // ---- Properties of the intended scan ----

  /** The first target within tolerance that is nearest to `anchor` among the first `n`, if any. */
  predicate NearestFirst(targets: seq<real>, anchor: real, n: nat, i: int)
    requires n <= |targets|
  {
    0 <= i < n
    && Abs(targets[i] - anchor) <= Tolerance
    && (forall j :: 0 <= j < n && Abs(targets[j] - anchor) <= Tolerance ==> Abs(targets[i] - anchor) <= Abs(targets[j] - anchor))
    && (forall j :: 0 <= j < i ==> Abs(targets[j] - anchor) > Abs(targets[i] - anchor))
  }

  /**
    * The intended scan keeps `anchor` when no target lies within tolerance, and otherwise
    * snaps to the nearest such target, the first one on ties.
    */
  lemma {:induction false} SnapFixedNearest(targets: seq<real>, anchor: real, n: nat)
    requires n <= |targets|
    ensures var s := SnapFixed(targets, anchor, n);
      (s.best.None? <==> forall j :: 0 <= j < n ==> Abs(targets[j] - anchor) > Tolerance)
      && (s.best.None? ==> s.edge == anchor)
      && (s.best.Some? ==> exists i :: NearestFirst(targets, anchor, n, i) && s.edge == targets[i]
                                      && s.best.value == Abs(targets[i] - anchor))
  {
    if n > 0 {
      SnapFixedNearest(targets, anchor, n - 1);
      var prior := SnapFixed(targets, anchor, n - 1);
      var s := SnapFixed(targets, anchor, n);
      var diff := Abs(targets[n - 1] - anchor);
      if prior.best.Some? {
        var i :| NearestFirst(targets, anchor, n - 1, i) && prior.edge == targets[i]
                 && prior.best.value == Abs(targets[i] - anchor);
        if s == prior {
          assert NearestFirst(targets, anchor, n, i);
        } else {
          assert NearestFirst(targets, anchor, n, n - 1);
        }
      } else if s != prior {
        assert NearestFirst(targets, anchor, n, n - 1);
      }
    }
  }

  /** A target exactly at `anchor` makes the intended scan keep `anchor`. */
  lemma SnapFixedKeepsAligned(targets: seq<real>, anchor: real, k: int)
    requires 0 <= k < |targets| && targets[k] == anchor
    ensures SnapFixed(targets, anchor, |targets|).edge == anchor
  {
    SnapFixedNearest(targets, anchor, |targets|);
    var s := SnapFixed(targets, anchor, |targets|);
    if s.best.Some? {
      var i :| NearestFirst(targets, anchor, |targets|, i) && s.edge == targets[i]
               && s.best.value == Abs(targets[i] - anchor);
      assert Abs(targets[k] - anchor) == 0.0;
    }
  }

  /** With `min <= max`, the clamped length lies within the bounds; a length already within them is kept. */
  lemma ClampInBounds(start: real, end: real, minDur: int, maxDur: int)
    requires minDur <= maxDur
    ensures minDur as real <= Clamp(start, end, minDur, maxDur) - start <= maxDur as real
    ensures minDur as real <= end - start <= maxDur as real ==> Clamp(start, end, minDur, maxDur) == end
  {
  }

  /**
    * Refinement keeps score and reason; the start becomes the nearest word start within 2
    * seconds of the clip's start (the first on ties) or stays put when there is none, and the
    * same holds for the end before the length is clamped. No words: the clip is unchanged.
    */
  lemma RefineSnapsToNearest(clip: ClipCandidate, words: seq<WordSegment>, minDur: int, maxDur: int)
    ensures var r := Refine(clip, words, minDur, maxDur);
      r.score == clip.score && r.reason == clip.reason
      && (words == [] ==> r == clip)
      && (words != [] ==>
            ((forall j :: 0 <= j < |words| ==> Abs(words[j].start - clip.start) > Tolerance) ==> r.start == clip.start)
            && ((exists j :: 0 <= j < |words| && Abs(words[j].start - clip.start) <= Tolerance) ==>
                  exists i :: NearestFirst(Starts(words), clip.start, |words|, i) && r.start == words[i].start))
  {
    if words != [] {
      SnapFixedNearest(Starts(words), clip.start, |words|);
    }
  }

  /** The same for the end, before clamping: it is the snapped end edge. */
  lemma RefineEndSnapsToNearest(clip: ClipCandidate, words: seq<WordSegment>)
    requires words != []
    ensures var e := SnapFixed(Ends(words), clip.end, |words|).edge;
      ((forall j :: 0 <= j < |words| ==> Abs(words[j].end - clip.end) > Tolerance) ==> e == clip.end)
      && ((exists j :: 0 <= j < |words| && Abs(words[j].end - clip.end) <= Tolerance) ==>
            exists i :: NearestFirst(Ends(words), clip.end, |words|, i) && e == words[i].end)
  {
    SnapFixedNearest(Ends(words), clip.end, |words|);
  }

  /** With words and `min <= max`, the refined length lies within the bounds. */
  lemma RefineDurationInBounds(clip: ClipCandidate, words: seq<WordSegment>, minDur: int, maxDur: int)
    requires words != [] && minDur <= maxDur
    ensures minDur as real <= Duration(Refine(clip, words, minDur, maxDur)) <= maxDur as real
  {
    var start := SnapFixed(Starts(words), clip.start, |words|).edge;
    var end := SnapFixed(Ends(words), clip.end, |words|).edge;
    ClampInBounds(start, end, minDur, maxDur);
  }

  /** A clip whose edges are a word start and a word end, and whose length is in bounds, is left unchanged. */
  lemma RefineKeepsAligned(clip: ClipCandidate, words: seq<WordSegment>, minDur: int, maxDur: int)
    requires (exists i :: 0 <= i < |words| && words[i].start == clip.start)
    requires (exists j :: 0 <= j < |words| && words[j].end == clip.end)
    requires minDur as real <= Duration(clip) <= maxDur as real
    ensures Refine(clip, words, minDur, maxDur) == clip
  {
    var i :| 0 <= i < |words| && words[i].start == clip.start;
    var j :| 0 <= j < |words| && words[j].end == clip.end;
    SnapFixedKeepsAligned(Starts(words), clip.start, i);
    SnapFixedKeepsAligned(Ends(words), clip.end, j);
  }

  /** The scan as written still keeps score and reason, and, with words and `min <= max`, a length within the bounds. */
  lemma RefineAsWrittenKeepsScore(clip: ClipCandidate, words: seq<WordSegment>, minDur: int, maxDur: int)
    ensures var r := RefineAsWritten(clip, words, minDur, maxDur);
      r.score == clip.score && r.reason == clip.reason
      && (words != [] && minDur <= maxDur ==> minDur as real <= Duration(r) <= maxDur as real)
  {
    if words != [] && minDur <= maxDur {
      var start := SnapDrifting(Starts(words), clip.start, |words|).edge;
      var end := SnapDrifting(Ends(words), clip.end, |words|).edge;
      ClampInBounds(start, end, minDur, maxDur);
    }
  }

  // ---- The drift, exhibited ----

  /**
    * As written, the start drifts beyond the 2-second tolerance: from 10.0, word starts 11.5
    * and 12.5 move it to 12.5, which is 2.5 seconds away; the intended scan gives 11.5.
    */
  lemma DriftBeyondTolerance()
    ensures var words := [WordSegment("a", 11.5, 12.0, 1.0), WordSegment("b", 12.5, 40.0, 1.0)];
      var clip := ClipCandidate(10.0, 40.0, 0.5, "keyword");
      RefineAsWritten(clip, words, 15, 60).start == 12.5
      && Refine(clip, words, 15, 60).start == 11.5
  {
    var words := [WordSegment("a", 11.5, 12.0, 1.0), WordSegment("b", 12.5, 40.0, 1.0)];
    var starts := Starts(words);
    assert starts == [11.5, 12.5];
    assert SnapDrifting(starts, 10.0, 1) == Snap(11.5, Some(1.5));
    assert SnapDrifting(starts, 10.0, 2) == Snap(12.5, Some(1.0));
    assert SnapFixed(starts, 10.0, 1) == Snap(11.5, Some(1.5));
    assert SnapFixed(starts, 10.0, 2) == Snap(11.5, Some(1.5));
  }

  /**
    * As written, a clip that already starts on a word start is moved: from 10.0, word starts
    * 9.0 and 10.0 leave it at 9.0, because 10.0 is then measured against 9.0.
    */
  lemma DriftMovesAlignedClip()
    ensures var words := [WordSegment("a", 9.0, 9.5, 1.0), WordSegment("b", 10.0, 30.0, 1.0)];
      var clip := ClipCandidate(10.0, 30.0, 0.5, "keyword");
      RefineAsWritten(clip, words, 15, 60) == ClipCandidate(9.0, 30.0, 0.5, "keyword")
      && Refine(clip, words, 15, 60) == clip
  {
    var words := [WordSegment("a", 9.0, 9.5, 1.0), WordSegment("b", 10.0, 30.0, 1.0)];
    var starts := Starts(words);
    var ends := Ends(words);
    assert starts == [9.0, 10.0] && ends == [9.5, 30.0];
    assert SnapDrifting(starts, 10.0, 1) == Snap(9.0, Some(1.0));
    assert SnapDrifting(starts, 10.0, 2) == Snap(9.0, Some(1.0));
    assert SnapDrifting(ends, 30.0, 1) == Snap(30.0, None);
    assert SnapDrifting(ends, 30.0, 2) == Snap(30.0, Some(0.0));
    assert SnapFixed(starts, 10.0, 1) == Snap(9.0, Some(1.0));
    assert SnapFixed(starts, 10.0, 2) == Snap(10.0, Some(0.0));
    assert SnapFixed(ends, 30.0, 1) == Snap(30.0, None);
    assert SnapFixed(ends, 30.0, 2) == Snap(30.0, Some(0.0));
  }
}
