/**
  * Non-maximum suppression (`_select_top_clips`): the candidates whose length is within bounds
  * are ranked by score, and taken greedily, skipping any that overlaps an already chosen clip by
  * more than half of its own length, until enough clips are chosen.
  */
module ClipSelection {
  import opened Seqs
  import opened HighlightTypes

  // ---- Filtering ----

  predicate InBounds(c: ClipCandidate, minDur: int, maxDur: int)
  {
    minDur as real <= Duration(c) <= maxDur as real
  }

  /** `[c for c in candidates if min_dur <= (c.end - c.start) <= max_dur]`. */
  function ValidClips(candidates: seq<ClipCandidate>, minDur: int, maxDur: int): (valid: seq<ClipCandidate>)
  {
    if candidates == [] then []
    else (if InBounds(candidates[0], minDur, maxDur) then [candidates[0]] else [])
         + ValidClips(candidates[1..], minDur, maxDur)
  }

  /** The filter keeps exactly the candidates within bounds. */
  lemma {:induction false} ValidClipsExact(candidates: seq<ClipCandidate>, minDur: int, maxDur: int)
    ensures forall c :: c in ValidClips(candidates, minDur, maxDur) <==> c in candidates && InBounds(c, minDur, maxDur)
  {
    if candidates != [] {
      ValidClipsExact(candidates[1..], minDur, maxDur);
      assert candidates == [candidates[0]] + candidates[1..];
    }
  }

  // ---- Ranking (`list.sort(key=score, reverse=True)`, which is stable) ----

  /** `c` placed after every element of higher score and before the rest. */
  function InsertByScore(c: ClipCandidate, s: seq<ClipCandidate>): (r: seq<ClipCandidate>)
    ensures |r| == |s| + 1
  {
    if s == [] || s[0].score <= c.score then [c] + s else [s[0]] + InsertByScore(c, s[1..])
  }

  /** A stable sort by descending score. */
  function SortByScore(s: seq<ClipCandidate>): (r: seq<ClipCandidate>)
    ensures |r| == |s|
  {
    if s == [] then [] else InsertByScore(s[0], SortByScore(s[1..]))
  }

  predicate ScoresDescending(s: seq<ClipCandidate>)
  {
    forall i, j :: 0 <= i < j < |s| ==> s[i].score >= s[j].score
  }

  /** The elements of `s` whose score is `v`, in order. */
  function WithScore(s: seq<ClipCandidate>, v: real): seq<ClipCandidate>
  {
    if s == [] then [] else (if s[0].score == v then [s[0]] else []) + WithScore(s[1..], v)
  }

  lemma {:induction false} InsertByScoreMultiset(c: ClipCandidate, s: seq<ClipCandidate>)
    ensures multiset(InsertByScore(c, s)) == multiset(s) + multiset{c}
  {
    if s != [] && s[0].score > c.score {
      InsertByScoreMultiset(c, s[1..]);
      assert s == [s[0]] + s[1..];
    }
  }

  /** Inserting a score no greater than `b` among scores no greater than `b` keeps them so. */
  lemma {:induction false} InsertByScoreBelow(c: ClipCandidate, s: seq<ClipCandidate>, b: real)
    requires c.score <= b && forall k :: 0 <= k < |s| ==> s[k].score <= b
    ensures forall k :: 0 <= k < |s| + 1 ==> InsertByScore(c, s)[k].score <= b
  {
    if s != [] && s[0].score > c.score {
      InsertByScoreBelow(c, s[1..], b);
    }
  }

  lemma {:induction false} InsertByScoreDescending(c: ClipCandidate, s: seq<ClipCandidate>)
    requires ScoresDescending(s)
    ensures ScoresDescending(InsertByScore(c, s))
  {
    if s != [] && s[0].score > c.score {
      InsertByScoreDescending(c, s[1..]);
      InsertByScoreBelow(c, s[1..], s[0].score);
    }
  }

  /** Among equal scores, the inserted element comes first: the others keep their order. */
  lemma {:induction false} InsertByScoreStable(c: ClipCandidate, s: seq<ClipCandidate>, v: real)
    ensures WithScore(InsertByScore(c, s), v) == (if c.score == v then [c] else []) + WithScore(s, v)
  {
    if s != [] && s[0].score > c.score {
      InsertByScoreStable(c, s[1..], v);
    }
  }

  /** The ranking is in descending score order. */
  lemma {:induction false} SortByScoreDescending(s: seq<ClipCandidate>)
    ensures ScoresDescending(SortByScore(s))
  {
    if s != [] {
      SortByScoreDescending(s[1..]);
      InsertByScoreDescending(s[0], SortByScore(s[1..]));
    }
  }

  /** The ranking holds the same candidates, each as often. */
  lemma {:induction false} SortByScorePermutation(s: seq<ClipCandidate>)
    ensures multiset(SortByScore(s)) == multiset(s)
  {
    if s != [] {
      SortByScorePermutation(s[1..]);
      InsertByScoreMultiset(s[0], SortByScore(s[1..]));
      assert s == [s[0]] + s[1..];
      assert multiset(s) == multiset(s[1..]) + multiset{s[0]};
    }
  }

  /** The ranking is stable: candidates of equal score keep their relative order. */
  lemma {:induction false} SortByScoreStable(s: seq<ClipCandidate>, v: real)
    ensures WithScore(SortByScore(s), v) == WithScore(s, v)
  {
    if s != [] {
      SortByScoreStable(s[1..], v);
      InsertByScoreStable(s[0], SortByScore(s[1..]), v);
    }
  }

  // ---- Greedy suppression ----

  /** `candidate` overlaps `sel` by more than half of `candidate`'s own length. */
  predicate OverlapsTooMuch(candidate: ClipCandidate, sel: ClipCandidate)
  {
    var overlapStart := Max(candidate.start, sel.start);
    var overlapEnd := Min(candidate.end, sel.end);
    overlapEnd > overlapStart && overlapEnd - overlapStart > 0.5 * (candidate.end - candidate.start)
  }

  predicate AnyOverlap(candidate: ClipCandidate, selected: seq<ClipCandidate>)
  {
    exists k :: 0 <= k < |selected| && OverlapsTooMuch(candidate, selected[k])
  }

  /** The inner `for sel in selected` loop, which stops at the first clash. */
  method Overlaps(candidate: ClipCandidate, selected: seq<ClipCandidate>) returns (overlaps: bool)
    ensures overlaps <==> AnyOverlap(candidate, selected)
  {
    overlaps := false;
    var j := 0;
    while j < |selected|
      invariant 0 <= j <= |selected|
      invariant forall k :: 0 <= k < j ==> !OverlapsTooMuch(candidate, selected[k])
    {
      var sel := selected[j];
      var overlapStart := Max(candidate.start, sel.start);
      var overlapEnd := Min(candidate.end, sel.end);
      if overlapEnd > overlapStart {
        var overlapDur := overlapEnd - overlapStart;
        var candidateDur := candidate.end - candidate.start;
        if overlapDur > 0.5 * candidateDur {
          assert OverlapsTooMuch(candidate, selected[j]);
          overlaps := true;
          break;
        }
      }
      j := j + 1;
    }
  }

  /** One candidate considered: taken unless it clashes with a chosen clip. */
  function Consider(selected: seq<ClipCandidate>, candidate: ClipCandidate): seq<ClipCandidate>
  {
    if AnyOverlap(candidate, selected) then selected else selected + [candidate]
  }

  /**
    * The rest of the greedy pass from `ranked[i]` on, with `selected` chosen so far: the pass
    * stops as soon as `maxClips` clips are chosen, checked after each candidate.
    */
  function Greedy(ranked: seq<ClipCandidate>, maxClips: int, selected: seq<ClipCandidate>, i: nat): seq<ClipCandidate>
    decreases |ranked| - i
  {
    if i >= |ranked| then selected
    else
      var next := Consider(selected, ranked[i]);
      if |next| >= maxClips then next else Greedy(ranked, maxClips, next, i + 1)
  }

  /** One pass of the candidate loop of `_select_top_clips`, before the count check. */
  method ConsiderClip(selected: seq<ClipCandidate>, candidate: ClipCandidate) returns (next: seq<ClipCandidate>)
    ensures next == Consider(selected, candidate)
  {
    var overlaps := Overlaps(candidate, selected);
    next := selected;
    if !overlaps {
      next := selected + [candidate];
    }
  }

  /** The result of `_select_top_clips`. */
  function SelectTop(candidates: seq<ClipCandidate>, maxClips: int, minDur: int, maxDur: int): seq<ClipCandidate>
  {
    Greedy(SortByScore(ValidClips(candidates, minDur, maxDur)), maxClips, [], 0)
  }

  /** `_select_top_clips`. */
  method SelectTopClips(candidates: seq<ClipCandidate>, maxClips: int, minDur: int, maxDur: int)
    returns (selected: seq<ClipCandidate>)
    ensures selected == SelectTop(candidates, maxClips, minDur, maxDur)
  {
    var valid := ValidClips(candidates, minDur, maxDur);
    valid := SortByScore(valid);
    selected := GreedyPass(valid, maxClips);
  }

  /** The candidate loop of `_select_top_clips`, over the ranked candidates. */
  method GreedyPass(ranked: seq<ClipCandidate>, maxClips: int) returns (selected: seq<ClipCandidate>)
    ensures selected == Greedy(ranked, maxClips, [], 0)
  {
    selected := [];
    var i := 0;
    while i < |ranked|
      invariant 0 <= i <= |ranked|
      invariant Greedy(ranked, maxClips, selected, i) == Greedy(ranked, maxClips, [], 0)
    {
      selected := ConsiderClip(selected, ranked[i]);
      if |selected| >= maxClips {
        break;
      }
      i := i + 1;
    }
  }

  /** No chosen clip overlaps an earlier chosen clip by more than half of its own length. */
  predicate Separated(selected: seq<ClipCandidate>)
  {
    forall j, k :: 0 <= j < k < |selected| ==> !OverlapsTooMuch(selected[k], selected[j])
  }

  /**
    * What the greedy pass keeps: a subsequence of the ranking, separated, and no more than
    * `maxClips` clips, or one clip when `maxClips` is below 1.
    */
  lemma {:induction false} GreedySound(ranked: seq<ClipCandidate>, maxClips: int, selected: seq<ClipCandidate>, i: nat)
    requires i <= |ranked|
    requires Subseq(selected, ranked[..i]) && Separated(selected)
    requires |selected| < maxClips || selected == []
    ensures var out := Greedy(ranked, maxClips, selected, i);
      Subseq(out, ranked) && Separated(out) && |out| <= (if maxClips < 1 then 1 else maxClips)
    decreases |ranked| - i
  {
    if i >= |ranked| {
      assert ranked[..i] == ranked;
    } else {
      var next := Consider(selected, ranked[i]);
      assert ranked[..i + 1] == ranked[..i] + [ranked[i]];
      SubseqExtend(selected, ranked[..i], ranked[i]);
      ConsiderSeparated(selected, ranked[i]);
      if |next| >= maxClips {
        SubseqTail(next, ranked, i + 1);
      } else {
        GreedySound(ranked, maxClips, next, i + 1);
      }
    }
  }

  /** Taking a candidate that clashes with no chosen clip keeps the chosen clips separated. */
  lemma ConsiderSeparated(selected: seq<ClipCandidate>, candidate: ClipCandidate)
    requires Separated(selected)
    ensures Separated(Consider(selected, candidate))
  {
    var next := Consider(selected, candidate);
    if !AnyOverlap(candidate, selected) {
      forall j, k | 0 <= j < k < |next|
        ensures !OverlapsTooMuch(next[k], next[j])
      {
        if k == |selected| {
          assert next[j] == selected[j];
        } else {
          assert next[j] == selected[j] && next[k] == selected[k];
        }
      }
    }
  }

  /** A subsequence of a prefix is a subsequence of the whole. */
  lemma {:induction false} SubseqTail(a: seq<ClipCandidate>, b: seq<ClipCandidate>, n: nat)
    requires n <= |b| && Subseq(a, b[..n])
    ensures Subseq(a, b)
    decreases |b| - n
  {
    if n < |b| {
      SubseqExtend(a, b[..n], b[n]);
      assert b[..n + 1] == b[..n] + [b[n]];
      SubseqTail(a, b, n + 1);
    } else {
      assert b[..n] == b;
    }
  }

  /**
    * `_select_top_clips` returns clips whose lengths are within bounds, taken in ranking order
    * (a subsequence of the stable descending-score sort of the valid candidates), pairwise
    * separated, and at most `max_clips` of them (at most one when `max_clips < 1`).
    */
  lemma SelectTopSound(candidates: seq<ClipCandidate>, maxClips: int, minDur: int, maxDur: int)
    ensures var out := SelectTop(candidates, maxClips, minDur, maxDur);
      Subseq(out, SortByScore(ValidClips(candidates, minDur, maxDur)))
      && Separated(out)
      && |out| <= (if maxClips < 1 then 1 else maxClips)
      && forall c :: c in out ==> c in candidates && InBounds(c, minDur, maxDur)
  {
    var valid := ValidClips(candidates, minDur, maxDur);
    var ranked := SortByScore(valid);
    var out := SelectTop(candidates, maxClips, minDur, maxDur);
    assert ranked[..0] == [];
    GreedySound(ranked, maxClips, [], 0);
    SubseqMembers(out, ranked);
    SortByScorePermutation(valid);
    ValidClipsExact(candidates, minDur, maxDur);
    forall c | c in out
      ensures c in candidates && InBounds(c, minDur, maxDur)
    {
      assert c in multiset(ranked);
    }
  }

  /**
    * Because the count check runs after each candidate, a `max_clips` below 1 still yields one
    * clip whenever some candidate is within bounds.
    */
  lemma NonPositiveMaxStillOne(candidates: seq<ClipCandidate>, maxClips: int, minDur: int, maxDur: int)
    requires maxClips < 1 && ValidClips(candidates, minDur, maxDur) != []
    ensures |SelectTop(candidates, maxClips, minDur, maxDur)| == 1
  {
    var ranked := SortByScore(ValidClips(candidates, minDur, maxDur));
    assert !AnyOverlap(ranked[0], []);
    assert Consider([], ranked[0]) == [ranked[0]];
  }

  /** A clash with the clips chosen so far remains a clash once more clips are chosen. */
  lemma AnyOverlapGrows(candidate: ClipCandidate, selected: seq<ClipCandidate>, x: ClipCandidate)
    requires AnyOverlap(candidate, selected)
    ensures AnyOverlap(candidate, selected + [x])
  {
    var k :| 0 <= k < |selected| && OverlapsTooMuch(candidate, selected[k]);
    assert (selected + [x])[k] == selected[k];
  }

  /**
    * When the pass ends with fewer than `maxClips` clips, every ranked candidate was either
    * chosen or clashes with a chosen clip.
    */
  lemma {:induction false} GreedyMaximal(ranked: seq<ClipCandidate>, maxClips: int, selected: seq<ClipCandidate>, i: nat)
    requires i <= |ranked|
    requires forall j :: 0 <= j < i ==> ranked[j] in selected || AnyOverlap(ranked[j], selected)
    ensures var out := Greedy(ranked, maxClips, selected, i);
      |out| < maxClips ==> forall j :: 0 <= j < |ranked| ==> ranked[j] in out || AnyOverlap(ranked[j], out)
    decreases |ranked| - i
  {
    if i < |ranked| {
      var next := Consider(selected, ranked[i]);
      forall j | 0 <= j < i + 1
        ensures ranked[j] in next || AnyOverlap(ranked[j], next)
      {
        if next != selected {
          if ranked[j] in selected {
            assert ranked[j] in next;
          } else if j < i {
            AnyOverlapGrows(ranked[j], selected, ranked[i]);
          }
        }
      }
      if |next| < maxClips {
        GreedyMaximal(ranked, maxClips, next, i + 1);
      }
    }
  }

  /** The pass only ever appends: the clips chosen so far begin the result. */
  lemma {:induction false} GreedyExtends(ranked: seq<ClipCandidate>, maxClips: int, selected: seq<ClipCandidate>, i: nat)
    ensures var out := Greedy(ranked, maxClips, selected, i);
      |selected| <= |out| && out[..|selected|] == selected
    decreases |ranked| - i
  {
    if i < |ranked| {
      var next := Consider(selected, ranked[i]);
      assert next[..|selected|] == selected;
      if |next| < maxClips {
        GreedyExtends(ranked, maxClips, next, i + 1);
        var out := Greedy(ranked, maxClips, next, i + 1);
        assert out[..|selected|] == out[..|next|][..|selected|];
      }
    }
  }

  /** Every candidate within bounds appears in the ranking. */
  lemma RankedHoldsValid(candidates: seq<ClipCandidate>, minDur: int, maxDur: int)
    ensures forall c :: c in candidates && InBounds(c, minDur, maxDur) ==> c in SortByScore(ValidClips(candidates, minDur, maxDur))
  {
    var valid := ValidClips(candidates, minDur, maxDur);
    ValidClipsExact(candidates, minDur, maxDur);
    SortByScorePermutation(valid);
    forall c | c in candidates && InBounds(c, minDur, maxDur)
      ensures c in SortByScore(valid)
    {
      assert c in multiset(valid);
    }
  }

  /**
    * When fewer than `max_clips` clips come back, every candidate within bounds was chosen or
    * clashes with a chosen clip.
    */
  lemma SelectTopMaximal(candidates: seq<ClipCandidate>, maxClips: int, minDur: int, maxDur: int)
    ensures var out := SelectTop(candidates, maxClips, minDur, maxDur);
      |out| < maxClips ==> forall c :: c in candidates && InBounds(c, minDur, maxDur) ==> c in out || AnyOverlap(c, out)
  {
    var ranked := SortByScore(ValidClips(candidates, minDur, maxDur));
    RankedHoldsValid(candidates, minDur, maxDur);
    GreedyMaximal(ranked, maxClips, [], 0);
    var out := SelectTop(candidates, maxClips, minDur, maxDur);
    forall c | c in candidates && InBounds(c, minDur, maxDur) && |out| < maxClips
      ensures c in out || AnyOverlap(c, out)
    {
      var j :| 0 <= j < |ranked| && ranked[j] == c;
    }
  }

  /** Whenever some candidate is within bounds, the first clip returned has the highest score among them. */
  lemma SelectTopBestFirst(candidates: seq<ClipCandidate>, maxClips: int, minDur: int, maxDur: int)
    requires ValidClips(candidates, minDur, maxDur) != []
    ensures var out := SelectTop(candidates, maxClips, minDur, maxDur);
      out != [] && forall c :: c in candidates && InBounds(c, minDur, maxDur) ==> c.score <= out[0].score
  {
    var valid := ValidClips(candidates, minDur, maxDur);
    var ranked := SortByScore(valid);
    var out := SelectTop(candidates, maxClips, minDur, maxDur);
    var first := Consider([], ranked[0]);
    assert first == [ranked[0]];
    if |first| < maxClips {
      GreedyExtends(ranked, maxClips, first, 1);
      assert out[..1] == first;
    }
    RankedHoldsValid(candidates, minDur, maxDur);
    SortByScoreDescending(valid);
    forall c | c in candidates && InBounds(c, minDur, maxDur)
      ensures c.score <= out[0].score
    {
      var j :| 0 <= j < |ranked| && ranked[j] == c;
    }
  }

  /** Dropping elements from a descending ranking leaves it descending. */
  lemma {:induction false} SubseqDescending(a: seq<ClipCandidate>, b: seq<ClipCandidate>)
    requires Subseq(a, b) && ScoresDescending(b)
    ensures ScoresDescending(a)
  {
    if a != [] {
      var b0 := b[..|b| - 1];
      assert ScoresDescending(b0);
      if a[|a| - 1] == b[|b| - 1] && Subseq(a[..|a| - 1], b0) {
        var a0 := a[..|a| - 1];
        SubseqDescending(a0, b0);
        SubseqMembers(a0, b0);
        forall i, j | 0 <= i < j < |a|
          ensures a[i].score >= a[j].score
        {
          if j == |a| - 1 {
            assert a[i] == a0[i] && a0[i] in b0;
            var k :| 0 <= k < |b0| && b0[k] == a0[i];
            assert b[k] == b0[k];
          } else {
            assert a[i] == a0[i] && a[j] == a0[j];
          }
        }
      } else {
        SubseqDescending(a, b0);
      }
    }
  }

  /** `_select_top_clips` returns its clips by descending score. */
  lemma SelectTopDescending(candidates: seq<ClipCandidate>, maxClips: int, minDur: int, maxDur: int)
    ensures ScoresDescending(SelectTop(candidates, maxClips, minDur, maxDur))
  {
    var ranked := SortByScore(ValidClips(candidates, minDur, maxDur));
    SelectTopSound(candidates, maxClips, minDur, maxDur);
    SortByScoreDescending(ValidClips(candidates, minDur, maxDur));
    SubseqDescending(SelectTop(candidates, maxClips, minDur, maxDur), ranked);
  }
}
