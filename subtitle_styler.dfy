/**
  * Word-by-word highlighted ASS subtitles (pipeline/subtitle_styler.py). Layer 0 shows a
  * whole line of up to four words; layer 1 holds one event per word, the same line with that
  * word coloured. The header template and the file write are not modelled: the model
  * produces the dialogue lines that follow the header.
  */
module SubtitleStyler {
  import opened Text
  import opened FileUtils
  import opened Transcript
  import opened Seqs

  const WordsPerLine: int := 4

  /** The two colours the dialogue lines use (the rest of the style only fills the header). */
  datatype SubtitleStyle = SubtitleStyle(primaryColor: string, highlightColor: string)

  const DefaultStyle: SubtitleStyle := SubtitleStyle("&H00FFFFFF", "&H0000FFFF")

  // ---------------------------------------------------------------- clip word filter

  /** A word belongs to the clip when it starts inside it and ends at most half a second after it. */
  predicate InClip(w: WordSegment, clipStart: real, clipEnd: real)
  {
    w.start >= clipStart && w.end <= clipEnd + 0.5
  }

  /** The word re-timed relative to the clip start. */
  function Shifted(w: WordSegment, clipStart: real): WordSegment
  {
    WordSegment(w.word, w.start - clipStart, w.end - clipStart, w.probability)
  }

  /** The clip's words, in transcript order, re-timed. */
  function ClipWords(words: seq<WordSegment>, clipStart: real, clipEnd: real): seq<WordSegment>
  {
    if words == [] then []
    else
      var w := words[|words| - 1];
      ClipWords(words[..|words| - 1], clipStart, clipEnd)
      + (if InClip(w, clipStart, clipEnd) then [Shifted(w, clipStart)] else [])
  }

  /** The filter loop at the top of `generate_ass_file`. */
  method FilterClipWords(words: seq<WordSegment>, clipStart: real, clipEnd: real) returns (clipWords: seq<WordSegment>)
    ensures clipWords == ClipWords(words, clipStart, clipEnd)
  {
    clipWords := [];
    var i := 0;
    while i < |words|
      invariant 0 <= i <= |words|
      invariant clipWords == ClipWords(words[..i], clipStart, clipEnd)
    {
      var w := words[i];
      if w.start >= clipStart && w.end <= clipEnd + 0.5 {
        clipWords := clipWords + [WordSegment(w.word, w.start - clipStart, w.end - clipStart, w.probability)];
      }
      assert words[..i + 1][..i] == words[..i];
      i := i + 1;
    }
    assert words[..i] == words;
  }

  /** Peeling the last transcript word off peels at most its re-timed copy off the clip's words. */
  lemma ClipWordsLast(words: seq<WordSegment>, clipStart: real, clipEnd: real)
    requires words != []
    ensures var last := words[|words| - 1];
      ClipWords(words, clipStart, clipEnd)
      == ClipWords(words[..|words| - 1], clipStart, clipEnd) + (if InClip(last, clipStart, clipEnd) then [Shifted(last, clipStart)] else [])
  {
  }

  /**
    * Every clip word is the re-timed copy of a transcript word inside the clip (same text and
    * confidence, times moved by `-clipStart`), so every kept start is at least 0 and none is invented.
    */
  lemma {:induction false} ClipWordsSound(words: seq<WordSegment>, clipStart: real, clipEnd: real)
    ensures forall x :: x in ClipWords(words, clipStart, clipEnd) ==>
      exists w :: w in words && InClip(w, clipStart, clipEnd) && x == Shifted(w, clipStart)
    ensures forall x :: x in ClipWords(words, clipStart, clipEnd) ==> x.start >= 0.0
    ensures |ClipWords(words, clipStart, clipEnd)| <= |words|
  {
    if words != [] {
      var init := words[..|words| - 1];
      var last := words[|words| - 1];
      ClipWordsSound(init, clipStart, clipEnd);
      ClipWordsLast(words, clipStart, clipEnd);
      var ri := ClipWords(init, clipStart, clipEnd);
      forall x | x in ClipWords(words, clipStart, clipEnd)
        ensures exists w :: w in words && InClip(w, clipStart, clipEnd) && x == Shifted(w, clipStart)
      {
        if x in ri {
          var w :| w in init && InClip(w, clipStart, clipEnd) && x == Shifted(w, clipStart);
          assert w in words;
        } else {
          assert last in words;
        }
      }
    }
  }

  /** A transcript word is in the clip exactly when its re-timed copy is among the clip's words. */
  lemma {:induction false} ClipWordsComplete(words: seq<WordSegment>, clipStart: real, clipEnd: real)
    ensures forall w :: w in words ==> (InClip(w, clipStart, clipEnd) <==> Shifted(w, clipStart) in ClipWords(words, clipStart, clipEnd))
  {
    if words != [] {
      var init := words[..|words| - 1];
      var last := words[|words| - 1];
      ClipWordsComplete(init, clipStart, clipEnd);
      ClipWordsSound(words, clipStart, clipEnd);
      ClipWordsLast(words, clipStart, clipEnd);
      assert words == init + [last];
      forall w | w in words
        ensures InClip(w, clipStart, clipEnd) <==> Shifted(w, clipStart) in ClipWords(words, clipStart, clipEnd)
      {
        if Shifted(w, clipStart) in ClipWords(words, clipStart, clipEnd) {
          var v :| v in words && InClip(v, clipStart, clipEnd) && Shifted(w, clipStart) == Shifted(v, clipStart);
          assert v == w;
        }
      }
    }
  }

  // ---------------------------------------------------------------- grouping

  /** Consecutive runs of `n` words, the last one possibly shorter. */
  function LineGroups<T>(words: seq<T>, n: int): seq<seq<T>>
    requires n > 0
    decreases |words|
  {
    if words == [] then []
    else if |words| <= n then [words]
    else [words[..n]] + LineGroups(words[n..], n)
  }

  /** The groups give the words back when concatenated. */
  lemma {:induction false} LineGroupsFlatten<T>(words: seq<T>, n: int)
    requires n > 0
    ensures Flatten(LineGroups(words, n)) == words
    decreases |words|
  {
    if words == [] {
    } else if |words| <= n {
      assert Flatten([words]) == Flatten([words][..0]) + words;
      assert [words][..0] == [];
    } else {
      LineGroupsFlatten(words[n..], n);
      FlattenPrepend(words[..n], LineGroups(words[n..], n));
      assert words[..n] + words[n..] == words;
    }
  }

  /** Each group is non-empty and at most `n` long; every group but the last has exactly `n` words. */
  lemma {:induction false} LineGroupsSizes<T>(words: seq<T>, n: int)
    requires n > 0
    ensures forall g :: g in LineGroups(words, n) ==> 0 < |g| <= n
    ensures forall i :: 0 <= i < |LineGroups(words, n)| - 1 ==> |LineGroups(words, n)[i]| == n
    decreases |words|
  {
    if |words| > n {
      var rest := LineGroups(words[n..], n);
      LineGroupsSizes(words[n..], n);
      assert LineGroups(words, n) == [words[..n]] + rest;
      forall i | 0 <= i < |LineGroups(words, n)| - 1
        ensures |LineGroups(words, n)[i]| == n
      {
        if i > 0 {
          assert LineGroups(words, n)[i] == rest[i - 1];
        }
      }
    }
  }

  /** Division by a positive divisor is determined by any quotient-remainder decomposition. */
  lemma DivUnique(a: int, n: int, x: int, r: int)
    requires n > 0 && 0 <= r < n && a == x * n + r
    ensures a / n == x
  {
    var d := a / n - x;
    assert d * n == r - a % n by {
      assert a == (a / n) * n + a % n;
      assert d * n == (a / n) * n - x * n;
    }
  }

  lemma DivStep(a: int, n: int)
    requires a >= 0 && n > 0
    ensures (a + n) / n == a / n + 1
  {
    assert a == (a / n) * n + a % n;
    DivUnique(a + n, n, a / n + 1, a % n);
  }

  /** There are ceil(|words| / n) groups. */
  lemma {:induction false} LineGroupsCount<T>(words: seq<T>, n: int)
    requires n > 0
    ensures |LineGroups(words, n)| == (|words| + n - 1) / n
    decreases |words|
  {
    if words == [] {
      DivUnique(n - 1, n, 0, n - 1);
    } else if |words| <= n {
      DivUnique(|words| + n - 1, n, 1, |words| - 1);
    } else {
      var rest := words[n..];
      assert LineGroups(words, n) == [words[..n]] + LineGroups(rest, n);
      LineGroupsCount(rest, n);
      DivStep(|rest| + n - 1, n);
      assert |rest| + n - 1 + n == |words| + n - 1;
    }
  }

  /** `_group_words_into_lines`: `range(0, len, n)` raises for 0 and is empty for a negative step. */
  method GroupWordsIntoLines<T>(words: seq<T>, wordsPerLine: int) returns (groups: seq<seq<T>>)
    requires wordsPerLine != 0
    ensures wordsPerLine < 0 ==> groups == []
    ensures wordsPerLine > 0 ==> groups == LineGroups(words, wordsPerLine)
  {
    groups := [];
    if wordsPerLine < 0 {
      return;
    }
    var i := 0;
    while i < |words|
      invariant 0 <= i
      invariant groups + LineGroups(words[(if i <= |words| then i else |words|)..], wordsPerLine) == LineGroups(words, wordsPerLine)
      decreases |words| - i
    {
      var stop := if i + wordsPerLine <= |words| then i + wordsPerLine else |words|;
      var rest := words[i..];
      if |rest| <= wordsPerLine {
        assert LineGroups(rest, wordsPerLine) == [rest];
        assert words[i..stop] == rest;
        assert words[stop..] == [];
      } else {
        assert LineGroups(rest, wordsPerLine) == [rest[..wordsPerLine]] + LineGroups(rest[wordsPerLine..], wordsPerLine);
        assert rest[..wordsPerLine] == words[i..stop];
        assert rest[wordsPerLine..] == words[stop..];
      }
      groups := groups + [words[i..stop]];
      i := i + wordsPerLine;
    }
    assert words[|words|..] == [];
  }

  // ---------------------------------------------------------------- highlighted line

  /** The colour override that starts the highlighted word. */
  function OpenTag(style: SubtitleStyle): string
  {
    "{\\c" + style.highlightColor + "&}"
  }

  /** The colour override that returns to the primary colour after it. */
  function CloseTag(style: SubtitleStyle): string
  {
    "{\\c" + style.primaryColor + "&}"
  }

  /** `word.word.strip()`. */
  function StrippedText(w: WordSegment): string
  {
    Strip(w.word, IsPyWhitespace)
  }

  /** The stripped texts of a group. */
  function Texts(group: seq<WordSegment>): seq<string>
  {
    seq(|group|, i requires 0 <= i < |group| => StrippedText(group[i]))
  }

  /** The layer-0 text: the stripped words joined by single spaces. */
  function FullText(group: seq<WordSegment>): string
  {
    Join(Texts(group), " ")
  }

  /** The parts of a highlighted line: the texts, with the one at `highlightIndex` wrapped in the colour tags. */
  function Tagged(texts: seq<string>, highlightIndex: int, style: SubtitleStyle): (parts: seq<string>)
    ensures |parts| == |texts|
  {
    seq(|texts|, i requires 0 <= i < |texts| =>
      if i == highlightIndex then OpenTag(style) + texts[i] + CloseTag(style) else texts[i])
  }

  /** The layer-1 text for one word. */
  function HighlightedLine(group: seq<WordSegment>, highlightIndex: int, style: SubtitleStyle): string
  {
    Join(Tagged(Texts(group), highlightIndex, style), " ")
  }

  /** `_build_highlighted_line`. */
  method BuildHighlightedLine(group: seq<WordSegment>, highlightIndex: int, style: SubtitleStyle) returns (line: string)
    ensures line == HighlightedLine(group, highlightIndex, style)
  {
    ghost var target := Tagged(Texts(group), highlightIndex, style);
    var parts: seq<string> := [];
    var i := 0;
    while i < |group|
      invariant 0 <= i <= |group|
      invariant parts == target[..i]
    {
      var text := Strip(group[i].word, IsPyWhitespace);
      var part := if i == highlightIndex then OpenTag(style) + text + CloseTag(style) else text;
      assert part == target[i];
      TakeOneMore(target, i);
      parts := parts + [part];
      i := i + 1;
    }
    TakeAll(target);
    line := Join(parts, " ");
  }

  /** Tagging at an index inside the texts changes that one text and nothing else. */
  lemma TaggedAround(texts: seq<string>, i: int, style: SubtitleStyle)
    requires 0 <= i < |texts|
    ensures Tagged(texts, i, style) == texts[..i] + [OpenTag(style) + texts[i] + CloseTag(style)] + texts[i + 1..]
  {
    var parts := Tagged(texts, i, style);
    var rhs := texts[..i] + [OpenTag(style) + texts[i] + CloseTag(style)] + texts[i + 1..];
    forall k | 0 <= k < |parts|
      ensures parts[k] == rhs[k]
    {
      if k < i {
        assert rhs[k] == texts[k];
      } else if k > i {
        assert rhs[k] == texts[k];
      }
    }
  }

  /** Joining the tagged texts inserts the two tags around text `i` of the joined texts. */
  lemma TaggedJoin(texts: seq<string>, i: int, style: SubtitleStyle)
    requires 0 <= i < |texts|
    ensures var full := Join(texts, " ");
      var p := if i == 0 then 0 else |Join(texts[..i], " ")| + 1;
      var n := |texts[i]|;
      p + n <= |full| && full[p..p + n] == texts[i]
      && Join(Tagged(texts, i, style), " ") == full[..p] + OpenTag(style) + full[p..p + n] + CloseTag(style) + full[p + n..]
  {
    var a, x, b := texts[..i], texts[i], texts[i + 1..];
    SplitAt(texts, i);
    TaggedAround(texts, i, style);
    JoinAround(a, x, b, " ");
    JoinAround(a, OpenTag(style) + x + CloseTag(style), b, " ");
    var pre := if a == [] then "" else Join(a, " ") + " ";
    var post := if b == [] then "" else " " + Join(b, " ");
    SplitThree(pre, x, post);
    Regroup(pre, OpenTag(style), x, CloseTag(style), post);
  }

  /**
    * Only the chosen word is wrapped: the highlighted line is the layer-0 text with the opening
    * tag inserted just before that word and the closing tag just after it, so removing the two
    * tags gives the layer-0 text back.
    */
  lemma HighlightWrapsOneWord(group: seq<WordSegment>, highlightIndex: int, style: SubtitleStyle)
    requires 0 <= highlightIndex < |group|
    ensures var full := FullText(group);
      var texts := Texts(group);
      var p := if highlightIndex == 0 then 0 else |Join(texts[..highlightIndex], " ")| + 1;
      var n := |texts[highlightIndex]|;
      p + n <= |full| && full[p..p + n] == texts[highlightIndex]
      && HighlightedLine(group, highlightIndex, style)
         == full[..p] + OpenTag(style) + full[p..p + n] + CloseTag(style) + full[p + n..]
  {
    TaggedJoin(Texts(group), highlightIndex, style);
  }

  /** Without a word at `highlightIndex`, the highlighted line is the layer-0 text itself. */
  lemma HighlightOutOfRange(group: seq<WordSegment>, highlightIndex: int, style: SubtitleStyle)
    requires highlightIndex < 0 || highlightIndex >= |group|
    ensures HighlightedLine(group, highlightIndex, style) == FullText(group)
  {
    assert Tagged(Texts(group), highlightIndex, style) == Texts(group);
  }

  // ---------------------------------------------------------------- dialogue lines

  /** One dialogue event before rendering. */
  datatype Dialogue = Dialogue(layer: int, start: real, end: real, text: string)

  /** `Dialogue: L,start,end,Default,,0,0,0,,{\an2}text`. */
  function Render(d: Dialogue): string
  {
    "Dialogue: " + IntToString(d.layer) + "," + SecondsToAssTime(d.start) + "," + SecondsToAssTime(d.end)
    + ",Default,,0,0,0,,{\\an2}" + d.text
  }

  function RenderAll(events: seq<Dialogue>): (lines: seq<string>)
    ensures |lines| == |events|
  {
    if events == [] then [] else RenderAll(events[..|events| - 1]) + [Render(events[|events| - 1])]
  }

  /** The whole line, from the first word's start to 0.3 s after the last word's end. */
  function LineEvent(group: seq<WordSegment>): Dialogue
    requires group != []
  {
    Dialogue(0, group[0].start, group[|group| - 1].end + 0.3, FullText(group))
  }

  /** Word `i` highlighted, from its start to 0.05 s after its end. */
  function WordEvent(group: seq<WordSegment>, i: int, style: SubtitleStyle): Dialogue
    requires 0 <= i < |group|
  {
    Dialogue(1, group[i].start, group[i].end + 0.05, HighlightedLine(group, i, style))
  }

  /** Event `k` of a group: its layer-0 line first, then one layer-1 event per word. */
  function GroupEvent(group: seq<WordSegment>, k: int, style: SubtitleStyle): Dialogue
    requires 0 <= k <= |group| && group != []
  {
    if k == 0 then LineEvent(group) else WordEvent(group, k - 1, style)
  }

  /** The events of one group: none for an empty group, else its line and one event per word. */
  function GroupEvents(group: seq<WordSegment>, style: SubtitleStyle): (events: seq<Dialogue>)
    ensures |events| == if group == [] then 0 else |group| + 1
  {
    if group == [] then [] else seq(|group| + 1, k requires 0 <= k <= |group| => GroupEvent(group, k, style))
  }

  /** The events of each group, group by group. */
  function PerGroupEvents(groups: seq<seq<WordSegment>>, style: SubtitleStyle): (evs: seq<seq<Dialogue>>)
    ensures |evs| == |groups|
  {
    if groups == [] then [] else PerGroupEvents(groups[..|groups| - 1], style) + [GroupEvents(groups[|groups| - 1], style)]
  }

  lemma {:induction false} PerGroupEventsAt(groups: seq<seq<WordSegment>>, style: SubtitleStyle, k: int)
    requires 0 <= k < |groups|
    ensures PerGroupEvents(groups, style)[k] == GroupEvents(groups[k], style)
  {
    if k < |groups| - 1 {
      PerGroupEventsAt(groups[..|groups| - 1], style, k);
    }
  }

  /** All events in group order. */
  function AllEvents(groups: seq<seq<WordSegment>>, style: SubtitleStyle): seq<Dialogue>
  {
    Flatten(PerGroupEvents(groups, style))
  }

  /** The events `_build_dialogue_lines` renders: none for no words, else those of the four-word groups. */
  function DialogueEvents(words: seq<WordSegment>, style: SubtitleStyle): seq<Dialogue>
  {
    if words == [] then [] else AllEvents(LineGroups(words, WordsPerLine), style)
  }

  /** Where group `j`'s events start: one line event and one event per word for each group before it. */
  function GroupOffset(groups: seq<seq<WordSegment>>, j: int): int
    requires 0 <= j <= |groups|
  {
    j + |Flatten(groups[..j])|
  }

  predicate NonEmptyGroups(groups: seq<seq<WordSegment>>)
  {
    forall k :: 0 <= k < |groups| ==> groups[k] != []
  }

  /** One event per group and one per word. */
  lemma AllEventsCount(groups: seq<seq<WordSegment>>, style: SubtitleStyle)
    requires NonEmptyGroups(groups)
    ensures |AllEvents(groups, style)| == |groups| + |Flatten(groups)|
  {
    PerGroupEventsLengths(groups, style);
    FlattenLengthOneMore(PerGroupEvents(groups, style), groups);
  }

  /** Every group's events are one longer than the group. */
  lemma PerGroupEventsLengths(groups: seq<seq<WordSegment>>, style: SubtitleStyle)
    requires NonEmptyGroups(groups)
    ensures forall m :: 0 <= m < |groups| ==> |PerGroupEvents(groups, style)[m]| == |groups[m]| + 1
  {
    forall m | 0 <= m < |groups|
      ensures |PerGroupEvents(groups, style)[m]| == |groups[m]| + 1
    {
      PerGroupEventsAt(groups, style, m);
    }
  }

  /** Event `k` of group `j` sits `k` places after the group's offset. */
  lemma EventsAt(groups: seq<seq<WordSegment>>, style: SubtitleStyle, j: int, k: int)
    requires NonEmptyGroups(groups)
    requires 0 <= j < |groups| && 0 <= k <= |groups[j]|
    ensures GroupOffset(groups, j) + k < |AllEvents(groups, style)|
    ensures AllEvents(groups, style)[GroupOffset(groups, j) + k] == GroupEvents(groups[j], style)[k]
  {
    var evs := PerGroupEvents(groups, style);
    PerGroupEventsLengths(groups, style);
    PerGroupEventsAt(groups, style, j);
    assert evs[j] == GroupEvents(groups[j], style);
    FlattenOffsetAt(evs, groups, j, k);
    assert Flatten(evs)[GroupOffset(groups, j) + k] == evs[j][k];
  }

  /**
    * Group `j`'s layer-0 line sits at its offset: it shows the whole line, from the first
    * word's start to 0.3 s after the last word's end.
    */
  lemma LineEventAt(groups: seq<seq<WordSegment>>, style: SubtitleStyle, j: int)
    requires NonEmptyGroups(groups)
    requires 0 <= j < |groups|
    ensures var events, off, g := AllEvents(groups, style), GroupOffset(groups, j), groups[j];
      off < |events| && events[off].layer == 0 && events[off].text == FullText(g)
      && events[off].start == g[0].start && events[off].end == g[|g| - 1].end + 0.3
  {
    var g := groups[j];
    EventsAt(groups, style, j, 0);
    assert GroupEvents(g, style)[0] == LineEvent(g);
  }

  /**
    * The layer-1 events of group `j` follow its line in word order: word `i`'s event is `i + 1`
    * places after the group's offset, shows the line with that word highlighted, and lasts
    * from the word's start to 0.05 s after its end.
    */
  lemma WordEventAt(groups: seq<seq<WordSegment>>, style: SubtitleStyle, j: int, i: int)
    requires NonEmptyGroups(groups)
    requires 0 <= j < |groups| && 0 <= i < |groups[j]|
    ensures var events, off, g := AllEvents(groups, style), GroupOffset(groups, j), groups[j];
      off + 1 + i < |events| && events[off + 1 + i].layer == 1
      && events[off + 1 + i].text == HighlightedLine(g, i, style)
      && events[off + 1 + i].start == g[i].start && events[off + 1 + i].end == g[i].end + 0.05
  {
    var g := groups[j];
    EventsAt(groups, style, j, 1 + i);
    assert GroupEvents(g, style)[1 + i] == WordEvent(g, i, style);
  }

  /** For a non-empty clip there is one event per line group plus one per word. */
  lemma DialogueCount(words: seq<WordSegment>, style: SubtitleStyle)
    requires words != []
    ensures |DialogueEvents(words, style)| == |LineGroups(words, WordsPerLine)| + |words|
  {
    var groups := LineGroups(words, WordsPerLine);
    LineGroupsSizes(words, WordsPerLine);
    LineGroupsFlatten(words, WordsPerLine);
    assert NonEmptyGroups(groups) by {
      forall k | 0 <= k < |groups|
        ensures groups[k] != []
      {
        assert groups[k] in groups;
      }
    }
    AllEventsCount(groups, style);
  }

  lemma RenderAllOneMore(events: seq<Dialogue>, e: Dialogue)
    ensures RenderAll(events + [e]) == RenderAll(events) + [Render(e)]
  {
    TakeAppendOne(events, e);
  }

  lemma {:induction false} RenderAllConcat(a: seq<Dialogue>, b: seq<Dialogue>)
    ensures RenderAll(a + b) == RenderAll(a) + RenderAll(b)
    decreases |b|
  {
    if b == [] {
      AppendNil(a);
      AppendNil(RenderAll(a));
    } else {
      var init := b[..|b| - 1];
      var last := b[|b| - 1];
      TakeAppendOne(init, last);
      assert b == init + [last];
      AppendAssoc(a, init, [last]);
      RenderAllOneMore(a + init, last);
      RenderAllConcat(a, init);
      RenderAllOneMore(init, last);
      AppendAssoc(RenderAll(a), RenderAll(init), [Render(last)]);
    }
  }

  /** Line `i` of the output is event `i` rendered. */
  lemma {:induction false} RenderAllAt(events: seq<Dialogue>, i: int)
    requires 0 <= i < |events|
    ensures RenderAll(events)[i] == Render(events[i])
  {
    if i < |events| - 1 {
      RenderAllAt(events[..|events| - 1], i);
    }
  }

  /** Appending one more group appends its events. */
  lemma AllEventsOneMore(groups: seq<seq<WordSegment>>, j: int, style: SubtitleStyle)
    requires 0 <= j < |groups|
    ensures AllEvents(groups[..j + 1], style) == AllEvents(groups[..j], style) + GroupEvents(groups[j], style)
  {
    TakeOfTake(groups, j + 1, j);
    var prior := PerGroupEvents(groups[..j], style);
    var evs := PerGroupEvents(groups[..j + 1], style);
    assert evs == prior + [GroupEvents(groups[j], style)];
    TakeAppendOne(prior, GroupEvents(groups[j], style));
  }

  /** Rendering one more event extends the rendered prefix by one line. */
  lemma RenderAllTakeOneMore(events: seq<Dialogue>, n: int)
    requires 0 <= n < |events|
    ensures RenderAll(events[..n + 1]) == RenderAll(events[..n]) + [Render(events[n])]
  {
    TakeOneMore(events, n);
    RenderAllOneMore(events[..n], events[n]);
  }

  /** The layer-0 line of a group, as `_build_dialogue_lines` formats it. */
  method LineEventLine(group: seq<WordSegment>, style: SubtitleStyle) returns (line: string)
    requires group != []
    ensures line == Render(GroupEvents(group, style)[0])
  {
    var fullText := Join(Texts(group), " ");
    var lineEvent := Dialogue(0, group[0].start, group[|group| - 1].end + 0.3, fullText);
    assert GroupEvents(group, style)[0] == lineEvent;
    line := Render(lineEvent);
  }

  /** The layer-1 line of word `i`, as `_build_dialogue_lines` formats it. */
  method WordEventLine(group: seq<WordSegment>, i: int, style: SubtitleStyle) returns (line: string)
    requires 0 <= i < |group|
    ensures line == Render(GroupEvents(group, style)[i + 1])
  {
    var highlighted := BuildHighlightedLine(group, i, style);
    var wordEvent := Dialogue(1, group[i].start, group[i].end + 0.05, highlighted);
    assert GroupEvents(group, style)[i + 1] == GroupEvent(group, i + 1, style) == wordEvent;
    line := Render(wordEvent);
  }

  /** The inner loop of `_build_dialogue_lines`: one group's line, then its words highlighted in turn. */
  method BuildGroupLines(group: seq<WordSegment>, style: SubtitleStyle) returns (lines: seq<string>)
    requires group != []
    ensures lines == RenderAll(GroupEvents(group, style))
  {
    ghost var events := GroupEvents(group, style);
    var first := LineEventLine(group, style);
    RenderAllTakeOneMore(events, 0);
    lines := [first];
    var i := 0;
    while i < |group|
      invariant 0 <= i <= |group|
      invariant lines == RenderAll(events[..i + 1])
    {
      var line := WordEventLine(group, i, style);
      RenderAllTakeOneMore(events, i + 1);
      lines := lines + [line];
      i := i + 1;
    }
    TakeAll(events);
  }

  /** `_build_dialogue_lines`. */
  method BuildDialogueLines(words: seq<WordSegment>, style: SubtitleStyle) returns (lines: seq<string>)
    ensures lines == RenderAll(DialogueEvents(words, style))
  {
    if words == [] {
      return [];
    }
    var groups := GroupWordsIntoLines(words, WordsPerLine);
    lines := [];
    var j := 0;
    while j < |groups|
      invariant 0 <= j <= |groups|
      invariant lines == RenderAll(AllEvents(groups[..j], style))
    {
      var group := groups[j];
      ghost var prior := AllEvents(groups[..j], style);
      AllEventsOneMore(groups, j, style);
      RenderAllConcat(prior, GroupEvents(group, style));
      if group == [] {
        AppendNil(lines);
        j := j + 1;
        continue;
      }
      var groupLines := BuildGroupLines(group, style);
      lines := lines + groupLines;
      j := j + 1;
    }
    TakeAll(groups);
  }

  /** The dialogue section of the subtitle file: the clip's words filtered, re-timed and rendered, one line each. */
  method GenerateAssEvents(words: seq<WordSegment>, clipStart: real, clipEnd: real, style: SubtitleStyle) returns (body: string)
    ensures body == Join(RenderAll(DialogueEvents(ClipWords(words, clipStart, clipEnd), style)), "\n") + "\n"
  {
    var clipWords := FilterClipWords(words, clipStart, clipEnd);
    var dialogueLines := BuildDialogueLines(clipWords, style);
    body := Join(dialogueLines, "\n") + "\n";
  }
}
