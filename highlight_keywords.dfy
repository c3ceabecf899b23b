/**
  * Keyword regions (`score_transcript_keywords`): every transcript word that matches a
  * keyword opens a context window of the words around it and reports the window's span and
  * the share of keyword words inside it.
  */
module KeywordScoring {
  import opened Wrappers
  import opened Text
  import opened Transcript
  import opened HighlightTypes

  /** The characters stripped from both ends of a transcript word: `.,!?;:"'`. */
  predicate IsKeywordPunct(c: char)
  {
    c == '.' || c == ',' || c == '!' || c == '?' || c == ';' || c == ':' || c == '"' || c == '\''
  }

  /** `word.lower().strip(".,!?;:\"'")`: only punctuation is stripped, not whitespace. */
  function NormalizeWord(w: string): string
  {
    Strip(ToLowerAscii(w), IsKeywordPunct)
  }

  /** `k.lower().strip()`: keywords lose their surrounding whitespace. */
  function NormalizeKeyword(k: string): string
  {
    Strip(ToLowerAscii(k), IsPyWhitespace)
  }

  /** `{k.lower().strip() for k in keywords}`. */
  function KeywordSet(keywords: seq<string>): set<string>
  {
    set k | k in keywords :: NormalizeKeyword(k)
  }

  predicate IsKeywordWord(w: WordSegment, keywordSet: set<string>)
  {
    NormalizeWord(w.word) in keywordSet
  }

  /** The number of keyword words in `ws` (the `sum(1 for w in window_words if ...)`). */
  function CountKeywords(ws: seq<WordSegment>, keywordSet: set<string>): (n: nat)
    ensures n <= |ws|
  {
    if ws == [] then 0
    else CountKeywords(ws[..|ws| - 1], keywordSet) + (if IsKeywordWord(ws[|ws| - 1], keywordSet) then 1 else 0)
  }

  /** `max(0, i - 5)`. */
  function ContextStart(i: int): int
  {
    if i - 5 > 0 then i - 5 else 0
  }

  /** `min(len(words) - 1, i + 10)`: the slice stops before this index. */
  function ContextEnd(n: int, i: int): int
  {
    if n - 1 < i + 10 then n - 1 else i + 10
  }

  /**
    * The context window of word `i` never holds the transcript's last word; it holds word `i`
    * itself exactly when `i` is not the last word; it spans at most 15 words; and it is empty
    * exactly when the transcript has a single word.
    */
  lemma ContextWindowShape(n: int, i: int)
    requires 0 <= i < n
    ensures var lo, hi := ContextStart(i), ContextEnd(n, i);
      0 <= lo <= i && lo <= hi <= n - 1 && hi - lo <= 15
      && (lo <= i < hi <==> i < n - 1)
      && (lo < hi <==> n >= 2)
  {
  }

  /** The region reported for word `i`, if its context window is non-empty. */
  function HitAt(words: seq<WordSegment>, keywordSet: set<string>, i: int): Option<KeywordRegion>
    requires 0 <= i < |words|
  {
    var window := words[ContextStart(i)..ContextEnd(|words|, i)];
    if window == [] then None
    else Some(KeywordRegion(window[0].start, window[|window| - 1].end,
                            CountKeywords(window, keywordSet) as real / |window| as real))
  }

  /** The regions reported for the first `n` words, in word order. */
  function HitsUpTo(words: seq<WordSegment>, keywordSet: set<string>, n: int): seq<KeywordRegion>
    requires 0 <= n <= |words|
  {
    if n == 0 then []
    else
      var hit := HitAt(words, keywordSet, n - 1);
      HitsUpTo(words, keywordSet, n - 1)
      + (if IsKeywordWord(words[n - 1], keywordSet) && hit.Some? then [hit.value] else [])
  }

  function KeywordHits(words: seq<WordSegment>, keywords: seq<string>): seq<KeywordRegion>
  {
    HitsUpTo(words, KeywordSet(keywords), |words|)
  }

  /** A keyword word with a non-empty window adds its region. */
  lemma HitsUpToHit(words: seq<WordSegment>, keywordSet: set<string>, i: int)
    requires 0 <= i < |words| && IsKeywordWord(words[i], keywordSet) && HitAt(words, keywordSet, i).Some?
    ensures HitsUpTo(words, keywordSet, i + 1) == HitsUpTo(words, keywordSet, i) + [HitAt(words, keywordSet, i).value]
  {
  }

  /** Any other word adds nothing. */
  lemma HitsUpToSkip(words: seq<WordSegment>, keywordSet: set<string>, i: int)
    requires 0 <= i < |words| && !(IsKeywordWord(words[i], keywordSet) && HitAt(words, keywordSet, i).Some?)
    ensures HitsUpTo(words, keywordSet, i + 1) == HitsUpTo(words, keywordSet, i)
  {
    assert HitsUpTo(words, keywordSet, i + 1) == HitsUpTo(words, keywordSet, i) + [];
  }

  /** `score_transcript_keywords`. */
  method ScoreTranscriptKeywords(words: seq<WordSegment>, keywords: seq<string>) returns (hits: seq<KeywordRegion>)
    ensures hits == KeywordHits(words, keywords)
  {
    if |words| == 0 {
      return [];
    }
    var keywordSet := KeywordSet(keywords);
    hits := [];
    var i := 0;
    while i < |words|
      invariant 0 <= i <= |words|
      invariant hits == HitsUpTo(words, keywordSet, i)
    {
      var word := words[i];
      ghost var added := false;
      if NormalizeWord(word.word) in keywordSet {
        var ctxStart := ContextStart(i);
        var ctxEnd := ContextEnd(|words|, i);
        var windowWords := words[ctxStart..ctxEnd];
        if |windowWords| > 0 {
          var kwCount := CountKeywords(windowWords, keywordSet);
          var density := kwCount as real / |windowWords| as real;
          var region := KeywordRegion(windowWords[0].start, windowWords[|windowWords| - 1].end, density);
          assert HitAt(words, keywordSet, i) == Some(region);
          HitsUpToHit(words, keywordSet, i);
          hits := hits + [region];
          added := true;
        }
      }
      if !added {
        HitsUpToSkip(words, keywordSet, i);
      }
      i := i + 1;
    }
  }

  /** A count out of a positive total is a fraction in [0, 1]. */
  lemma FractionInUnit(a: nat, b: nat)
    requires 0 < b && a <= b
    ensures 0.0 <= a as real / b as real <= 1.0
  {
    var q := a as real / b as real;
    assert q * b as real == a as real;
  }

  /** A window's keyword share is a fraction in [0, 1]. */
  lemma DensityInUnit(words: seq<WordSegment>, keywordSet: set<string>, i: int)
    requires 0 <= i < |words| && HitAt(words, keywordSet, i).Some?
    ensures 0.0 <= HitAt(words, keywordSet, i).value.density <= 1.0
  {
    var window := words[ContextStart(i)..ContextEnd(|words|, i)];
    FractionInUnit(CountKeywords(window, keywordSet), |window|);
  }

  /**
    * Every reported region comes from a keyword word `i` and is that word's window region, so
    * its density lies in [0, 1].
    */
  lemma {:induction false} HitsFromKeywords(words: seq<WordSegment>, keywordSet: set<string>, n: int)
    requires 0 <= n <= |words|
    ensures forall h :: h in HitsUpTo(words, keywordSet, n) ==>
      exists i :: 0 <= i < n && IsKeywordWord(words[i], keywordSet) && HitAt(words, keywordSet, i) == Some(h)
    ensures forall h :: h in HitsUpTo(words, keywordSet, n) ==> 0.0 <= h.density <= 1.0
  {
    if n > 0 {
      var prior := HitsUpTo(words, keywordSet, n - 1);
      HitsFromKeywords(words, keywordSet, n - 1);
      var hit := HitAt(words, keywordSet, n - 1);
      var extra := if IsKeywordWord(words[n - 1], keywordSet) && hit.Some? then [hit.value] else [];
      assert HitsUpTo(words, keywordSet, n) == prior + extra;
      if extra != [] {
        DensityInUnit(words, keywordSet, n - 1);
      }
      forall h | h in prior + extra
        ensures exists i :: 0 <= i < n && IsKeywordWord(words[i], keywordSet) && HitAt(words, keywordSet, i) == Some(h)
        ensures 0.0 <= h.density <= 1.0
      {
        if h !in prior {
          assert h == hit.value;
        }
      }
    }
  }

  /** Counting keyword words over one more word. */
  lemma CountKeywordsOneMore(words: seq<WordSegment>, keywordSet: set<string>, n: int)
    requires 0 <= n < |words|
    ensures CountKeywords(words[..n + 1], keywordSet)
         == CountKeywords(words[..n], keywordSet) + (if IsKeywordWord(words[n], keywordSet) then 1 else 0)
  {
    assert words[..n + 1][..n] == words[..n];
  }

  /**
    * From two words on, every keyword word reports exactly one region: the first `n` words
    * report as many regions as they hold keyword words.
    */
  lemma {:induction false} HitsUpToCount(words: seq<WordSegment>, keywordSet: set<string>, n: int)
    requires |words| >= 2 && 0 <= n <= |words|
    ensures |HitsUpTo(words, keywordSet, n)| == CountKeywords(words[..n], keywordSet)
  {
    if n > 0 {
      HitsUpToCount(words, keywordSet, n - 1);
      ContextWindowShape(|words|, n - 1);
      CountKeywordsOneMore(words, keywordSet, n - 1);
    }
  }

  /**
    * One region per keyword word, except that a one-word transcript reports none (its only
    * window is empty); empty words give no regions.
    */
  lemma KeywordHitsCount(words: seq<WordSegment>, keywords: seq<string>)
    ensures |KeywordHits(words, keywords)| == if |words| <= 1 then 0 else CountKeywords(words, KeywordSet(keywords))
  {
    var keywordSet := KeywordSet(keywords);
    if |words| >= 2 {
      HitsUpToCount(words, keywordSet, |words|);
      assert words[..|words|] == words;
    } else if |words| == 1 {
      assert HitAt(words, keywordSet, 0).None?;
      assert KeywordHits(words, keywords) == HitsUpTo(words, keywordSet, 0) + [];
    }
  }

  /** Every region of `score_transcript_keywords` has a density in [0, 1] and comes from a keyword word. */
  lemma KeywordHitsSound(words: seq<WordSegment>, keywords: seq<string>)
    ensures forall h :: h in KeywordHits(words, keywords) ==> 0.0 <= h.density <= 1.0
    ensures forall h :: h in KeywordHits(words, keywords) ==>
      exists i :: 0 <= i < |words| && IsKeywordWord(words[i], KeywordSet(keywords))
               && HitAt(words, KeywordSet(keywords), i) == Some(h)
  {
    HitsFromKeywords(words, KeywordSet(keywords), |words|);
  }

  /** A normalised keyword never starts or ends with whitespace. */
  lemma NormalizedKeywordTrimmed(k: string)
    ensures var n := NormalizeKeyword(k);
      n != [] ==> !IsPyWhitespace(n[0]) && !IsPyWhitespace(n[|n| - 1])
  {
    StripEnds(ToLowerAscii(k), IsPyWhitespace);
  }

  /**
    * Only punctuation is stripped from transcript words, so a word whose text starts with a
    * space (as recognisers commonly emit them) never matches a keyword.
    */
  lemma LeadingSpaceNeverMatches(w: WordSegment, keywords: seq<string>)
    requires |w.word| > 0 && w.word[0] == ' '
    ensures !IsKeywordWord(w, KeywordSet(keywords))
  {
    LeadingSpaceKept(w.word);
    var n := NormalizeWord(w.word);
    forall k | k in keywords
      ensures NormalizeKeyword(k) != n
    {
      NormalizedKeywordTrimmed(k);
    }
  }

  /** Normalising a word keeps a leading space. */
  lemma LeadingSpaceKept(s: string)
    requires |s| > 0 && s[0] == ' '
    ensures var n := NormalizeWord(s); n != [] && n[0] == ' '
  {
    var lowered := ToLowerAscii(s);
    assert lowered[0] == ' ';
    var l := StripLeft(lowered, IsKeywordPunct);
    assert l == lowered;
    var r := StripRight(l, IsKeywordPunct);
    assert !IsKeywordPunct(l[0]);
    assert |r| > 0;
    assert r[0] == l[0];
  }
}
