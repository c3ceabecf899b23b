/**
  * Platform detection and chapter extraction (pipeline/downloader.py). The yt-dlp calls that
  * produce the info dictionary are not modelled; its chapter list comes in as a value.
  */
module Downloader {
  import opened Wrappers
  import opened Text
  import opened Seqs

  /** One entry of `platforms`: a domain fragment and the platform's display name. */
  datatype Platform = Platform(domain: string, name: string)

  /** The table in its insertion order, which is the order `dict.items()` walks. */
  const Platforms: seq<Platform> := [
    Platform("youtube.com", "YouTube"),
    Platform("youtu.be", "YouTube"),
    Platform("twitch.tv", "Twitch"),
    Platform("kick.com", "Kick"),
    Platform("tiktok.com", "TikTok"),
    Platform("instagram.com", "Instagram"),
    Platform("twitter.com", "Twitter/X"),
    Platform("x.com", "Twitter/X"),
    Platform("reddit.com", "Reddit"),
    Platform("facebook.com", "Facebook")
  ]

  /** Entry `i` is the first of `table` whose domain occurs in `url`. */
  predicate IsFirstMatch(table: seq<Platform>, url: string, i: int)
  {
    0 <= i < |table| && Contains(url, table[i].domain)
    && forall j :: 0 <= j < i ==> !Contains(url, table[j].domain)
  }

  /**
    * The early-return search over a table: the name of the first entry whose domain occurs
    * in `url`, or "Unknown" when none does.
    */
  function FirstPlatform(table: seq<Platform>, url: string): (name: string)
    ensures (exists i :: IsFirstMatch(table, url, i) && name == table[i].name)
         || (name == "Unknown" && forall j :: 0 <= j < |table| ==> !Contains(url, table[j].domain))
  {
    if table == [] then "Unknown"
    else if Contains(url, table[0].domain) then
      assert IsFirstMatch(table, url, 0);
      table[0].name
    else
      var rest := FirstPlatform(table[1..], url);
      assert forall i :: IsFirstMatch(table[1..], url, i) ==> IsFirstMatch(table, url, i + 1);
      rest
  }

  /** `get_platform`: match the lower-cased URL against the table. */
  function GetPlatform(url: string): (name: string)
    ensures name == "Unknown" || exists i :: 0 <= i < |Platforms| && name == Platforms[i].name
  {
    FirstPlatform(Platforms, ToLowerAscii(url))
  }

  /** The detected name is one of the table's names or "Unknown". */
  lemma PlatformNameIsKnown(url: string)
    ensures GetPlatform(url) in {"YouTube", "Twitch", "Kick", "TikTok", "Instagram", "Twitter/X",
                                 "Reddit", "Facebook", "Unknown"}
  {
  }

  /** A chapter as the fast path of the highlight engine consumes it. */
  datatype Chapter = Chapter(title: string, startTime: real, endTime: real)

  /** A chapter entry of the info dictionary: each key may be missing. */
  datatype RawChapter = RawChapter(title: Option<string>, startTime: Option<real>, endTime: Option<real>)

  /** One entry with the dictionary's defaults applied: start and end 0, title "". */
  function ToChapter(raw: RawChapter): Chapter
  {
    Chapter(raw.title.GetOr(""), raw.startTime.GetOr(0.0), raw.endTime.GetOr(0.0))
  }

  /** Every entry with the defaults applied, before filtering. */
  function Defaulted(raws: seq<RawChapter>): (cs: seq<Chapter>)
    ensures |cs| == |raws| && forall i :: 0 <= i < |raws| ==> cs[i] == ToChapter(raws[i])
  {
    if raws == [] then [] else Defaulted(raws[..|raws| - 1]) + [ToChapter(raws[|raws| - 1])]
  }

  predicate HasPositiveSpan(c: Chapter)
  {
    c.endTime > c.startTime
  }

  /** The chapters kept from `raws`, in order: those whose end lies after their start. */
  function KeptChapters(raws: seq<RawChapter>): seq<Chapter>
  {
    if raws == [] then []
    else
      var c := ToChapter(raws[|raws| - 1]);
      KeptChapters(raws[..|raws| - 1]) + (if HasPositiveSpan(c) then [c] else [])
  }

  /** Every kept chapter has a positive span. */
  lemma {:induction false} KeptChaptersSpans(raws: seq<RawChapter>)
    ensures forall c :: c in KeptChapters(raws) ==> HasPositiveSpan(c)
  {
    if raws != [] {
      KeptChaptersSpans(raws[..|raws| - 1]);
    }
  }

  /** The kept chapters come from the input, in input order. */
  lemma {:induction false} KeptChaptersInOrder(raws: seq<RawChapter>)
    ensures Subseq(KeptChapters(raws), Defaulted(raws))
  {
    if raws != [] {
      var init := raws[..|raws| - 1];
      var c := ToChapter(raws[|raws| - 1]);
      KeptChaptersInOrder(init);
      SubseqExtend(KeptChapters(init), Defaulted(init), c);
      assert Defaulted(raws) == Defaulted(init) + [c];
      assert KeptChapters(raws) == KeptChapters(init) + (if HasPositiveSpan(c) then [c] else []);
      if !HasPositiveSpan(c) {
        assert KeptChapters(raws) == KeptChapters(init);
      }
    }
  }

  /**
    * A chapter is kept exactly when it is one of the defaulted entries and has a positive
    * span: no entry with a positive span is dropped, and nothing else comes out.
    */
  lemma {:induction false} KeptChaptersExact(raws: seq<RawChapter>)
    ensures forall i :: 0 <= i < |raws| && HasPositiveSpan(ToChapter(raws[i])) ==> ToChapter(raws[i]) in KeptChapters(raws)
    ensures forall c :: c in KeptChapters(raws) <==> c in Defaulted(raws) && HasPositiveSpan(c)
  {
    if raws != [] {
      var init := raws[..|raws| - 1];
      KeptChaptersExact(init);
      assert Defaulted(raws) == Defaulted(init) + [ToChapter(raws[|raws| - 1])];
      forall i | 0 <= i < |raws| - 1
        ensures ToChapter(raws[i]) == ToChapter(init[i])
      {
      }
    }
  }

  /** Nothing is lost exactly when every entry has a positive span; otherwise the output is shorter. */
  lemma {:induction false} KeptChaptersCount(raws: seq<RawChapter>)
    ensures |KeptChapters(raws)| <= |raws|
    ensures |KeptChapters(raws)| == |raws| <==> forall i :: 0 <= i < |raws| ==> HasPositiveSpan(ToChapter(raws[i]))
  {
    if raws != [] {
      var init := raws[..|raws| - 1];
      KeptChaptersCount(init);
      if forall i :: 0 <= i < |raws| ==> HasPositiveSpan(ToChapter(raws[i])) {
        forall i | 0 <= i < |init|
          ensures HasPositiveSpan(ToChapter(init[i]))
        {
          assert init[i] == raws[i];
        }
      } else {
        var i :| 0 <= i < |raws| && !HasPositiveSpan(ToChapter(raws[i]));
        if i < |init| {
          assert init[i] == raws[i];
        }
      }
    }
  }

  /** `extract_chapters`: a missing or empty chapter list gives no chapters. */
  method ExtractChapters(chapters: Option<seq<RawChapter>>) returns (result: seq<Chapter>)
    ensures result == KeptChapters(chapters.GetOr([]))
    ensures forall c :: c in result <==> c in Defaulted(chapters.GetOr([])) && c.endTime > c.startTime
  {
    var raws := chapters.GetOr([]);
    result := [];
    var i := 0;
    while i < |raws|
      invariant 0 <= i <= |raws|
      invariant result == KeptChapters(raws[..i])
    {
      var raw := raws[i];
      var start := raw.startTime.GetOr(0.0);
      var end := raw.endTime.GetOr(0.0);
      if end > start {
        result := result + [Chapter(raw.title.GetOr(""), start, end)];
      }
      assert raws[..i + 1][..i] == raws[..i];
      i := i + 1;
    }
    assert raws[..i] == raws;
    KeptChaptersExact(raws);
  }
}
