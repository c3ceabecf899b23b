/**
  * Time formatting and filename sanitising (utils/file_utils.py).
  *
  * Times are exact reals. Python's `int(x)` on a float truncates toward zero and `x % 1`
  * is the non-negative fractional part; `//` and `%` by 60 on an int floor, which is what
  * Dafny's `/` and `%` do for a positive divisor.
  */
module FileUtils {
  import opened Text

  /** Python's `int(x)` for a float: truncation toward zero. */
  function Trunc(x: real): (t: int)
    ensures x >= 0.0 ==> t == x.Floor
    ensures -1.0 < x - t as real < 1.0
  {
    if x >= 0.0 then x.Floor else -((-x).Floor)
  }

  /** Python's `x % 1` for a float: the distance above the floor, in [0, 1). */
  function Frac(x: real): (f: real)
    ensures 0.0 <= f < 1.0
  {
    x - x.Floor as real
  }

  /** Hours, minutes and seconds as the three formatters compute them from `int(seconds)`. */
  datatype Clock = Clock(h: int, m: int, s: int)

  function ClockOf(seconds: real): Clock
  {
    var total := Trunc(seconds);
    var minutes := total / 60;
    Clock(minutes / 60, minutes % 60, total % 60)
  }

  /** The clock fields recompose to `int(seconds)`, minutes and seconds in [0, 59]. */
  lemma ClockRecomposes(seconds: real)
    ensures var c := ClockOf(seconds);
      c.h * 3600 + c.m * 60 + c.s == Trunc(seconds) && 0 <= c.m < 60 && 0 <= c.s < 60
    ensures seconds >= 0.0 ==> ClockOf(seconds).h >= 0
  {
  }

  /** Centiseconds: `int((seconds % 1) * 100)`. */
  function Centis(seconds: real): (cs: int)
    ensures 0 <= cs < 100
  {
    (Frac(seconds) * 100.0).Floor
  }

  /** Milliseconds: `int((seconds % 1) * 1000)`. */
  function Millis(seconds: real): (ms: int)
    ensures 0 <= ms < 1000
  {
    (Frac(seconds) * 1000.0).Floor
  }

  /** ASS subtitle time `H:MM:SS.CC` (`seconds_to_ass_time`). */
  function SecondsToAssTime(seconds: real): string
  {
    var c := ClockOf(seconds);
    FormatInt(c.h, 0) + ":" + FormatInt(c.m, 2) + ":" + FormatInt(c.s, 2) + "." + FormatInt(Centis(seconds), 2)
  }

  /** FFmpeg seek time `HH:MM:SS.mmm` (`seconds_to_ffmpeg_time`). */
  function SecondsToFfmpegTime(seconds: real): string
  {
    var c := ClockOf(seconds);
    FormatInt(c.h, 2) + ":" + FormatInt(c.m, 2) + ":" + FormatInt(c.s, 2) + "." + FormatInt(Millis(seconds), 3)
  }

  /** Human-readable duration, `M:SS` below an hour and `H:MM:SS` from an hour on (`format_duration`). */
  function FormatDuration(seconds: real): string
  {
    var c := ClockOf(seconds);
    if c.h > 0 then FormatInt(c.h, 0) + ":" + FormatInt(c.m, 2) + ":" + FormatInt(c.s, 2)
    else FormatInt(c.m, 0) + ":" + FormatInt(c.s, 2)
  }

  /** Where the fields of `H:MM:SS` sit. */
  lemma HmsLayout(hs: string, ms: string, ss: string)
    requires |ms| == 2 && |ss| == 2
    ensures var r, n := hs + ":" + ms + ":" + ss, |hs|;
      |r| == n + 6 && r[..n] == hs && r[n] == ':' && r[n + 1..n + 3] == ms && r[n + 3] == ':' && r[n + 4..] == ss
  {
  }

  /** Where the fields of `H:MM:SS.F` sit. */
  lemma HmsFracLayout(hs: string, ms: string, ss: string, fs: string)
    requires |ms| == 2 && |ss| == 2
    ensures var r, n := hs + ":" + ms + ":" + ss + "." + fs, |hs|;
      |r| == n + 7 + |fs| && r[..n] == hs && r[n] == ':' && r[n + 1..n + 3] == ms && r[n + 3] == ':'
      && r[n + 4..n + 6] == ss && r[n + 6] == '.' && r[n + 7..] == fs
  {
    var t := hs + ":" + ms + ":" + ss;
    HmsLayout(hs, ms, ss);
    var r := t + "." + fs;
    var n := |hs|;
    assert r[..n] == t[..n];
    assert r[n + 1..n + 3] == t[n + 1..n + 3];
    assert r[n + 4..n + 6] == t[n + 4..];
  }

  /**
    * Reading an ASS time back: the fixed-width fields sit at fixed distances from the end,
    * the hours are everything before them, and together they give the whole seconds and
    * the centiseconds of the input.
    */
  lemma AssTimeReadsBack(seconds: real)
    requires seconds >= 0.0
    ensures var r := SecondsToAssTime(seconds);
      |r| >= 10 && r[|r| - 9] == ':' && r[|r| - 6] == ':' && r[|r| - 3] == '.'
      && AllDigits(r[..|r| - 9]) && AllDigits(r[|r| - 8..|r| - 6])
      && AllDigits(r[|r| - 5..|r| - 3]) && AllDigits(r[|r| - 2..])
      && ParseNat(r[..|r| - 9]) * 3600 + ParseNat(r[|r| - 8..|r| - 6]) * 60 + ParseNat(r[|r| - 5..|r| - 3])
         == seconds.Floor
      && ParseNat(r[|r| - 2..]) == ((seconds - seconds.Floor as real) * 100.0).Floor
  {
    var c := ClockOf(seconds);
    ClockRecomposes(seconds);
    var hs, ms, ss, cs := FormatInt(c.h, 0), FormatInt(c.m, 2), FormatInt(c.s, 2), FormatInt(Centis(seconds), 2);
    FormatNatReadsBack(c.h, 0);
    FormatNatReadsBack(c.m, 2);
    FormatNatReadsBack(c.s, 2);
    FormatNatReadsBack(Centis(seconds), 2);
    FormatFieldWidth(c.m);
    FormatFieldWidth(c.s);
    FormatFieldWidth(Centis(seconds));
    HmsFracLayout(hs, ms, ss, cs);
  }

  /** Reading an FFmpeg time back, as for the ASS time, with two-digit hours at least and milliseconds. */
  lemma FfmpegTimeReadsBack(seconds: real)
    requires seconds >= 0.0
    ensures var r := SecondsToFfmpegTime(seconds);
      |r| >= 12 && r[|r| - 10] == ':' && r[|r| - 7] == ':' && r[|r| - 4] == '.'
      && AllDigits(r[..|r| - 10]) && AllDigits(r[|r| - 9..|r| - 7])
      && AllDigits(r[|r| - 6..|r| - 4]) && AllDigits(r[|r| - 3..])
      && ParseNat(r[..|r| - 10]) * 3600 + ParseNat(r[|r| - 9..|r| - 7]) * 60 + ParseNat(r[|r| - 6..|r| - 4])
         == seconds.Floor
      && ParseNat(r[|r| - 3..]) == ((seconds - seconds.Floor as real) * 1000.0).Floor
  {
    var c := ClockOf(seconds);
    ClockRecomposes(seconds);
    var hs, ms, ss, mss := FormatInt(c.h, 2), FormatInt(c.m, 2), FormatInt(c.s, 2), FormatInt(Millis(seconds), 3);
    FormatNatReadsBack(c.h, 2);
    FormatNatReadsBack(c.m, 2);
    FormatNatReadsBack(c.s, 2);
    FormatNatReadsBack(Millis(seconds), 3);
    FormatFieldWidth(c.m);
    FormatFieldWidth(c.s);
    FormatFieldWidth(Millis(seconds));
    HmsFracLayout(hs, ms, ss, mss);
  }

  /**
    * Reading a duration back: below an hour the text is `M:SS` with one colon, from an hour on
    * it is `H:MM:SS`; either way the fields give the whole seconds of the input.
    */
  lemma DurationReadsBack(seconds: real)
    requires seconds >= 0.0
    ensures var r := FormatDuration(seconds);
      |r| >= 4 && r[|r| - 3] == ':' && AllDigits(r[|r| - 2..])
      && (seconds < 3600.0 ==>
            AllDigits(r[..|r| - 3]) && ParseNat(r[..|r| - 3]) * 60 + ParseNat(r[|r| - 2..]) == seconds.Floor)
    ensures var r := FormatDuration(seconds);
      seconds >= 3600.0 ==>
        |r| >= 7 && r[|r| - 6] == ':' && AllDigits(r[..|r| - 6]) && AllDigits(r[|r| - 5..|r| - 3])
        && ParseNat(r[..|r| - 6]) * 3600 + ParseNat(r[|r| - 5..|r| - 3]) * 60 + ParseNat(r[|r| - 2..])
           == seconds.Floor
  {
    ClockRecomposes(seconds);
    if ClockOf(seconds).h > 0 {
      DurationHoursReadsBack(seconds);
    } else {
      DurationMinutesReadsBack(seconds);
    }
  }

  /** `H:MM:SS`: the case of at least one whole hour. */
  lemma DurationHoursReadsBack(seconds: real)
    requires seconds >= 0.0 && ClockOf(seconds).h > 0
    ensures var r := FormatDuration(seconds);
      |r| >= 7 && r[|r| - 6] == ':' && r[|r| - 3] == ':' && AllDigits(r[..|r| - 6])
      && AllDigits(r[|r| - 5..|r| - 3]) && AllDigits(r[|r| - 2..])
      && ParseNat(r[..|r| - 6]) * 3600 + ParseNat(r[|r| - 5..|r| - 3]) * 60 + ParseNat(r[|r| - 2..])
         == seconds.Floor
  {
    var c := ClockOf(seconds);
    ClockRecomposes(seconds);
    FormatNatReadsBack(c.h, 0);
    FormatNatReadsBack(c.m, 2);
    FormatNatReadsBack(c.s, 2);
    FormatFieldWidth(c.m);
    FormatFieldWidth(c.s);
    var hs, ms, ss := FormatInt(c.h, 0), FormatInt(c.m, 2), FormatInt(c.s, 2);
    HmsLayout(hs, ms, ss);
  }

  /** `M:SS`: the case below an hour. */
  lemma DurationMinutesReadsBack(seconds: real)
    requires seconds >= 0.0 && ClockOf(seconds).h == 0
    ensures seconds < 3600.0
    ensures var r := FormatDuration(seconds);
      |r| >= 4 && r[|r| - 3] == ':' && AllDigits(r[..|r| - 3]) && AllDigits(r[|r| - 2..])
      && ParseNat(r[..|r| - 3]) * 60 + ParseNat(r[|r| - 2..]) == seconds.Floor
  {
    var c := ClockOf(seconds);
    ClockRecomposes(seconds);
    FormatNatReadsBack(c.m, 0);
    FormatNatReadsBack(c.s, 2);
    FormatFieldWidth(c.s);
    var mm, ss := FormatInt(c.m, 0), FormatInt(c.s, 2);
    var r := mm + ":" + ss;
    assert r[..|mm|] == mm && r[|mm| + 1..] == ss;
  }

  /** The characters `sanitize_filename` deletes: `<>:"/\|?*` and the controls 0x00-0x1F. */
  predicate IsUnsafeChar(c: char)
  {
    c == '<' || c == '>' || c == ':' || c == '"' || c == '/' || c == '\\' || c == '|' || c == '?' || c == '*'
    || c as int < 0x20
  }

  /** The characters stripped from both ends afterwards. */
  predicate IsDotOrSpace(c: char)
  {
    c == '.' || c == ' '
  }

  /** `re.sub(r'[<>:"/\\|?*\x00-\x1f]', "", name)`. */
  function RemoveUnsafe(name: string): (r: string)
    ensures |r| <= |name|
    ensures forall i :: 0 <= i < |r| ==> !IsUnsafeChar(r[i])
  {
    if name == [] then []
    else (if IsUnsafeChar(name[0]) then [] else [name[0]]) + RemoveUnsafe(name[1..])
  }

  /**
    * The name after deletion and stripping, before truncation. Stripping keeps a contiguous
    * piece of its input, so it brings back no deleted character.
    */
  function CleanedName(name: string): (cleaned: string)
    ensures forall i :: 0 <= i < |cleaned| ==> !IsUnsafeChar(cleaned[i])
  {
    var removed := RemoveUnsafe(name);
    var l := StripLeft(removed, IsDotOrSpace);
    var r := StripRight(l, IsDotOrSpace);
    assert forall i :: 0 <= i < |r| ==> r[i] == l[i] == removed[|removed| - |l| + i];
    r
  }

  /** `sanitize_filename`: delete unsafe characters, strip dots and spaces, truncate, fall back to "video". */
  function SanitizeFilename(name: string, maxLen: int): string
  {
    var cleaned := CleanedName(name);
    if cleaned != [] then PySliceTo(cleaned, maxLen) else "video"
  }

  /** The fallback name "video" is itself safe. */
  lemma FallbackIsSafe()
    ensures forall i :: 0 <= i < |"video"| ==> !IsUnsafeChar("video"[i])
  {
  }

  /** A sanitised name holds none of `<>:"/\|?*` and no control character 0x00-0x1F. */
  lemma SanitizedHasNoUnsafeChar(name: string, maxLen: int)
    ensures var r := SanitizeFilename(name, maxLen);
      forall i :: 0 <= i < |r| ==> !IsUnsafeChar(r[i])
  {
    var cleaned := CleanedName(name);
    var r := SanitizeFilename(name, maxLen);
    if cleaned != [] {
      forall i | 0 <= i < |r|
        ensures !IsUnsafeChar(r[i])
      {
        assert r[i] == cleaned[i];
      }
    } else {
      FallbackIsSafe();
    }
  }

  /** A sanitised name never starts with a dot or a space. */
  lemma SanitizedStartsClean(name: string, maxLen: int)
    ensures var r := SanitizeFilename(name, maxLen);
      r != [] ==> !IsDotOrSpace(r[0])
  {
    StripEnds(RemoveUnsafe(name), IsDotOrSpace);
  }

  /**
    * The name is "video" when nothing survives the cleaning; otherwise it is the cleaned name
    * cut to a non-negative `maxLen` (so never longer) or shortened from the end by a negative
    * one. A cleaned name that is itself "video" also gives "video".
    */
  lemma SanitizedLength(name: string, maxLen: int)
    ensures CleanedName(name) == [] ==> SanitizeFilename(name, maxLen) == "video"
    ensures CleanedName(name) != [] && maxLen >= 0 ==> |SanitizeFilename(name, maxLen)| <= maxLen
    ensures CleanedName(name) != [] ==> IsPrefix(SanitizeFilename(name, maxLen), CleanedName(name))
  {
  }

  /**
    * Stripping happens before truncation, so a sanitised name can still end in a space:
    * "ab c" cut to three characters is "ab ".
    */
  lemma TruncationCanLeaveTrailingSpace()
    ensures SanitizeFilename("ab c", 3) == "ab "
  {
    var s := "ab c";
    assert !IsUnsafeChar('a') && !IsUnsafeChar('b') && !IsUnsafeChar(' ') && !IsUnsafeChar('c');
    assert RemoveUnsafe(s[3..]) == "c";
    assert RemoveUnsafe(s[2..]) == " c";
    assert RemoveUnsafe(s[1..]) == "b c";
    assert RemoveUnsafe(s) == s;
    assert !IsDotOrSpace(s[0]) && !IsDotOrSpace(s[3]);
    assert StripLeft(s, IsDotOrSpace) == s;
    assert StripRight(s, IsDotOrSpace) == s;
  }
}
