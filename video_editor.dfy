/**
  * 9:16 crop arithmetic, the rotation rule for probed dimensions, ASS-path escaping and the
  * single-pass FFmpeg argument list (pipeline/video_editor.py). The ffprobe call itself and the
  * subprocess runs are not modelled: the probe's parsed answer comes in as a value.
  */
module VideoEditor {
  import opened Wrappers
  import opened Text
  import opened FileUtils

  /** The numbers `calculate_crop_filter` puts into its filter string. */
  datatype CropPlan = CropPlan(scaleW: int, scaleH: int, targetW: int, targetH: int, cropX: int, cropY: int)

  /** The source is wider than the target exactly when its width/height ratio is larger. */
  predicate WiderThanTarget(srcW: int, srcH: int, targetW: int, targetH: int)
    requires srcH != 0 && targetH != 0
  {
    srcW as real / srcH as real > targetW as real / targetH as real
  }

  /**
    * `calculate_crop_filter`'s arithmetic: scale so one side matches the target, then centre
    * the crop. Python's `int()` truncates the scaled side; `// 2` floors. None is a
    * ZeroDivisionError: a zero source height, a zero target height, or a zero source width
    * in the taller-or-equal branch.
    */
  function CropPlanFor(srcW: int, srcH: int, targetW: int, targetH: int): Option<CropPlan>
  {
    if srcH == 0 || targetH == 0 then None
    else if WiderThanTarget(srcW, srcH, targetW, targetH) then
      var scaleW := Trunc((srcW * targetH) as real / srcH as real);
      Some(CropPlan(scaleW, targetH, targetW, targetH, (scaleW - targetW) / 2, (targetH - targetH) / 2))
    else if srcW == 0 then None
    else
      var scaleH := Trunc((srcH * targetW) as real / srcW as real);
      Some(CropPlan(targetW, scaleH, targetW, targetH, (targetW - targetW) / 2, (scaleH - targetH) / 2))
  }

  /** The filter text `scale=W:H,crop=TW:TH:X:Y`. */
  function CropFilterText(p: CropPlan): string
  {
    "scale=" + IntToString(p.scaleW) + ":" + IntToString(p.scaleH)
    + ",crop=" + IntToString(p.targetW) + ":" + IntToString(p.targetH)
    + ":" + IntToString(p.cropX) + ":" + IntToString(p.cropY)
  }

  /** `calculate_crop_filter`: None where the source raises ZeroDivisionError. */
  function CalculateCropFilter(srcW: int, srcH: int, targetW: int, targetH: int): Option<string>
  {
    match CropPlanFor(srcW, srcH, targetW, targetH)
    case None => None
    case Some(p) => Some(CropFilterText(p))
  }

  /** A real above an integer floors to at least that integer. */
  lemma FloorAtLeast(x: real, n: int)
    requires x >= n as real
    ensures x.Floor >= n
  {
  }

  /** Comparing two ratios with positive denominators is comparing the cross products. */
  lemma CrossMultiply(a: real, b: real, c: real, d: real)
    requires b > 0.0 && d > 0.0
    ensures a / b > c / d <==> a * d > c * b
  {
    assert (a / b) * (b * d) == a * d;
    assert (c / d) * (b * d) == c * b;
  }

  /** Dividing by a positive number keeps a lower bound scaled the same way. */
  lemma QuotientAtLeast(a: real, b: real, c: real)
    requires b > 0.0 && a >= c * b
    ensures a / b >= c
  {
    assert (a / b) * b == a;
  }

  /**
    * For positive sizes the plan exists; exactly one scaled side equals the target (the height
    * when the source is wider than 9:16, the width otherwise); the scaled frame covers the
    * target, so the crop window lies inside it; and the crop is centred to within one pixel.
    */
  lemma CropCoversTarget(srcW: int, srcH: int, targetW: int, targetH: int)
    requires srcW > 0 && srcH > 0 && targetW > 0 && targetH > 0
    ensures CropPlanFor(srcW, srcH, targetW, targetH).Some?
    ensures var p := CropPlanFor(srcW, srcH, targetW, targetH).value;
      p.targetW == targetW && p.targetH == targetH
      && (if WiderThanTarget(srcW, srcH, targetW, targetH) then p.scaleH == targetH else p.scaleW == targetW)
      && 0 <= p.cropX && p.cropX + targetW <= p.scaleW
      && 0 <= p.cropY && p.cropY + targetH <= p.scaleH
      && 0 <= p.scaleW - targetW - 2 * p.cropX <= 1
      && 0 <= p.scaleH - targetH - 2 * p.cropY <= 1
  {
    var sw, sh, tw, th := srcW as real, srcH as real, targetW as real, targetH as real;
    CrossMultiply(sw, sh, tw, th);
    if WiderThanTarget(srcW, srcH, targetW, targetH) {
      assert sw * th >= tw * sh;
      QuotientAtLeast((srcW * targetH) as real, sh, tw);
      FloorAtLeast((srcW * targetH) as real / sh, targetW);
    } else {
      assert th * sw <= sh * tw;
      QuotientAtLeast((srcH * targetW) as real, sw, th);
      FloorAtLeast((srcH * targetW) as real / sw, targetH);
    }
  }

  /** What ffprobe may say about the `rotate` tag: absent, a number, or text `int()` rejects. */
  datatype RotateTag = Absent | Number(degrees: int) | NotANumber

  /** The first video stream's fields as the probe reports them. */
  datatype ProbeStream = ProbeStream(width: Option<int>, height: Option<int>, rotate: RotateTag, rotateUpper: RotateTag)

  /** A quarter turn either way, the tags that swap width and height. */
  predicate IsQuarterTurn(degrees: int)
  {
    degrees == 90 || degrees == 270 || degrees == -90 || degrees == -270
  }

  const FallbackDimensions: (int, int) := (1280, 720)

  /**
    * The dimension rule of `get_video_dimensions` applied to the probe's parsed answer:
    * None stands for a failed, empty or unparsable probe. The `rotate` tag wins over `Rotate`,
    * a missing one counts as 0, and a tag `int()` rejects raises ValueError, which falls back.
    */
  function VideoDimensions(probe: Option<seq<ProbeStream>>): (int, int)
  {
    if probe.None? || probe.value == [] then FallbackDimensions
    else
      var stream := probe.value[0];
      var w := stream.width.GetOr(1280);
      var h := stream.height.GetOr(720);
      var tag := if !stream.rotate.Absent? then stream.rotate
                 else if !stream.rotateUpper.Absent? then stream.rotateUpper
                 else Number(0);
      match tag
      case NotANumber => FallbackDimensions
      case Absent => FallbackDimensions
      case Number(degrees) => if IsQuarterTurn(degrees) then (h, w) else (w, h)
  }

  /**
    * Width and height trade places exactly when the effective tag is a quarter turn: `rotate`
    * when present, else `Rotate`, else 0. A missing probe, no stream, or an unreadable
    * effective tag gives 1280x720.
    */
  lemma RotationSwapsExactly(probe: Option<seq<ProbeStream>>)
    ensures probe.None? || probe.value == [] ==> VideoDimensions(probe) == (1280, 720)
    ensures probe.Some? && probe.value != [] ==>
      var s := probe.value[0];
      var w, h := s.width.GetOr(1280), s.height.GetOr(720);
      var d := VideoDimensions(probe);
      (s.rotate.Number? ==> d == if IsQuarterTurn(s.rotate.degrees) then (h, w) else (w, h))
      && (s.rotate.NotANumber? ==> d == (1280, 720))
      && (s.rotate.Absent? && s.rotateUpper.Number? ==>
            d == if IsQuarterTurn(s.rotateUpper.degrees) then (h, w) else (w, h))
      && (s.rotate.Absent? && s.rotateUpper.NotANumber? ==> d == (1280, 720))
      && (s.rotate.Absent? && s.rotateUpper.Absent? ==> d == (w, h))
  {
  }

  /** One character of the escaped path: `\` becomes `/`, `:` becomes `\:`. */
  function EscapeChar(c: char): string
  {
    if c == '\\' then "/" else if c == ':' then "\\:" else [c]
  }

  /** `str(ass_path).replace("\\", "/").replace(":", "\\:")`. */
  function EscapeAssPath(path: string): string
  {
    ReplaceChar(ReplaceChar(path, '\\', "/"), ':', "\\:")
  }

  lemma {:induction false} ReplaceCharAppend(a: string, b: string, c: char, rep: string)
    ensures ReplaceChar(a + b, c, rep) == ReplaceChar(a, c, rep) + ReplaceChar(b, c, rep)
  {
    if a != [] {
      assert (a + b)[1..] == a[1..] + b;
      ReplaceCharAppend(a[1..], b, c, rep);
    } else {
      assert a + b == b;
    }
  }

  /** The two passes escape the path one character at a time. */
  lemma EscapeCons(path: string)
    requires path != []
    ensures EscapeAssPath(path) == EscapeChar(path[0]) + EscapeAssPath(path[1..])
  {
    var first := if path[0] == '\\' then "/" else [path[0]];
    ReplaceCharAppend(first, ReplaceChar(path[1..], '\\', "/"), ':', "\\:");
  }

  /** Undoes the colon escaping: `\:` reads as `:`. */
  function UnescapeColons(s: string): string
  {
    if s == [] then []
    else if |s| >= 2 && s[0] == '\\' && s[1] == ':' then [':'] + UnescapeColons(s[2..])
    else [s[0]] + UnescapeColons(s[1..])
  }

  /**
    * Escaping is undone by reading `\:` as `:`: what comes back is the path with every
    * backslash turned into a slash and nothing else changed.
    */
  lemma {:induction false} EscapeRoundTrip(path: string)
    ensures UnescapeColons(EscapeAssPath(path)) == ReplaceChar(path, '\\', "/")
  {
    if path != [] {
      EscapeCons(path);
      EscapeRoundTrip(path[1..]);
      var e := EscapeChar(path[0]);
      var rest := EscapeAssPath(path[1..]);
      if path[0] == ':' {
        assert (e + rest)[2..] == rest;
      } else {
        assert (e + rest)[1..] == rest;
        if path[0] != '\\' && rest != [] {
          assert (e + rest)[0] != '\\';
        }
      }
    }
  }

  /** In an escaped path every colon sits right after a backslash, and every backslash right before a colon. */
  predicate ColonsEscaped(s: string)
  {
    (forall i :: 0 <= i < |s| && s[i] == ':' ==> i > 0 && s[i - 1] == '\\')
    && (forall i :: 0 <= i < |s| && s[i] == '\\' ==> i + 1 < |s| && s[i + 1] == ':')
  }

  lemma {:induction false} EscapedPathIsClean(path: string)
    ensures ColonsEscaped(EscapeAssPath(path))
  {
    if path != [] {
      EscapeCons(path);
      EscapedPathIsClean(path[1..]);
      var e := EscapeChar(path[0]);
      var rest := EscapeAssPath(path[1..]);
      var s := e + rest;
      forall i | 0 <= i < |s| && s[i] == ':'
        ensures i > 0 && s[i - 1] == '\\'
      {
        if i >= |e| {
          assert s[i] == rest[i - |e|];
          if i - |e| > 0 {
            assert s[i - 1] == rest[i - |e| - 1];
          } else {
            assert false;
          }
        }
      }
      forall i | 0 <= i < |s| && s[i] == '\\'
        ensures i + 1 < |s| && s[i + 1] == ':'
      {
        if i >= |e| {
          assert s[i] == rest[i - |e|];
          assert s[i + 1] == rest[i - |e| + 1];
        }
      }
    }
  }

  /** The argument list `build_ffmpeg_command` returns, given the finished filter text and the formatted seek times. */
  function FfmpegArgs(videoPath: string, vf: string, outputPath: string, from: string, to: string, crf: int): (args: seq<string>)
  {
    ["ffmpeg", "-y", "-ss", from, "-to", to, "-i", videoPath]
    + ["-vf", vf, "-c:v", "libx264", "-preset", "fast", "-crf", IntToString(crf)]
    + ["-c:a", "aac", "-b:a", "128k", "-movflags", "+faststart", outputPath]
  }

  /** `build_ffmpeg_command`: cut with fast seek, crop to 9:16, burn subtitles, encode. */
  function BuildFfmpegCommand(videoPath: string, assPath: string, outputPath: string, start: real, end: real,
                              crf: int, probe: Option<seq<ProbeStream>>, targetW: int, targetH: int): Option<seq<string>>
  {
    var (srcW, srcH) := VideoDimensions(probe);
    match CalculateCropFilter(srcW, srcH, targetW, targetH)
    case None => None
    case Some(cropFilter) =>
      Some(FfmpegArgs(videoPath, cropFilter + ",ass='" + EscapeAssPath(assPath) + "'", outputPath,
                      SecondsToFfmpegTime(start), SecondsToFfmpegTime(end), crf))
  }

  /**
    * The seek options carry the formatted times, the input and the filter follow them, and
    * the output path is the last argument.
    */
  lemma ArgsLayout(videoPath: string, vf: string, outputPath: string, from: string, to: string, crf: int)
    ensures var args := FfmpegArgs(videoPath, vf, outputPath, from, to, crf);
      |args| == 23 && args[2] == "-ss" && args[3] == from && args[4] == "-to" && args[5] == to
      && args[6] == "-i" && args[7] == videoPath && args[8] == "-vf" && args[9] == vf
      && args[14] == "-crf" && args[22] == outputPath
  {
  }

  /** The crf value is passed through: its argument reads back as the same number. */
  lemma CrfReadsBack(videoPath: string, vf: string, outputPath: string, from: string, to: string, crf: nat)
    ensures var args := FfmpegArgs(videoPath, vf, outputPath, from, to, crf);
      AllDigits(args[15]) && ParseNat(args[15]) == crf
  {
    FormatNatReadsBack(crf, 0);
  }

  /** Fast seek: no "-i" appears before the seek options are complete. */
  lemma SeekBeforeInput(videoPath: string, vf: string, outputPath: string, start: real, end: real, crf: int)
    ensures var args := FfmpegArgs(videoPath, vf, outputPath, SecondsToFfmpegTime(start), SecondsToFfmpegTime(end), crf);
      forall k :: 0 <= k < 6 ==> args[k] != "-i"
  {
    SecondsToFfmpegTimeShape(start);
    SecondsToFfmpegTimeShape(end);
    SeekHeadHasNoInput(videoPath, vf, outputPath, SecondsToFfmpegTime(start), SecondsToFfmpegTime(end), crf);
  }

  /** Seek times too long to be "-i" leave the first six arguments free of it. */
  lemma SeekHeadHasNoInput(videoPath: string, vf: string, outputPath: string, from: string, to: string, crf: int)
    requires |from| >= 9 && |to| >= 9
    ensures var args := FfmpegArgs(videoPath, vf, outputPath, from, to, crf);
      forall k :: 0 <= k < 6 ==> args[k] != "-i"
  {
    var args := FfmpegArgs(videoPath, vf, outputPath, from, to, crf);
    assert args[3] == from && args[5] == to;
    assert |args[0]| == 6 && |args[2]| == 3 && |args[4]| == 3;
    assert args[1] == "-y" && args[1][1] == 'y' != "-i"[1];
  }

  /** An FFmpeg time always has the colon of its seconds field. */
  lemma SecondsToFfmpegTimeShape(seconds: real)
    ensures |SecondsToFfmpegTime(seconds)| >= 9
  {
    var c := ClockOf(seconds);
    ClockRecomposes(seconds);
    FormatFieldWidth(c.m);
    FormatFieldWidth(c.s);
    FormatFieldWidth(Millis(seconds));
  }

  /**
    * With positive probed dimensions the command exists: its filter is the 9:16 crop filter of
    * the probed dimensions followed by the escaped subtitle path, laid out as in ArgsLayout.
    */
  lemma CommandLayout(videoPath: string, assPath: string, outputPath: string, start: real, end: real,
                      crf: nat, probe: Option<seq<ProbeStream>>)
    requires VideoDimensions(probe).0 > 0 && VideoDimensions(probe).1 > 0
    ensures var crop := CalculateCropFilter(VideoDimensions(probe).0, VideoDimensions(probe).1, 1080, 1920);
      var cmd := BuildFfmpegCommand(videoPath, assPath, outputPath, start, end, crf, probe, 1080, 1920);
      crop.Some? && cmd.Some?
      && cmd.value == FfmpegArgs(videoPath, crop.value + ",ass='" + EscapeAssPath(assPath) + "'", outputPath,
                                 SecondsToFfmpegTime(start), SecondsToFfmpegTime(end), crf)
  {
    var (w, h) := VideoDimensions(probe);
    CropCoversTarget(w, h, 1080, 1920);
    var cropFilter := CalculateCropFilter(w, h, 1080, 1920).value;
    var args := FfmpegArgs(videoPath, cropFilter + ",ass='" + EscapeAssPath(assPath) + "'", outputPath,
                           SecondsToFfmpegTime(start), SecondsToFfmpegTime(end), crf);
    assert BuildFfmpegCommand(videoPath, assPath, outputPath, start, end, crf, probe, 1080, 1920) == Some(args);
  }
}
