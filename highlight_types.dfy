/**
  * The values the highlight detector (pipeline/highlight_detector.py) passes between its
  * stages, and the part of the configuration (config.py) it reads.
  */
module HighlightTypes {

  /** A clip window in seconds, with its combined score and the tags that explain it. */
  datatype ClipCandidate = ClipCandidate(start: real, end: real, score: real, reason: string)

  function Duration(c: ClipCandidate): real
  {
    c.end - c.start
  }

  /** Python's `max` of two floats. */
  function Max(a: real, b: real): real
  {
    if b > a then b else a
  }

  /** Python's `min` of two floats. */
  function Min(a: real, b: real): real
  {
    if b < a then b else a
  }

  /** The `(start, end, density)` triple `score_transcript_keywords` emits for one keyword. */
  datatype KeywordRegion = KeywordRegion(start: real, end: real, density: real)

  /**
    * The configuration fields the detector reads: clip bounds and count are integers, the
    * three signal weights are floats, and the keyword list is free text.
    */
  datatype DetectorConfig = DetectorConfig(
    clipMinDuration: int,
    clipMaxDuration: int,
    maxClipsPerVideo: int,
    audioEnergyWeight: real,
    keywordWeight: real,
    sceneChangeWeight: real,
    tiktokKeywords: seq<string>)

  /** The defaults of `Config`. */
  const DefaultConfig := DetectorConfig(15, 60, 3, 0.4, 0.3, 0.3, [
    "wait", "listen", "actually", "insane", "crazy", "no way",
    "what", "omg", "wow", "legendary", "fail", "win", "sick",
    "bro", "literally", "shocking", "unbelievable", "secret",
    "wait for it", "you won't believe", "insane", "fire", "goat",
    "clutch", "let's go", "no", "yes", "really", "seriously",
    "warte", "krass", "unfassbar", "unmöglich", "ehrlich"])
}
