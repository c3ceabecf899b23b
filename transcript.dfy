/** The transcription result the core consumes (pipeline/transcriber.py: `WordSegment`). */
module Transcript {

  /** One transcribed word with its timing in seconds and the recogniser's confidence. */
  datatype WordSegment = WordSegment(word: string, start: real, end: real, probability: real)
}
