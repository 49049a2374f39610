/**
 * PCM sample types used by the audio pipeline.
 */
module Pcm {

  const I16Max: int := 32767
  const I16Min: int := -32768

  /** Rust's `i16`. */
  type Int16 = x: int | I16Min <= x <= I16Max
}
