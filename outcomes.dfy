/** Failure-carrying values shared by the pipeline's stages. */
module Outcomes {

  /** `Option`, as returned by iterator adapters such as `max_by_key`. */
  datatype Option<+T> = None | Some(value: T)

  /** The error conditions the pipeline distinguishes. */
  datatype Error =
    | MalformedBuffer   // byte count is not a whole number of 8-byte stereo frames
    | CaptureFailure    // the I2S read timed out or the driver reported a fault

  /** `anyhow::Result`, specialised to the errors above. */
  datatype Result<+T> = Ok(value: T) | Err(error: Error)
}
