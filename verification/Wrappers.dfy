// Small shared types and the resource limits that every stage of the pipeline agrees on.

module Wrappers {
  datatype Option<+T> = None | Some(value: T)
}

module Limits {
  // One limit sizes the holder pool, the decoder output buffers and the RGA output pool.
  const POOL_SIZE: nat := 48
  // Buffers requested from V4L2; the driver may grant another number.
  const CAMERA_REQUEST: nat := 16
  // Three quarters of the requested camera buffers may wait to be decoded.
  const MAX_READY: nat := CAMERA_REQUEST * 3 / 4
  const MAX_RGA_RETRY: nat := 2000
  const MAX_PUSH_RETRY: nat := 200
}
