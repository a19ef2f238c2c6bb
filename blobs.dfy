/** Values shared by every part of the packager model: optional values,
    results with an error channel, and the data a fetch or a file holds. */
module Blobs {

  datatype Option<+T> = None | Some(value: T)

  /** An operation that either produces a value or fails with an error
      (a rejected promise or a thrown exception in the packager). */
  datatype Result<+T, +E> = Ok(value: T) | Err(error: E)

  type byte = bv8

  /** What a download or a zip entry holds: text (an xhr of type 'text')
      or raw bytes (an ArrayBuffer or Blob). */
  datatype Blob = Text(text: string) | Binary(bytes: seq<byte>)
}
