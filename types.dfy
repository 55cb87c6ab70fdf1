/**
 * Values shared by the encoder, the remote client and the two UI components.
 * The repository's `types` module, which declares `GenerativePart`, is not part
 * of this model; its shape is the one the other files build and read.
 */
module Types {

  datatype Option<+T> = None | Some(value: T)

  datatype Result<+R, +E> = Success(value: R) | Failure(error: E)

  /** What a `throw` or a `reject` carries: an `Error` with its message, or any other value. */
  datatype Thrown = Error(message: string) | NonError

  /** A browser `File`, reduced to its name and its declared MIME type (`file.type`). */
  datatype File = File(name: string, fileType: string)

  /** `{ inlineData: { data, mimeType } }`: a base64 payload and the media type it is sent with. */
  datatype InlineData = InlineData(data: string, mimeType: string)
  datatype GenerativePart = GenerativePart(inlineData: InlineData)

  /** JavaScript truthiness of a `string | null | undefined`: present and not the empty string. */
  predicate Truthy(s: Option<string>) {
    s.Some? && s.value != ""
  }
}
