/** The generation capability's request and response shapes, as the
    modelled code uses them. The generation call itself is not modelled: it
    appears as a function from a request to an outcome. */
module GenAI {

  /** One part of a generation request: a plain string, or
      `{"inline_data": {"mime_type": ..., "data": ...}}`. */
  datatype Part = Text(text: string) | InlineData(mimeType: string, data: string)

  type Request = seq<Part>

  /** What a `generate_content` call comes to: a response whose `.text` is
      `text`; a missing (falsy) response; or a raised exception with its
      message `str(e)`. */
  datatype Outcome = Responded(text: string) | NoResponse | Raised(message: string)

  const JPEG := "image/jpeg"
}
