/** What the model keeps of a failed HTTP call. */
module Http {
  import opened Optional

  /** A failed HTTP call: its status and the `message` of its body, if any. */
  datatype HttpError = HttpError(status: int, message: Option<string>)
}
