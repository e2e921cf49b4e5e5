/** Go `error` values, reduced to the text their `Error()` method returns. */
module GoErrors {

  /** An opaque error produced by code outside the model (PC/SC, `errors.New`). */
  datatype GoError = GoError(text: string)

  /** `fmt.Errorf(prefix + ": %w", cause)`: the wrapping error's text is the
      prefix, a colon and a space, then the cause's text. */
  function Wrap(prefix: string, cause: GoError): (e: GoError)
    ensures |e.text| == |prefix| + 2 + |cause.text|
    ensures e.text[..|prefix|] == prefix
    ensures e.text[|prefix|..|prefix| + 2] == ": "
    ensures e.text[|prefix| + 2..] == cause.text
  {
    GoError(prefix + ": " + cause.text)
  }
}
