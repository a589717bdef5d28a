/** Failure values shared by the whole pipeline: the Python exceptions the
    backend raises (or lets propagate) become constructors of `Error`, and
    every operation that can raise returns a `Result`. */
module Common {

  datatype Option<+T> = None | Some(value: T)

  /** The exceptions of the pipeline, one constructor per kind the code can
      raise or let through. */
  datatype Error =
    // gemini_client.py
    | MissingApiKey          // RuntimeError: GEMINI_API_KEY is not set
    | HttpStatus(code: int)  // requests HTTPError re-raised by the retry loop
    | TransportFailure       // any other exception out of requests.post
    | BodyNotJson            // res.json() on a body that is not JSON
    | UnexpectedFormat       // ValueError: unexpected response format
    | RetriesExhausted       // RuntimeError after the retry loop (never raised)
    // json_sanitizer.py
    | EmptyResponse          // "Empty LLM response"
    | NoObjectFound          // "No JSON object found in LLM response"
    | InvalidExtracted       // "Invalid extracted JSON"
    | NoValidObject          // "No valid JSON object found in LLM response"
    // Python built-in failures on values of the wrong shape
    | TypeError
    | AttributeError
    | KeyError
    | ValueError

  datatype Result<+T> = Ok(value: T) | Err(error: Error) {
    predicate IsFailure() { Err? }

    function PropagateFailure<U>(): Result<U>
      requires Err?
    {
      Err(error)
    }

    function Extract(): T
      requires Ok?
    {
      value
    }
  }
}
