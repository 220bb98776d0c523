/**
 * `generate_image` (app.py:120-153): prompt cleaning, one call of the image
 * service and the mapping of its failures to user-facing error text. The call
 * itself (with the one-second throttle, base64 decoding and image opening) is the
 * `service` parameter; only what it ends in is modelled.
 */
module ImageGenerator {
  import opened Text
  import opened Conversation

  /** The longest prompt sent to the image service. */
  const MaxPromptLength := 1000

  /** How one image-service call ends: an image, or one of the three exception kinds caught. */
  datatype ImageOutcome =
    | Ok(handle: ImageHandle)
    | RateLimited            // openai.RateLimitError
    | ApiError(detail: string)  // openai.APIError, with str(e)
    | Other(detail: string)     // any other exception, with str(e)

  /** `generate_image`'s result: `(image, None)` or `(None, error)`. */
  datatype ImageReply = Generated(image: ImageHandle) | Failed(error: string)

  // Long literals are written as concatenations so that the verifier sees their characters.
  const RateLimitMessage := "Rate limit exceeded." + " Please wait a moment before generating another image."
  const ApiErrorPrefix := "OpenAI API error: "
  const UnexpectedErrorPrefix := "Unexpected error generating image: "

  /**
   * The prompt the service receives: the stripped prompt, silently cut to its
   * first 1000 characters.
   */
  function CleanPrompt(prompt: string): (r: string)
    ensures |r| <= MaxPromptLength
    ensures StartsWith(Strip(prompt), r)
    ensures |Strip(prompt)| <= MaxPromptLength ==> r == Strip(prompt)
    ensures |Strip(prompt)| > MaxPromptLength ==> |r| == MaxPromptLength
  {
    var clean := Strip(prompt);
    if |clean| > MaxPromptLength then clean[..MaxPromptLength] else clean
  }

  /** The `except` clauses of `generate_image`, in their order. */
  function Classify(outcome: ImageOutcome): (r: ImageReply)
    ensures r.Generated? <==> outcome.Ok?
    ensures outcome.Ok? ==> r.image == outcome.handle
    ensures r.Failed? ==> r.error != []
  {
    match outcome
    case Ok(handle) => Generated(handle)
    case RateLimited => Failed(RateLimitMessage)
    case ApiError(detail) => Failed(ApiErrorPrefix + detail)
    case Other(detail) => Failed(UnexpectedErrorPrefix + detail)
  }

  /** `generate_image(prompt)` against the image service `service`. */
  function GenerateImage(prompt: string, service: string -> ImageOutcome): (r: ImageReply) {
    Classify(service(CleanPrompt(prompt)))
  }

  /**
   * No information is lost in the error text: distinct failures give distinct
   * messages, so the text determines the kind of failure and its detail verbatim.
   */
  lemma ClassifyInjective(o1: ImageOutcome, o2: ImageOutcome)
    requires Classify(o1) == Classify(o2)
    ensures o1 == o2
  {
    var r := Classify(o1);
    if r.Failed? {
      var e := r.error;
      // The three message forms already differ in their first character.
      assert o1.RateLimited? ==> e[0] == 'R';
      assert o1.ApiError? ==> e[..|ApiErrorPrefix|] == ApiErrorPrefix && e[0] == 'O';
      assert o1.Other? ==> e[..|UnexpectedErrorPrefix|] == UnexpectedErrorPrefix && e[0] == 'U';
      assert o2.RateLimited? ==> e[0] == 'R';
      assert o2.ApiError? ==> e[0] == 'O';
      assert o2.Other? ==> e[0] == 'U';
      if o1.ApiError? {
        assert o1.detail == e[|ApiErrorPrefix|..] == o2.detail;
      } else if o1.Other? {
        assert o1.detail == e[|UnexpectedErrorPrefix|..] == o2.detail;
      }
    }
  }
}
