/**
 * The two pure checks that route a chat message: image-intent detection by
 * keyword and the acceptability test an image prompt must pass (app.py:100,
 * app.py:189-206).
 */
module Validator {
  import opened Text

  /** `IMAGE_KEYWORDS`: a message mentioning any of these is treated as an image request. */
  const ImageKeywords: seq<string> :=
    ["create", "visual", "image", "generate", "picture", "draw", "make", "design", "art", "illustration"]

  /** `forbidden_words` of the image-prompt check. */
  const ForbiddenWords: seq<string> := ["nsfw", "nude", "explicit", "violence", "blood", "gore"]

  /** The minimum number of characters of a stripped image prompt. */
  const MinPromptLength := 10

  // Long literals are written as concatenations so that the verifier sees their characters.
  const MinLengthReason :=
    "Please provide a more detailed description" + " (at least 10 characters) to generate a high-quality image."
  const ContentReason :=
    "I can't generate images with that content." + " Please try a different, more appropriate prompt."

  /**
   * `should_generate_image`: some keyword is a substring of the lowered message.
   * Matching is deliberately not by word, so "start" triggers through "art".
   */
  predicate ShouldGenerateImage(message: string) {
    ContainsAny(Lower(message), ImageKeywords)
  }

  /** The outcome of `is_valid_image_prompt`: `(True, None)` or `(False, reason)`. */
  datatype PromptCheck = Accepted | Rejected(reason: string)

  /**
   * `is_valid_image_prompt`: the length test on the stripped message runs first,
   * the denylist test on its lowered form second.
   */
  function IsValidImagePrompt(message: string): (r: PromptCheck)
    ensures r == Accepted || r == Rejected(MinLengthReason) || r == Rejected(ContentReason)
  {
    var clean := Strip(message);
    if |clean| < MinPromptLength then Rejected(MinLengthReason)
    else if ContainsAny(Lower(clean), ForbiddenWords) then Rejected(ContentReason)
    else Accepted
  }

  /** Image intent holds exactly when one keyword occurs at some index of the lowered message. */
  lemma ShouldGenerateImageIff(message: string)
    ensures ShouldGenerateImage(message) <==>
      exists k: nat, i: nat :: k < |ImageKeywords| && OccursAt(Lower(message), ImageKeywords[k], i)
  {
    ContainsAnyOccurs(Lower(message), ImageKeywords);
    assert ShouldGenerateImage(message) == ContainsAny(Lower(message), ImageKeywords);
  }

  /** A prompt whose stripped form is shorter than 10 characters is refused for length, whatever words it holds. */
  lemma ShortPromptRejectedForLength(message: string)
    requires |Strip(message)| < MinPromptLength
    ensures IsValidImagePrompt(message) == Rejected(MinLengthReason)
  {
  }

  /**
   * From 10 stripped characters on, the prompt is refused for content exactly when
   * a forbidden word occurs in its lowered stripped form, and accepted otherwise.
   */
  lemma LongPromptCheck(message: string)
    requires |Strip(message)| >= MinPromptLength
    ensures IsValidImagePrompt(message) == Rejected(ContentReason) <==>
      exists k: nat, i: nat :: k < |ForbiddenWords| && OccursAt(Lower(Strip(message)), ForbiddenWords[k], i)
    ensures IsValidImagePrompt(message) == Accepted <==>
      !exists k: nat, i: nat :: k < |ForbiddenWords| && OccursAt(Lower(Strip(message)), ForbiddenWords[k], i)
  {
    ContainsAnyOccurs(Lower(Strip(message)), ForbiddenWords);
    assert IsValidImagePrompt(message) == if ContainsAny(Lower(Strip(message)), ForbiddenWords)
      then Rejected(ContentReason) else Accepted;
  }
}
