# Auralis chat routing core, in Dafny

Auralis is a Streamlit chat front-end. A user message goes to one of two remote services, chosen by a keyword heuristic, except a refused image prompt, which goes to neither:

- a streamed chat completion, for text;
- an image synthesis call, for pictures.

The assistant's reply is kept in a linear conversation log. This project models the decision logic of `app.py` and proves properties of it. The page layout and widget rendering are not modelled.

Modules, one per component (all files are verified together):

- `Text` (`text.dfy`): `str.lower()` (ASCII letters), `str.strip()` (the whitespace set of `str.isspace`), the substring test `w in s` and `any(w in s for w in words)`, with reference definitions by index.
- `Validator` (`validator.dfy`): `IMAGE_KEYWORDS`, `should_generate_image` and `is_valid_image_prompt`. The Python result `(True, None)` is `Accepted` and `(False, reason)` is `Rejected(reason)`. `ValidatorExamples` (`validator_examples.dfy`) works through concrete messages.
- `ImageGenerator` (`image_generator.dfy`): the prompt cleaning and the exception-to-message mapping of `generate_image`. The remote call, with its throttle, base64 decoding and image opening, is a parameter `service: string -> ImageOutcome`. The Python result `(image, None)` / `(None, error)` is `Generated(image)` / `Failed(error)`.
- `Conversation` (`conversation.dfy`): the log entries of `st.session_state.messages`, and the opaque `ImageHandle` an image entry holds.
- `History` (`history.dfy`): the request list built by `generate_text_response`, as a loop (`BuildApiMessages`) proved against a specification (`ApiMessages`, `Transcript`).
- `Streamer` (`streamer.dfy`): the fragments the text generator yields from a stream (`CollectFragments`), and the caller's accumulation with the progress cursor (`Accumulate`). A stream is the value `ChatStream(deltas, failure)`: the content deltas in arrival order, and the exception text if the stream failed.
- `Orchestrator` (`orchestrator.dfy`): the tip selection, the specification `AssistantReply` of the reply appended for one message, and the class `ChatSession`, whose `messages` field is the log. `HandleChatInput` appends the user turn and then one assistant turn. It returns what it sent to each service (`None` when a service was not called) and the progress values it showed. `Clear` empties the log.

Two behaviours of the code worth knowing:

- The text path builds its history from the log after the user turn was appended (app.py:270, app.py:336). So the request holds the new message twice. `Orchestrator.TextRequestRepeatsPrompt` states the behaviour as written.
- The tip is chosen by substring tests on the lowered error text, not by the error's kind. Any error text whose lowered form contains "rate limit" gets the rate-limit tip. Any other error text whose lowered form contains "server" gets the server tip, unexpected errors included.

## Model

| member | source | states |
|---|---|---|
| `Text.StripSlice` | app.py:195 | `strip()` returns one contiguous slice of the input; only whitespace is cut on either side, and the result neither begins nor ends with whitespace |
| `Text.ContainsIff` | app.py:191 | the substring test `w in s` holds iff `w` occurs at some index of `s` |
| `Text.ContainsAnyOccurs` | app.py:191 | `any(w in s for w in words)` holds iff some listed word occurs at some index of `s` |
| `Validator.ShouldGenerateImageIff` | app.py:189-191 | a message has image intent iff one of the ten `IMAGE_KEYWORDS` occurs in its lowered form |
| `Validator.IsValidImagePrompt` | app.py:193-206 | the check returns accept, the minimum-length reason or the content reason, and nothing else |
| `Validator.ShortPromptRejectedForLength` | app.py:195-199 | a stripped prompt under 10 characters is refused with the length reason, even if it holds a forbidden word |
| `Validator.LongPromptCheck` | app.py:201-206 | from 10 stripped characters on, the prompt is refused for content iff a forbidden word occurs in its lowered stripped form, and accepted otherwise |
| `ValidatorExamples.DrawRequestIsImage` | app.py:189-191 | "please Draw a cat" has image intent |
| `ValidatorExamples.StartOverTriggers` | app.py:189-191 | "Let me start" has image intent, through "art" inside "start" |
| `ValidatorExamples.QuestionIsText` | app.py:189-191 | "What is quantum computing?" has no image intent |
| `ValidatorExamples.HiTooShort` | app.py:197-199 | "hi" is refused for length |
| `ValidatorExamples.ShortForbiddenRejectedForLength` | app.py:195-199 | "  nsfw art " is refused for length, not for content |
| `ValidatorExamples.SunsetAccepted` | app.py:193-206 | "a beautiful sunset over mountains" is accepted |
| `ValidatorExamples.NsfwRejected` | app.py:201-204 | "draw something nsfw please" is refused for content |
| `ImageGenerator.CleanPrompt` | app.py:124-126 | the prompt sent is a prefix of the stripped prompt, at most 1000 characters long; it is the whole stripped prompt when that fits, else exactly its first 1000 characters |
| `ImageGenerator.Classify` | app.py:146-153 | an image is returned iff the call succeeded, and it is that image; every failure gives a non-empty error text |
| `ImageGenerator.ClassifyInjective` | app.py:148-153 | distinct failures give distinct error texts, so the text preserves the failure kind and its detail verbatim |
| `History.ApiMessages` | app.py:158-172 | the request has 2 more entries than the transcript: the system prompt first, the transcript in the middle, the new message as a user entry last |
| `History.BuildApiMessages` | app.py:158-172 | the appending loop builds exactly the request `ApiMessages` describes |
| `History.TranscriptSelects` | app.py:161-169 | transcript entry `j` is the role and text of the sendable log entry at position `SendableIndices(log)[j]` |
| `History.TranscriptIndicesIncrease` | app.py:162 | those positions strictly increase, so log order is kept |
| `History.TranscriptIndicesComplete` | app.py:162-165 | every user or assistant entry with string content is included |
| `History.TranscriptAppend` | app.py:162-169 | the transcript of a joined log is the join of the transcripts |
| `History.TranscriptExtend` | app.py:162-169 | appending one turn appends its entry to the transcript, if it is sendable |
| `History.TranscriptOfWellFormedLog` | app.py:162-169 | for a log the handler built, nothing is skipped, image turns included through their caption |
| `Streamer.CollectFragments` | app.py:181-187 | the generator yields the content of the deltas that have some, in arrival order, then one error fragment if the stream failed |
| `Streamer.Accumulate` | app.py:333-341 | the final reply is the join of all fragments; one progress value per fragment, holding the join so far plus the cursor; then the final reply without the cursor |
| `Streamer.ConcatExtends` | app.py:336-338 | each partial reply extends every earlier one |
| `Streamer.ConcatAppend` | app.py:337 | joining two runs of fragments joins their texts |
| `Streamer.PresentAppend` | app.py:182-184 | the deltas are handled one by one, in order |
| `Streamer.PresentAllContent` | app.py:183-184 | when every chunk has content, one fragment per chunk is yielded, equal to that content |
| `Streamer.PresentNoContent` | app.py:183 | chunks without content yield nothing |
| `Streamer.FragmentsShape` | app.py:182-187 | a completed stream yields only content; a failed one yields the content received, then exactly one error fragment |
| `Streamer.FailedReplyText` | app.py:186-187 | the stored reply of a failed stream is the content received so far followed by "Sorry, I encountered an error: " and the error text |
| `Orchestrator.TipsDistinct` | app.py:305-311 | the three tips are different texts |
| `Orchestrator.ErrorWithTipsShape` | app.py:305-311 | the reported text starts with the error and appends exactly one tip: rate limit iff "rate limit" is in the lowered error, else server iff "server" is, else rephrase |
| `Orchestrator.RateLimitMessageSelectsRateTip` | app.py:148-149 | the rate-limit message always draws the rate-limit tip |
| `Orchestrator.TextRequestRepeatsPrompt` | app.py:270 | since the prompt is logged before the history is built, the chat request ends with the new user message twice |
| `Orchestrator.AssistantReply` | app.py:276-344 | the reply is a well-formed assistant turn; it carries an image iff the message has image intent, the prompt is accepted and the image call succeeded |
| `Orchestrator.RejectedPromptReply` | app.py:279-286 | a refused prompt is answered with its reason as text only, and neither service is called |
| `Orchestrator.SentPromptBounds` | app.py:279-298 | an accepted prompt is sent cleaned, with 10 to 1000 characters, as a prefix of the stripped prompt |
| `Orchestrator.ImagePathReply` | app.py:297-327 | success stores the caption with the image; failure stores the error text with its tip and no image; the chat service is not called |
| `Orchestrator.RateLimitedReply` | app.py:303-314 | a rate-limited call is stored as the rate-limit message plus the rate-limit tip |
| `Orchestrator.TextPathReply` | app.py:329-344 | without image intent the reply is the joined fragments of the stream for the request built from the log, and no image is requested |
| `Orchestrator.ChatSession.constructor` | app.py:103-104 | a session starts with an empty log |
| `Orchestrator.ChatSession.Clear` | app.py:220-221 | Clear Chat empties the log, so a second clear changes nothing |
| `Orchestrator.ChatSession.HandleChatInput` | app.py:268-344 | for a non-empty input, the log grows by exactly the user turn and then `AssistantReply`; the image service is called iff image intent and acceptance hold, with the cleaned prompt; the chat service is called iff there is no image intent, with the request built from the extended log, and then the progress values are the join so far plus the cursor, one per fragment, then the full reply that is stored; the log stays well-formed |

## Left out

- Page configuration, CSS, header, footer, sidebar tips and all rendering (`st.chat_message`, `st.markdown`, `st.image`, placeholders): presentation only. The "generating" notice of the image path is not modelled.
- Credential lookup and OpenAI client construction (app.py:103-118): secret and environment I/O.
- The remote calls `images.generate` and `chat.completions.create`: they are function parameters. A stream is a finished value, so the interleaving of yielding and drawing is not modelled. Only the order and content of what is shown are.
- Base64 decoding and `PIL.Image.open`: the image is the opaque `Conversation.ImageHandle`. A decoding failure is an `Other` outcome of the service, as it reaches the same `except Exception` branch.
- The one-second `time.sleep` throttle (app.py:129): timing only.
- The text of exceptions (`str(e)`): an input string of the outcome or stream.
- The example-prompt buttons (app.py:246-249): they append a user turn with no reply. So no one-reply-per-user-turn invariant is stated for the whole log, only the two-turn growth of `HandleChatInput`.
- `st.rerun()` and the Streamlit script re-execution model.
- `Text.Lower`: lowers ASCII letters only. Python's Unicode `lower()` also maps, for example, the Kelvin sign to "k" and can lengthen a string. A message whose keyword needs such a mapping is routed differently here.
