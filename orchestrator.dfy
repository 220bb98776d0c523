/**
 * The chat-input handler (app.py:268-344) and Clear Chat (app.py:220-222):
 * each message appends the user turn, then exactly one assistant turn built by
 * the image path (validation, generation, error text with a tip) or by the text
 * path (history, streaming, accumulation).
 */
module Orchestrator {
  import opened Wrappers
  import opened Text
  import opened Validator
  import opened ImageGenerator
  import opened Conversation
  import opened History
  import opened Streamer

  // Long literals are written as concatenations so that the verifier sees their characters.
  const TipPrefix := "\n\n\U{1F4A1} Tip: "
  const RateLimitTip := TipPrefix + "Try waiting 30-60 seconds" + " before generating another image."
  const ServerTip := TipPrefix + "OpenAI servers might be busy." + " Try again in a few minutes."
  const RephraseTip := TipPrefix + "Try rephrasing your prompt" + " or making it more specific."

  /** The tip chosen by substring tests on the lowered error: rate limit, then server, then rephrase. */
  function Tip(error: string): (r: string) {
    var lowered := Lower(error);
    if Contains(lowered, "rate limit") then RateLimitTip
    else if Contains(lowered, "server") then ServerTip
    else RephraseTip
  }

  /** `error_with_tips`: the image error followed by its tip. */
  function ErrorWithTips(error: string): (r: string) {
    error + Tip(error)
  }

  /** The caption stored with a generated image; it quotes the raw prompt. */
  function SuccessCaption(prompt: string): (r: string) {
    "\U{2728} Here's your generated image: '" + prompt + "'"
  }

  /** The assistant turn the handler appends for `prompt`, given the log after the user turn. */
  function AssistantReply(
    prompt: string, log: seq<Turn>,
    imageService: string -> ImageOutcome, chatService: seq<ApiMessage> -> ChatStream): (t: Turn)
    ensures WellFormed(t) && t.role == Assistant
    ensures t.image.Some? <==>
      ShouldGenerateImage(prompt) && IsValidImagePrompt(prompt) == Accepted && imageService(CleanPrompt(prompt)).Ok?
  {
    if !ShouldGenerateImage(prompt) then
      AssistantText(Concat(Fragments(chatService(ApiMessages(prompt, log)))))
    else
      match IsValidImagePrompt(prompt)
      case Rejected(reason) => AssistantText(reason)
      case Accepted =>
        match GenerateImage(prompt, imageService)
        case Failed(error) => AssistantText(ErrorWithTips(error))
        case Generated(image) => AssistantImage(SuccessCaption(prompt), image)
  }

  /** The prompt sent to the image service for `prompt`, if one is sent. */
  function ImageRequest(prompt: string): (r: Option<string>) {
    if ShouldGenerateImage(prompt) && IsValidImagePrompt(prompt) == Accepted then Some(CleanPrompt(prompt)) else None
  }

  /** The message list sent to the chat service for `prompt`, if one is sent. */
  function ChatRequest(prompt: string, log: seq<Turn>): (r: Option<seq<ApiMessage>>) {
    if ShouldGenerateImage(prompt) then None else Some(ApiMessages(prompt, log))
  }

  /** The three tips differ from one another. */
  lemma TipsDistinct()
    ensures RateLimitTip != ServerTip && RateLimitTip != RephraseTip && ServerTip != RephraseTip
  {
    var n := |TipPrefix|;
    assert RateLimitTip[n] == 'T' && ServerTip[n] == 'O';
    assert RateLimitTip[n + 4] == 'w' && RephraseTip[n + 4] == 'r';
    assert RephraseTip[n] == 'T';
  }

  /**
   * The text with tips keeps the original error as its start and appends exactly
   * one tip, chosen with priority rate limit, then server, then rephrase.
   */
  lemma ErrorWithTipsShape(error: string)
    ensures StartsWith(ErrorWithTips(error), error)
    ensures var tip := ErrorWithTips(error)[|error|..]; var lowered := Lower(error);
      (tip == RateLimitTip <==> Contains(lowered, "rate limit"))
      && (tip == ServerTip <==> !Contains(lowered, "rate limit") && Contains(lowered, "server"))
      && (tip == RephraseTip <==> !Contains(lowered, "rate limit") && !Contains(lowered, "server"))
  {
    TipsDistinct();
    assert ErrorWithTips(error)[|error|..] == Tip(error);
    assert ErrorWithTips(error)[..|error|] == error;
  }

  /** The rate-limit message always draws the rate-limit tip. */
  lemma RateLimitMessageSelectsRateTip()
    ensures ErrorWithTips(RateLimitMessage) == RateLimitMessage + RateLimitTip
  {
    var lowered := Lower(RateLimitMessage);
    assert lowered[..10] == "rate limit";
    assert OccursAt(lowered, "rate limit", 0);
    ContainsIff(lowered, "rate limit");
  }

  /**
   * Because the prompt is appended to the log before the history is built, the
   * chat service receives the new message twice: once as the last log entry and
   * once as the final user entry.
   */
  lemma TextRequestRepeatsPrompt(prompt: string, log: seq<Turn>)
    ensures ApiMessages(prompt, log + [UserTurn(prompt)])
      == [ApiMessage(System, SystemPrompt)] + Transcript(log) + [ApiMessage(User, prompt), ApiMessage(User, prompt)]
  {
    TranscriptExtend(log, UserTurn(prompt));
  }

  /** A rejected image prompt gets its rejection reason as a text-only reply, and no image is requested. */
  lemma RejectedPromptReply(
    prompt: string, log: seq<Turn>,
    imageService: string -> ImageOutcome, chatService: seq<ApiMessage> -> ChatStream)
    requires ShouldGenerateImage(prompt) && IsValidImagePrompt(prompt).Rejected?
    ensures AssistantReply(prompt, log, imageService, chatService) == AssistantText(IsValidImagePrompt(prompt).reason)
    ensures ImageRequest(prompt) == None && ChatRequest(prompt, log) == None
  {
  }

  /**
   * An accepted image prompt is sent cleaned, with between 10 and 1000
   * characters, as a prefix of the stripped prompt.
   */
  lemma SentPromptBounds(prompt: string)
    requires ShouldGenerateImage(prompt) && IsValidImagePrompt(prompt) == Accepted
    ensures ImageRequest(prompt).Some?
    ensures var sent := ImageRequest(prompt).value;
      MinPromptLength <= |sent| <= MaxPromptLength && StartsWith(Strip(prompt), sent)
  {
  }

  /**
   * A generated image is stored with the success caption and the image; a failed
   * generation is stored as its error text with a tip, and carries no image.
   */
  lemma ImagePathReply(
    prompt: string, log: seq<Turn>,
    imageService: string -> ImageOutcome, chatService: seq<ApiMessage> -> ChatStream)
    requires ShouldGenerateImage(prompt) && IsValidImagePrompt(prompt) == Accepted
    ensures var outcome := imageService(CleanPrompt(prompt));
      var t := AssistantReply(prompt, log, imageService, chatService);
      (outcome.Ok? ==> t == AssistantImage(SuccessCaption(prompt), outcome.handle))
      && (!outcome.Ok? ==> t == AssistantText(ErrorWithTips(Classify(outcome).error)))
    ensures ChatRequest(prompt, log) == None
  {
  }

  /** A rate-limited generation is reported with the rate-limit message and the rate-limit tip. */
  lemma RateLimitedReply(
    prompt: string, log: seq<Turn>,
    imageService: string -> ImageOutcome, chatService: seq<ApiMessage> -> ChatStream)
    requires ShouldGenerateImage(prompt) && IsValidImagePrompt(prompt) == Accepted
    requires imageService(CleanPrompt(prompt)) == RateLimited
    ensures AssistantReply(prompt, log, imageService, chatService) == AssistantText(RateLimitMessage + RateLimitTip)
  {
    RateLimitMessageSelectsRateTip();
  }

  /**
   * A message without image intent is answered with the concatenated stream
   * fragments for the request built from the log, and no image is requested.
   */
  lemma TextPathReply(
    prompt: string, log: seq<Turn>,
    imageService: string -> ImageOutcome, chatService: seq<ApiMessage> -> ChatStream)
    requires !ShouldGenerateImage(prompt)
    ensures AssistantReply(prompt, log, imageService, chatService)
      == AssistantText(Concat(Fragments(chatService(ApiMessages(prompt, log)))))
    ensures ImageRequest(prompt) == None && ChatRequest(prompt, log) == Some(ApiMessages(prompt, log))
  {
  }

  /** The conversation state of one session. */
  class ChatSession {
    var messages: seq<Turn>

    ghost predicate Valid()
      reads this
    {
      WellFormedLog(messages)
    }

    /** A new session starts with an empty log. */
    constructor ()
      ensures messages == [] && Valid()
    {
      messages := [];
    }

    /** Clear Chat: the log becomes empty, whatever it held. */
    method Clear()
      modifies this
      ensures messages == [] && Valid()
    {
      messages := [];
    }

    /**
     * One chat input. `imageService` and `chatService` stand for the two remote
     * calls; `imageRequest` and `chatRequest` are what was sent to them (`None`:
     * no call), and `progress` what the text path showed while streaming.
     * The handler runs only for a non-empty input.
     */
    method HandleChatInput(
      prompt: string, imageService: string -> ImageOutcome, chatService: seq<ApiMessage> -> ChatStream)
      returns (imageRequest: Option<string>, chatRequest: Option<seq<ApiMessage>>, progress: seq<string>)
      requires prompt != []
      requires Valid()
      modifies this
      ensures Valid()
      ensures messages ==
        old(messages) + [UserTurn(prompt),
                         AssistantReply(prompt, old(messages) + [UserTurn(prompt)], imageService, chatService)]
      ensures imageRequest == ImageRequest(prompt)
      ensures chatRequest == ChatRequest(prompt, old(messages) + [UserTurn(prompt)])
      ensures ShouldGenerateImage(prompt) ==> progress == []
      ensures !ShouldGenerateImage(prompt) ==>
        var f := Fragments(chatService(ApiMessages(prompt, old(messages) + [UserTurn(prompt)])));
        |progress| == |f| + 1
        && (forall i :: 0 <= i < |f| ==> progress[i] == Concat(f[..i + 1]) + Cursor)
        && progress[|f|] == Concat(f)
        && Some(progress[|f|]) == messages[|messages| - 1].content
    {
      WellFormedLogExtend(messages, UserTurn(prompt));
      messages := messages + [UserTurn(prompt)];
      ghost var log := messages;
      WellFormedLogExtend(log, AssistantReply(prompt, log, imageService, chatService));
      imageRequest, chatRequest, progress := None, None, [];
      if ShouldGenerateImage(prompt) {
        var check := IsValidImagePrompt(prompt);
        if check.Rejected? {
          assert AssistantText(check.reason) == AssistantReply(prompt, log, imageService, chatService);
          messages := messages + [AssistantText(check.reason)];
        } else {
          imageRequest := Some(CleanPrompt(prompt));
          var reply := GenerateImage(prompt, imageService);
          if reply.Failed? {
            assert AssistantText(ErrorWithTips(reply.error)) == AssistantReply(prompt, log, imageService, chatService);
            messages := messages + [AssistantText(ErrorWithTips(reply.error))];
          } else {
            assert AssistantImage(SuccessCaption(prompt), reply.image) == AssistantReply(prompt, log, imageService, chatService);
            messages := messages + [AssistantImage(SuccessCaption(prompt), reply.image)];
          }
        }
      } else {
        var api := BuildApiMessages(prompt, messages);
        chatRequest := Some(api);
        var fragments := CollectFragments(chatService(api));
        var full;
        full, progress := Accumulate(fragments);
        assert AssistantText(full) == AssistantReply(prompt, log, imageService, chatService);
        messages := messages + [AssistantText(full)];
      }
    }
  }
}
