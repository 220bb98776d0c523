/**
 * The message list `generate_text_response` sends to the chat-completion
 * service (app.py:158-172): the system prompt, the textual transcript of the
 * log, and the new message.
 */
module History {
  import opened Wrappers
  import opened Conversation

  /** One `{"role": ..., "content": ...}` entry of the request; it never carries an image. */
  datatype ApiMessage = ApiMessage(role: Role, content: string)

  /** `SYSTEM_PROMPT` (app.py:94-97), written in pieces so that the verifier sees its characters. */
  const SystemPrompt :=
    "\nYou are Auralis, a helpful and funny AI "
    + "assistant who gives detailed responses. "
    + "You can engage in conversations on a \n"
    + "wide range of topics and help users with "
    + "various tasks. Be friendly and informative "
    + "in your responses.\n"

  /** A log entry that is copied into the request: user or assistant role, string content. */
  predicate Sendable(t: Turn) {
    (t.role == User || t.role == Assistant) && t.content.Some?
  }

  /** The request entry for a sendable log entry: its role and text, never its image. */
  function Project(t: Turn): (r: ApiMessage)
    requires Sendable(t)
  {
    ApiMessage(t.role, t.content.value)
  }

  /** The request entries for the sendable entries of `log`, in log order. */
  function Transcript(log: seq<Turn>): (r: seq<ApiMessage>) {
    if log == [] then []
    else
      var last := log[|log| - 1];
      Transcript(log[..|log| - 1]) + (if Sendable(last) then [Project(last)] else [])
  }

  /** The positions of the sendable entries of `log`, in increasing order. */
  function SendableIndices(log: seq<Turn>): (r: seq<nat>) {
    if log == [] then []
    else SendableIndices(log[..|log| - 1]) + (if Sendable(log[|log| - 1]) then [|log| - 1] else [])
  }

  /** The full request: system entry, transcript, then the new message as a user entry. */
  function ApiMessages(message: string, log: seq<Turn>): (r: seq<ApiMessage>)
    ensures |r| == |Transcript(log)| + 2
    ensures r[0] == ApiMessage(System, SystemPrompt)
    ensures r[|r| - 1] == ApiMessage(User, message)
    ensures r[1..|r| - 1] == Transcript(log)
  {
    [ApiMessage(System, SystemPrompt)] + Transcript(log) + [ApiMessage(User, message)]
  }

  /**
   * The request list as `generate_text_response` builds it: a loop appending
   * one entry per sendable log entry.
   */
  method BuildApiMessages(message: string, log: seq<Turn>) returns (api: seq<ApiMessage>)
    ensures api == ApiMessages(message, log)
  {
    api := [ApiMessage(System, SystemPrompt)];
    var i := 0;
    while i < |log|
      invariant 0 <= i <= |log|
      invariant api == [ApiMessage(System, SystemPrompt)] + Transcript(log[..i])
    {
      var msg := log[i];
      assert log[..i + 1][..i] == log[..i];
      if (msg.role == User || msg.role == Assistant) && msg.content.Some? {
        api := api + [ApiMessage(msg.role, msg.content.value)];
      }
      i := i + 1;
    }
    assert log[..i] == log;
    api := api + [ApiMessage(User, message)];
  }

  /**
   * The transcript is exactly the projections of the sendable entries, in log
   * order: entry `j` comes from position `SendableIndices(log)[j]`
   * (with TranscriptIndicesIncrease and TranscriptIndicesComplete below).
   */
  lemma {:induction false} TranscriptSelects(log: seq<Turn>)
    ensures |Transcript(log)| == |SendableIndices(log)|
    ensures forall j :: 0 <= j < |SendableIndices(log)| ==>
      SendableIndices(log)[j] < |log| && Sendable(log[SendableIndices(log)[j]])
      && Transcript(log)[j] == Project(log[SendableIndices(log)[j]])
  {
    if log != [] {
      var init := log[..|log| - 1];
      TranscriptSelects(init);
      var idx0 := SendableIndices(init);
      forall j | 0 <= j < |idx0| ensures log[idx0[j]] == init[idx0[j]] {
      }
    }
  }

  /** The positions the transcript is drawn from increase: log order is kept. */
  lemma {:induction false} TranscriptIndicesIncrease(log: seq<Turn>)
    ensures forall j :: 0 <= j < |SendableIndices(log)| ==> SendableIndices(log)[j] < |log|
    ensures forall j, k :: 0 <= j < k < |SendableIndices(log)| ==> SendableIndices(log)[j] < SendableIndices(log)[k]
  {
    if log != [] {
      TranscriptIndicesIncrease(log[..|log| - 1]);
    }
  }

  /** Every sendable entry of the log is drawn into the transcript. */
  lemma {:induction false} TranscriptIndicesComplete(log: seq<Turn>)
    ensures forall i :: 0 <= i < |log| && Sendable(log[i]) ==> i in SendableIndices(log)
  {
    if log != [] {
      var init := log[..|log| - 1];
      TranscriptIndicesComplete(init);
      forall i | 0 <= i < |init| ensures log[i] == init[i] {
      }
    }
  }

  /** The transcript of a log is the transcript of its first part followed by that of its second. */
  lemma {:induction false} TranscriptAppend(a: seq<Turn>, b: seq<Turn>)
    ensures Transcript(a + b) == Transcript(a) + Transcript(b)
    decreases |b|
  {
    if b != [] {
      var b0 := b[..|b| - 1];
      assert (a + b)[..|a + b| - 1] == a + b0;
      assert (a + b)[|a + b| - 1] == b[|b| - 1];
      TranscriptAppend(a, b0);
    } else {
      assert a + b == a;
    }
  }

  /** Appending one turn to the log appends its request entry to the transcript, if it is sendable. */
  lemma TranscriptExtend(log: seq<Turn>, t: Turn)
    ensures Transcript(log + [t]) == Transcript(log) + (if Sendable(t) then [Project(t)] else [])
  {
    assert (log + [t])[..|log|] == log;
  }

  /**
   * In a log the chat handler built, nothing is skipped: the transcript has one
   * entry per turn, the image turns included through their caption.
   */
  lemma {:induction false} TranscriptOfWellFormedLog(log: seq<Turn>)
    requires WellFormedLog(log)
    ensures |Transcript(log)| == |log|
    ensures forall i :: 0 <= i < |log| ==> Transcript(log)[i] == ApiMessage(log[i].role, log[i].content.value)
  {
    if log != [] {
      var init := log[..|log| - 1];
      assert WellFormedLog(init) by {
        forall i | 0 <= i < |init| ensures WellFormed(init[i]) {
          assert init[i] == log[i];
        }
      }
      TranscriptOfWellFormedLog(init);
    }
  }
}
