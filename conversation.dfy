/**
 * The conversation log `st.session_state.messages`: an ordered list of turns,
 * each a dictionary with a "role", a "content" and, for a generated image, an
 * "image" (app.py:103-104, 270, 286, 314, 323-327, 344).
 */
module Conversation {
  import opened Wrappers

  /** An image the image service produced; its content is not interpreted here. */
  datatype ImageHandle = ImageHandle(data: seq<bv8>)

  datatype Role = System | User | Assistant

  /**
   * One log entry. `content` is `None` when the entry has no "content" key or its
   * value is not a string; `image` is the "image" key when present.
   */
  datatype Turn = Turn(role: Role, content: Option<string>, image: Option<ImageHandle>)

  /** `{"role": "user", "content": text}`. */
  function UserTurn(text: string): (r: Turn) {
    Turn(User, Some(text), None)
  }

  /** `{"role": "assistant", "content": text}`. */
  function AssistantText(text: string): (r: Turn) {
    Turn(Assistant, Some(text), None)
  }

  /** `{"role": "assistant", "content": caption, "image": image}`. */
  function AssistantImage(caption: string, image: ImageHandle): (r: Turn) {
    Turn(Assistant, Some(caption), Some(image))
  }

  /**
   * The shape of every entry the chat handler appends: a user or assistant turn
   * with string content, and only assistant turns carry an image.
   */
  predicate WellFormed(t: Turn) {
    t.role != System && t.content.Some? && (t.role == User ==> t.image == None)
  }

  predicate WellFormedLog(log: seq<Turn>) {
    forall i :: 0 <= i < |log| ==> WellFormed(log[i])
  }

  /** Appending a well-formed turn keeps the log well-formed. */
  lemma WellFormedLogExtend(log: seq<Turn>, t: Turn)
    requires WellFormedLog(log) && WellFormed(t)
    ensures WellFormedLog(log + [t])
  {
    forall i | 0 <= i < |log| + 1 ensures WellFormed((log + [t])[i]) {
      if i < |log| {
        assert (log + [t])[i] == log[i];
      }
    }
  }
}
