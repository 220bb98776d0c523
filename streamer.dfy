/**
 * The text path: the fragments `generate_text_response` yields from a
 * streamed chat completion (app.py:181-187) and the caller's accumulation of
 * them into the reply shown with a cursor and then stored (app.py:332-344).
 * The remote stream is a value: the content deltas that arrived and the text
 * of the exception that ended it, if one did.
 */
module Streamer {
  import opened Wrappers
  import opened Text

  /**
   * One streamed completion as the client sees it: `deltas[i]` is
   * `chunk.choices[0].delta.content` of the i-th chunk (`None` for a chunk
   * without content), and `failure` is `str(e)` of the exception that ended the
   * stream early (or was raised before it began), `None` when it ran to its end.
   */
  datatype ChatStream = ChatStream(deltas: seq<Option<string>>, failure: Option<string>)

  const ErrorPrefix := "Sorry, I encountered an error: "

  /** The progress marker shown after the partial reply while the stream runs. */
  const Cursor := "\U{258C}"

  /** The single fragment yielded when the request or the stream raises. */
  function ErrorFragment(detail: string): (r: string) {
    ErrorPrefix + detail
  }

  /** The content of the deltas that carry some, in arrival order. */
  function Present(deltas: seq<Option<string>>): (r: seq<string>) {
    if deltas == [] then []
    else
      var last := deltas[|deltas| - 1];
      Present(deltas[..|deltas| - 1]) + (if last.Some? then [last.value] else [])
  }

  /** Everything `generate_text_response` yields for `stream`. */
  function Fragments(stream: ChatStream): (r: seq<string>) {
    Present(stream.deltas)
    + (match stream.failure case Some(e) => [ErrorFragment(e)] case None => [])
  }

  /** The text of `fragments` joined in order. */
  function Concat(fragments: seq<string>): (r: string) {
    if fragments == [] then "" else Concat(fragments[..|fragments| - 1]) + fragments[|fragments| - 1]
  }

  /** The generator's loop: yield each delta that has content, then the error fragment if the stream failed. */
  method CollectFragments(stream: ChatStream) returns (fragments: seq<string>)
    ensures fragments == Fragments(stream)
  {
    fragments := [];
    var i := 0;
    while i < |stream.deltas|
      invariant 0 <= i <= |stream.deltas|
      invariant fragments == Present(stream.deltas[..i])
    {
      assert stream.deltas[..i + 1][..i] == stream.deltas[..i];
      var delta := stream.deltas[i];
      if delta.Some? {
        fragments := fragments + [delta.value];
      }
      i := i + 1;
    }
    assert stream.deltas[..i] == stream.deltas;
    if stream.failure.Some? {
      fragments := fragments + [ErrorFragment(stream.failure.value)];
    }
  }

  /**
   * The caller's loop: `full_response += response_chunk` per fragment, each
   * partial reply shown followed by the cursor, and finally the whole reply
   * shown without it. `progress` lists everything shown, in order.
   */
  method Accumulate(fragments: seq<string>) returns (full: string, progress: seq<string>)
    ensures full == Concat(fragments)
    ensures |progress| == |fragments| + 1
    ensures forall i :: 0 <= i < |fragments| ==> progress[i] == Concat(fragments[..i + 1]) + Cursor
    ensures progress[|fragments|] == full
  {
    full := "";
    progress := [];
    var i := 0;
    while i < |fragments|
      invariant 0 <= i <= |fragments|
      invariant full == Concat(fragments[..i])
      invariant |progress| == i
      invariant forall k :: 0 <= k < i ==> progress[k] == Concat(fragments[..k + 1]) + Cursor
    {
      assert fragments[..i + 1][..i] == fragments[..i];
      full := full + fragments[i];
      progress := progress + [full + Cursor];
      i := i + 1;
    }
    assert fragments[..i] == fragments;
    progress := progress + [full];
  }

  /** Each partial reply extends every earlier one: the shown text only grows. */
  lemma {:induction false} ConcatExtends(fragments: seq<string>, i: nat, j: nat)
    requires i <= j <= |fragments|
    ensures StartsWith(Concat(fragments[..j]), Concat(fragments[..i]))
    decreases j
  {
    if i < j {
      ConcatExtends(fragments, i, j - 1);
      assert fragments[..j][..j - 1] == fragments[..j - 1];
    }
  }

  /** Joining two runs of fragments joins their texts. */
  lemma {:induction false} ConcatAppend(a: seq<string>, b: seq<string>)
    ensures Concat(a + b) == Concat(a) + Concat(b)
    decreases |b|
  {
    if b == [] {
      assert a + b == a;
    } else {
      var b0 := b[..|b| - 1];
      assert (a + b)[..|a + b| - 1] == a + b0;
      assert (a + b)[|a + b| - 1] == b[|b| - 1];
      ConcatAppend(a, b0);
    }
  }

  /** Deltas are handled one by one, in order: the fragments of a split arrival are the fragments of its parts. */
  lemma {:induction false} PresentAppend(a: seq<Option<string>>, b: seq<Option<string>>)
    ensures Present(a + b) == Present(a) + Present(b)
    decreases |b|
  {
    if b == [] {
      assert a + b == a;
    } else {
      var b0 := b[..|b| - 1];
      assert (a + b)[..|a + b| - 1] == a + b0;
      assert (a + b)[|a + b| - 1] == b[|b| - 1];
      PresentAppend(a, b0);
    }
  }

  /** When every chunk carries content, one fragment is yielded per chunk, equal to its content. */
  lemma {:induction false} PresentAllContent(deltas: seq<Option<string>>)
    requires forall i :: 0 <= i < |deltas| ==> deltas[i].Some?
    ensures |Present(deltas)| == |deltas|
    ensures forall i :: 0 <= i < |deltas| ==> Present(deltas)[i] == deltas[i].value
  {
    if deltas != [] {
      PresentAllContent(deltas[..|deltas| - 1]);
    }
  }

  /** Chunks without content yield nothing. */
  lemma {:induction false} PresentNoContent(deltas: seq<Option<string>>)
    requires forall i :: 0 <= i < |deltas| ==> deltas[i] == None
    ensures Present(deltas) == []
  {
    if deltas != [] {
      PresentNoContent(deltas[..|deltas| - 1]);
    }
  }

  /**
   * A failed stream ends with exactly one error fragment after the content
   * received before the failure; a completed one yields only content.
   */
  lemma FragmentsShape(stream: ChatStream)
    ensures stream.failure == None ==> Fragments(stream) == Present(stream.deltas)
    ensures stream.failure.Some? ==>
      |Fragments(stream)| == |Present(stream.deltas)| + 1
      && Fragments(stream)[..|Present(stream.deltas)|] == Present(stream.deltas)
      && Fragments(stream)[|Present(stream.deltas)|] == ErrorFragment(stream.failure.value)
  {
  }

  /** The stored reply of a failed stream is the content received so far followed by the error text. */
  lemma {:induction false} FailedReplyText(stream: ChatStream)
    requires stream.failure.Some?
    ensures Concat(Fragments(stream)) == Concat(Present(stream.deltas)) + ErrorPrefix + stream.failure.value
  {
    var p := Present(stream.deltas);
    var e := ErrorFragment(stream.failure.value);
    assert (p + [e])[..|p|] == p;
  }
}
