/** Speaking on the avatar, shared by the Node controller and the Python
    conversation: each chunk is sent between two idle waits, so no two sends
    overlap. */
module Avatar {
  /** One step of the avatar script: wait for idle, or speak a chunk. */
  datatype Step = AwaitIdle | Speak(text: string)

  /** Each chunk is spoken between two idle waits. */
  function Speech(chunks: seq<string>): (steps: seq<Step>)
    ensures |steps| == 3 * |chunks|
  {
    if chunks == [] then []
    else Speech(chunks[..|chunks| - 1]) + [AwaitIdle, Speak(chunks[|chunks| - 1]), AwaitIdle]
  }

  /** Speaking one more chunk adds its three steps. */
  lemma SpeechSnoc(chunks: seq<string>, c: string)
    ensures Speech(chunks + [c]) == Speech(chunks) + [AwaitIdle, Speak(c), AwaitIdle]
  {
    assert (chunks + [c])[..|chunks|] == chunks;
  }

  /** The `k`th chunk is spoken at step `3k + 1`, between two idle waits, so
      no two sends overlap. */
  lemma {:induction false} SpeechAt(chunks: seq<string>, k: nat)
    requires k < |chunks|
    ensures var d := Speech(chunks);
      d[3 * k] == AwaitIdle && d[3 * k + 1] == Speak(chunks[k]) && d[3 * k + 2] == AwaitIdle
  {
    var n := |chunks| - 1;
    if k < n {
      SpeechAt(chunks[..n], k);
      assert chunks[..n][k] == chunks[k];
    }
  }
}
