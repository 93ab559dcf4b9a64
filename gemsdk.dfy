/** The Python Gemini wrapper: the chat history is split into the context
    and the current question, the context is windowed and converted to the
    SDK's turn format behind a persona turn, and one reply comes back. The
    model call itself is an input. */
module GemSdk {
  import opened Common

  /** A history entry: `{"role": ..., "content": ...}`. */
  datatype Msg = Msg(role: string, content: string)

  /** An SDK turn: `{"role": ..., "parts": [{"text": ...}]}`, parts as their texts. */
  datatype Turn = Turn(role: string, parts: seq<string>)

  const LastNotUser: string := "Last message must be a user question"
  const KeyNotSet: string := "GEMINI_API_KEY not set"
  const DefaultModel: string := "gemini-1.5-flash"

  /** Python truthiness of an optional string. */
  predicate Given(s: Option<string>)
  {
    s.Some? && s.value != []
  }

  /** The constructor's settings: the key given, else the environment's,
      and without one it raises; the model given, else the environment's
      `GEMINI_MODEL` (which may be set but empty), else the default. */
  function Configure(apiKey: Option<string>, envKey: Option<string>,
                     model: Option<string>, envModel: Option<string>): (r: Result<(string, string), string>)
    ensures r.Err? <==> !Given(apiKey) && !Given(envKey)
    ensures r.Err? ==> r.error == KeyNotSet
    ensures r.Ok? ==> r.value.0 == (if Given(apiKey) then apiKey.value else envKey.value) && r.value.0 != []
    ensures r.Ok? && Given(model) ==> r.value.1 == model.value
    ensures r.Ok? && !Given(model) ==> r.value.1 == (if envModel.Some? then envModel.value else DefaultModel)
  {
    var key := if Given(apiKey) then apiKey else envKey;
    if !Given(key) then Err(KeyNotSet)
    else Ok((key.value, if Given(model) then model.value else if envModel.Some? then envModel.value else DefaultModel))
  }

  /** One history entry in SDK form: "user" stays "user", every other role is "model". */
  function ToTurn(m: Msg): Turn
  {
    Turn(if m.role == "user" then "user" else "model", [m.content])
  }

  /** The converted history: one turn per entry, in order. */
  function ToGenai(hist: seq<Msg>): (out: seq<Turn>)
  {
    if hist == [] then [] else ToGenai(hist[..|hist| - 1]) + [ToTurn(hist[|hist| - 1])]
  }

  /** The conversion keeps length and order, maps the role and carries the
      content as the single text part. */
  lemma {:induction false} ToGenaiAt(hist: seq<Msg>)
    ensures |ToGenai(hist)| == |hist|
    ensures forall i :: 0 <= i < |hist| ==>
      && ToGenai(hist)[i].parts == [hist[i].content]
      && (ToGenai(hist)[i].role == "user" <==> hist[i].role == "user")
      && (ToGenai(hist)[i].role == "user" || ToGenai(hist)[i].role == "model")
  {
    if hist != [] {
      var n := |hist| - 1;
      var init := hist[..n];
      ToGenaiAt(init);
      var t := ToGenai(hist);
      assert t == ToGenai(init) + [ToTurn(hist[n])];
      assert "model" != "user" by {
        assert "model"[0] != "user"[0];
      }
      forall i | 0 <= i < |hist|
        ensures t[i] == ToTurn(hist[i])
      {
        if i < n {
          assert t[i] == ToGenai(init)[i] && init[i] == hist[i];
        }
      }
    }
  }

  /** `_to_genai`: the conversion loop, proved against `ToGenai`. */
  method ConvertHistory(hist: seq<Msg>) returns (out: seq<Turn>)
    ensures out == ToGenai(hist)
  {
    out := [];
    for i := 0 to |hist|
      invariant out == ToGenai(hist[..i])
    {
      assert hist[..i + 1][..i] == hist[..i];
      out := out + [ToTurn(hist[i])];
    }
    assert hist[..|hist|] == hist;
  }

  /** Python's `xs[-k:]`: a negative start counts from the end and is
      clamped at 0, a non-negative one is clamped at the length. */
  function TakeLast<T>(xs: seq<T>, k: int): (r: seq<T>)
  {
    var start := if -k < 0 then (if |xs| - k < 0 then 0 else |xs| - k) else (if -k > |xs| then |xs| else -k);
    xs[start..]
  }

  /** For a positive window `xs[-k:]` is the last min(k, |xs|) entries; with
      k = 0 it is the whole sequence, since `-0` is `0`. */
  lemma TakeLastWindow<T>(xs: seq<T>, k: int)
    ensures k > 0 ==> TakeLast(xs, k) == xs[(if k < |xs| then |xs| - k else 0)..]
    ensures k == 0 ==> TakeLast(xs, k) == xs
    ensures k < 0 ==> TakeLast(xs, k) == xs[(if -k > |xs| then |xs| else -k)..]
  {
  }

  /** The chat history handed to the SDK: the persona as the first user
      turn, then the windowed context in order. */
  function Turns(context: seq<Msg>, personaPrompt: string, maxContext: int): (turns: seq<Turn>)
  {
    [Turn("user", [personaPrompt])] + ToGenai(TakeLast(context, maxContext))
  }

  /** The turns start with the persona and continue with the last
      min(maxContext, |context|) context entries, converted, in order. */
  lemma TurnsShape(context: seq<Msg>, personaPrompt: string, maxContext: int)
    requires maxContext > 0
    ensures var turns := Turns(context, personaPrompt, maxContext);
      var w := if maxContext < |context| then maxContext else |context|;
      && |turns| == 1 + w
      && turns[0] == Turn("user", [personaPrompt])
      && forall i :: 1 <= i <= w ==> turns[i] == ToTurn(context[|context| - w + i - 1])
  {
    var w := if maxContext < |context| then maxContext else |context|;
    var window := TakeLast(context, maxContext);
    TakeLastWindow(context, maxContext);
    assert window == context[|context| - w..];
    ToGenaiPointwise(window);
    var turns := Turns(context, personaPrompt, maxContext);
    assert |window| == w;
    forall i | 1 <= i <= w
      ensures turns[i] == ToTurn(context[|context| - w + i - 1])
    {
      assert turns[i] == ToGenai(window)[i - 1];
      assert window[i - 1] == context[|context| - w + i - 1];
    }
  }

  /** `ToGenai` entry by entry. */
  lemma ToGenaiPointwise(hist: seq<Msg>)
    ensures |ToGenai(hist)| == |hist| && forall i :: 0 <= i < |hist| ==> ToGenai(hist)[i] == ToTurn(hist[i])
  {
    ToGenaiAt(hist);
    forall i | 0 <= i < |hist|
      ensures ToGenai(hist)[i] == ToTurn(hist[i])
    {
      assert ToGenai(hist)[i].parts == [hist[i].content];
    }
  }

  /** A history ready for a reply: non-empty and ending with a user entry. */
  predicate EndsWithQuestion(hist: seq<Msg>)
  {
    hist != [] && hist[|hist| - 1].role == "user"
  }

  /** `stream`: rejects a history that does not end with a user question;
      otherwise asks the model (`ask`, given the turns and the question) and
      yields its single reply. */
  function Stream(hist: seq<Msg>, personaPrompt: string, maxContext: int,
                  ask: (seq<Turn>, string) -> string): (r: Result<string, string>)
    ensures r.Err? <==> !EndsWithQuestion(hist)
    ensures r.Err? ==> r.error == LastNotUser
    ensures r.Ok? ==> r.value == ask(Turns(hist[..|hist| - 1], personaPrompt, maxContext), hist[|hist| - 1].content)
  {
    if hist == [] || hist[|hist| - 1].role != "user" then Err(LastNotUser)
    else
      var question := hist[|hist| - 1].content;
      var context := hist[..|hist| - 1];
      Ok(ask(Turns(context, personaPrompt, maxContext), question))
  }

  /** The question is never among the turns: every converted context entry
      comes from an entry before the last one. */
  lemma QuestionNotInTurns(hist: seq<Msg>, personaPrompt: string, maxContext: int)
    requires EndsWithQuestion(hist) && maxContext > 0
    ensures var n := |hist| - 1;
      var turns := Turns(hist[..n], personaPrompt, maxContext);
      forall i :: 1 <= i < |turns| ==> exists j :: 0 <= j < n && turns[i] == ToTurn(hist[j])
  {
    var n := |hist| - 1;
    var context := hist[..n];
    var turns := Turns(context, personaPrompt, maxContext);
    TurnsShape(context, personaPrompt, maxContext);
    var w := if maxContext < |context| then maxContext else |context|;
    forall i | 1 <= i < |turns|
      ensures exists j :: 0 <= j < n && turns[i] == ToTurn(hist[j])
    {
      var j := n - w + i - 1;
      assert turns[i] == ToTurn(context[j]) && context[j] == hist[j];
    }
  }
}
