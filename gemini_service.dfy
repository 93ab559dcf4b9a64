/** The Node server's Gemini wrapper: a persona prompt, a memory of past
    question/answer pairs of which the last three are quoted in each prompt,
    and an answer assembled from the streamed chunks. The model is an input
    that maps the prompt to its chunk texts or an error. */
module GeminiService {
  import opened Common
  import GemSdk

  const KeyMissing: string := "Gemini API key is not configured"
  const MemoryWindow: int := 3

  /** A remembered exchange. */
  datatype QnA = QnA(q: string, a: string)

  /** The characters JavaScript's `trim` removes: white space and line
      terminators. */
  predicate JsSpace(c: char)
  {
    c == '\t' || c == '\n' || c == '\U{0B}' || c == '\U{0C}' || c == '\r' || c == ' '
    || c == '\U{A0}' || c == '\U{1680}' || ('\U{2000}' <= c <= '\U{200A}')
    || c == '\U{2028}' || c == '\U{2029}' || c == '\U{202F}' || c == '\U{205F}'
    || c == '\U{3000}' || c == '\U{FEFF}'
  }

  function JsTrimLeft(s: string): (r: string)
    ensures |r| <= |s| && r == s[|s| - |r|..]
    ensures r == [] || !JsSpace(r[0])
    ensures forall i :: 0 <= i < |s| - |r| ==> JsSpace(s[i])
  {
    if s != [] && JsSpace(s[0]) then JsTrimLeft(s[1..]) else s
  }

  function JsTrimRight(s: string): (r: string)
    ensures |r| <= |s| && r == s[..|r|]
    ensures r == [] || !JsSpace(r[|r| - 1])
    ensures forall i :: |r| <= i < |s| ==> JsSpace(s[i])
  {
    if s != [] && JsSpace(s[|s| - 1]) then JsTrimRight(s[..|s| - 1]) else s
  }

  /** `String.prototype.trim`. */
  function JsTrim(s: string): string
  {
    JsTrimRight(JsTrimLeft(s))
  }

  /** One remembered exchange as quoted in the prompt. */
  function Quote(x: QnA): string
  {
    "Q: " + x.q + "\nA: " + x.a
  }

  /** `sessionMemory.slice(-3)`, each quoted, joined by newlines. */
  function RecentHistory(memory: seq<QnA>): string
  {
    var recent := GemSdk.TakeLast(memory, MemoryWindow);
    Join(seq(|recent|, i requires 0 <= i < |recent| => Quote(recent[i])), "\n")
  }

  /** The quoted exchanges are the last three (or all, when fewer), oldest
      first; anything older makes no difference. */
  lemma RecentHistoryWindow(memory: seq<QnA>, older: seq<QnA>)
    ensures var w := if |memory| < 3 then |memory| else 3;
      RecentHistory(memory) == Join(seq(w, i requires 0 <= i < w => Quote(memory[|memory| - w + i])), "\n")
    ensures |memory| >= 3 ==> RecentHistory(older + memory) == RecentHistory(memory)
  {
    GemSdk.TakeLastWindow(memory, MemoryWindow);
    var w := if |memory| < 3 then |memory| else 3;
    var recent := GemSdk.TakeLast(memory, MemoryWindow);
    assert recent == memory[|memory| - w..];
    assert seq(|recent|, i requires 0 <= i < |recent| => Quote(recent[i]))
      == seq(w, i requires 0 <= i < w => Quote(memory[|memory| - w + i]));
    if |memory| >= 3 {
      var all := older + memory;
      GemSdk.TakeLastWindow(all, MemoryWindow);
      assert GemSdk.TakeLast(all, MemoryWindow) == all[|all| - 3..] == memory[|memory| - 3..];
    }
  }

  /** The newest exchange is always the last one quoted. */
  lemma NewestQuotedLast(memory: seq<QnA>, x: QnA)
    ensures EndsWith(RecentHistory(memory + [x]), Quote(x))
  {
    var m := memory + [x];
    RecentHistoryWindow(m, []);
    var w := if |m| < 3 then |m| else 3;
    var quoted := seq(w, i requires 0 <= i < w => Quote(m[|m| - w + i]));
    assert quoted[w - 1] == Quote(x);
    assert quoted == quoted[..w - 1] + [Quote(x)];
    JoinSnoc(quoted[..w - 1], Quote(x), "\n");
  }

  const ContextIntro: string := "\n\nContext from previous " + "Q&A (for consistency):\n"
  const AskLine: string := "\n\nNow answer the new question below.\n\nQ: "
  const AnswerCue: string := "\nA:"

  /** The quoted exchanges under their heading. */
  function ContextBlock(memory: seq<QnA>): string
  {
    ContextIntro + RecentHistory(memory)
  }

  /** The new question and the answer cue. */
  function QuestionBlock(userQuery: string): string
  {
    AskLine + userQuery + AnswerCue
  }

  /** The prompt text before trimming. */
  function PromptTemplate(personaPrompt: string, memory: seq<QnA>, userQuery: string): string
  {
    "\n" + personaPrompt + ContextBlock(memory) + QuestionBlock(userQuery)
  }

  /** The prompt sent to the model. */
  function FullPrompt(personaPrompt: string, memory: seq<QnA>, userQuery: string): string
  {
    JsTrim(PromptTemplate(personaPrompt, memory, userQuery))
  }

  /** The prompt ends by asking the new question. */
  lemma PromptEndsWithQuestion(personaPrompt: string, memory: seq<QnA>, userQuery: string)
    ensures EndsWith(FullPrompt(personaPrompt, memory, userQuery), QuestionBlock(userQuery))
  {
    var mid := ContextBlock(memory);
    var tail := QuestionBlock(userQuery);
    assert mid[2] == 'C';
    assert tail[|tail| - 1] == ':';
    TrimAround("\n" + personaPrompt, mid, tail, 2);
  }

  /** The prompt starts with the persona when the persona starts with a
      visible character. */
  lemma PromptStartsWithPersona(personaPrompt: string, memory: seq<QnA>, userQuery: string)
    requires personaPrompt != [] && !JsSpace(personaPrompt[0])
    ensures StartsWith(FullPrompt(personaPrompt, memory, userQuery), personaPrompt)
  {
    var rest := ContextBlock(memory) + QuestionBlock(userQuery);
    assert PromptTemplate(personaPrompt, memory, userQuery) == "\n" + personaPrompt + rest;
    assert rest[|rest| - 1] == ':';
    TrimLeadingNewline(personaPrompt, rest);
  }

  /** Trimming keeps the end of a text when a visible character comes
      before it and the text ends visibly. */
  lemma TrimAround(head: string, mid: string, tail: string, k: nat)
    requires k < |mid| && !JsSpace(mid[k]) && tail != [] && !JsSpace(tail[|tail| - 1])
    ensures EndsWith(JsTrim(head + mid + tail), tail)
  {
    var t := head + mid + tail;
    var l := JsTrimLeft(t);
    assert t[|head| + k] == mid[k];
    assert |t| - |l| <= |head| + k;
    assert l[|l| - 1] == t[|t| - 1] == tail[|tail| - 1];
    assert JsTrimRight(l) == l;
    assert l[|l| - |tail|..] == t[|t| - |tail|..] == tail;
  }

  /** Trimming a newline followed by visibly starting and ending text
      removes just the newline. */
  lemma TrimLeadingNewline(p: string, rest: string)
    requires p != [] && !JsSpace(p[0]) && rest != [] && !JsSpace(rest[|rest| - 1])
    ensures JsTrim("\n" + p + rest) == p + rest
  {
    var t := "\n" + p + rest;
    assert t[0] == '\n' && t[1] == p[0];
    assert JsTrimLeft(t) == JsTrimLeft(t[1..]);
    assert t[1..] == p + rest;
    assert JsTrimLeft(p + rest) == p + rest;
    assert (p + rest)[|p + rest| - 1] == rest[|rest| - 1];
  }

  /** The service: its persona prompt and its memory of exchanges. */
  class Service {
    const personaPrompt: string
    var memory: seq<QnA>

    /** `new GeminiService()` once the key check passed. */
    constructor (personaPrompt: string)
      ensures this.personaPrompt == personaPrompt && memory == []
    {
      this.personaPrompt := personaPrompt;
      memory := [];
    }

    /** `generateResponse`: `generate` is the model, giving the streamed
        chunk texts for a prompt or an error. The answer is the chunks
        joined in order; a success records exactly one exchange, a failure
        is passed on and records nothing. */
    method GenerateResponse(userQuery: string, generate: string -> Result<seq<string>, string>)
      returns (r: Result<string, string>)
      modifies this
      ensures var g := generate(FullPrompt(personaPrompt, old(memory), userQuery));
        && (g.Err? ==> r == Err(g.error) && memory == old(memory))
        && (g.Ok? ==> r == Ok(Flatten(g.value)) && memory == old(memory) + [QnA(userQuery, r.value)])
    {
      ghost var before := memory;
      var outcome := generate(FullPrompt(personaPrompt, memory, userQuery));
      if outcome.Err? {
        return Err(outcome.error);
      }
      var chunks := outcome.value;
      var finalAnswer := "";
      for i := 0 to |chunks|
        invariant finalAnswer == Flatten(chunks[..i])
        invariant memory == before
      {
        FlattenSnoc(chunks[..i], chunks[i]);
        PrefixSnoc(chunks, i);
        finalAnswer := finalAnswer + chunks[i];
      }
      assert chunks[..|chunks|] == chunks;
      memory := memory + [QnA(userQuery, finalAnswer)];
      assert outcome == generate(FullPrompt(personaPrompt, before, userQuery));
      return Ok(finalAnswer);
    }
  }

  /** The constructor's key check: a missing or empty key is refused with
      an error and no service. */
  method Create(apiKey: Option<string>, personaPrompt: string) returns (r: Result<Service, string>)
    ensures apiKey.None? || apiKey.value == [] <==> r.Err?
    ensures r.Err? ==> r.error == KeyMissing
    ensures r.Ok? ==> fresh(r.value) && r.value.memory == [] && r.value.personaPrompt == personaPrompt
  {
    if apiKey.None? || apiKey.value == [] {
      return Err(KeyMissing);
    }
    var svc := new Service(personaPrompt);
    return Ok(svc);
  }
}
