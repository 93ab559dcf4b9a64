/** The desktop backend's request handling: choosing the model client from
    the model name, and the input checks and request shapes of the chat,
    screenshot and send-text endpoints. The model clients, the image
    decoding and the conversation's reply are inputs. */
module ElectronServer {
  import opened Common

  datatype Client = OpenAi | Gemini

  const DefaultModel: string := "gemini-1.5-flash"
  const OpenAiMissing: string := "OpenAI client not available. Please set CHATGPT_API_KEY."
  const NoTextOrImage: string := "No text or image provided"
  const NoImage: string := "No image data provided"
  const EmptyAiReply: string := "Empty response from AI"
  const AnalyzeFailed: string := "Failed to analyze: "
  const AnalyzeImageFailed: string := "Failed to analyze image: "
  /** Python's messages for indexing past a list and for stripping `None`. */
  const IndexError: string := "list index out of range"
  const NullStrip: string := "'NoneType' object has no attribute 'strip'"
  const SinglePrompt: string := "Solve this question, and give me the code for the same."
  const ManyPromptHead: string := "Analyze these "
  const ManyPromptTail: string := " screenshots which show different parts of the same coding question. "
    + "Solve the complete question and provide the code solution."

  /** `get_ai_client_and_model`: a "gpt-" name needs the OpenAI client and
      keeps its name; a "gemini-" name keeps its name on Gemini; any other
      name falls back to Gemini's default model. */
  function Route(modelName: string, openAiAvailable: bool): (r: Result<(Client, string), string>)
    ensures StartsWith(modelName, "gpt-") ==>
      r == if openAiAvailable then Ok((OpenAi, modelName)) else Err(OpenAiMissing)
    ensures r.Ok? && r.value.0 == OpenAi <==> StartsWith(modelName, "gpt-") && openAiAvailable
    ensures StartsWith(modelName, "gemini-") ==> r == Ok((Gemini, modelName))
    ensures !StartsWith(modelName, "gpt-") && !StartsWith(modelName, "gemini-") ==>
      r == Ok((Gemini, DefaultModel))
  {
    PrefixesExclusive(modelName);
    if StartsWith(modelName, "gpt-") then
      if openAiAvailable then Ok((OpenAi, modelName)) else Err(OpenAiMissing)
    else if StartsWith(modelName, "gemini-") then Ok((Gemini, modelName))
    else Ok((Gemini, DefaultModel))
  }

  /** No name has both prefixes. */
  lemma PrefixesExclusive(modelName: string)
    ensures !(StartsWith(modelName, "gpt-") && StartsWith(modelName, "gemini-"))
  {
    if StartsWith(modelName, "gpt-") {
      assert modelName[..4][1] == 'p';
      assert "gemini-"[1] == 'e';
    }
  }

  /** Python truthiness of an optional string. */
  predicate Given(s: Option<string>)
  {
    s.Some? && s.value != []
  }

  /** A request to a model client: the OpenAI calls by what they carry, and
      the Gemini content list as text and image parts. A screenshot request
      names its model only for OpenAI; the Gemini client uses its own. */
  datatype AiRequest =
    | TextAndImage(client: Client, model: string, text: string, image: string)
    | ImageOnly(client: Client, model: string, image: string)
    | TextOnly(client: Client, model: string, text: string)
    | Screenshots(client: Client, named: Option<string>, images: seq<string>, prompt: string)

  /** An endpoint's JSON reply. */
  datatype Reply =
    | Answer(text: string)
    | Refused(status: nat, error: string)
    | Failed(error: string)

  /** The base64 part of an image: `split(",")[1]` of a data URL, the text
      after its first comma up to the next comma or the end. A data URL
      without a comma has no second part. */
  function ImagePayload(image: string): (r: Option<string>)
    ensures r.None? <==> StartsWith(image, "data:image") && ',' !in image
    ensures !StartsWith(image, "data:image") ==> r == Some(image)
    ensures StartsWith(image, "data:image") && ',' in image ==>
      var start := IndexOf(image, ',') + 1;
      && r.Some? && ',' !in r.value
      && start + |r.value| <= |image| && image[start..start + |r.value|] == r.value
      && (start + |r.value| == |image| || image[start + |r.value|] == ',')
  {
    if StartsWith(image, "data:image") then
      var parts := Split(image, ',');
      if |parts| < 2 then None
      else
        FirstPartIsPrefix(image[IndexOf(image, ',') + 1..], ',');
        Some(parts[1])
    else Some(image)
  }

  /** The first part of a split runs from the start to the first separator,
      or to the end when there is none. */
  lemma FirstPartIsPrefix(s: string, sep: char)
    ensures var p := Split(s, sep)[0];
      && |p| <= |s| && s[..|p|] == p
      && (|p| == |s| || s[|p|] == sep)
  {
  }

  /** The request `/api/chat` sends, given the stripped text and the image:
      the routed client and model, and the image as given for OpenAI or its
      base64 part for Gemini. Only the Gemini branch fails, on a data URL
      without a comma, with Python's index error. */
  function ChatRequest(client: Client, model: string, text: string, image: Option<string>): (r: Result<AiRequest, string>)
    requires text != [] || Given(image)
    ensures r.Err? <==> client == Gemini && Given(image) && ImagePayload(image.value).None?
    ensures r.Err? ==> r.error == IndexError
    ensures r.Ok? ==> !r.value.Screenshots? && r.value.client == client && r.value.model == model
    ensures r.Ok? && text != [] && Given(image) ==> r.value.TextAndImage? && r.value.text == text
    ensures r.Ok? && text == [] ==> r.value.ImageOnly?
    ensures r.Ok? && !Given(image) ==> r.value == TextOnly(client, model, text)
    ensures r.Ok? && Given(image) ==>
      && (r.value.TextAndImage? || r.value.ImageOnly?)
      && Some(r.value.image) == (if client == OpenAi then Some(image.value) else ImagePayload(image.value))
  {
    if client == OpenAi then
      if text != [] && Given(image) then Ok(TextAndImage(OpenAi, model, text, image.value))
      else if Given(image) then Ok(ImageOnly(OpenAi, model, image.value))
      else Ok(TextOnly(OpenAi, model, text))
    else
      assert client == Gemini;
      if Given(image) then
        var payload := ImagePayload(image.value);
        if payload.None? then Err(IndexError)
        else if text != [] then Ok(TextAndImage(Gemini, model, text, payload.value))
        else Ok(ImageOnly(Gemini, model, payload.value))
      else Ok(TextOnly(client, model, text))
  }

  /** `/api/chat`. `text` is the request's text (`Some("")` when absent,
      `None` when it is `null`, which fails as stripping raises), `image`
      its image, `modelName` its model (the default when absent); `ask` is
      the model client, giving the reply text or the error it raised. */
  function Chat(text: Option<string>, image: Option<string>, modelName: string, openAiAvailable: bool,
                ask: AiRequest -> Result<string, string>): (r: Reply)
    ensures text.None? <==> r == Failed(NullStrip)
    ensures text.Some? && Strip(text.value) == [] && !Given(image) <==> r == Refused(400, NoTextOrImage)
    ensures text.Some? && (Strip(text.value) != [] || Given(image)) && StartsWith(modelName, "gpt-") && !openAiAvailable ==>
      r == Failed(AnalyzeFailed + OpenAiMissing)
    ensures r.Answer? ==> text.Some? && r.text != [] && Route(modelName, openAiAvailable).Ok?
    ensures r.Answer? ==>
      var route := Route(modelName, openAiAvailable).value;
      var req := ChatRequest(route.0, route.1, Strip(text.value), image);
      req.Ok? && ask(req.value) == Ok(r.text)
  {
    if text.None? then Failed(NullStrip)
    else
      var userText := Strip(text.value);
      if userText == [] && !Given(image) then Refused(400, NoTextOrImage)
      else
        var route := Route(modelName, openAiAvailable);
        if route.Err? then Failed(AnalyzeFailed + route.error)
        else
          var req := ChatRequest(route.value.0, route.value.1, userText, image);
          if req.Err? then
            assert (AnalyzeFailed + req.error)[0] != NullStrip[0];
            Failed(AnalyzeFailed + req.error)
          else
            var answer := ask(req.value);
            if answer.Err? then
              assert (AnalyzeFailed + answer.error)[0] != NullStrip[0];
              Failed(AnalyzeFailed + answer.error)
            else if answer.value == [] then Failed(EmptyAiReply)
            else Answer(answer.value)
  }

  /** The images `/api/screenshot` sends: the list when it is non-empty,
      else the single image wrapped, else none. */
  function ScreenshotImages(image: Option<string>, images: seq<string>): (r: Option<seq<string>>)
    ensures r.None? <==> images == [] && !Given(image)
    ensures r.Some? ==> r.value != []
    ensures images != [] ==> r == Some(images)
    ensures images == [] && Given(image) ==> r == Some([image.value])
  {
    if Given(image) && images == [] then Some([image.value])
    else if images == [] then None
    else Some(images)
  }

  /** The prompt for `n` screenshots: the singular form for one, the count
      otherwise. */
  function ScreenshotPrompt(n: nat): (p: string)
    ensures n == 1 ==> p == SinglePrompt
    ensures n != 1 ==>
      && |p| == |ManyPromptHead| + |NatToString(n)| + |ManyPromptTail|
      && StartsWith(p, ManyPromptHead) && EndsWith(p, ManyPromptTail)
      && p[|ManyPromptHead|..|p| - |ManyPromptTail|] == NatToString(n)
  {
    if n == 1 then SinglePrompt
    else
      var p := ManyPromptHead + NatToString(n) + ManyPromptTail;
      assert p[..|ManyPromptHead|] == ManyPromptHead;
      assert p[|p| - |ManyPromptTail|..] == ManyPromptTail;
      assert p[|ManyPromptHead|..|p| - |ManyPromptTail|] == NatToString(n);
      p
  }

  /** The model a screenshot request names: the routed model for OpenAI,
      none for the shared Gemini client. */
  function ScreenshotModel(route: (Client, string)): Option<string>
  {
    if route.0 == OpenAi then Some(route.1) else None
  }

  /** `/api/screenshot`: `analyze` is the model client, giving the solution
      or the error it raised. */
  function Screenshot(image: Option<string>, images: seq<string>, modelName: string, openAiAvailable: bool,
                      analyze: AiRequest -> Result<string, string>): (r: Reply)
    ensures images == [] && !Given(image) <==> r == Refused(400, NoImage)
    ensures r.Answer? ==> Route(modelName, openAiAvailable).Ok?
    ensures r.Answer? ==>
      var sent := if images != [] then images else [image.value];
      var route := Route(modelName, openAiAvailable).value;
      analyze(Screenshots(route.0, ScreenshotModel(route), sent, ScreenshotPrompt(|sent|))) == Ok(r.text)
    ensures r.Answer? && StartsWith(modelName, "gpt-") ==>
      var sent := if images != [] then images else [image.value];
      analyze(Screenshots(OpenAi, Some(modelName), sent, ScreenshotPrompt(|sent|))) == Ok(r.text)
    ensures r.Answer? && !StartsWith(modelName, "gpt-") ==>
      var sent := if images != [] then images else [image.value];
      analyze(Screenshots(Gemini, None, sent, ScreenshotPrompt(|sent|))) == Ok(r.text)
    ensures (images != [] || Given(image)) && StartsWith(modelName, "gpt-") && !openAiAvailable ==>
      r == Refused(500, AnalyzeImageFailed + OpenAiMissing)
  {
    var sent := ScreenshotImages(image, images);
    if sent.None? then Refused(400, NoImage)
    else
      var prompt := ScreenshotPrompt(|sent.value|);
      var route := Route(modelName, openAiAvailable);
      if route.Err? then Refused(500, AnalyzeImageFailed + route.error)
      else
        var solution := analyze(Screenshots(route.value.0, ScreenshotModel(route.value), sent.value, prompt));
        if solution.Err? then Refused(500, AnalyzeImageFailed + solution.error)
        else Answer(solution.value)
  }

  /** The `/api/send_text` reply: the spoken text, and whether the
      conversation buffered it instead. */
  datatype SendReply = SendReply(spoken: string, buffered: bool)

  /** The `/api/send_text` answer for the conversation's reply `said`: an
      empty or absent reply means the speech was buffered. */
  function Buffering(said: Option<string>): (r: SendReply)
    ensures r.buffered <==> r.spoken == []
    ensures r.buffered <==> !Given(said)
    ensures !r.buffered ==> Some(r.spoken) == said
  {
    if !Given(said) then SendReply("", true) else SendReply(said.value, false)
  }

  /** `/api/send_text`: `reply` is the conversation's reply to the stripped
      text (`null` and absent text are both the empty string). */
  function SendText(text: Option<string>, useAi: bool, reply: (string, bool) -> Option<string>): (r: SendReply)
    ensures text.None? ==> r == Buffering(reply("", useAi))
  {
    Buffering(reply(Strip(if text.Some? then text.value else ""), useAi))
  }
}
