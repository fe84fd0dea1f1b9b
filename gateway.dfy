/**
 * Backend selection and the text-only fallback of the question-answering
 * service.
 *
 * The environment's API keys choose the backend; only the OpenAI path is
 * implemented. Any error on the way is caught once: when its message
 * mentions "image" or "vision" (case-sensitive) the question is retried
 * without the image, otherwise the error propagates unchanged.
 *
 * The outside world enters as two functions: `readFile`, the contents of an
 * uploaded file or the message of the error reading it, and `api`, the
 * outcome of a chat-completion request. Every run records the requests it
 * issued, so the properties below can say which calls were made.
 */
module Gateway {
  import opened JsBuiltins
  import opened QATypes
  import BoxExtraction

  // ---------------------------------------------------------------------------
  // The environment and the outside world

  /** `process.env.OPENAI_API_KEY`, `GOOGLE_API_KEY` and `ANTHROPIC_API_KEY`. */
  datatype ApiKeys = ApiKeys(openAI: Option<string>, google: Option<string>, anthropic: Option<string>)

  /** The image handed to the model: the bytes of an uploaded file (sent as a JPEG data URL) or a link. */
  datatype ImageContent = JpegData(bytes: seq<bv8>) | Link(url: string)

  datatype Role = SystemRole | UserRole
  datatype ContentPart = TextPart(text: string) | ImagePart(image: ImageContent)
  datatype MessageContent = PlainText(text: string) | Parts(parts: seq<ContentPart>)
  datatype ChatMessage = ChatMessage(role: Role, content: MessageContent)

  /** `openai.chat.completions.create({ model, messages, max_tokens })` */
  datatype ChatRequest = ChatRequest(model: string, messages: seq<ChatMessage>, maxTokens: nat)

  /** The first choice's message content, or the message of the error the call threw. */
  datatype CallOutcome = Answer(content: string) | Failure(message: string)

  /** `fs.readFileSync(path)`: the file's bytes, or the message of the error it threw. */
  datatype FileRead = Bytes(data: seq<bv8>) | ReadError(message: string)

  /** A JavaScript call that returns a value or throws an error with a message. */
  datatype Thrown<T> = Returned(value: T) | Threw(message: string)

  /** What one call of the service does: its outcome and the chat requests it issued, in order. */
  datatype Run = Run(outcome: Thrown<QAResponse>, requests: seq<ChatRequest>)

  // ---------------------------------------------------------------------------
  // Constants

  const VisionModel := "gpt-4o"
  const TextModel := "gpt-4"
  const FallbackModelName := "gpt-4 (text-only fallback)"
  const VisionMaxTokens: nat := 1000
  const TextMaxTokens: nat := 500

  const VisionSystemPrompt :=
    "You are a helpful assistant that analyzes images and answers questions about them. "
    + "If you detect any objects, people, or text in the image, include their positions using "
    + "bounding box coordinates when relevant. Format coordinates as [x1, y1, x2, y2] where "
    + "each value is between 0 and 1, representing the top-left and bottom-right corners."

  const FallbackSystemPrompt :=
    "You are a helpful assistant. The user wanted to ask a question about an image, "
    + "but image analysis failed. Please respond as helpfully as possible based on the text alone."

  const FallbackPreamble := "I wanted to ask about an image, but the image analysis failed. Here was my question: "

  const NoImageMessage := "No image provided"
  const GeminiMessage := "Gemini implementation not available yet"
  const ClaudeMessage := "Claude 3 implementation not available yet"
  /** "No valid API keys found for any supported LLM", split after "No valid" for the proof about "vision". */
  const NoKeysMessage := "No valid" + " API keys found for any supported LLM"
  const BothFailedMessage := "Both image analysis and text fallback failed"

  // ---------------------------------------------------------------------------
  // The requests

  /** The GPT-4o request: the system prompt, then the question and the image in one user message. */
  function VisionRequest(question: string, image: ImageContent): ChatRequest
  {
    ChatRequest(VisionModel,
      [ChatMessage(SystemRole, PlainText(VisionSystemPrompt)),
       ChatMessage(UserRole, Parts([TextPart(question), ImagePart(image)]))],
      VisionMaxTokens)
  }

  /** The text-only request: its own system prompt and the question behind a fixed preamble. */
  function FallbackRequest(question: string): ChatRequest
  {
    ChatRequest(TextModel,
      [ChatMessage(SystemRole, PlainText(FallbackSystemPrompt)),
       ChatMessage(UserRole, PlainText(FallbackPreamble + question))],
      TextMaxTokens)
  }

  /** `error.message.includes('image') || error.message.includes('vision')` */
  predicate TriggersFallback(message: string)
  {
    Includes(message, "image") || Includes(message, "vision")
  }

  // ---------------------------------------------------------------------------
  // The three functions of the service

  /** The image to send: an uploaded file wins over a URL; with neither, "No image provided". */
  function ImageFor(imageFile: Option<string>, imageUrl: Option<string>, readFile: string -> FileRead): (r: Thrown<ImageContent>)
    ensures Truthy(imageFile) ==>
              r == (match readFile(imageFile.value)
                    case Bytes(data) => Returned(JpegData(data))
                    case ReadError(message) => Threw(message))
    ensures !Truthy(imageFile) && Truthy(imageUrl) ==> r == Returned(Link(imageUrl.value))
    ensures !Truthy(imageFile) && !Truthy(imageUrl) ==> r == Threw(NoImageMessage)
  {
    if Truthy(imageFile) then
      match readFile(imageFile.value)
      case Bytes(data) => Returned(JpegData(data))
      case ReadError(message) => Threw(message)
    else if Truthy(imageUrl) then Returned(Link(imageUrl.value))
    else Threw(NoImageMessage)
  }

  /** `processWithGPT4o`: one vision request whose answer is returned with the boxes it mentions. */
  function ProcessWithGPT4o(imageFile: Option<string>, imageUrl: Option<string>, question: string,
                            readFile: string -> FileRead, api: ChatRequest -> CallOutcome): (r: Run)
    ensures ImageFor(imageFile, imageUrl, readFile).Threw? ==>
              r == Run(Threw(ImageFor(imageFile, imageUrl, readFile).message), [])
    ensures ImageFor(imageFile, imageUrl, readFile).Returned? ==>
              r.requests == [VisionRequest(question, ImageFor(imageFile, imageUrl, readFile).value)]
    ensures r.outcome.Returned? <==> |r.requests| == 1 && api(r.requests[0]).Answer?
    ensures r.outcome.Returned? ==>
              && api(r.requests[0]) == Answer(r.outcome.value.answer)
              && r.outcome.value.model == VisionModel
              && r.outcome.value.boundingBoxes == BoxExtraction.Boxes(r.outcome.value.answer)
              && r.outcome.value.fallback == None
    ensures r.outcome.Threw? && r.requests != [] ==> api(r.requests[0]) == Failure(r.outcome.message)
  {
    match ImageFor(imageFile, imageUrl, readFile)
    case Threw(message) => Run(Threw(message), [])
    case Returned(image) =>
      var request := VisionRequest(question, image);
      match api(request)
      case Failure(message) => Run(Threw(message), [request])
      case Answer(answer) =>
        Run(Returned(QAResponse(answer, BoxExtraction.Boxes(answer), VisionModel, None)), [request])
  }

  /** `fallbackToTextOnly`: one text-only request; any failure becomes "Both image analysis and text fallback failed". */
  function FallbackToTextOnly(question: string, api: ChatRequest -> CallOutcome): (r: Run)
    ensures r.requests == [FallbackRequest(question)]
    ensures api(FallbackRequest(question)).Answer? ==>
              r.outcome == Returned(QAResponse(api(FallbackRequest(question)).content, [], FallbackModelName, Some(true)))
    ensures api(FallbackRequest(question)).Failure? ==> r.outcome == Threw(BothFailedMessage)
  {
    var request := FallbackRequest(question);
    match api(request)
    case Answer(answer) => Run(Returned(QAResponse(answer, [], FallbackModelName, Some(true))), [request])
    case Failure(_) => Run(Threw(BothFailedMessage), [request])
  }

  /** The body of the `try`: the first configured backend, or the error saying none is implemented. */
  function SelectBackend(keys: ApiKeys, imageFile: Option<string>, imageUrl: Option<string>, question: string,
                         readFile: string -> FileRead, api: ChatRequest -> CallOutcome): (r: Run)
    ensures Truthy(keys.openAI) ==> r == ProcessWithGPT4o(imageFile, imageUrl, question, readFile, api)
    ensures !Truthy(keys.openAI) ==> r.requests == [] && r.outcome.Threw?
  {
    if Truthy(keys.openAI) then ProcessWithGPT4o(imageFile, imageUrl, question, readFile, api)
    else if Truthy(keys.google) then Run(Threw(GeminiMessage), [])
    else if Truthy(keys.anthropic) then Run(Threw(ClaudeMessage), [])
    else Run(Threw(NoKeysMessage), [])
  }

  /** `processImageQuestion`: the selected backend, and on a caught error either the fallback or the error again. */
  function ProcessImageQuestion(keys: ApiKeys, imageFile: Option<string>, imageUrl: Option<string>, question: string,
                                readFile: string -> FileRead, api: ChatRequest -> CallOutcome): Run
  {
    var primary := SelectBackend(keys, imageFile, imageUrl, question, readFile, api);
    match primary.outcome
    case Returned(_) => primary
    case Threw(message) =>
      if TriggersFallback(message) then
        var fallback := FallbackToTextOnly(question, api);
        Run(fallback.outcome, primary.requests + fallback.requests)
      else primary
  }

  // ---------------------------------------------------------------------------
  // Properties of the decision procedure

  /** A character missing from `s` rules out every string containing it. */
  lemma NotIncludedByChar(s: string, sub: string, k: nat)
    requires k < |sub| && sub[k] !in s
    ensures !Includes(s, sub)
  {
    if Includes(s, sub) {
      IncludesOnlyOwnChars(s, sub, k);
    }
  }

  /** A message with neither a `g` nor an `s` mentions neither "image" nor "vision". */
  lemma NoFallbackWithoutGOrS(s: string)
    requires 'g' !in s && 's' !in s
    ensures !TriggersFallback(s)
  {
    NotIncludedByChar(s, "image", 3);
    NotIncludedByChar(s, "vision", 2);
  }

  /** An occurrence in `x + y` that avoids `y` ends within its first |sub| - 1 characters. */
  lemma NotIncludedAcross(x: string, y: string, sub: string, i: nat, j: nat)
    requires |sub| >= 1 && i < |sub| && j < |sub|
    requires sub[i] !in x + y[..Min(|y|, |sub| - 1)]
    requires sub[j] !in y
    ensures !Includes(x + y, sub)
  {
    if Includes(x + y, sub) {
      IncludesSplit(x, y, sub);
      NotIncludedByChar(x + y[..Min(|y|, |sub| - 1)], sub, i);
      NotIncludedByChar(y, sub, j);
    }
  }

  /** Neither "Gemini implementation not available yet" nor "Claude 3 implementation not available yet" mentions "image" or "vision". */
  lemma UnimplementedMessagesDoNotTriggerFallback()
    ensures !TriggersFallback(GeminiMessage) && !TriggersFallback(ClaudeMessage)
  {
    GeminiMessageChars();
    ClaudeMessageChars();
    NoFallbackWithoutGOrS(GeminiMessage);
    NoFallbackWithoutGOrS(ClaudeMessage);
  }

  lemma GeminiMessageChars()
    ensures 'g' !in GeminiMessage && 's' !in GeminiMessage
  {
  }

  lemma ClaudeMessageChars()
    ensures 'g' !in ClaudeMessage && 's' !in ClaudeMessage
  {
  }

  /** "No valid API keys found for any supported LLM" mentions neither "image" nor "vision". */
  lemma NoKeysMessageDoesNotTriggerFallback()
    ensures !TriggersFallback(NoKeysMessage)
  {
    var head, tail := "No valid", " API keys found for any supported LLM";
    NoKeysHeadChars();
    NoKeysTailChars();
    NotIncludedByChar(head + tail, "image", 3);
    NotIncludedAcross(head, tail, "vision", 2, 0);
  }

  lemma NoKeysHeadChars()
    ensures 'g' !in "No valid"
    ensures " API keys found for any supported LLM"[..5] == " API "
    ensures 's' !in "No valid" + " API "
  {
  }

  lemma NoKeysTailChars()
    ensures 'g' !in " API keys found for any supported LLM" && 'v' !in " API keys found for any supported LLM"
  {
  }

  /** "No image provided" mentions "image". */
  lemma NoImageTriggersFallback()
    ensures TriggersFallback(NoImageMessage)
  {
    assert NoImageMessage[3..3 + 5] == "image";
    OccursThenIncludes(NoImageMessage, "image", 3);
  }

  /**
   * Without an OpenAI key no model is called and the error names the first
   * configured backend (Google before Anthropic), or says there is none.
   */
  lemma WithoutOpenAIKey(keys: ApiKeys, imageFile: Option<string>, imageUrl: Option<string>, question: string,
                         readFile: string -> FileRead, api: ChatRequest -> CallOutcome)
    requires !Truthy(keys.openAI)
    ensures var r := ProcessImageQuestion(keys, imageFile, imageUrl, question, readFile, api);
            && r.requests == []
            && r.outcome == Threw(if Truthy(keys.google) then GeminiMessage
                                  else if Truthy(keys.anthropic) then ClaudeMessage
                                  else NoKeysMessage)
  {
    UnimplementedMessagesDoNotTriggerFallback();
    NoKeysMessageDoesNotTriggerFallback();
  }

  /**
   * The fallback is attempted exactly when the selected backend threw an
   * error mentioning "image" or "vision", and then only once: the text-only
   * request is the last one issued and its outcome is the call's outcome.
   */
  lemma FallbackExactlyWhen(keys: ApiKeys, imageFile: Option<string>, imageUrl: Option<string>, question: string,
                            readFile: string -> FileRead, api: ChatRequest -> CallOutcome)
    ensures var primary := SelectBackend(keys, imageFile, imageUrl, question, readFile, api);
            var r := ProcessImageQuestion(keys, imageFile, imageUrl, question, readFile, api);
            && (primary.outcome.Threw? && TriggersFallback(primary.outcome.message)
                <==> r.requests == primary.requests + [FallbackRequest(question)])
            && (primary.outcome.Threw? && TriggersFallback(primary.outcome.message)
                ==> r.outcome == FallbackToTextOnly(question, api).outcome)
            && (!(primary.outcome.Threw? && TriggersFallback(primary.outcome.message)) ==> r == primary)
            && |r.requests| <= 2
  {
    var primary := SelectBackend(keys, imageFile, imageUrl, question, readFile, api);
    var r := ProcessImageQuestion(keys, imageFile, imageUrl, question, readFile, api);
    if !(primary.outcome.Threw? && TriggersFallback(primary.outcome.message)) {
      assert |r.requests| == |primary.requests|;
      assert r.requests != primary.requests + [FallbackRequest(question)] by {
        assert |primary.requests + [FallbackRequest(question)]| == |primary.requests| + 1;
      }
    }
  }

  /**
   * What a call returns: either the GPT-4o answer with the boxes extracted
   * from it, or the text-only answer with no boxes, flagged as a fallback.
   * Every box has four coordinates between 0 and 1.
   */
  lemma ResponseShape(keys: ApiKeys, imageFile: Option<string>, imageUrl: Option<string>, question: string,
                      readFile: string -> FileRead, api: ChatRequest -> CallOutcome)
    ensures var r := ProcessImageQuestion(keys, imageFile, imageUrl, question, readFile, api);
            r.outcome.Returned? ==>
              var response := r.outcome.value;
              && (response.fallback == Some(true) <==> response.model == FallbackModelName)
              && (response.fallback == Some(true) ==>
                    response.boundingBoxes == [] && r.requests[|r.requests| - 1] == FallbackRequest(question)
                    && api(FallbackRequest(question)) == Answer(response.answer))
              && (response.fallback != Some(true) ==>
                    response.fallback == None && response.model == VisionModel && Truthy(keys.openAI)
                    && response.boundingBoxes == BoxExtraction.Boxes(response.answer))
              && (forall k :: 0 <= k < |response.boundingBoxes| ==> NormalisedBox(response.boundingBoxes[k]))
  {
    var r := ProcessImageQuestion(keys, imageFile, imageUrl, question, readFile, api);
    if r.outcome.Returned? {
      BoxExtraction.BoxesNormalised(r.outcome.value.answer);
    }
  }

  /** An error escapes only when the fallback failed or the error never mentioned "image" or "vision". */
  lemma ErrorsThatEscape(keys: ApiKeys, imageFile: Option<string>, imageUrl: Option<string>, question: string,
                         readFile: string -> FileRead, api: ChatRequest -> CallOutcome)
    ensures var r := ProcessImageQuestion(keys, imageFile, imageUrl, question, readFile, api);
            r.outcome.Threw? ==>
              r.outcome.message == BothFailedMessage || !TriggersFallback(r.outcome.message)
  {
  }

  /** With an OpenAI key GPT-4o is asked first, whatever other keys are set; an uploaded file wins over a URL. */
  lemma OpenAIFirst(keys: ApiKeys, imageFile: Option<string>, imageUrl: Option<string>, question: string,
                    readFile: string -> FileRead, api: ChatRequest -> CallOutcome)
    requires Truthy(keys.openAI) && (Truthy(imageFile) ==> readFile(imageFile.value).Bytes?)
    requires Truthy(imageFile) || Truthy(imageUrl)
    ensures var r := ProcessImageQuestion(keys, imageFile, imageUrl, question, readFile, api);
            && |r.requests| >= 1
            && r.requests[0].model == VisionModel
            && r.requests[0] == VisionRequest(question,
                 if Truthy(imageFile) then JpegData(readFile(imageFile.value).data) else Link(imageUrl.value))
  {
  }

  /** With no image at all, "No image provided" is caught and the question goes to the text-only model. */
  lemma NoImageFallsBack(keys: ApiKeys, question: string, readFile: string -> FileRead, api: ChatRequest -> CallOutcome)
    requires Truthy(keys.openAI)
    ensures ProcessImageQuestion(keys, None, None, question, readFile, api) == FallbackToTextOnly(question, api)
  {
    NoImageTriggersFallback();
    assert [] + [FallbackRequest(question)] == [FallbackRequest(question)];
  }
}
