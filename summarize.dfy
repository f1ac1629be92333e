/**
 `get_text_summary` and `summarize_with_custom_params`: the checks made
 before the model is called, the request that is built, and how the reply or
 the exception raised by the call becomes the summary or the exception the
 caller sees.

 The Bedrock runtime client is a module-level global that is set once at
 import and only read afterwards; here it is the flag `clientReady`. The
 remote call (`invoke_model`, reading the body and `json.loads`) is not
 modelled: its effect is the parameter `reply`, which says either what the
 parsed response holds under `completion`, or which exception the call or
 the parsing raised. Each function returns the request it sent, if any, so
 that "the model is never invoked" can be stated.
 */
module Summarize {
  import opened PyStr

  datatype Option<T> = None | Some(value: T)

  datatype Result<T, E> = Success(value: T) | Failure(error: E)

  /** The Python exception class that leaves a library function. */
  datatype ExceptionClass = Exception | ValueError

  /** An exception that leaves a library function: its class and `str(e)`. */
  datatype Raised = Raised(cls: ExceptionClass, message: string)

  /** An exception raised inside the `try` that surrounds the model call. */
  datatype CallError =
    | ClientError(code: string, errorMessage: string, text: string)
      // botocore's ClientError: `Error.Code`, `Error.Message`, and `str(e)`
    | JsonDecodeError(text: string)
      // the body is not JSON; `str(e)`
    | OtherError(text: string)
      // any other exception; `str(e)`

  /** What calling the model and parsing its response body gives. */
  datatype InvokeOutcome =
    | Responded(completion: Option<string>)
      // the parsed body, with its `completion` entry if it has one
    | Raises(error: CallError)

  /** The JSON request body (`request_body`); keys the source leaves out are
      `None`. */
  datatype RequestBody = RequestBody(
    prompt: string,
    maxTokensToSample: int,
    temperature: real,
    topP: real,
    topK: Option<int>,
    stopSequences: Option<seq<string>>)

  /** The arguments of `invoke_model`. */
  datatype InvokeRequest = InvokeRequest(
    modelId: string,
    contentType: string,
    accept: string,
    body: RequestBody)

  /** One call of a library function: the request sent to the model, if
      any, and the summary returned or the exception raised. */
  datatype Run = Run(sent: Option<InvokeRequest>, result: Result<string, Raised>)

  const ModelId := "anthropic.claude-v2"
  const JsonMediaType := "application/json"

  const SummaryPromptHead :=
    "Human: Please provide a comprehensive summary of the following text. \n"
    + "Focus on the key points, main ideas, and important details. \n"
    + "Keep the summary concise but informative.\n\n"
    + "Text to summarize:\n"
  const CustomPromptHead := "Human: Summarize this text concisely:\n\n"
  const PromptTail := "\n\nAssistant:"
  const StopSequence := "\n\nHuman:"

  const SummaryMaxTokens := 1000
  const SummaryTemperature := 0.5
  const TopP := 0.9
  const SummaryTopK := 250

  /** Default arguments of `summarize_with_custom_params`. */
  const DefaultMaxTokens := 500
  const DefaultTemperature := 0.5

  const NotInitialized :=
    "Bedrock Runtime client not initialized. Please check your AWS credentials."
  const CustomNotInitialized := "Bedrock Runtime client not initialized"
  const EmptyText := "Text content cannot be empty"
  const EmptyResponse := "Empty response from Bedrock"

  const ClientErrorPrefix := "AWS Bedrock Error ("
  const ParseErrorPrefix := "Error parsing Bedrock response: "
  const UnexpectedPrefix := "Unexpected error during summarization: "
  const CustomErrorPrefix := "Error in custom summarization: "

  // ---------------------------------------------------------------------
  // Prompts and requests
  // ---------------------------------------------------------------------

  /** The f-string prompt: a fixed head, the text verbatim, a fixed tail,
      so that the text can be read back from it. */
  function Prompt(head: string, text: string): (p: string)
    ensures PromptText(head, p) == Some(text)
    ensures |p| == |head| + |text| + |PromptTail|
  {
    var p := head + text + PromptTail;
    assert p[..|head|] == head;
    assert p[|p| - |PromptTail|..] == PromptTail;
    assert p[|head|..|p| - |PromptTail|] == text;
    p
  }

  /** The text a prompt with this head carries, or `None` when `p` does not
      have the head and the tail. */
  function PromptText(head: string, p: string): (text: Option<string>)
    ensures text.Some? ==> |text.value| + |head| + |PromptTail| == |p|
  {
    if |p| >= |head| + |PromptTail|
       && p[..|head|] == head
       && p[|p| - |PromptTail|..] == PromptTail
    then Some(p[|head|..|p| - |PromptTail|])
    else None
  }

  /** `PromptText` recovers exactly the text a prompt was built from, and
      only prompts built that way carry a text: the text is inserted
      verbatim, and two different texts never give the same prompt. */
  lemma PromptTextInverse(head: string, p: string, text: string)
    ensures PromptText(head, p) == Some(text) <==> p == Prompt(head, text)
  {
    if PromptText(head, p) == Some(text) {
      assert p == p[..|head|] + p[|head|..|p| - |PromptTail|] + p[|p| - |PromptTail|..];
    }
  }

  /** The request of `get_text_summary`: the text verbatim inside the
      comprehensive-summary prompt, Claude v2, at most 1000 tokens, and a stop
      at the next human turn. */
  function SummaryRequest(text: string): (req: InvokeRequest)
    ensures PromptText(SummaryPromptHead, req.body.prompt) == Some(text)
    ensures req.modelId == "anthropic.claude-v2"
    ensures req.contentType == "application/json" && req.accept == "application/json"
    ensures req.body.maxTokensToSample == 1000
    ensures req.body.temperature == 0.5 && req.body.topP == 0.9
    ensures req.body.topK == Some(250)
    ensures req.body.stopSequences == Some(["\n\nHuman:"])
  {
    InvokeRequest(ModelId, JsonMediaType, JsonMediaType,
      RequestBody(
        Prompt(SummaryPromptHead, text),
        SummaryMaxTokens,
        SummaryTemperature,
        TopP,
        Some(SummaryTopK),
        Some([StopSequence])))
  }

  /** The request of `summarize_with_custom_params`: the text verbatim
      inside the short prompt, the caller's token limit and temperature, no
      top-k and no stop sequence. */
  function CustomRequest(text: string, maxTokens: int, temperature: real): (req: InvokeRequest)
    ensures PromptText(CustomPromptHead, req.body.prompt) == Some(text)
    ensures req.modelId == "anthropic.claude-v2"
    ensures req.contentType == "application/json" && req.accept == "application/json"
    ensures req.body.maxTokensToSample == maxTokens
    ensures req.body.temperature == temperature && req.body.topP == 0.9
    ensures req.body.topK.None? && req.body.stopSequences.None?
  {
    InvokeRequest(ModelId, JsonMediaType, JsonMediaType,
      RequestBody(
        Prompt(CustomPromptHead, text),
        maxTokens,
        temperature,
        TopP,
        None,
        None))
  }

  // ---------------------------------------------------------------------
  // get_text_summary
  // ---------------------------------------------------------------------

  /** `not text_content or len(text_content.strip()) == 0`. */
  function IsEmptyInput(text: string): (empty: bool)
    ensures empty <==> AllSpace(text)
  {
    |text| == 0 || |Strip(text)| == 0
  }

  /** `response_body.get('completion', '')`: the entry unchanged, and blank
      exactly when the entry is missing or blank. */
  function CompletionOrEmpty(completion: Option<string>): (s: string)
    ensures completion.Some? ==> s == completion.value
    ensures AllSpace(s) <==> completion.None? || AllSpace(completion.value)
  {
    match completion
    case Some(c) => c
    case None => ""
  }

  /** The statements inside the `try` of `get_text_summary`: the stripped
      completion, or the exception raised on the way. A blank completion
      raises a plain `Exception`, inside the same `try`. */
  function SummaryTryBlock(reply: InvokeOutcome): (r: Result<string, CallError>)
    ensures r.Success? ==> |r.value| > 0 && NoOuterSpace(r.value)
  {
    match reply
    case Raises(e) => Failure(e)
    case Responded(completion) =>
      var summary := Strip(CompletionOrEmpty(completion));
      if |summary| == 0 then Failure(OtherError(EmptyResponse)) else Success(summary)
  }

  /** The three `except` clauses of `get_text_summary`, tried in order; the
      last one catches every exception the first two do not. */
  function SummaryHandler(e: CallError): (r: Raised)
    ensures r.cls == Exception
  {
    match e
    case ClientError(code, errorMessage, _) =>
      Raised(Exception, ClientErrorPrefix + code + "): " + errorMessage)
    case JsonDecodeError(text) => Raised(Exception, ParseErrorPrefix + text)
    case OtherError(text) => Raised(Exception, UnexpectedPrefix + text)
  }

  /** `get_text_summary(text_content)`. The client check comes first and the
      input check second, both outside the `try`; only then is the request
      sent. A returned summary is never empty and never starts or ends with
      whitespace. */
  function GetTextSummary(clientReady: bool, textContent: string, reply: InvokeOutcome): (r: Run)
    ensures r.sent.Some? <==> clientReady && !AllSpace(textContent)
    ensures r.sent.Some? ==> r.sent.value == SummaryRequest(textContent)
    ensures r.result.Success? ==> |r.result.value| > 0 && NoOuterSpace(r.result.value)
  {
    if !clientReady then
      Run(None, Failure(Raised(Exception, NotInitialized)))
    else if IsEmptyInput(textContent) then
      Run(None, Failure(Raised(ValueError, EmptyText)))
    else
      var request := SummaryRequest(textContent);
      match SummaryTryBlock(reply)
      case Success(summary) => Run(Some(request), Success(summary))
      case Failure(e) => Run(Some(request), Failure(SummaryHandler(e)))
  }

  /** Without a client every call fails with the "not initialized" exception,
      even for empty text, and nothing is sent. */
  lemma ClientCheckedFirst(textContent: string, reply: InvokeOutcome)
    ensures GetTextSummary(false, textContent, reply)
            == Run(None, Failure(Raised(Exception, NotInitialized)))
  {
  }

  /** With a client, empty or whitespace-only text raises `ValueError` and
      nothing is sent. */
  lemma BlankTextRejectedBeforeCall(textContent: string, reply: InvokeOutcome)
    requires AllSpace(textContent)
    ensures GetTextSummary(true, textContent, reply)
            == Run(None, Failure(Raised(ValueError, EmptyText)))
  {
  }

  /** When a check before the `try` fails, what the model would have
      answered makes no difference. */
  lemma RejectedCallIgnoresReply(clientReady: bool, textContent: string, a: InvokeOutcome, b: InvokeOutcome)
    requires !clientReady || AllSpace(textContent)
    ensures GetTextSummary(clientReady, textContent, a) == GetTextSummary(clientReady, textContent, b)
  {
  }

  /** `get_text_summary` returns a summary exactly when the client exists,
      the text is not blank, and the response holds a completion that is not
      blank; the summary is that completion, stripped. */
  lemma SummarySucceedsExactly(clientReady: bool, textContent: string, reply: InvokeOutcome)
    ensures GetTextSummary(clientReady, textContent, reply).result.Success?
            <==> clientReady && !AllSpace(textContent)
                 && reply.Responded? && reply.completion.Some?
                 && !AllSpace(reply.completion.value)
    ensures GetTextSummary(clientReady, textContent, reply).result.Success? ==>
            GetTextSummary(clientReady, textContent, reply).result.value
            == Strip(reply.completion.value)
  {
    if clientReady && !AllSpace(textContent) {
      assert !IsEmptyInput(textContent);
      var r := GetTextSummary(clientReady, textContent, reply).result;
      assert r.Success? <==> SummaryTryBlock(reply).Success?;
      if reply.Responded? {
        var c := CompletionOrEmpty(reply.completion);
        assert |Strip(c)| == 0 <==> AllSpace(c);
        assert reply.completion.None? ==> AllSpace(c);
      }
    }
  }

  /** A missing or blank completion is raised inside the `try` and then
      re-wrapped by the catch-all clause. */
  lemma BlankCompletionRewrapped(textContent: string, completion: Option<string>)
    requires !AllSpace(textContent)
    requires completion.None? || AllSpace(completion.value)
    ensures GetTextSummary(true, textContent, Responded(completion)).result
            == Failure(Raised(Exception, UnexpectedPrefix + EmptyResponse))
  {
    var c := CompletionOrEmpty(completion);
    assert AllSpace(c);
    assert |Strip(c)| == 0;
    assert !IsEmptyInput(textContent);
    assert SummaryTryBlock(Responded(completion)) == Failure(OtherError(EmptyResponse));
    assert SummaryHandler(OtherError(EmptyResponse)) == Raised(Exception, UnexpectedPrefix + EmptyResponse);
  }

  /** A `ClientError` is reported with the provider's code and message
      unchanged, the code in parentheses. */
  lemma ClientErrorReported(textContent: string, code: string, errorMessage: string, text: string)
    requires !AllSpace(textContent)
    ensures var m := GetTextSummary(true, textContent, Raises(ClientError(code, errorMessage, text))).result;
            && m == Failure(Raised(Exception, "AWS Bedrock Error (" + code + "): " + errorMessage))
            && m.error.message[19..19 + |code|] == code
            && m.error.message[|m.error.message| - |errorMessage|..] == errorMessage
  {
    assert !IsEmptyInput(textContent);
    var e := ClientError(code, errorMessage, text);
    assert SummaryTryBlock(Raises(e)) == Failure(e);
    ClientErrorMessageParts(code, errorMessage);
  }

  /** The provider's code and message sit at fixed places in the message. */
  lemma ClientErrorMessageParts(code: string, errorMessage: string)
    ensures var message := ClientErrorPrefix + code + "): " + errorMessage;
            && ClientErrorPrefix == "AWS Bedrock Error ("
            && message[19..19 + |code|] == code
            && message[|message| - |errorMessage|..] == errorMessage
  {
    var message := ClientErrorPrefix + code + "): " + errorMessage;
    assert |ClientErrorPrefix| == 19;
    assert message == ClientErrorPrefix + (code + ("): " + errorMessage));
    assert message[19..19 + |code|] == code;
  }

  /** A response body that is not JSON is reported as a parse error carrying
      the decoder's message. */
  lemma ParseErrorReported(textContent: string, text: string)
    requires !AllSpace(textContent)
    ensures GetTextSummary(true, textContent, Raises(JsonDecodeError(text))).result
            == Failure(Raised(Exception, "Error parsing Bedrock response: " + text))
  {
    assert !IsEmptyInput(textContent);
    var e := JsonDecodeError(text);
    assert SummaryTryBlock(Raises(e)) == Failure(e);
    assert SummaryHandler(e) == Raised(Exception, ParseErrorPrefix + text);
  }

  /** Any other exception raised by the call is reported by the catch-all
      clause with its own message. */
  lemma UnexpectedErrorReported(textContent: string, text: string)
    requires !AllSpace(textContent)
    ensures GetTextSummary(true, textContent, Raises(OtherError(text))).result
            == Failure(Raised(Exception, "Unexpected error during summarization: " + text))
  {
    assert !IsEmptyInput(textContent);
    var e := OtherError(text);
    assert SummaryTryBlock(Raises(e)) == Failure(e);
    assert SummaryHandler(e) == Raised(Exception, UnexpectedPrefix + text);
  }

  /** Every exception of `get_text_summary` is one of five kinds: the client
      check, the input check (the only `ValueError`), a provider error, a
      parse error, and everything else, including an empty completion. */
  lemma SummaryErrorKinds(clientReady: bool, textContent: string, reply: InvokeOutcome)
    ensures var r := GetTextSummary(clientReady, textContent, reply).result;
            r.Failure? ==>
              (r.error.cls == ValueError <==> r.error.message == EmptyText)
              && (|| r.error.message == NotInitialized
                  || r.error.message == EmptyText
                  || ClientErrorPrefix <= r.error.message
                  || ParseErrorPrefix <= r.error.message
                  || UnexpectedPrefix <= r.error.message)
  {
    if !clientReady {
      assert NotInitialized != EmptyText;
    } else if !AllSpace(textContent) {
      assert !IsEmptyInput(textContent);
      match SummaryTryBlock(reply)
      case Success(_) =>
      case Failure(e) => HandlerPrefixes(e);
    }
  }

  /** Each handler message starts with its clause's prefix, so none of them
      is the empty-text message. */
  lemma HandlerPrefixes(e: CallError)
    ensures var m := SummaryHandler(e).message;
            && m != EmptyText
            && (ClientErrorPrefix <= m || ParseErrorPrefix <= m || UnexpectedPrefix <= m)
  {
    var m := SummaryHandler(e).message;
    match e
    case ClientError(code, errorMessage, _) =>
      assert m == ClientErrorPrefix + (code + "): " + errorMessage);
      assert m[0] == 'A';
    case JsonDecodeError(text) =>
      assert m == ParseErrorPrefix + text;
      assert m[0] == 'E';
    case OtherError(text) =>
      assert m == UnexpectedPrefix + text;
      assert m[0] == 'U';
  }

  // ---------------------------------------------------------------------
  // summarize_with_custom_params
  // ---------------------------------------------------------------------

  /** The statements inside the `try` of `summarize_with_custom_params`:
      the stripped completion, which is empty exactly when the completion is
      missing or blank, and is returned rather than raised. */
  function CustomTryBlock(reply: InvokeOutcome): (r: Result<string, CallError>)
    ensures r.Success? ==> NoOuterSpace(r.value)
    ensures r.Success? ==>
      reply.Responded? && (|r.value| == 0 <==> reply.completion.None? || AllSpace(reply.completion.value))
  {
    match reply
    case Raises(e) => Failure(e)
    case Responded(completion) => Success(Strip(CompletionOrEmpty(completion)))
  }

  /** `str(e)` for an exception raised inside the `try`. */
  function Describe(e: CallError): string {
    e.text
  }

  /** `summarize_with_custom_params(text_content, max_tokens=500, temperature=0.5)`:
      only the client is checked before the request is sent, whatever the
      text, and every exception inside the `try` is wrapped with one prefix. */
  function SummarizeWithCustomParams(
    clientReady: bool, textContent: string, reply: InvokeOutcome,
    maxTokens: int := DefaultMaxTokens, temperature: real := DefaultTemperature): (r: Run)
    ensures r.sent.Some? <==> clientReady
    ensures r.sent.Some? ==> r.sent.value == CustomRequest(textContent, maxTokens, temperature)
    ensures clientReady && r.result.Failure? ==>
      r.result.error.cls == Exception && CustomErrorPrefix <= r.result.error.message
  {
    if !clientReady then
      Run(None, Failure(Raised(Exception, CustomNotInitialized)))
    else
      var request := CustomRequest(textContent, maxTokens, temperature);
      match CustomTryBlock(reply)
      case Success(summary) => Run(Some(request), Success(summary))
      case Failure(e) => Run(Some(request), Failure(Raised(Exception, CustomErrorPrefix + Describe(e))))
  }

  /** Without a client the custom call fails with its shorter message. */
  lemma CustomClientCheckedFirst(textContent: string, maxTokens: int, temperature: real, reply: InvokeOutcome)
    ensures SummarizeWithCustomParams(false, textContent, reply, maxTokens, temperature)
            == Run(None, Failure(Raised(Exception, CustomNotInitialized)))
  {
  }

  /** Unlike `get_text_summary`, the custom call sends empty text to the
      model and returns an empty summary when the completion is blank or
      missing, with no exception. */
  lemma CustomMayReturnEmpty(textContent: string, maxTokens: int, temperature: real, completion: Option<string>)
    requires completion.None? || AllSpace(completion.value)
    ensures SummarizeWithCustomParams(true, textContent, Responded(completion), maxTokens, temperature)
            == Run(Some(CustomRequest(textContent, maxTokens, temperature)), Success(""))
  {
    assert |Strip(CompletionOrEmpty(completion))| == 0;
  }

  /** A failure inside the custom call is reported as the prefix followed by
      `str(e)`, even a provider error, whose code is then not singled out. */
  lemma CustomFailureWrapped(textContent: string, maxTokens: int, temperature: real, e: CallError)
    ensures SummarizeWithCustomParams(true, textContent, Raises(e), maxTokens, temperature).result
            == Failure(Raised(Exception, "Error in custom summarization: " + e.text))
  {
  }

  /** With a client, the custom call returns exactly when the model
      responded, whatever the text (even blank), and then returns the
      completion stripped, or `""` when the entry is missing. */
  lemma CustomReturnsCompletion(textContent: string, reply: InvokeOutcome, maxTokens: int, temperature: real)
    ensures SummarizeWithCustomParams(true, textContent, reply, maxTokens, temperature).result.Success?
            <==> reply.Responded?
    ensures reply.Responded? ==>
            SummarizeWithCustomParams(true, textContent, reply, maxTokens, temperature).result
            == Success(Strip(CompletionOrEmpty(reply.completion)))
  {
  }

  /** On the same reply, the two functions agree whenever `get_text_summary`
      succeeds; the custom call also succeeds, with an empty summary, where
      the other raises for a blank completion. */
  lemma CustomAgreesOnSuccess(textContent: string, maxTokens: int, temperature: real, reply: InvokeOutcome)
    ensures GetTextSummary(true, textContent, reply).result.Success? ==>
            SummarizeWithCustomParams(true, textContent, reply, maxTokens, temperature).result
            == GetTextSummary(true, textContent, reply).result
    ensures SummarizeWithCustomParams(true, textContent, reply, maxTokens, temperature).result.Success?
            && !AllSpace(textContent) ==>
              (GetTextSummary(true, textContent, reply).result.Success?
               <==> |SummarizeWithCustomParams(true, textContent, reply, maxTokens, temperature).result.value| > 0)
  {
  }

  /** Called without a token limit or a temperature, the custom call asks
      for at most 500 tokens at temperature 0.5. */
  lemma CustomDefaults(textContent: string, reply: InvokeOutcome)
    ensures var r := SummarizeWithCustomParams(true, textContent, reply);
            && r.sent.Some?
            && r.sent.value.body.maxTokensToSample == 500
            && r.sent.value.body.temperature == 0.5
  {
  }
}
