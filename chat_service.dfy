/** The chat service (my-node-backend/app.py): `POST /chat` strips the input,
    refuses an empty one, and asks the language model to continue the prompt
    `input + eos`; every failure leaves the handler as a 500 whose detail is
    the text of the exception caught. `GET /health` reports a fixed status.
    The model itself is the parameter `generate`. */
module ChatService {

  import opened Text

  /** What the model's tokenizer, `generate` and `decode` together give for
      a prompt: the decoded reply, or an exception. */
  datatype Generation = Generated(text: string) | GenerationFailed

  /** The outcome of `/chat`: a `ChatResponse`, or an `HTTPException`. */
  datatype ChatReply =
    | ChatResponse(response: string, conversationId: string)
    | HttpError(status: nat, detail: string)

  const DefaultConversation := "default"
  const EmptyInput := "Empty input"
  const GenerationError := "Failed to generate response"

  /** `str(exc)` of an `HTTPException`: the status, a colon and the detail. */
  function ExceptionText(status: nat, detail: string): (r: string)
    ensures |r| > |detail| && r[|r| - |detail|..] == detail
  {
    NatToString(status) + ": " + detail
  }

  /** `ChatbotManager.generate_response`: the prompt ends with the
      end-of-sequence token; a failure becomes a 500 with a fixed detail. */
  function GenerateResponse(userInput: string, generate: string -> Generation, eos: string): (r: ChatReply)
    ensures r.ChatResponse? <==> generate(userInput + eos).Generated?
    ensures r.ChatResponse? ==> r.response == generate(userInput + eos).text
    ensures r.HttpError? ==> r == HttpError(500, GenerationError)
  {
    match generate(userInput + eos)
    case Generated(text) => ChatResponse(text, DefaultConversation)
    case GenerationFailed => HttpError(500, GenerationError)
  }

  /** `chat`: the stripped input goes to the model unless it is empty; the
      `except Exception` around the body turns both the 400 for an empty
      input and the model's 500 into a 500 carrying their text. */
  function Chat(userInput: string, generate: string -> Generation, eos: string): (r: ChatReply)
    ensures r.ChatResponse? <==> Strip(userInput) != [] && generate(Strip(userInput) + eos).Generated?
    ensures r.ChatResponse? ==> (
      r.conversationId == DefaultConversation && r.response == generate(Strip(userInput) + eos).text)
    ensures r.HttpError? ==> r.status == 500
    ensures Strip(userInput) == [] ==> r.detail == ExceptionText(400, EmptyInput)
    ensures Strip(userInput) != [] && r.HttpError? ==> r.detail == ExceptionText(500, GenerationError)
  {
    var input := Strip(userInput);
    var outcome := if input == [] then HttpError(400, EmptyInput) else GenerateResponse(input, generate, eos);
    match outcome
    case ChatResponse(_, _) => outcome
    case HttpError(status, detail) => HttpError(500, ExceptionText(status, detail))
  }

  /** An input is refused exactly when it is all white space, and the model
      never sees the white space around an accepted one. */
  lemma ChatRefusesBlank(userInput: string, generate: string -> Generation, eos: string)
    ensures Chat(userInput, generate, eos) == HttpError(500, ExceptionText(400, EmptyInput))
      <==> forall k :: 0 <= k < |userInput| ==> IsPySpace(userInput[k])
  {
    TrimEmptyIff(userInput, IsPySpace);
    if Strip(userInput) != [] {
      var gen := GenerateResponse(Strip(userInput), generate, eos);
      if gen.HttpError? {
        assert ExceptionText(400, EmptyInput)[0] == '4';
        assert ExceptionText(500, GenerationError)[0] == '5';
      }
    }
  }

  /** Stripping is idempotent, so sending the stripped input again gives
      the same reply. */
  lemma StripIdempotent(s: string)
    ensures Strip(Strip(s)) == Strip(s)
  {
    var t := Strip(s);
    var u := TrimStartBy(s, IsPySpace);
    if t != [] {
      assert t[0] == u[0];
      assert TrimStartBy(t, IsPySpace) == t;
    }
  }

  lemma ChatStrippedAgain(userInput: string, generate: string -> Generation, eos: string)
    ensures Chat(Strip(userInput), generate, eos) == Chat(userInput, generate, eos)
  {
    StripIdempotent(userInput);
  }

  /** The body of `GET /health`. */
  function Health(): (r: map<string, string>)
    ensures r.Keys == {"status", "model"}
    ensures r["status"] == "healthy" && r["model"] == "DialoGPT-medium"
  {
    map["status" := "healthy", "model" := "DialoGPT-medium"]
  }
}
