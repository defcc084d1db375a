/**
 * The AI-doctor consultation endpoint (backend/app/api/v1/chat.py): the
 * conversation handed to the model is the fixed system prompt, the client's
 * history with its roles as sent, and the current message; model errors are
 * mapped to HTTP errors.
 */
module Chat {
  import opened Wrappers
  import opened Text
  import opened Http
  import opened ModelService

  /** The fixed system prompt, character for character as the source holds it (including its mis-decoded dash). */
  const SystemPrompt: string :=
    "You are a Home Health Information Assistant (not a doctor).\n"
    + "\n"
    + "Provide general health education and medication safety information only.\n"
    + "\n"
    + "Rules:\n"
    + "- Do NOT diagnose.\n"
    + "- Do NOT prescribe.\n"
    + "- Do NOT give specific dose amounts.\n"
    + "- If information is insufficient, ask up to 3 short safety questions.\n"
    + "- If red flags appear, advise urgent medical care.\n"
    + "\n"
    + "Red flags:\n"
    + "- Trouble breathing, chest pain, confusion, seizure\n"
    + "- Severe allergic reaction\n"
    + "- Black stool or vomiting blood\n"
    + "- Suspected overdose\n"
    + "- High fever >3 days\n"
    + "- Infant, pregnancy, serious liver/kidney disease\n"
    + "\n"
    + "Medication guidance:\n"
    + "- Always read medication labels and warnings carefully.\n"
    + "- For medication questions, explain general safety principles.\n"
    + "- If asked about combining drugs, advise consulting a pharmacist or doctor.\n"
    + "\n"
    + "Response format:\n"
    + "1) Summary (1\U{E2}\U{20AC}\U{201C}2 sentences)\n"
    + "2) Key points\n"
    + "3) When to seek care\n"
    + "4) Brief follow-up questions (if needed)\n"
    + "\n"
    + "IMPORTANT: Always respond in English unless the user explicitly uses another language."

  const SystemMessage: Message := Message("system", SystemPrompt)

  const NotLoaded: HttpError := HttpError(503, "AI models are not loaded. Please try again later.")
  const EmptyResponse: HttpError := HttpError(500, "Failed to generate AI response")

  function ConsultationError(message: string): HttpError {
    HttpError(500, "Error processing consultation: " + message)
  }

  datatype ChatResponse = ChatResponse(response: string, timestamp: string)

  /** The conversation list built before the model call. */
  method BuildConversation(history: seq<Message>, message: string) returns (conversation: seq<Message>)
    ensures |conversation| == |history| + 2
    ensures conversation[0] == SystemMessage
    ensures conversation[1..|conversation| - 1] == history
    ensures conversation[|conversation| - 1] == Message("user", message)
  {
    conversation := [SystemMessage];
    for i := 0 to |history|
      invariant conversation == [SystemMessage] + history[..i]
    {
      conversation := conversation + [Message(history[i].role, history[i].content)];
      assert history[..i + 1] == history[..i] + [history[i]];
    }
    assert history[..|history|] == history;
    conversation := conversation + [Message("user", message)];
  }

  /** How the endpoint answers once the models are loaded, for what `_generate_response` returned or raised. */
  function Outcome(generated: Result<string, string>, timestamp: string): (r: Result<ChatResponse, HttpError>)
    ensures r.Ok? <==> generated.Ok? && generated.value != ""
    ensures r.Ok? ==> r.value.response == generated.value && r.value.timestamp == timestamp
  {
    match generated
    case Err(m) => Err(ConsultationError(m))
    case Ok(response) => if response == "" then Err(EmptyResponse) else Ok(ChatResponse(response, timestamp))
  }

  /** chat_consult; the clock reading is the parameter `timestamp`. */
  method ChatConsult(service: Service, message: string, history: seq<Message>,
                     gen: string -> Result<string, string>, timestamp: string)
    returns (r: Result<ChatResponse, HttpError>)
    ensures !service.IsLoaded() ==> r == Err(NotLoaded)
    ensures service.IsLoaded() ==> exists conv ::
      |conv| == |history| + 2 && conv[0] == SystemMessage && conv[1..|conv| - 1] == history
      && conv[|conv| - 1] == Message("user", message) && r == Outcome(Generated(conv, gen), timestamp)
  {
    if !service.IsLoaded() {
      return Err(NotLoaded);
    }
    var conversation := BuildConversation(history, message);
    var response := service.GenerateResponse(conversation, gen);
    if response.Err? {
      r := Err(ConsultationError(response.error));
    } else if response.value == "" {
      r := Err(EmptyResponse);
    } else {
      r := Ok(ChatResponse(response.value, timestamp));
    }
    assert r == Outcome(Generated(conversation, gen), timestamp);
  }

  lemma ConversationSplit(conv: seq<Message>, history: seq<Message>, message: string)
    requires |conv| == |history| + 2 && conv[0] == SystemMessage && conv[1..|conv| - 1] == history
    requires conv[|conv| - 1] == Message("user", message)
    ensures conv == [SystemMessage] + history + [Message("user", message)]
  {
  }

  /** Whatever the history holds, the prompt the model sees ends with the current message. */
  lemma PromptEndsWithMessage(conv: seq<Message>, history: seq<Message>, message: string)
    requires |conv| == |history| + 2 && conv[0] == SystemMessage && conv[1..|conv| - 1] == history
    requires conv[|conv| - 1] == Message("user", message)
    ensures var p := FullPrompt(conv);
      |message| <= |p| && p[|p| - |message|..] == message
  {
    ConversationSplit(conv, history, message);
    PromptEndsWithLatest([SystemMessage] + history, Message("user", message));
  }

  /**
   * With the models loaded, the 500 "Failed to generate AI response" is never
   * produced: the cleaned answer is never empty. Errors raised by the model call
   * come back as a 500 whose detail carries their message.
   */
  lemma ConsultOutcomes(conv: seq<Message>, gen: string -> Result<string, string>, timestamp: string)
    ensures Outcome(Generated(conv, gen), timestamp) != Err(EmptyResponse)
    ensures gen(FullPrompt(conv)).Err? ==>
      Outcome(Generated(conv, gen), timestamp) == Err(ConsultationError("Failed to generate response: " + gen(FullPrompt(conv)).error))
    ensures gen(FullPrompt(conv)).Ok? ==> Outcome(Generated(conv, gen), timestamp).Ok?
  {
    match gen(FullPrompt(conv))
    case Err(m) =>
    case Ok(response) => CleanedProps(response, FullPrompt(conv));
  }

  /** A "system" message in the client's history takes the place of the fixed system prompt. */
  lemma HistorySystemMessageWins(system: string, history: seq<Message>, message: string, k: nat)
    requires k < |history| && history[k].role == "system"
    requires forall j :: k < j < |history| ==> history[j].role != "system"
    ensures SystemPromptOf([Message("system", system)] + history + [Message("user", message)]) == history[k].content
  {
    var head := [Message("system", system)] + history;
    var conv := head + [Message("user", message)];
    assert conv[..|conv| - 1] == head;
    assert SystemPromptOf(conv) == SystemPromptOf(head);
    LastSystemIn(head, k + 1);
  }

  lemma LastSystemIn(conv: seq<Message>, i: nat)
    requires i < |conv| && conv[i].role == "system"
    requires forall j :: i < j < |conv| ==> conv[j].role != "system"
    ensures SystemPromptOf(conv) == conv[i].content
  {
    SystemPromptIsLast(conv);
  }
}
