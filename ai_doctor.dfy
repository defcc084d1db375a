/**
 * The AI-doctor chat page (frontend/src/app/ai-doctor/page.tsx): the
 * transcript that starts with a welcome message, the send guard, the request
 * built from the transcript, the reply appended when the call settles, the
 * offline fallback answers and the Enter-key handling.
 *
 * The awaited fetch splits handleSendMessage in two: `BeginSend` does what
 * happens before the await and returns the request (or nothing when the guard
 * stops the send); `Settle` does what happens once the call has answered or
 * failed. Message ids, which the page takes from the clock, are parameters.
 */
module AiDoctor {
  import opened Wrappers
  import opened Text

  datatype Role = User | Assistant {
    function Name(): string {
      match this
      case User => "user"
      case Assistant => "assistant"
    }
  }

  datatype ChatMessage = ChatMessage(id: string, role: Role, content: string)

  /** One history entry of the consult request body. */
  datatype HistoryItem = HistoryItem(role: string, content: string)

  datatype ConsultRequest = ConsultRequest(message: string, history: seq<HistoryItem>)

  /** How the consult call ended: a JSON body whose `response` field may be absent, or any failure. */
  datatype CallOutcome = Replied(response: Option<string>) | Failed

  /** The content of the welcome message. */
  const WelcomeTextHeading: string := "# 👨‍⚕️ Welcome to AI Doctor Consultation\n"
  const WelcomeTextBody: string :=
    "\n"
    + "I'm your AI medical assistant. I can help you with:\n"
    + "\n"
    + "- **Symptom Analysis** - Understand what your symptoms might indicate\n"
    + "- **Health Guidance** - Get general health information and tips\n"
    + "- **Medication Information** - Learn about common medications and their uses\n"
    + "- **First Aid Advice** - Basic first aid guidance for common situations\n"
    + "\n"
    + "### How can I help you today?\n"
    + "\n"
    + "Please describe your symptoms or health concerns, and I'll do my best to provide helpful information.\n"
    + "\n"
    + "---\n"
    + "*⚠️ Disclaimer: I am an AI assistant, not a doctor. My responses are for informational purposes only and do not constitute medical advice. For serious conditions, please consult a healthcare professional.*"
  const WelcomeText: string := WelcomeTextHeading + WelcomeTextBody

  const WelcomeId: string := "welcome"
  const Welcome: ChatMessage := ChatMessage(WelcomeId, Assistant, WelcomeText)

  const ApologyText: string := "I apologize, but I couldn't generate a response. Please try again."

  /** The offline answer for a message about fever. */
  const FeverTemplateHeading: string := "## 🔥 关于发热\n"
  const FeverTemplateBody: string :=
    "\n"
    + "根据您描述的情况（小朋友高喊、喉咙痛、眼睛分泌物多），可能的原因包括：\n"
    + "\n"
    + "### 可能的诊断\n"
    + "1. **病毒性上呼吸道感染** - 最常见\n"
    + "2. **细菌性感染** - 如链球菌性咽喉炎\n"
    + "3. **流感** - 如果伴有全身症状\n"
    + "4. **腺病毒感染** - 可引起结膜炎（眼睛分泌物）\n"
    + "\n"
    + "### 建议的处理方法\n"
    + "\n"
    + "#### 缓解症状\n"
    + "- **退烧药**：\n"
    + "  - 对乙酰氨基酚（泰诺林）- 每4-6小时一次\n"
    + "  - 布洛芬（美林）- 每6-8小时一次\n"
    + "  - ⚠️ 按体重计算剂量，不要过量\n"
    + "\n"
    + "- **喉咙痛缓解**：\n"
    + "  - 温盐水漱口\n"
    + "  - 喝温凉的液体\n"
    + "  - 吃冰淇淋或冰棒（可以缓解喉咙痛）\n"
    + "\n"
    + "- **眼睛护理**：\n"
    + "  - 用温湿棉球轻轻擦拭分泌物\n"
    + "  - 避免揉眼睛\n"
    + "\n"
    + "#### 需要立即就医的情况 ⚠️\n"
    + "- 体温超过39.4°C且持续不退\n"
    + "- 呼吸困难或呼吸急促\n"
    + "- 剧烈头痛或颈部僵硬\n"
    + "- 皮疹出现\n"
    + "- 精神状态改变或极度嗜睡\n"
    + "- 持续呕吐或腹泻导致脱水\n"
    + "\n"
    + "### 预防措施\n"
    + "- 充分休息\n"
    + "- 多喝水\n"
    + "- 保持手部卫生\n"
    + "\n"
    + "---\n"
    + "*⚠️ 如果症状持续或加重，请立即就医。这些建议不能替代专业医疗诊断。*"
  const FeverTemplate: string := FeverTemplateHeading + FeverTemplateBody

  /** The offline answer for any other message. */
  const GeneralTemplateHeading: string := "## 🏥 您的健康咨询\n"
  const GeneralTemplateBody: string :=
    "\n"
    + "感谢您的咨询。关于您描述的症状：\n"
    + "\n"
    + "### 初步评估\n"
    + "您的症状需要认真对待。我建议您：\n"
    + "\n"
    + "1. **观察症状** - 记录症状的变化和持续时间\n"
    + "2. **测量体温** - 定期监测体温变化\n"
    + "3. **休息和补水** - 确保充足的休息和水分摄入\n"
    + "\n"
    + "### 一般建议\n"
    + "- 保持良好的休息\n"
    + "- 多喝水或电解质饮料\n"
    + "- 监测症状变化\n"
    + "\n"
    + "### ⚠️ 需要立即就医的情况\n"
    + "- 呼吸困难\n"
    + "- 持续高烧不退\n"
    + "- 剧烈疼痛\n"
    + "- 意识模糊或精神状态改变\n"
    + "\n"
    + "### 下一步\n"
    + "建议您尽快联系您的家庭医生或前往医院就诊。如果症状严重或持续恶化，请立即就医。\n"
    + "\n"
    + "---\n"
    + "*⚠️ 免责声明：我是一个AI助手，不是医生。以上信息仅供参考，不能替代专业医疗诊断。如需医疗建议，请咨询合格的医疗专业人士。*\n"
    + "\n"
    + "如需更具体的建议，请提供更多详细信息：\n"
    + "- 具体症状及持续时间\n"
    + "- 年龄和基本健康状况\n"
    + "- 已采取的措施和效果"
  const GeneralTemplate: string := GeneralTemplateHeading + GeneralTemplateBody

  /** The request body's history: the transcript without its first (welcome) message. */
  function HistoryOf(messages: seq<ChatMessage>): (h: seq<HistoryItem>)
    ensures messages == [] ==> h == []
    ensures messages != [] ==> |h| == |messages| - 1
    ensures forall i :: 0 <= i < |h| ==> h[i] == HistoryItem(messages[i + 1].role.Name(), messages[i + 1].content)
  {
    if messages == [] then []
    else seq(|messages| - 1, i requires 0 <= i < |messages| - 1 => HistoryItem(messages[i + 1].role.Name(), messages[i + 1].content))
  }

  predicate MentionsFever(userInput: string) {
    var lower := LowerAscii(userInput);
    Contains(lower, "发烧") || Contains(lower, "fever") || Contains(lower, "发热")
  }

  lemma HeadingsDecide(h1: string, b1: string, h2: string, b2: string, k: nat)
    requires k < |h1| && k < |h2| && h1[k] != h2[k]
    ensures h1 + b1 != h2 + b2
  {
    assert (h1 + b1)[k] == h1[k] && (h2 + b2)[k] == h2[k];
  }

  lemma TemplatesDiffer()
    ensures FeverTemplate != GeneralTemplate
  {
    HeadingsDecide(FeverTemplateHeading, FeverTemplateBody, GeneralTemplateHeading, GeneralTemplateBody, 3);
  }

  /** generateFallbackResponse. */
  function FallbackResponse(userInput: string): (r: string)
    ensures r != ""
  {
    assert |FeverTemplateHeading| > 0 && |GeneralTemplateHeading| > 0;
    if MentionsFever(userInput) then FeverTemplate else GeneralTemplate
  }

  /** The fever answer is given exactly when the lower-cased input mentions fever, the general one otherwise. */
  lemma FallbackCases(userInput: string)
    ensures FallbackResponse(userInput) == FeverTemplate <==> MentionsFever(userInput)
    ensures FallbackResponse(userInput) == GeneralTemplate <==> !MentionsFever(userInput)
    ensures FallbackResponse(userInput) != ""
  {
    TemplatesDiffer();
    if MentionsFever(userInput) {
      assert |FeverTemplateHeading| > 0;
    } else {
      assert |GeneralTemplateHeading| > 0;
    }
  }

  /** The content of the assistant message appended when the call settles. */
  function ReplyText(outcome: CallOutcome, userInput: string): (r: string)
    ensures r != ""
  {
    match outcome
    case Replied(response) => if response.Some? && response.value != "" then response.value else ApologyText
    case Failed => FallbackResponse(userInput)
  }

  /** A non-empty reply is shown as sent; an absent or empty one becomes the apology; a failure, the fallback answer (see FallbackCases). */
  lemma ReplyTextCases(outcome: CallOutcome, userInput: string)
    ensures outcome.Replied? && outcome.response.Some? && outcome.response.value != "" ==>
      ReplyText(outcome, userInput) == outcome.response.value
    ensures outcome.Replied? && (outcome.response.None? || outcome.response.value == "") ==>
      ReplyText(outcome, userInput) == ApologyText
    ensures outcome.Failed? ==> ReplyText(outcome, userInput) == FallbackResponse(userInput)
  {
  }

  /** The appended reply is never empty. */
  lemma ReplyTextNonEmpty(outcome: CallOutcome, userInput: string)
    ensures ReplyText(outcome, userInput) != ""
  {
    match outcome {
      case Failed => FallbackCases(userInput);
      case Replied(_) =>
    }
  }

  /** An upper-case "FEVER" is recognised too, since the input is lower-cased first. */
  lemma UpperCaseFeverRecognised()
    ensures MentionsFever("FEVER")
  {
    assert LowerAscii("FEVER") == "fever";
    assert OccursAt("fever", "fever", 0);
    ContainsIff("fever", "fever");
  }

  /** handleKeyPress's test: Enter without Shift. */
  predicate ShouldSend(key: string, shiftKey: bool) {
    key == "Enter" && !shiftKey
  }

  /** The send guard: an input that is blank after trim(), or a reply still pending, stops the send. */
  predicate SendBlocked(userInput: string, isLoading: bool) {
    JsTrim(userInput) == "" || isLoading
  }

  class AiDoctorPage {
    var messages: seq<ChatMessage>
    var input: string
    var isLoading: bool

    /** The transcript always opens with the assistant's welcome message. */
    ghost predicate Valid()
      reads this
    {
      |messages| >= 1 && messages[0].id == WelcomeId && messages[0].role == Assistant
    }

    constructor ()
      ensures messages == [Welcome] && input == "" && !isLoading
      ensures Valid()
    {
      messages := [Welcome];
      input := "";
      isLoading := false;
    }

    /** handleSendMessage up to the await. */
    method BeginSend(userId: string) returns (request: Option<ConsultRequest>)
      requires Valid()
      modifies this
      ensures Valid()
      ensures SendBlocked(old(input), old(isLoading)) ==> request.None? && unchanged(this)
      ensures !SendBlocked(old(input), old(isLoading)) ==>
        && request == Some(ConsultRequest(old(input), HistoryOf(old(messages))))
        && messages == old(messages) + [ChatMessage(userId, User, old(input))]
        && input == "" && isLoading
    {
      if JsTrim(input) == "" || isLoading {
        return None;
      }
      var userMessage := ChatMessage(userId, User, input);
      request := Some(ConsultRequest(input, HistoryOf(messages)));
      messages := messages + [userMessage];
      input := "";
      isLoading := true;
    }

    /** handleSendMessage after the await: one assistant message is appended and loading ends. */
    method Settle(request: ConsultRequest, outcome: CallOutcome, replyId: string)
      requires Valid()
      modifies this
      ensures Valid()
      ensures messages == old(messages) + [ChatMessage(replyId, Assistant, ReplyText(outcome, request.message))]
      ensures input == old(input) && !isLoading
    {
      var content;
      match outcome {
        case Replied(response) =>
          content := if response.Some? && response.value != "" then response.value else ApologyText;
        case Failed =>
          content := FallbackResponse(request.message);
      }
      assert content == ReplyText(outcome, request.message);
      messages := messages + [ChatMessage(replyId, Assistant, content)];
      isLoading := false;
    }

    /** handleKeyPress. */
    method KeyPress(key: string, shiftKey: bool, userId: string) returns (request: Option<ConsultRequest>)
      requires Valid()
      modifies this
      ensures Valid()
      ensures !ShouldSend(key, shiftKey) ==> request.None? && unchanged(this)
      ensures ShouldSend(key, shiftKey) && SendBlocked(old(input), old(isLoading)) ==> request.None? && unchanged(this)
      ensures ShouldSend(key, shiftKey) && !SendBlocked(old(input), old(isLoading)) ==>
        && request == Some(ConsultRequest(old(input), HistoryOf(old(messages))))
        && messages == old(messages) + [ChatMessage(userId, User, old(input))]
        && input == "" && isLoading
    {
      if key == "Enter" && !shiftKey {
        request := BeginSend(userId);
      } else {
        request := None;
      }
    }
  }
}
