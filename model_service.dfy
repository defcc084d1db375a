/**
 * The model service's readiness test and its chat-response generation
 * (backend/app/services/model_service.py): a conversation is flattened into
 * one prompt, the model is called, and the answer is cleaned of an echoed
 * prompt and of anything after a role marker.
 *
 * The model call `_gen` is the parameter `gen`: it returns the generated text,
 * or the message of the exception it raised.
 */
module ModelService {
  import opened Wrappers
  import opened Text

  datatype Message = Message(role: string, content: string)

  const SynthesizerMissing: string := "Synthesizer model not loaded"
  const Apology: string := "I apologize, but " + "I couldn't generate " + "a response. " + "Please try again."
  const StopPhrases: seq<string> := ["Assistant:", "User:", "System:", "<end_of_turn>"]

  /** The content of the last message with role "system", or "" when there is none. */
  function SystemPromptOf(conv: seq<Message>): string {
    if conv == [] then ""
    else if conv[|conv| - 1].role == "system" then conv[|conv| - 1].content
    else SystemPromptOf(conv[..|conv| - 1])
  }

  /** What one message contributes to the kept messages. */
  function KeptOf(m: Message): seq<string> {
    if m.role == "system" then []
    else if m.role == "user" then [m.content]
    else if m.role == "assistant" then ["Assistant: " + m.content]
    else []
  }

  function FlatMap<A, B>(s: seq<A>, f: A -> seq<B>): seq<B> {
    if s == [] then [] else FlatMap(s[..|s| - 1], f) + f(s[|s| - 1])
  }

  lemma {:induction false} FlatMapConcat<A, B>(a: seq<A>, b: seq<A>, f: A -> seq<B>)
    ensures FlatMap(a + b, f) == FlatMap(a, f) + FlatMap(b, f)
  {
    if b == [] {
      assert a + b == a;
    } else {
      var bi, last := b[..|b| - 1], b[|b| - 1];
      FlatMapConcat(a, bi, f);
      var ab := a + b;
      assert ab[..|ab| - 1] == a + bi;
      assert ab[|ab| - 1] == last;
      assert FlatMap(ab, f) == FlatMap(a + bi, f) + f(last);
      assert FlatMap(b, f) == FlatMap(bi, f) + f(last);
    }
  }

  /** The user and assistant messages, in order, assistant ones prefixed. */
  function Kept(conv: seq<Message>): seq<string> {
    FlatMap(conv, KeptOf)
  }

  function LastOr(s: seq<string>, default: string): string {
    if s == [] then default else s[|s| - 1]
  }

  /** The single prompt the conversation is flattened into. */
  function FullPrompt(conv: seq<Message>): (r: string)
    ensures var latest := LastOr(Kept(conv), ""); |latest| <= |r| && r[|r| - |latest|..] == latest
  {
    var system := SystemPromptOf(conv);
    var latest := LastOr(Kept(conv), "");
    if system != "" then system + "\n\n" + latest else latest
  }

  /** Removal of an echoed prompt: `response.replace(p, "").strip()` when `p` occurs. */
  function StripEcho(response: string, prompt: string): (r: string)
  {
    var p := PyStrip(prompt);
    if Contains(response, p) then PyStrip(RemoveAll(response, p)) else response
  }

  /** `response.split(p)[0].strip()` when `p` occurs. */
  function Cut(response: string, p: string): string
    requires p != []
  {
    if Contains(response, p) then PyStrip(Before(response, p)) else response
  }

  /** The cuts at each phrase of `ps`, in order. */
  function CutAll(response: string, ps: seq<string>): string
    requires forall k :: 0 <= k < |ps| ==> ps[k] != []
  {
    if ps == [] then response else Cut(CutAll(response, ps[..|ps| - 1]), ps[|ps| - 1])
  }

  /** The cleaned answer for a raw generation. */
  function Cleaned(response: string, prompt: string): (r: string)
    ensures r != ""
  {
    var c := CutAll(StripEcho(response, prompt), StopPhrases);
    if c == "" then Apology else c
  }

  /** The outcome of a generation for a service whose synthesizer is loaded. */
  function Generated(conv: seq<Message>, gen: string -> Result<string, string>): (r: Result<string, string>)
    ensures r.Ok? <==> gen(FullPrompt(conv)).Ok?
    ensures r.Ok? ==> r.value != ""
  {
    match gen(FullPrompt(conv))
    case Err(m) => Err("Failed to generate response: " + m)
    case Ok(response) => Ok(Cleaned(response, FullPrompt(conv)))
  }

  /** The loop of _generate_response that collects the system prompt and the kept messages. */
  method FlattenConversation(conversation: seq<Message>) returns (systemPrompt: string, userMessages: seq<string>)
    ensures systemPrompt == SystemPromptOf(conversation)
    ensures userMessages == Kept(conversation)
  {
    systemPrompt := "";
    userMessages := [];
    for i := 0 to |conversation|
      invariant systemPrompt == SystemPromptOf(conversation[..i])
      invariant userMessages == Kept(conversation[..i])
    {
      assert conversation[..i + 1][..i] == conversation[..i];
      var msg := conversation[i];
      if msg.role == "system" {
        systemPrompt := msg.content;
      } else if msg.role == "user" {
        userMessages := userMessages + [msg.content];
      } else if msg.role == "assistant" {
        userMessages := userMessages + ["Assistant: " + msg.content];
      }
    }
    assert conversation[..|conversation|] == conversation;
  }

  /** The stop-phrase loop of _generate_response. */
  method CutStopPhrases(response: string) returns (r: string)
    ensures r == CutAll(response, StopPhrases)
  {
    r := response;
    for i := 0 to |StopPhrases|
      invariant r == CutAll(response, StopPhrases[..i])
    {
      assert StopPhrases[..i + 1][..i] == StopPhrases[..i];
      var stop := StopPhrases[i];
      if Contains(r, stop) {
        r := PyStrip(Before(r, stop));
      }
    }
    assert StopPhrases[..|StopPhrases|] == StopPhrases;
  }

  /** The loaded models, as far as the code tests them. */
  class Service {
    var extractorLoaded: bool
    var synthesizerLoaded: bool
    var imageAnalyzerLoaded: bool

    constructor (extractor: bool, synthesizer: bool, imageAnalyzer: bool)
      ensures extractorLoaded == extractor && synthesizerLoaded == synthesizer && imageAnalyzerLoaded == imageAnalyzer
    {
      extractorLoaded, synthesizerLoaded, imageAnalyzerLoaded := extractor, synthesizer, imageAnalyzer;
    }

    /** is_loaded: all three models are present. */
    predicate IsLoaded()
      reads this
    {
      extractorLoaded && synthesizerLoaded && imageAnalyzerLoaded
    }

    /** _generate_response. */
    method GenerateResponse(conversation: seq<Message>, gen: string -> Result<string, string>)
      returns (r: Result<string, string>)
      ensures !synthesizerLoaded ==> r == Err(SynthesizerMissing)
      ensures synthesizerLoaded ==> r == Generated(conversation, gen)
    {
      if !synthesizerLoaded {
        return Err(SynthesizerMissing);
      }
      var systemPrompt, userMessages := FlattenConversation(conversation);
      var fullPrompt;
      if systemPrompt != "" {
        var latest := if userMessages != [] then userMessages[|userMessages| - 1] else "";
        fullPrompt := systemPrompt + "\n\n" + latest;
      } else {
        fullPrompt := if userMessages != [] then userMessages[|userMessages| - 1] else "";
      }
      assert fullPrompt == FullPrompt(conversation);
      var g := gen(fullPrompt);
      if g.Err? {
        return Err("Failed to generate response: " + g.error);
      }
      var response := g.value;
      var p := PyStrip(fullPrompt);
      if Contains(response, p) {
        response := PyStrip(RemoveAll(response, p));
      }
      assert response == StripEcho(g.value, fullPrompt);
      response := CutStopPhrases(response);
      r := Ok(if response != "" then response else Apology);
    }
  }

  /** The system prompt is the content of the last system message; without one it is "". */
  lemma {:induction false} SystemPromptIsLast(conv: seq<Message>)
    ensures (forall i :: 0 <= i < |conv| ==> conv[i].role != "system") ==> SystemPromptOf(conv) == ""
    ensures forall i ::
      (0 <= i < |conv| && conv[i].role == "system" && (forall j :: i < j < |conv| ==> conv[j].role != "system"))
      ==> SystemPromptOf(conv) == conv[i].content
  {
    if conv != [] {
      var init := conv[..|conv| - 1];
      SystemPromptIsLast(init);
      assert forall i :: 0 <= i < |init| ==> init[i] == conv[i];
    }
  }

  /** Kept messages follow conversation order: flattening distributes over concatenation. */
  lemma KeptConcat(a: seq<Message>, b: seq<Message>)
    ensures Kept(a + b) == Kept(a) + Kept(b)
  {
    FlatMapConcat(a, b, KeptOf);
  }

  lemma KeptSingle(m: Message)
    ensures Kept([m]) == KeptOf(m)
  {
    assert [m][..0] == [];
    assert FlatMap([m], KeptOf) == FlatMap([m][..0], KeptOf) + KeptOf(m);
  }

  /** The flattened prompt in its three cases. */
  lemma FullPromptCases(conv: seq<Message>)
    ensures SystemPromptOf(conv) != "" && Kept(conv) != [] ==>
      FullPrompt(conv) == SystemPromptOf(conv) + "\n\n" + Kept(conv)[|Kept(conv)| - 1]
    ensures SystemPromptOf(conv) != "" && Kept(conv) == [] ==> FullPrompt(conv) == SystemPromptOf(conv) + "\n\n"
    ensures SystemPromptOf(conv) == "" ==> FullPrompt(conv) == LastOr(Kept(conv), "")
    ensures conv == [] ==> FullPrompt(conv) == ""
  {
  }

  /** A conversation that ends with a user message yields a prompt that ends with that message. */
  lemma PromptEndsWithLatest(conv: seq<Message>, m: Message)
    requires m.role == "user"
    ensures var p := FullPrompt(conv + [m]);
      |m.content| <= |p| && p[|p| - |m.content|..] == m.content
  {
    KeptConcat(conv, [m]);
    KeptSingle(m);
    var c := conv + [m];
    assert c[..|c| - 1] == conv;
    assert Kept(c)[|Kept(c)| - 1] == m.content;
  }

  lemma InfixContains(s: string, i: nat, j: nat, q: string)
    requires i <= j <= |s|
    ensures Contains(s[i..j], q) ==> Contains(s, q)
  {
    assert s == s[..i] + s[i..j] + s[j..];
    ContainsInfix(s[..i], s[i..j], s[j..], q);
  }

  /** Stripping never brings in an occurrence that was not there. */
  lemma StripKeepsAbsence(s: string, q: string)
    ensures Contains(PyStrip(s), q) ==> Contains(s, q)
  {
    var i := StripInfix(s, PyIsSpace);
    var t := Strip(s, PyIsSpace);
    assert t == s[i..i + |t|];
    InfixContains(s, i, i + |t|, q);
  }

  /** One cut leaves no occurrence of its phrase and brings in no new occurrence of any other. */
  lemma CutProps(response: string, p: string, q: string)
    requires p != []
    ensures !Contains(Cut(response, p), p)
    ensures Contains(Cut(response, p), q) ==> Contains(response, q)
  {
    if Contains(response, p) {
      var b := Before(response, p);
      StripKeepsAbsence(b, p);
      StripKeepsAbsence(b, q);
      InfixContains(response, 0, |b|, q);
    }
  }

  /** After all the cuts, none of the phrases occurs. */
  lemma {:induction false} CutAllFree(response: string, ps: seq<string>)
    requires forall k :: 0 <= k < |ps| ==> ps[k] != []
    ensures forall k :: 0 <= k < |ps| ==> !Contains(CutAll(response, ps), ps[k])
  {
    if ps != [] {
      var init := ps[..|ps| - 1];
      CutAllFree(response, init);
      var last := ps[|ps| - 1];
      forall k | 0 <= k < |ps| ensures !Contains(CutAll(response, ps), ps[k]) {
        CutProps(CutAll(response, init), last, ps[k]);
        if k < |ps| - 1 {
          assert init[k] == ps[k];
        }
      }
    }
  }

  /** A needle holding a character the text lacks does not occur in it. */
  lemma AbsentChar(text: string, needle: string, k: nat)
    requires k < |needle| && forall i :: 0 <= i < |text| ==> text[i] != needle[k]
    ensures !Contains(text, needle)
  {
    forall i: nat ensures !OccursAt(text, needle, i) {
      if i + |needle| <= |text| {
        assert text[i..i + |needle|][k] == text[i + k];
      }
    }
    ContainsIff(text, needle);
  }

  predicate NoColonNorAngle(s: string) {
    forall i :: 0 <= i < |s| ==> s[i] != ':' && s[i] != '<'
  }

  lemma NoColonNorAngleConcat(a: string, b: string)
    requires NoColonNorAngle(a) && NoColonNorAngle(b)
    ensures NoColonNorAngle(a + b)
  {
    assert forall i :: 0 <= i < |a + b| ==> (a + b)[i] == if i < |a| then a[i] else b[i - |a|];
  }

  lemma ApologyHasNoStopPhrase()
    ensures forall k :: 0 <= k < |StopPhrases| ==> !Contains(Apology, StopPhrases[k])
  {
    var a, b, c, d := "I apologize, but ", "I couldn't generate ", "a response. ", "Please try again.";
    assert NoColonNorAngle(a) && NoColonNorAngle(b) && NoColonNorAngle(c) && NoColonNorAngle(d);
    NoColonNorAngleConcat(a, b);
    NoColonNorAngleConcat(a + b, c);
    NoColonNorAngleConcat(a + b + c, d);
    AbsentChar(Apology, "Assistant:", 9);
    AbsentChar(Apology, "User:", 4);
    AbsentChar(Apology, "System:", 6);
    AbsentChar(Apology, "<end_of_turn>", 0);
  }

  lemma {:induction false} CutAllEmpty(ps: seq<string>)
    requires forall k :: 0 <= k < |ps| ==> ps[k] != []
    ensures CutAll([], ps) == []
  {
    if ps != [] {
      CutAllEmpty(ps[..|ps| - 1]);
      assert FindFrom([], ps[|ps| - 1], 0) == -1;
    }
  }

  /** A cleaned answer is never empty and contains none of the stop phrases. */
  lemma CleanedProps(response: string, prompt: string)
    ensures Cleaned(response, prompt) != ""
    ensures forall k :: 0 <= k < |StopPhrases| ==> !Contains(Cleaned(response, prompt), StopPhrases[k])
  {
    CutAllFree(StripEcho(response, prompt), StopPhrases);
    ApologyHasNoStopPhrase();
  }

  /** An answer that the echo removal empties comes back as the apology. */
  lemma EmptiedIsApology(response: string, prompt: string)
    requires StripEcho(response, prompt) == []
    ensures Cleaned(response, prompt) == Apology
  {
    var e := StripEcho(response, prompt);
    CutAllEmpty(StopPhrases);
    var c := CutAll(e, StopPhrases);
    assert c == [];
    assert Cleaned(response, prompt) == if c == "" then Apology else c;
  }

  /** A generation that is only the echoed (stripped) prompt is emptied, and so comes back as the apology. */
  lemma EchoOnlyIsApology(p: string, prompt: string)
    requires p == PyStrip(prompt)
    ensures StripEcho(p, prompt) == []
    ensures Cleaned(p, prompt) == Apology
  {
    assert OccursAt(p, p, 0);
    ContainsIff(p, p);
    if p != [] {
      assert p[|p|..] == [];
      assert RemoveAll(p, p) == RemoveAll([], p);
    }
    assert StripEcho(p, prompt) == PyStrip(RemoveAll(p, p));
    EmptiedIsApology(p, prompt);
  }
}
